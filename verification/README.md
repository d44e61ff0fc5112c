# A verified model of notlin

notlin moves Kotlin declarations to Java and leaves the rest as Kotlin. It rewrites retained
sources, prints Java, decides file by file what each declaration becomes, and reports why the
rest stayed. This project models the algorithms that must keep meaning, text or ownership, and
proves that they do, or exactly when they do.

The model has five parts.

**Lowering that keeps meaning.** `Kotlin` is a small Kotlin core with an evaluator: locals in store
cells, closures, early exits, exceptions, and a world whose property reads may depend on everything
done before. `SmartCast` recognises the smart-cast shapes and collects reads the way the scan does,
and says when all it collects may be replaced; `SmartCastSites` says which statements are
recognised, by what they look like; `SmartCastCoverage` says when the collected reads are all there
is; `SmartCastSimulation` relates a program to one in which some reads of a stable property became a
local that lives in one more store cell; `SmartCastSteady` and `SmartCastSpent` let the receiver be
assigned once nothing replaced is left to run; `SmartCastReachable` says which states a function can
be in; `SmartCastMeaning`, `SmartCastLocals`, `SmartCastNarrowing` and `SmartCastText` put it
together: behaviour, the chosen name, what the test guards, and the edited text. `CtorDefaults` maps
calls onto parameters, lowers them and plans overloads; `ErasedTypes` says what its signature keys
keep of a type; `DefaultText` and `NeutralLiterals` say what those passes see in the text of a
default; `CtorMeaning` and `CtorLowering` compare the overloads with Kotlin's named and default
arguments, and `CtorCalls` follows a call from its arguments through the constructor it selects to
the parameters delivered.

**Rewriting text.** `Edits` defines what a set of edits means (everything at once) and proves the
cursor pass equal to it; `EditEngines` has the sorting pass and the right-to-left pass; `SpanShift`
carries spans through edits. `Markers` and `Strip` copy what stays, skip what was translated and
annotate it; `StripMeaning` accounts for every byte and `StripWrites` for every blocker that is due;
`MarkerBlocks`, `Reannotate`, `AnnotateTwice` and `CopyTwice` are about running the tool on its own
output; `Tidy` ends with the decision what becomes of the file.

**Java text.** `JavaExpressions` builds expressions with grouping, `JavaGrammar` is a parser after
the productions of the language with every level's operators spelled out, `JavaRoundTrip` reads the
one back with the other, and `JavaText` starts from the text, blanks and all; `JavaStrings` writes
literals and reads them back through both lexical phases; `JavaLossless` builds syntax nodes from a
parse tree and renders them.

**Workspace planning.** `Rounds` and `RoundLoop` are the round loop with its vetoes and outputs,
`OutputTexts` says whose text each output ends up with,
`Retry` the loop around it, `Facade` the merge with an earlier run's file, `PlanMerge` the
aggregate of all rounds' decisions, `Acceptance` and `Coverage` the gate and the report.

**Facts and blame.** `BlameGraph` computes what follows from fixing a reason, `RetentionRoots`
collects root causes over a graph with cycles, `FactCache` is the call-site cache under threads.

Texts are sequences of bytes, one element a byte; only `JavaStrings` works on Unicode scalar
values. Hashes stand for the bytes they were computed from.

## Where the code does less than its comments say

Each of these is a lemma with an input, next to the exact condition under which all is well.

- The smart-cast scan looks through loop variables, caught errors and the silent `it`, and through a
  receiver declared among the statements of a lambda or after an early exit: what it collects there
  is another variable's property (`SmartCastNarrowing.LoopBinderIsMissed`,
  `LambdaRedeclarationIsMissed`, `RedeclaringSiblingIsMissed`). All it collects may be replaced
  exactly if nothing is found below such a binder (`SmartCast.RepairReplaces`,
  `SmartCastMeaning.BlockReplaces`).
- Nor does an assignment of the receiver stop the scan: a read behind it, or one in a lambda that is
  called behind it, becomes the old object's property
  (`SmartCastNarrowing.AssignedReceiverIsMissed`, `EscapedReadIsStale`); `SmartCastSpent.Settled`
  has the condition under which meaning is kept.
- A `val` whose initializer mentions the receiver hides reads in it and behind it
  (`SmartCastCoverage.InitializerHidesReads`); `CollectsAll` has the exact condition.
- A fresh local called `it` is captured by lambdas that bind `it` silently
  (`SmartCastLocals.SilentItCaptures`; `FreeIsUnused` has the condition).
- A name in a template or right behind `..` in a default escapes the scan, and the planned overload
  does not compile (`CtorLowering.TemplateHidesName`, `RangeHidesName`; `PlannedOverloadIsKotlin`
  has the condition). A sum of strings around a name, and a name such as `_1`, pass for literals
  (`NeutralLiterals.StringSumPasses`, `UnderscoreNamePasses`), and inlining the former picks up the
  caller's variable (`CtorCalls.InliningCaptures`); `NeutralIsClosed` says which neutral texts name
  nothing.
- An insertion exactly at the end of a translated span is counted into it
  (`SpanShift.InsertionAtEndIsSwallowed`).
- Code before a block marker, on the line the marker opens on, goes with the marker
  (`StripMeaning.CodeBeforeMarkerIsLost`); `MissingBytes` and `CodeIsKept` say exactly what goes.
  Above annotations an indented marker is written again by every run, behind the indentation of the
  one before (`AnnotateTwice.TabbedCommentGrows`); `CommentSettlesUnindented` has the condition.
- An anchor exactly at a generated comment is not recognised behind another comment
  (`Strip.SecondCommentIsMissed`); `AnchorAtComment` has the condition.
- The comment above an annotated line counts as the comment of the line below the annotations: a new
  marker for that line takes its place, and the first line's is gone
  (`StripWrites.CommentTakenOver`); `DueIsWritten` says that only a later line's block can do that.
- The `>` of a function type among the type arguments closes them in the signature key, so types
  that differ in their arguments alone get different keys and the clash goes unseen
  (`ErasedTypes.ArrowArgumentsDiffer`); `ErasedIsPlain` and `ArrowLeaks` say when the key is right.
- Two rows of the report can claim the same sites, when a name is a seed of both, or a seed of one
  that the other frees (`BlameGraph.SharedNameOverclaims`, `MixedNameOverclaims`); `RowsDisjoint`
  has the condition.
- A strict veto is remembered for good: a file vetoed in one round and translated in a later one
  keeps its Kotlin text beside the Java generated from it (`RoundLoop.VetoOutlivesItsReason`);
  `VetoedKeepsJava` says exactly when.
- An import that comes in behind another break than before is added a second time, and the next
  merge is refused (`Facade.TriviaRefusesNextMerge`, `MergeTwice`); so three facades can go through
  in one order and not in the other (`TriviaMakesOrderMatter`, `OrderIndependent`).
- A slow call for old bytes evicts a newer answer from the cache (`FactCache.SlowCallEvicts`);
  `HitsExactly` says which lookups hit.

## Model

| member | source | states |
|---|---|---|
| SmartCastMeaning.SiteKeepsMeaning | src/smart_cast.rs:353-420 | from every reachable state in which no closure left behind assigns the receiver's variable, with every call budget, a recognised site in statement position and the statements after it log, return and throw the same once the property is read once into the unused local and the collected reads are that local; the property must be stable, what is searched harmless, and the receiver not assigned from the site on, or not before the last collected read, with none of these in a lambda |
| SmartCastMeaning.BlockKeepsMeaning | src/smart_cast.rs:353-420 | the same for all the statements of the block or lambda the site stands in; those before it may assign the receiver, but leave no closure that does |
| SmartCastMeaning.BlockReplaces | src/smart_cast.rs:855-881 | the rewritten site and the statements after it, searched in a block but not in a lambda, differ in allowed replacements only, exactly if the searched parts are harmless and the local is not the receiver |
| SmartCastLocals.FreshLocalKeepsMeaning | src/smart_cast.rs:353-420 | the same for a whole function body called with plain values, where all that is asked of the local is that the identifier scan found the name free; the receiver may be assigned ahead of the site and behind the last collected read |
| SmartCastSteady.SteadySimulates | src/smart_cast.rs:391-419 | code in which no replaced read comes behind an assignment of the receiver, nor is in a lambda, runs as the original does, through blocks, branches and entries |
| SmartCastSpent.BlockIsSteady | src/smart_cast.rs:883-914 | on the syntax: if the receiver is assigned behind the last read the search finds, and no such read is in a lambda, the repaired statements are such code |
| SmartCastLocals.LocalName | src/smart_cast.rs:452-465 | the name is free and is not the receiver's whenever one of the 64 candidates is; only then does the taken set grow, by that name |
| SmartCastLocals.FreeIsUnused | src/smart_cast.rs:467-490 | a name outside the scanned identifiers means nothing in the code, exactly unless it is `it` and some lambda binds that silently |
| SmartCastLocals.SilentItCaptures | src/smart_cast.rs:452-465 | a property called `it` gets the free local `it`, and a lambda's silent parameter captures the read: it logs its argument instead |
| SmartCast.RepairReplaces | src/smart_cast.rs:887-914 | whatever the descent collects is a read of the chain whose receiver still means the same variable, if and only if nothing is found below a binder of the receiver's name it looks through or behind a redeclaration among a lambda's statements |
| SmartCast.RepairEachReplaces | src/smart_cast.rs:864-881 | the same for the siblings after an early exit, searched one by one: if and only if each is harmless and nothing is found behind one that redeclares the receiver |
| SmartCastCoverage.CollectsAll | src/smart_cast.rs:887-951 | the collected reads are all the reads that may be replaced and no others, if and only if the code is harmless and none stands in, or in a block behind, an initializer that mentions the receiver |
| SmartCastCoverage.FullIsLargest | src/smart_cast.rs:883-914 | replacing all of them is allowed, and every other allowed replacement is on the way to it |
| SmartCastCoverage.InitializerHidesReads | src/smart_cast.rs:919-951 | a read behind a `val` whose initializer mentions the receiver is not collected, though it may be replaced |
| SmartCastSites.SitesAre | src/smart_cast.rs:510-708 | a statement is a candidate for a chain and a shape if and only if it tests that chain: an `if` on a positive test, or on a negative one with an `else` or a branch that ends in an exit, a conjunction whose first operand is a positive test, a `when` on the chain with a type test in some entry, or one without a subject whose first entry tests it; it is a site without a repair if and only if it has the shape otherwise |
| SmartCastSites.NarrowedReadIsCandidate | src/smart_cast.rs:597-640 | a `when` on a property with a read of it in the branch of any type-test entry is a candidate for that property |
| SmartCastSites.RestChanges | src/smart_cast.rs:855-881 | the statements ahead of a site stay as they are; those behind it change if and only if the site is a negative test without `else`, in a block, with something to replace in one of them |
| SmartCastSites.DeclaresIs | src/smart_cast.rs:919-951 | the search ends at a declaration if and only if its name or some node in its initializer, however deep, spells the receiver, and at a lambda if and only if its written parameter does |
| SmartCastMeaning.SiteReplaces | src/smart_cast.rs:510-708 | for each of the five shapes the rewritten statement differs from the original in replaced reads only, if and only if the searched parts are harmless |
| SmartCastMeaning.FirstRead | src/smart_cast.rs:555-590 | where reading the chain fails, the original statement fails the same way: the hoisted read was its first step |
| SmartCastNarrowing.ExitsNeverFallThrough | src/smart_cast.rs:843-854 | a branch recognised as always exiting never completes normally |
| SmartCastNarrowing.EarlyExitNarrows | src/smart_cast.rs:510-554 | whenever control gets past a repaired `!is` test without `else`, the local is an instance of the tested type and nothing has changed since |
| SmartCastNarrowing.LoopBinderIsMissed | src/smart_cast.rs:887-914 | a repaired loop over a variable of the receiver's name logs another value than the original |
| SmartCastNarrowing.RedeclaringSiblingIsMissed | src/smart_cast.rs:864-881 | behind an early exit and a redeclared receiver the repaired block logs the old object's property |
| SmartCastNarrowing.LambdaRedeclarationIsMissed | src/smart_cast.rs:900-913 | a lambda that declares a receiver of its own logs the outer object's property after the repair |
| SmartCastNarrowing.AssignedReceiverIsMissed | src/smart_cast.rs:887-914 | a branch that assigns the receiver and then logs the property logs the old object's after the repair |
| SmartCastNarrowing.EscapedReadIsStale | src/smart_cast.rs:887-914 | so does a lambda that took a collected read along and is called after the receiver was assigned |
| SmartCastText.RepairPrints | src/smart_cast.rs:391-419 | the binding line and the replacements at the collected byte ranges are in order, and made on the block's text by either edit engine they give the text of the repaired block |
| SmartCastText.RangesGlue | src/smart_cast.rs:887-914 | the collected ranges cut the node's text so that renaming them prints the repaired node |
| Edits.SpliceIsSimultaneous | src/smart_cast.rs:434-446 | on ordered edits the left-to-right cursor pass is the substitution of all edits at once |
| EditEngines.ApplyEdits | src/smart_cast.rs:431-447 | on arbitrary edits the pass is the simultaneous substitution of the greedily chosen ones, in (start, end) order |
| EditEngines.ChosenAreTaken | src/smart_cast.rs:434-446 | the chosen edits are exactly those in range that no chosen edit before them reaches into |
| EditEngines.ApplyRightToLeft | src/migration_pipeline.rs:1195-1201 | replacing ranges from the right gives the simultaneous substitution |
| EditEngines.EnginesAgree | src/migration_pipeline.rs:1174-1201 | on edits that pass the overlap check there the sorting engine gives the same text as replacing from the right |
| EditEngines.SimultaneousLength | src/smart_cast.rs:431-447 | the length of the result is the source's plus what was inserted minus what was removed |
| SpanShift.CheckedIsOrderly | src/getter_namespace.rs:751-760 | edits that pass the neighbour check are in order and none of them is dropped by the sorting pass |
| SpanShift.CheckedIsSeparated | src/migration_pipeline.rs:1174-1195 | sorted edits pass the range and neighbour checks if and only if each is in range and comes once, and no two of them, neighbours or not, overlap or share a start |
| SpanShift.ShiftTracksSpan | src/getter_namespace.rs:46-69 | in the edited text the shifted span holds the original bytes and then whatever was inserted exactly at its end, so just the original bytes if and only if nothing was; no shift leaves the text |
| SpanShift.AdjustSpans | src/getter_namespace.rs:46-80 | all spans are shifted, or the proposal is refused exactly when an edit neither ends before a span nor starts behind it |
| SpanShift.InsertionAtEndIsSwallowed | src/getter_namespace.rs:46-56 | a zero-width edit at a span's end passes the overlap test and ends up inside the shifted span |
| DefaultText.Identifiers | src/ctor_defaults.rs:211-250 | the loop over the text computes the scan |
| DefaultText.ScanShow | src/ctor_defaults.rs:211-250 | on the text of every well-formed default the scan reports exactly the names outside quotes and not straight behind a dot |
| DefaultText.WordsShow | src/ctor_defaults.rs:208-250 | a scan without the blind spot behind `..` reports exactly the words an expression mentions outside quotes |
| DefaultText.FreeIsSeenOrUnseen | src/ctor_defaults.rs:208-250 | the names an expression looks up are those the scan reports, constants aside, and those in templates or right behind `..` |
| NeutralLiterals.IsNeutralLiteral | src/ctor_defaults.rs:119-159 | the counting loop decides the literal test |
| NeutralLiterals.NeutralIsClosed | src/ctor_defaults.rs:114-159 | a default that passes as a literal names nothing, if and only if all words of its text outside quotes, those behind `..` included, are constants |
| NeutralLiterals.StringSumPasses | src/ctor_defaults.rs:119-159 | a sum of two strings around a name passes as a literal |
| NeutralLiterals.UnderscoreNamePasses | src/ctor_defaults.rs:119-159 | the name `_1` passes as a literal |
| CtorDefaults.ResolveArgs | src/ctor_defaults.rs:45-80 | a call is accepted exactly when every argument has a parameter of its own, and then each argument is in its parameter's slot and the omitted ones are listed |
| CtorDefaults.PlacesUnique | src/ctor_defaults.rs:45-80 | the slots of an accepted call are determined by the call |
| CtorDefaults.LowerCallArgs | src/ctor_defaults.rs:87-112 | all omissions are inlined as neutral literals, or, where one cannot be, none is and the whole pattern goes to an overload |
| CtorDefaults.RewriteCall | src/ctor_defaults.rs:574-634 | an accepted call becomes the supplied arguments in declared order, without names, or is left alone if and only if every parameter is given and no argument is named |
| CtorDefaults.ErasureKeyInjective | src/ctor_defaults.rs:165-188 | equal keys at equal arity mean the same erased parameter types, where no erased type has a comma |
| ErasedTypes.ErasedIsPlain | src/ctor_defaults.rs:162-188 | without a function type among the arguments a type erases to its text outside arguments, nullability and blanks, so two types erase alike if and only if they agree there |
| ErasedTypes.PlainDecidesKey | src/ctor_defaults.rs:162-188 | parameter lists of such types that agree there get one key |
| ErasedTypes.ArrowLeaks | src/ctor_defaults.rs:171-178 | a type with one argument list erases to its name and whatever stands behind the first arrow in the arguments, so to its name alone if and only if nothing does |
| ErasedTypes.ArrowArgumentsDiffer | src/ctor_defaults.rs:171-178 | `L<(A)->B>` and `L<(A)->C>` get different keys |
| CtorDefaults.PlanCtorDefaults | src/ctor_defaults.rs:291-384 | the plan is the needed overloads, blocked exactly when one is needed and they cannot all be written: a secondary constructor, a missing default, a default that names an omitted parameter, or a signature collision |
| CtorMeaning.DelegatedIsKotlin | src/transpiler/unit/class.rs:4965-5043 | an overload that writes the omitted defaults into its delegation compiles exactly if no such default names an omitted parameter, and then delivers the parameters Kotlin computes |
| CtorMeaning.ClimbedIsKotlin | src/transpiler/unit/class.rs:4984-5043 | a ladder that fills in one default per rung delivers Kotlin's parameters |
| CtorMeaning.InlinedIsKotlin | src/ctor_defaults.rs:87-112 | a default written into the call has Kotlin's value for every caller, if and only if it names nothing |
| CtorLowering.PlannedOverloadIsKotlin | src/ctor_defaults.rs:291-384 | for a pattern of an unblocked plan outside the ladder the overload compiles exactly if the scan sees each omitted parameter an omitted default names, that is if none stands in a template or right behind `..`; then it delivers Kotlin's parameters |
| CtorLowering.SignatureSelectsOne | src/ctor_defaults.rs:355-384 | arity and erased signature single out one of the planned overloads, the ladder and the canonical constructor |
| CtorLowering.PlannedApart | src/ctor_defaults.rs:351-384 | no two constructors of an unblocked plan share a signature, also where the plan adds nothing and compares nothing |
| CtorLowering.LadderClimbs | src/ctor_defaults.rs:389-430 | both ladders leave out defaulted parameters from the right, one more on each rung |
| CtorLowering.LadderIsKotlin | src/ctor_defaults.rs:389-430 | a call that omits a rung's pattern of either ladder climbs to the canonical constructor and delivers Kotlin's parameters, with no check on the ladder's defaults |
| CtorLowering.RungsNest | src/ctor_defaults.rs:412-430 | each rung is the one before it with one parameter more, left of the others, omitted |
| CtorLowering.RangeHidesName | src/ctor_defaults.rs:195-206 | a default `0..n` is let through with `n` omitted, and the overload does not compile |
| CtorLowering.TemplateHidesName | src/ctor_defaults.rs:195-206 | a default that is a template around `n` is let through with `n` omitted, and the overload does not compile |
| CtorCalls.LoweredCallIsKotlin | src/ctor_defaults.rs:87-112 | from an accepted call and an unblocked plan: the list written is the supplied arguments or all of them inlined; of all constructors its types select just the one of its pattern; a rung always delivers Kotlin's parameters, an overload exactly if no omitted parameter hides from the scan, the canonical constructor if the inlined texts hold constants only |
| CtorCalls.RewrittenCallIsKotlin | src/ctor_defaults.rs:574-634 | the same for a call that stays in Kotlin and drops every omitted argument |
| CtorCalls.BindSupplied | src/ctor_defaults.rs:607-613 | the supplied values, bound to the parameters of the overload for the omissions, land each at its own parameter |
| CtorCalls.RungRuns | src/transpiler/unit/class.rs:4984-5043 | a rung hands on to the rung below with one default computed, down to the canonical constructor |
| CtorCalls.OneConstructor | src/ctor_defaults.rs:351-384 | the types of a written list select the constructor of its pattern and no other |
| CtorCalls.InliningCaptures | src/ctor_defaults.rs:87-112 | an inlined sum of strings around a name reads the caller's variable |
| JavaRoundTrip.PrintedReadsBack | src/java_ir.rs:647-779 | the tokens of an expression built with the four builders over the listed operators are read back by a parser after sections 15.15 to 15.26 of the Java Language Specification, each level with its own operators, as the same tree, if and only if operands of assignment and of postfix forms stand where the grammar allows them |
| JavaText.TextReadsBack | src/java_ir.rs:566-779 | the text the built expression renders to, cut into longest tokens (section 3.2 of the Java Language Specification) and parsed, is the same tree under the same condition: the blanks that are written keep all tokens apart |
| JavaRoundTrip.OperatorLevel | src/java_ir.rs:762-779 | every operator binds as tightly as its level in the grammar |
| JavaRoundTrip.ParsedElementsGrouped | src/java_ir.rs:720-760 | a parsed lambda is grouped as any operand, an assignment everywhere but right of one, a conditional everywhere but beside one, a cast or prefix operator below postfix forms only, and anything else nowhere |
| JavaStrings.StringLiteral | src/java_ir.rs:586-612 | the loop writes the escaped form character by character |
| JavaStrings.LiteralRoundTrips | src/java_ir.rs:586-612 | for every string and whatever follows the literal, Unicode-escape translation (section 3.3 of the Java Language Specification) and escape sequences (section 3.10.7) give the string back and stop at the literal's own closing quote |
| JavaStrings.LiteralIsPlain | src/java_ir.rs:586-612 | no control character stands in a literal, and nothing outside ASCII that was not in the string |
| JavaStrings.PlainIsKept | src/java_ir.rs:586-612 | a string without quotes, backslashes and control characters stands as it is |
| JavaStrings.UnicodeEscapeReads | src/java_ir.rs:598-606 | the first phase reads the four-digit escape of a character as that character |
| JavaStrings.LiteralsAreInjective | src/java_ir.rs:586-612 | different strings get different literals |
| JavaLossless.BuildNode | src/java_ir.rs:225-292 | the node mirrors the parse tree: one element per child with the trivia before it, leaves with their own bytes, and the bytes behind the last child |
| JavaLossless.RenderNode | src/java_ir.rs:566-583 | the recursive writer appends exactly the node's rendering |
| JavaLossless.BuiltRendersBack | src/java_ir.rs:225-292 | what was built from a parse tree renders to all the bytes of the tree |
| Strip.MergeSpans | src/migrate.rs:109-137 | sorted, widened and merged, the spans have gaps between them and cover exactly the translated spans and the blanks and break behind each |
| Strip.StripTranslated | src/migrate.rs:103-168 | the output is one pass of ordered edits, each merged span deleted and each kept stretch annotated with the blockers that are due: each blocker outside generated comments once, by offset and then in the order given, or none without annotations |
| Strip.AnchorAtComment | src/migrate.rs:170-194 | an anchor exactly at a generated comment is recognised if and only if no comment opens before it, or the last that does is still open and taken for generated itself; behind closed comments, if and only if there are none |
| Strip.AnchorInComment | src/migrate.rs:170-194 | an anchor behind the opening of a comment is recognised if and only if that comment is generated and closes behind the anchor |
| Strip.SecondCommentIsMissed | src/migrate.rs:170-194 | one ordinary comment above, and the anchor at the generated one is not recognised |
| StripWrites.DueIsWritten | src/migrate.rs:103-168 | every blocker that is due and outside the stripped spans has the block of its line, with all the line's blockers in order, right above that line or its annotations in the output, unless a later line's block was written over it |
| StripWrites.BlocksStand | src/migrate.rs:200-325 | the same for any sorted list of blockers |
| StripWrites.CommentTakenOver | src/migrate.rs:251-262 | the comment of an annotated line is replaced by the new marker of the line below the annotations |
| Markers.CopyKept | src/migrate.rs:200-325 | the loop carries out the plan of its stretch and takes the stretch's blockers off the list |
| Markers.StepsOrderly | src/migrate.rs:213-324 | cursor, replaced range and line never get out of order: the plan is a list of edits within the stretch |
| Markers.ScanMarkers | src/migrate.rs:264-305 | the upward loop finds where the run of markers above a line starts |
| Markers.ScanAnnotations | src/migrate.rs:356-376 | a text is accepted exactly if it has a line with something on it, every such line outside all parentheses starts with `@`, none closes more parentheses than are open, and all are closed in the end |
| StripMeaning.StripKeepsTheRest | src/migrate.rs:103-168 | without blockers the output is the bytes outside the union of the widened spans, in order |
| StripMeaning.ScriptAnnotates | src/migrate.rs:103-168 | every edit deletes a merged span, or puts the block of the blockers on one line where a run of markers, or one generated comment before annotations, was |
| StripMeaning.ScanIsMarkers | src/migrate.rs:264-305 | what the upward scan walks over is line markers and closed marker comments, one after another |
| StripMeaning.MissingBytes | src/migrate.rs:103-168 | a byte is missing from the output if and only if a translated span went there, or it belongs to a marker that is replaced, or stands before the opener of a replaced block marker on its first line |
| StripMeaning.CodeIsKept | src/migrate.rs:264-305 | only spans and markers go, blanks aside, if and only if nothing but blanks stands before the opener of any replaced block marker |
| StripMeaning.CleanMarkersKeepCode | src/migrate.rs:264-305 | only spans and markers go, blanks aside, where in every run of markers above a blocker's line each block marker opens its line |
| StripMeaning.CodeBeforeMarkerIsLost | src/migrate.rs:272-300 | code before a block marker on its first line is in the replaced range |
| MarkerBlocks.AboveChunks | src/migrate.rs:264-305 | the scan walks over every well-formed block of markers exactly to its start |
| Reannotate.HaltsAnywhere | src/migrate.rs:264-305 | behind code whose comments are closed the scan stops where it would without the text above |
| Reannotate.SecondRunSettled | src/migrate.rs:200-325 | on code with marker blocks between, directly above their lines or above annotations, a run for the same blocks at the same lines plans nothing, if and only if for each block no generated comment before annotations is found, or just that block |
| Reannotate.DocFound | src/migrate.rs:327-354 | below the last marker comment of a block, the search finds it, from behind its indentation to its end, if and only if annotations and nothing else stand between |
| AnnotateTwice.AnnotatingTwice | src/migrate.rs:200-325 | the first run writes the code with the new blocks between, and a second run on that changes nothing under that same condition |
| AnnotateTwice.DocBlockSettled | src/migrate.rs:327-354 | for a block directly above its line that ends in a marker comment the condition always holds |
| AnnotateTwice.AnchorKeepsItsLine | src/migrate.rs:219-241 | an anchor that moves with its line stays on that line at the same indentation |
| AnnotateTwice.IndentedCommentNeverSettles | src/migrate.rs:251-262 | above annotations an indented marker is replaced again by every run |
| AnnotateTwice.CommentSettlesUnindented | src/migrate.rs:251-262 | a block that ends in a comment, written over the comment above annotations, is left alone by the next run if and only if it is one comment and not indented |
| AnnotateTwice.TabbedCommentGrows | src/migrate.rs:251-262 | a comment behind a tab is written again behind one more tab, and again by the run after that |
| CopyTwice.CopyKeptTwice | src/migrate.rs:200-325 | copied again with every anchor moved along with its line, the output has the same groups at their new lines, and plans nothing if and only if for each block no other generated comment is found before annotations; so nothing changes when every block directly above its line ends in a comment, or in a marker line without a closing parenthesis, and every block above annotations is one comment and not indented, and something does as soon as one of the latter is not |
| CopyTwice.MovedGroups | src/migrate.rs:213-241 | blockers that moved with their lines are grouped as before |
| CopyTwice.LineBlockSettled | src/migrate.rs:327-376 | below a marker line without a closing parenthesis no generated comment is taken for the annotations' |
| Tidy.TidyText | src/migrate.rs:381-398 | the loop and the trimming give the tidied lines |
| Tidy.TidyKeeps | src/migrate.rs:381-398 | every line with something on it stays, in order, and set apart from the one before if it was, with no blank line at either end or behind another; tidying again changes nothing |
| Tidy.ProposeMigration | src/migrate.rs:45-73 | untouched, deleted or rewritten: deleted exactly when spans were stripped and either everything translated or the first letter on every line that remains begins a line comment, rewritten with the tidied residue otherwise |
| Tidy.PlainResidue | src/migrate.rs:41-73 | the speculative rewrite is the tidied text outside the translated spans |
| BlameGraph.SitesPerName | src/diagnostics.rs:800-811 | the table holds the number of sites of every name |
| BlameGraph.Downstream | src/diagnostics.rs:919-954 | in whatever order the names come, the loop ends with the least set that contains the seeds and all that follows, and counts its sites |
| BlameGraph.ClosureUnique | src/diagnostics.rs:919-954 | there is only one such set |
| BlameGraph.FollowingInsideShadow | src/diagnostics.rs:800-811 | what needs all its blockers gone lies in what needs one gone: blocking is at most holds |
| BlameGraph.ShadowsUnite | src/diagnostics.rs:919-954 | the shadow of two reasons is the union of their shadows |
| BlameGraph.NoSharedCredit | src/diagnostics.rs:919-954 | two reasons share no declaration, if and only if neither's seeds are among what the other reached |
| BlameGraph.RowsDisjoint | src/diagnostics.rs:800-811 | the rows of two root causes claim different declarations, if and only if they share no seed and no seed of one follows from what the other reached; where no name has both a site that waits and one that does not, if and only if they share no seed |
| BlameGraph.RowsNeverOverclaim | src/diagnostics.rs:800-811 | the claims of all rows count every site at most once, if and only if the rows are apart, and then add up to at most the number of sites; where no name has both a site that waits and one that does not, that is if no name is a seed of two rows |
| BlameGraph.SharedNameOverclaims | src/diagnostics.rs:800-811 | two sites of one name and two kinds make two rows claim four of two sites |
| BlameGraph.MixedNameOverclaims | src/diagnostics.rs:800-811 | a name with a waiting and a free site of two kinds is claimed by its own row and by the one that frees it: five of three sites |
| RetentionRoots.Collector.CollectRoots | src/diagnostics.rs:527-571 | on every blame graph, with cycles or not, the search ends having visited exactly the reachable sites, and its roots are exactly their markers, intrinsic reasons and unresolved labels |
| RetentionRoots.Collector.Collect | src/diagnostics.rs:527-571 | from any visited set, one call closes over what is new: everything new leaves its roots and waits on visited sites only, and nothing comes from elsewhere |
| Rounds.CheckInputs | src/migration_pipeline.rs:278-286 | inputs are refused exactly when two have one identity |
| Rounds.RoundKeeps | src/migration_pipeline.rs:383-954 | whatever is planned and repaired, after a round every vetoed file has its original text and owns no output, every output stands where its one origin emits it and over no other file's Java, and an unset change flag means the outputs are what they were |
| Rounds.EmittedIsKept | src/migration_pipeline.rs:546-678 | every Java file of a plan that was not vetoed is among the round's outputs, as that file's |
| OutputTexts.NewOutputAnswers | src/migration_pipeline.rs:546-678 | an emitted file is refused exactly where the plan may not write or the merge says no; else it has the emitted text where nothing or the same owners were held, and the merge's answer where owners differ or an earlier facade is there |
| OutputTexts.RoundTexts | src/migration_pipeline.rs:383-954 | after a round each path a plan without veto writes to has what that plan's emitted texts make of what it found there; any other output is what it was, or gone with its vetoed file |
| OutputTexts.SettledTexts | src/migration_pipeline.rs:383-961 | over every run that settles, the Java at each path is what the last round that wrote there emitted or merged |
| OutputTexts.RepairsKept | src/migration_pipeline.rs:681-954 | the call-site repairs get exactly the files that were not vetoed, and what the property repairs return is what the round leaves of those |
| OutputTexts.ProposalReachesFinal | src/migration_pipeline.rs:1014-1038 | the final proposal leaves a vetoed file alone, gives every other one its final text or takes it away, and rewrites only where the text differs |
| Rounds.VetoedIsThere | src/migration_pipeline.rs:787-791 | a vetoed input is among the files the property repairs get, and stays exactly if they do not drop it |
| RoundLoop.Workspace.VetoFile | src/migration_pipeline.rs:508-531 | the text is restored, and the file's outputs and their identities are taken off the books |
| RoundLoop.Workspace.AcceptOutputs | src/migration_pipeline.rs:546-678 | each output is kept, merged or refused as the rules say, in order |
| RoundLoop.Workspace.AcceptPlan | src/migration_pipeline.rs:507-679 | one plan is vetoed, refused, or proposed and its outputs accepted |
| RoundLoop.Workspace.Round | src/migration_pipeline.rs:383-954 | one round computes the specified books, and has settled exactly when neither files nor outputs moved |
| RoundLoop.PlanRounds | src/migration_pipeline.rs:383-961 | the loop over the passes computes the run |
| RoundLoop.RunKeeps | src/migration_pipeline.rs:383-961 | over every run: what it settles on came out of a round that changed nothing, within the pass limit, with the invariant of every round |
| RoundLoop.LastVetoIsClean | src/migration_pipeline.rs:1014-1038 | an input vetoed in the settling round is left alone, and nothing was generated from it |
| RoundLoop.VetoedKeepsJava | src/migration_pipeline.rs:1014-1038 | over every run that settles: an input vetoed in any round is proposed untouched, and an input owns Java in the end if and only if some round planned it with Java and no veto, and none vetoed it since |
| RoundLoop.VetoOutlivesItsReason | src/migration_pipeline.rs:1014-1038 | a file vetoed in round one and translated in round two is proposed untouched beside its Java |
| Retry.EditsForIs | src/migration_pipeline.rs:1148-1162 | the edits of a file are exactly those some contract asks for under any spelling of its path, each once |
| Retry.ApplyContracts | src/migration_pipeline.rs:1148-1206 | the starting texts are the originals with every file's distinct edits made at once; refused exactly when a file is not selected, a text is stale or edits touch |
| Retry.Settle | src/migration_pipeline.rs:194-239 | each try is planned from the originals with the groups the one before accepted, on the passes after its last; the result accepts every implementer it was planned with |
| Retry.RetainedJoins | src/migration_pipeline.rs:218-236 | the groups that are kept stay in order |
| Retry.TriesSettle | src/migration_pipeline.rs:194-239 | at most one more try than groups, passes that go up within the limit, and every dropped group refused by a try that was planned with it |
| Facade.MergeExisting | src/migration_pipeline.rs:2078-2249 | refused exactly when names, packages, imports or members clash; else old members and imports, then the new ones |
| Facade.ImportsCompatible | src/migration_pipeline.rs:2188-2249 | imports are compatible exactly when simple names agree and are unique and wildcards and static imports match |
| Facade.CompatibleIs | src/migration_pipeline.rs:2188-2249 | one by one: blanks alone before each import, each simple name once in either list and for one path in both, and wildcards and static imports of each in the other |
| Facade.MergeIsUnion | src/migration_pipeline.rs:2078-2186 | old members and imports stay in place and order, exactly the incoming ones with new keys are appended, and no key comes twice |
| Facade.MergeTwice | src/migration_pipeline.rs:2078-2186 | merging the same members again changes nothing, and is accepted if and only if no import came in twice behind different trivia |
| Facade.OrderIndependent | src/migration_pipeline.rs:2078-2186 | of three facades one order of merging goes through if and only if the other does, exactly when, should all pairs be mergeable, the second and the third both repeat the first's imports behind the same trivia or both do not; where both go through they end with the same members and imports |
| Facade.InTurnIsPairwise | src/migration_pipeline.rs:2078-2186 | three merge in turn if and only if each two can be merged and the first two repeat no import behind other trivia |
| Facade.TriviaMakesOrderMatter | src/migration_pipeline.rs:2167-2176 | two facades with one import and a third with the same import behind another break go through only with the third last |
| Facade.TriviaRefusesNextMerge | src/migration_pipeline.rs:2167-2176 | an import that comes in again behind another line break is added a second time, and the merge after that is refused |
| PlanMerge.Aggregate.Merge | src/migration_pipeline.rs:1225-1313 | one merge applies its decisions in order, or fails where a declaration has no single origin among the planned ones |
| PlanMerge.AggregateStaysAnchored | src/migration_pipeline.rs:1225-1313 | over any run of successful merges the entries are those of the first plan at their original places, each owned as the last decision about it said and otherwise as the last one that named it |
| PlanMerge.TargetIs | src/migration_pipeline.rs:1242-1303 | a decision changes the first entry of the declaration it names; if it names none that is listed, that of the one origin recorded for it or else recovered; and is refused if there is no such entry |
| PlanMerge.RunGoesThrough | src/migration_pipeline.rs:1242-1303 | the merges of a run succeed if and only if every decision has such an entry in the first plan |
| Acceptance.AcceptAssignments | src/planning.rs:751-837 | accepted exactly when the files cover the Java-owned declarations, each once, from one snapshot, with distinct paths and matching types |
| Acceptance.TypesMatchIs | src/planning.rs:794-827 | the types of a file match exactly if no owner is a class, interface, enum, annotation or object, or there are as many types as such owners and each is named among them |
| Acceptance.TypesAreOwners | src/planning.rs:794-827 | so where those owners have different names, an accepted file's types are exactly theirs, each once |
| Acceptance.CoverIsExact | src/planning.rs:751-837 | the owner lists of an accepted plan hold every Java-owned declaration once and nothing else |
| Coverage.Collect | src/coverage.rs:46-151 | the report is made exactly when no declaration comes twice, none is retained with an output and no output is without one; its entries and counts are those of the declarations |
| Coverage.ReportConserves | src/coverage.rs:46-151 | translated plus retained is all; the translated ones are exactly the owners of outputs; each reason's count is the number of retained declarations that give it, those without one under `unclassified`, and together they count at least all |
| Coverage.AcceptedCountable | src/coverage.rs:46-151 | what acceptance lets through can be reported, and its translated declarations are the Java-owned ones |
| FactCache.CallSiteFacts.SitesAt | src/facts/classpath.rs:91-139 | a call asks only when the stored hash differs, and stores every answer but an absent one |
| FactCache.NeverOtherBytes | src/facts/classpath.rs:91-139 | under every interleaving a batch returned for a file and hash was loaded for that file and hash |
| FactCache.StepHonest | src/facts/classpath.rs:91-139 | every step keeps that, and an absent answer leaves the table alone |
| FactCache.HitsExactly | src/facts/classpath.rs:91-139 | after every run a lookup hits if and only if the last store for the file carried that hash, or there was none and the table held it at the start; it returns what was stored, even if that is unavailable |
| FactCache.SlowCallEvicts | src/facts/classpath.rs:91-139 | a slow call for old bytes replaces the newer answer |
| FactCache.ClasspathFacts.Members | src/facts/classpath.rs:158-171 | an owner is asked for at most once, and its answer is stored |
| FactCache.FirstAnswerStays | src/facts/classpath.rs:158-171 | every call for an owner gets what the first one loaded |

## Left out

- Parsing and walking concrete Kotlin and Java: the model starts from trees, spans and token lists.
- File system, processes, compiler validation, the JVM helper and its wire format.
- The one-round planner, the repairs, property ABI repair, merging of two outputs of one run and the
  parser-recovery origin: inputs that may be any function.
- Characters outside ASCII in the text passes: a text is its bytes, and blanks and letters are the
  ASCII ones; character boundaries are not checked.
- Several smart-cast sites in one file: each site is repaired by itself, so the shared set of taken
  names, skipping a site whose reads an enclosing one took, and an inner early exit of which the
  enclosing site took the test but not the later reads, are not composed.
- Sites that are recognised but not repaired carry no property name, and a site without dominated
  reads (`uses` zero) is repaired like any other.
- Indentation and line endings of the inserted binding line: the printed blocks start at column one.
- The textual fallback of `always_exits` and names declared by functions and classes inside a body.
- Defaults outside the modelled grammar (negative and hexadecimal literals are recognised by the
  literal test but not built), and blanks around a default's text.
- Erased signatures are the program's own key, of which `ErasedTypes` says exactly what it keeps
  only where no function type stands among nested arguments; that a type parameter erases to its
  bound is not seen by it and not modelled. An argument has the type of its parameter, so overload
  resolution among subtypes, and the casts the emitter writes for it, are not either.
- Nested constructor calls in the call rewriting, whose inner edit the outer one drops.
- String literals inside expressions (`JavaStrings` reads them by themselves) and numbers with a
  point: in `JavaText` a constant is a word.
- Java casts, conditional expressions, lambdas, subscripts and `instanceof` types are grouped but
  not read back: the parser covers what the builders build, and the right operand of `instanceof` is
  read as an expression.
- `render` functions, tables, summaries, JSON, progress output and diagnostics text.
- The shape checks on call receipts (src/planning.rs:45-151): they look at one receipt at a time.
- Snapshot verification before writing, plan vetoes and accessor repairs inside the aggregate plan,
  generated-getter contracts, bridges and other lists the merge only appends to.
- The order of files in the convergence test: files are a map, so an input list that is not sorted
  by path runs one round more in the program.
- Markers.CopyKept: anchors and the shared list of blockers are values; the output is returned
  rather than appended.
- CopyTwice.CopyKeptTwice: asks that no anchor lies inside the markers of a later one, that comments
  close within the code between blocks, that a comment to be replaced above annotations opens its
  line and its new block ends in a comment, and that no old-style `/* NOTLIN:` marker is left above
  an anchor; an old-style marker is overlooked once any generated comment stands above it.
- CtorCalls.LoweredCallIsKotlin: asks that the index has recorded the omission pattern of every call
  that needs an overload.
- SmartCastMeaning.SiteKeepsMeaning: with a receiver that is assigned, asks that no collected read
  is in a lambda, though a lambda that is called at once would do no harm, nor in a loop or `try`
  that assigns it.
- Rounds.RoundKeeps: asks that a round plans each file once, as the planner does.
- Coverage.Collect: the declarations of all plans are one list; dependencies and the unresolved and
  ambiguous name counts are not modelled.
- BlameGraph.RowsNeverOverclaim: speaks of the claims before each row's own sites are taken off.
