/** The round loop of workspace planning: what a round accepts, what it takes back, and when
    the loop stops. The planner and the repair passes are inputs. */
module Rounds {
  import opened Options

  type Symbol = string

  datatype Output = Output(origin: string, text: string, name: string, owners: seq<Symbol>)

  datatype Proposal = Untouched | Delete | Rewrite(text: string)

  /** What one round plans for a file. No proposal stands for the name splitter's refusal. */
  datatype FilePlan = FilePlan(
    file: string,
    failed: bool,
    errors: nat,
    warnings: nat,
    proposal: Option<Proposal>,
    java: seq<(string, string)>,
    owners: map<string, seq<Symbol>>
  )

  /** What does not change over a run: the inputs, what was at each output path before, and
      the functions this model leaves open. Paths are spelled; `norm` gives a path's identity. */
  datatype Config = Config(
    norm: string -> string,
    sources: seq<(string, string)>,
    strict: bool,
    target: (string, string) -> string,
    existing: map<string, string>,
    headerNames: (string, string) -> bool,
    facadeOwners: seq<Symbol> -> bool,
    mergeOutputs: (Output, string, string, seq<Symbol>) -> Option<string>,
    mergeExisting: (string, string, string, string) -> Option<string>
  ) {
    predicate Vetoes(plan: FilePlan) {
      strict && (plan.errors > 0 || plan.warnings > 0)
    }
  }

  /** The text a file was read with. */
  function Original(cfg: Config, sources: seq<(string, string)>, id: string): (r: Option<string>)
    ensures r.Some? ==> exists i :: 0 <= i < |sources| && cfg.norm(sources[i].0) == id && sources[i].1 == r.value
    ensures r.None? ==> forall i :: 0 <= i < |sources| ==> cfg.norm(sources[i].0) != id
  {
    if sources == [] then None
    else if cfg.norm(sources[0].0) == id then Some(sources[0].1)
    else Original(cfg, sources[1..], id)
  }

  /** No file is given twice. */
  ghost predicate DistinctInputs(cfg: Config) {
    forall i, j :: 0 <= i < j < |cfg.sources| ==> cfg.norm(cfg.sources[i].0) != cfg.norm(cfg.sources[j].0)
  }

  method CheckInputs(cfg: Config) returns (ok: bool)
    ensures ok <==> DistinctInputs(cfg)
  {
    var seen: set<string> := {};
    for i := 0 to |cfg.sources|
      invariant forall j :: 0 <= j < i ==> cfg.norm(cfg.sources[j].0) in seen
      invariant forall id :: id in seen ==> exists j :: 0 <= j < i && cfg.norm(cfg.sources[j].0) == id
      invariant forall j, k :: 0 <= j < k < i ==> cfg.norm(cfg.sources[j].0) != cfg.norm(cfg.sources[k].0)
    {
      var id := cfg.norm(cfg.sources[i].0);
      if id in seen {
        return false;
      }
      seen := seen + {id};
    }
    return true;
  }

  // ----- the books of a round -----

  /** The files as they will be, the Java outputs so far, which output holds each identity,
      whether the round changed the outputs, and what it vetoed. */
  datatype Books = Books(
    files: map<string, string>,
    outputs: map<string, Output>,
    identities: map<string, string>,
    changed: bool,
    vetoed: set<string>
  )

  function Stale(cfg: Config, b: Books, id: string): set<string> {
    set p | p in b.outputs && cfg.norm(b.outputs[p].origin) == id
  }

  function Identities(cfg: Config, paths: set<string>): set<string> {
    set p | p in paths :: cfg.norm(p)
  }

  /** The file gets its text back and loses its outputs. */
  function Veto(cfg: Config, b: Books, plan: FilePlan): Books {
    var id := cfg.norm(plan.file);
    var original := Original(cfg, cfg.sources, id);
    var stale := Stale(cfg, b, id);
    Books(if original.Some? then b.files[plan.file := original.value] else b.files,
          b.outputs - stale,
          b.identities - Identities(cfg, stale),
          b.changed || stale != {},
          b.vetoed + {id})
  }

  function Propose(b: Books, plan: FilePlan, proposal: Proposal): Books {
    match proposal
    case Untouched => b
    case Delete => b.(files := b.files - {plan.file})
    case Rewrite(text) => b.(files := b.files[plan.file := text])
  }

  predicate SameOwners(left: seq<Symbol>, right: seq<Symbol>) {
    |left| == |right| && forall s :: s in left ==> s in right
  }

  function AddOwners(held: seq<Symbol>, more: seq<Symbol>): seq<Symbol>
    decreases |more|
  {
    if more == [] then held
    else AddOwners(if more[0] in held then held else held + [more[0]], more[1..])
  }

  /** The output to keep for one emitted file, or none where the plan is refused. */
  function NewOutput(cfg: Config, b: Books, plan: FilePlan, name: string, text: string): (r: Option<Output>)
    ensures r.Some? ==> r.value.origin == plan.file && r.value.name == name
  {
    var path := cfg.target(plan.file, name);
    var id := cfg.norm(path);
    if id in cfg.existing && !cfg.headerNames(cfg.existing[id], plan.file) then None
    else if id in b.identities && b.identities[id] in b.outputs && b.outputs[b.identities[id]].origin != plan.file then None
    else if name !in plan.owners then None
    else
      var owners := plan.owners[name];
      if path in b.outputs then
        var held := b.outputs[path];
        if held.origin != plan.file then None
        else if SameOwners(held.owners, owners) then Some(Output(held.origin, text, name, owners))
        else match cfg.mergeOutputs(held, text, name, owners)
          case None => None
          case Some(merged) => Some(Output(held.origin, merged, name, AddOwners(held.owners, owners)))
      else if id in cfg.existing && cfg.facadeOwners(owners) then
        match cfg.mergeExisting(plan.file, cfg.existing[id], text, name)
        case None => None
        case Some(merged) => Some(Output(plan.file, merged, name, owners))
      else Some(Output(plan.file, text, name, owners))
  }

  function Keep(cfg: Config, b: Books, plan: FilePlan, name: string, value: Output): Books {
    var path := cfg.target(plan.file, name);
    b.(outputs := b.outputs[path := value],
       identities := b.identities[cfg.norm(path) := path],
       changed := b.changed || path !in b.outputs || b.outputs[path] != value)
  }

  function KeepAll(cfg: Config, b: Books, plan: FilePlan, java: seq<(string, string)>): Option<Books>
    decreases |java|
  {
    if java == [] then Some(b)
    else match NewOutput(cfg, b, plan, java[0].0, java[0].1)
      case None => None
      case Some(value) => KeepAll(cfg, Keep(cfg, b, plan, java[0].0, value), plan, java[1..])
  }

  function Accept(cfg: Config, b: Books, plan: FilePlan): Option<Books> {
    if cfg.Vetoes(plan) then Some(Veto(cfg, b, plan))
    else if plan.proposal.None? then None
    else KeepAll(cfg, Propose(b, plan, plan.proposal.value), plan, plan.java)
  }

  function AcceptAll(cfg: Config, b: Books, plans: seq<FilePlan>): Option<Books>
    decreases |plans|
  {
    if plans == [] then Some(b)
    else match Accept(cfg, b, plans[0])
      case None => None
      case Some(next) => AcceptAll(cfg, next, plans[1..])
  }

  // ----- the repairs -----

  function Unvetoed(cfg: Config, b: Books): map<string, string> {
    map p | p in b.files && cfg.norm(p) !in b.vetoed :: b.files[p]
  }

  /** Vetoed inputs go back among the repaired files. */
  function Restore(cfg: Config, sources: seq<(string, string)>, vetoed: set<string>, files: map<string, string>): map<string, string> {
    if sources == [] then files
    else
      var rest := Restore(cfg, sources[..|sources| - 1], vetoed, files);
      var last := sources[|sources| - 1];
      if cfg.norm(last.0) in vetoed then rest[last.0 := last.1] else rest
  }

  /** Whatever the later repairs wrote into a vetoed file is undone. */
  function Undo(cfg: Config, vetoed: set<string>, files: map<string, string>): map<string, string> {
    map p | p in files ::
      var id := cfg.norm(p);
      if id in vetoed && Original(cfg, cfg.sources, id).Some? then Original(cfg, cfg.sources, id).value else files[p]
  }

  /** A round's inputs: the plans, the call-site repairs, and the property repairs. */
  datatype Input = Input(plans: seq<FilePlan>, calls: map<string, string> -> map<string, string>, properties: map<string, string> -> map<string, string>)

  function Repaired(cfg: Config, b: Books, input: Input): map<string, string> {
    Undo(cfg, b.vetoed, input.properties(Restore(cfg, cfg.sources, b.vetoed, input.calls(Unvetoed(cfg, b)))))
  }

  /** One round, from the files and outputs so far. */
  function RoundOf(cfg: Config, start: Books, input: Input): Option<Books> {
    if exists i :: 0 <= i < |input.plans| && input.plans[i].failed then None
    else match AcceptAll(cfg, start.(changed := false, vetoed := {}), input.plans)
      case None => None
      case Some(b) => Some(b.(files := Repaired(cfg, b, input)))
  }

  // ----- what every round keeps -----

  /** Every output is on record under its identity, and outputs of one identity have one
      origin. */
  ghost predicate OneOrigin(cfg: Config, b: Books) {
    forall p :: p in b.outputs ==>
      var id := cfg.norm(p);
      && id in b.identities && b.identities[id] in b.outputs && cfg.norm(b.identities[id]) == id
      && b.outputs[b.identities[id]].origin == b.outputs[p].origin
  }

  /** An output stands where its origin emits it, over nothing but what was generated from
      that origin before. */
  ghost predicate OwnPlaces(cfg: Config, b: Books) {
    forall p :: p in b.outputs ==>
      var o := b.outputs[p];
      && p == cfg.target(o.origin, o.name)
      && (cfg.norm(p) in cfg.existing ==> cfg.headerNames(cfg.existing[cfg.norm(p)], o.origin))
  }

  ghost predicate Consistent(cfg: Config, b: Books) {
    OneOrigin(cfg, b) && OwnPlaces(cfg, b)
  }

  lemma IdentityHasOneOrigin(cfg: Config, b: Books, p: string, q: string)
    requires OneOrigin(cfg, b) && p in b.outputs && q in b.outputs && cfg.norm(p) == cfg.norm(q)
    ensures b.outputs[p].origin == b.outputs[q].origin
  {
    var id := cfg.norm(p);
    assert b.outputs[b.identities[id]].origin == b.outputs[p].origin;
    assert b.outputs[b.identities[cfg.norm(q)]].origin == b.outputs[q].origin;
  }

  /** A vetoed file owns no output. */
  ghost predicate VetoedOwnNothing(cfg: Config, b: Books) {
    forall p :: p in b.outputs ==> cfg.norm(b.outputs[p].origin) !in b.vetoed
  }

  ghost predicate ChangesSeen(b: Books, outputs: map<string, Output>) {
    !b.changed ==> b.outputs == outputs
  }

  lemma VetoKeeps(cfg: Config, b: Books, plan: FilePlan, outputs: map<string, Output>)
    requires Consistent(cfg, b) && VetoedOwnNothing(cfg, b) && ChangesSeen(b, outputs)
    ensures var v := Veto(cfg, b, plan); Consistent(cfg, v) && VetoedOwnNothing(cfg, v) && ChangesSeen(v, outputs)
  {
    var id, v := cfg.norm(plan.file), Veto(cfg, b, plan);
    var stale := Stale(cfg, b, id);
    forall p | p in v.outputs ensures cfg.norm(p) in v.identities && b.identities[cfg.norm(p)] in v.outputs {
      if q :| q in stale && cfg.norm(q) == cfg.norm(p) {
        IdentityHasOneOrigin(cfg, b, p, q);
      }
    }
    if stale == {} {
      assert v.outputs == b.outputs;
    }
  }

  lemma KeepKeeps(cfg: Config, b: Books, plan: FilePlan, name: string, text: string, outputs: map<string, Output>)
    requires Consistent(cfg, b) && VetoedOwnNothing(cfg, b) && ChangesSeen(b, outputs)
    requires NewOutput(cfg, b, plan, name, text).Some? && cfg.norm(plan.file) !in b.vetoed
    ensures var k := Keep(cfg, b, plan, name, NewOutput(cfg, b, plan, name, text).value);
      Consistent(cfg, k) && VetoedOwnNothing(cfg, k) && ChangesSeen(k, outputs) && k.vetoed == b.vetoed
  {
    var path, value := cfg.target(plan.file, name), NewOutput(cfg, b, plan, name, text).value;
    var k := Keep(cfg, b, plan, name, value);
    if !k.changed {
      assert k.outputs == b.outputs;
    }
  }

  lemma {:induction false} KeepAllKeeps(cfg: Config, b: Books, plan: FilePlan, java: seq<(string, string)>, outputs: map<string, Output>)
    requires Consistent(cfg, b) && VetoedOwnNothing(cfg, b) && ChangesSeen(b, outputs)
    requires KeepAll(cfg, b, plan, java).Some? && cfg.norm(plan.file) !in b.vetoed
    ensures var k := KeepAll(cfg, b, plan, java).value;
      Consistent(cfg, k) && VetoedOwnNothing(cfg, k) && ChangesSeen(k, outputs) && k.vetoed == b.vetoed
    decreases |java|
  {
    hide Consistent, VetoedOwnNothing, ChangesSeen, NewOutput, Keep;
    if java != [] {
      KeepKeeps(cfg, b, plan, java[0].0, java[0].1, outputs);
      KeepAllKeeps(cfg, Keep(cfg, b, plan, java[0].0, NewOutput(cfg, b, plan, java[0].0, java[0].1).value), plan, java[1..], outputs);
    }
  }

  /** The planner plans each file once. */
  ghost predicate PlannedOnce(cfg: Config, plans: seq<FilePlan>) {
    forall i, j :: 0 <= i < j < |plans| ==> cfg.norm(plans[i].file) != cfg.norm(plans[j].file)
  }

  /** The identities the strict mode rejects among the plans. */
  ghost predicate VetoedExactly(cfg: Config, plans: seq<FilePlan>, vetoed: set<string>) {
    forall id :: id in vetoed <==> VetoesSome(cfg, plans, id)
  }

  ghost predicate VetoesSome(cfg: Config, plans: seq<FilePlan>, id: string) {
    exists i :: 0 <= i < |plans| && cfg.Vetoes(plans[i]) && cfg.norm(plans[i].file) == id
  }

  lemma {:induction false} AcceptAllKeeps(cfg: Config, b: Books, plans: seq<FilePlan>, outputs: map<string, Output>)
    requires Consistent(cfg, b) && VetoedOwnNothing(cfg, b) && ChangesSeen(b, outputs)
    requires PlannedOnce(cfg, plans) && forall i :: 0 <= i < |plans| ==> cfg.norm(plans[i].file) !in b.vetoed
    requires AcceptAll(cfg, b, plans).Some?
    ensures var k := AcceptAll(cfg, b, plans).value;
      && Consistent(cfg, k) && VetoedOwnNothing(cfg, k) && ChangesSeen(k, outputs)
      && forall id :: id in k.vetoed <==> id in b.vetoed || VetoesSome(cfg, plans, id)
    decreases |plans|
  {
    hide Consistent, VetoedOwnNothing, ChangesSeen, KeepAll;
    if plans != [] {
      hide VetoesSome;
      var plan := plans[0];
      if cfg.Vetoes(plan) {
        VetoKeeps(cfg, b, plan, outputs);
      } else {
        var proposed := Propose(b, plan, plan.proposal.value);
        ProposalKeeps(cfg, b, plan, outputs);
        KeepAllKeeps(cfg, proposed, plan, plan.java, outputs);
      }
      var next := Accept(cfg, b, plan).value;
      forall i | 0 <= i < |plans[1..]| ensures cfg.norm(plans[1..][i].file) !in next.vetoed {
        assert plans[1..][i] == plans[i + 1];
      }
      AcceptAllKeeps(cfg, next, plans[1..], outputs);
      VetoedSplit(cfg, plans);
    }
  }

  lemma ProposalKeeps(cfg: Config, b: Books, plan: FilePlan, outputs: map<string, Output>)
    requires Consistent(cfg, b) && VetoedOwnNothing(cfg, b) && ChangesSeen(b, outputs) && plan.proposal.Some?
    ensures var p := Propose(b, plan, plan.proposal.value);
      Consistent(cfg, p) && VetoedOwnNothing(cfg, p) && ChangesSeen(p, outputs) && p.vetoed == b.vetoed
  {
  }

  lemma VetoedSplit(cfg: Config, plans: seq<FilePlan>)
    requires plans != []
    ensures forall id :: VetoesSome(cfg, plans, id) <==>
      (cfg.Vetoes(plans[0]) && cfg.norm(plans[0].file) == id) || VetoesSome(cfg, plans[1..], id)
  {
    assert forall i :: 0 < i < |plans| ==> plans[1..][i - 1] == plans[i];
  }

  // ----- main result -----

  /** Every file that carries a vetoed identity has the text it was read with. */
  ghost predicate VetoedOriginal(cfg: Config, b: Books) {
    forall p :: p in b.files && cfg.norm(p) in b.vetoed ==>
      var original := Original(cfg, cfg.sources, cfg.norm(p));
      original.Some? ==> b.files[p] == original.value
  }

  /** Main result: whatever the planner and the repairs do, after a round the files it vetoed
      have their original text and own no output, every output path has one origin and holds
      nothing of another's, and an unset flag means the outputs are what they were. */
  lemma RoundKeeps(cfg: Config, start: Books, input: Input)
    requires Consistent(cfg, start) && PlannedOnce(cfg, input.plans) && RoundOf(cfg, start, input).Some?
    ensures var b := RoundOf(cfg, start, input).value;
      && Consistent(cfg, b) && VetoedOwnNothing(cfg, b) && VetoedOriginal(cfg, b)
      && VetoedExactly(cfg, input.plans, b.vetoed)
      && (!b.changed ==> b.outputs == start.outputs)
  {
    hide Original, KeepAll, AcceptAll;
    var begun := start.(changed := false, vetoed := {});
    AcceptAllKeeps(cfg, begun, input.plans, start.outputs);
  }

  lemma {:induction false} Restored(cfg: Config, sources: seq<(string, string)>, vetoed: set<string>, files: map<string, string>, i: nat)
    requires i < |sources| && cfg.norm(sources[i].0) in vetoed
    ensures sources[i].0 in Restore(cfg, sources, vetoed, files)
  {
    if i < |sources| - 1 {
      Restored(cfg, sources[..|sources| - 1], vetoed, files, i);
    }
  }

  /** The files a round hands to the property repairs. */
  function BeforeProperties(cfg: Config, start: Books, input: Input): map<string, string>
    requires RoundOf(cfg, start, input).Some?
  {
    var b := AcceptAll(cfg, start.(changed := false, vetoed := {}), input.plans).value;
    Restore(cfg, cfg.sources, b.vetoed, input.calls(Unvetoed(cfg, b)))
  }

  /** A vetoed input is among the files the property repairs get, whatever the call-site repairs
      did, and there after the round exactly if the property repairs do not drop it. */
  lemma VetoedIsThere(cfg: Config, start: Books, input: Input, i: nat)
    requires RoundOf(cfg, start, input).Some? && i < |cfg.sources|
    requires cfg.norm(cfg.sources[i].0) in RoundOf(cfg, start, input).value.vetoed
    ensures cfg.sources[i].0 in BeforeProperties(cfg, start, input)
    ensures cfg.sources[i].0 in RoundOf(cfg, start, input).value.files
       <==> cfg.sources[i].0 in input.properties(BeforeProperties(cfg, start, input))
  {
    hide AcceptAll, Original;
    var b := AcceptAll(cfg, start.(changed := false, vetoed := {}), input.plans).value;
    Restored(cfg, cfg.sources, b.vetoed, input.calls(Unvetoed(cfg, b)), i);
  }

  // ----- nothing accepted is lost -----

  /** The outputs of a plan are there, under its name. */
  ghost predicate Holds(cfg: Config, b: Books, file: string, java: seq<(string, string)>) {
    forall k :: 0 <= k < |java| ==>
      var path := cfg.target(file, java[k].0);
      path in b.outputs && b.outputs[path].origin == file
  }

  lemma {:induction false} KeepAllHolds(cfg: Config, b: Books, plan: FilePlan, done: seq<(string, string)>, java: seq<(string, string)>)
    requires KeepAll(cfg, b, plan, java).Some? && Holds(cfg, b, plan.file, done)
    ensures Holds(cfg, KeepAll(cfg, b, plan, java).value, plan.file, done + java)
    decreases |java|
  {
    hide NewOutput;
    if java == [] {
      assert done + java == done;
    } else {
      var value := NewOutput(cfg, b, plan, java[0].0, java[0].1).value;
      KeepAllHolds(cfg, Keep(cfg, b, plan, java[0].0, value), plan, done + [java[0]], java[1..]);
      assert done + [java[0]] + java[1..] == done + java;
    }
  }

  lemma {:induction false} OthersStay(cfg: Config, b: Books, plan: FilePlan, java: seq<(string, string)>, file: string, kept: seq<(string, string)>)
    requires KeepAll(cfg, b, plan, java).Some? && Holds(cfg, b, file, kept) && file != plan.file
    ensures Holds(cfg, KeepAll(cfg, b, plan, java).value, file, kept)
    decreases |java|
  {
    if java != [] {
      var value := NewOutput(cfg, b, plan, java[0].0, java[0].1).value;
      OthersStay(cfg, Keep(cfg, b, plan, java[0].0, value), plan, java[1..], file, kept);
    }
  }

  lemma AcceptHolds(cfg: Config, b: Books, plan: FilePlan, file: string, kept: seq<(string, string)>)
    requires Accept(cfg, b, plan).Some? && Holds(cfg, b, file, kept) && cfg.norm(file) != cfg.norm(plan.file)
    ensures Holds(cfg, Accept(cfg, b, plan).value, file, kept)
  {
    hide NewOutput, KeepAll;
    if !cfg.Vetoes(plan) {
      OthersStay(cfg, Propose(b, plan, plan.proposal.value), plan, plan.java, file, kept);
    }
  }

  lemma {:induction false} AcceptAllHolds(cfg: Config, b: Books, plans: seq<FilePlan>, file: string, kept: seq<(string, string)>)
    requires AcceptAll(cfg, b, plans).Some? && Holds(cfg, b, file, kept)
    requires forall i :: 0 <= i < |plans| ==> cfg.norm(plans[i].file) != cfg.norm(file)
    ensures Holds(cfg, AcceptAll(cfg, b, plans).value, file, kept)
    decreases |plans|
  {
    hide Accept, Holds;
    if plans != [] {
      AcceptHolds(cfg, b, plans[0], file, kept);
      AcceptAllHolds(cfg, Accept(cfg, b, plans[0]).value, plans[1..], file, kept);
    }
  }

  /** Every Java file of a plan the round did not veto is among its outputs, as that file's. */
  lemma {:induction false} EmittedIsKept(cfg: Config, b: Books, plans: seq<FilePlan>, i: nat)
    requires PlannedOnce(cfg, plans) && AcceptAll(cfg, b, plans).Some? && i < |plans| && !cfg.Vetoes(plans[i])
    ensures Holds(cfg, AcceptAll(cfg, b, plans).value, plans[i].file, plans[i].java)
    decreases |plans|
  {
    var plan, next := plans[0], Accept(cfg, b, plans[0]).value;
    if i > 0 {
      EmittedIsKept(cfg, next, plans[1..], i - 1);
    } else {
      KeepAllHolds(cfg, Propose(b, plan, plan.proposal.value), plan, [], plan.java);
      assert [] + plan.java == plan.java;
      AcceptAllHolds(cfg, next, plans[1..], plan.file, plan.java);
    }
  }
}
