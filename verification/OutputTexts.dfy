/** What the Java files hold after a round and after a run: whose text, with whose declarations. */
module OutputTexts {
  import opened Options
  import opened Rounds
  import opened RoundLoop

  // ----- the answer to one emitted file -----

  function HeldAt(b: Books, path: string): Option<Output> {
    if path in b.outputs then Some(b.outputs[path]) else None
  }

  ghost predicate SameSet(left: seq<Symbol>, right: seq<Symbol>) {
    |left| == |right| && forall s :: s in left ==> s in right
  }

  /** The owners held before, and behind them the new ones in order, each once. */
  ghost predicate Joined(held: seq<Symbol>, more: seq<Symbol>, all: seq<Symbol>) {
    && held <= all && (forall s :: s in all <==> s in held || s in more)
    && (forall i, j :: |held| <= i < j < |all| ==> all[i] != all[j])
    && (forall i :: |held| <= i < |all| ==> all[i] !in held)
    && forall i, j :: |held| <= i < j < |all| ==> FirstIn(more, all[i]) < FirstIn(more, all[j])
  }

  function FirstIn(ss: seq<Symbol>, s: Symbol): nat {
    if ss == [] || ss[0] == s then 0 else 1 + FirstIn(ss[1..], s)
  }

  /** The plan may not write there: the path was there before and not generated from this file,
      or another file's output is at the path or its identity, or nobody owns what is emitted. */
  ghost predicate Barred(cfg: Config, b: Books, plan: FilePlan, name: string) {
    var path := cfg.target(plan.file, name);
    var id := cfg.norm(path);
    || (id in cfg.existing && !cfg.headerNames(cfg.existing[id], plan.file))
    || (id in b.identities && b.identities[id] in b.outputs && b.outputs[b.identities[id]].origin != plan.file)
    || (path in b.outputs && b.outputs[path].origin != plan.file)
    || name !in plan.owners
  }

  /** What an emitted file becomes: the emitted text where nothing is held or the same owners are;
      with other owners held, or a facade left by an earlier run, what the merge says. */
  ghost predicate Answers(cfg: Config, plan: FilePlan, held: Option<Output>, name: string, text: string, out: Output)
    requires name in plan.owners
  {
    var path := cfg.target(plan.file, name);
    var id, owners := cfg.norm(path), plan.owners[name];
    && out.origin == plan.file && out.name == name
    && (held.Some? && SameSet(held.value.owners, owners) ==> out.text == text && out.owners == owners)
    && (held.Some? && !SameSet(held.value.owners, owners) ==>
          cfg.mergeOutputs(held.value, text, name, owners) == Some(out.text) && Joined(held.value.owners, owners, out.owners))
    && (held.None? && id in cfg.existing && cfg.facadeOwners(owners) ==>
          cfg.mergeExisting(plan.file, cfg.existing[id], text, name) == Some(out.text) && out.owners == owners)
    && (held.None? && !(id in cfg.existing && cfg.facadeOwners(owners)) ==> out.text == text && out.owners == owners)
  }

  /** An emitted file is refused exactly where the plan may not write or the merge says no, and
      else it is answered. */
  lemma NewOutputAnswers(cfg: Config, b: Books, plan: FilePlan, name: string, text: string)
    ensures var held := HeldAt(b, cfg.target(plan.file, name));
      NewOutput(cfg, b, plan, name, text).Some? <==>
        !Barred(cfg, b, plan, name) && exists out :: Answers(cfg, plan, held, name, text, out)
    ensures NewOutput(cfg, b, plan, name, text).Some? ==>
      Answers(cfg, plan, HeldAt(b, cfg.target(plan.file, name)), name, text, NewOutput(cfg, b, plan, name, text).value)
  {
    hide AddOwners, Joined;
    var path := cfg.target(plan.file, name);
    var held := HeldAt(b, path);
    if name in plan.owners && held.Some? { OwnersJoin(held.value.owners, plan.owners[name]); }
    var r := NewOutput(cfg, b, plan, name, text);
    if r.Some? {
      assert Answers(cfg, plan, held, name, text, r.value);
    }
  }

  lemma {:induction false} OwnersJoin(held: seq<Symbol>, more: seq<Symbol>)
    ensures Joined(held, more, AddOwners(held, more))
    decreases |more|
  {
    if more != [] {
      hide Joined;
      var next := if more[0] in held then held else held + [more[0]];
      OwnersJoin(next, more[1..]);
      OneOwnerMore(held, more, AddOwners(held, more));
    }
  }

  lemma OneOwnerMore(held: seq<Symbol>, more: seq<Symbol>, all: seq<Symbol>)
    requires more != [] && Joined(if more[0] in held then held else held + [more[0]], more[1..], all)
    ensures Joined(held, more, all)
  {
    var first, rest := more[0], more[1..];
    assert forall s :: s in more <==> s == first || s in rest;
    assert forall s :: FirstIn(more, s) == if s == first then 0 else 1 + FirstIn(rest, s);
    if first !in held {
      var next := held + [first];
      assert all[|held|] == next[|held|] == first;
      forall i | |held| <= i < |all| ensures all[i] !in held {
        if i > |held| { assert all[i] !in next; }
      }
      forall i | |held| < i < |all| ensures all[i] != first { assert all[i] !in next && first in next; }
      assert forall i :: 0 <= i < |held| ==> all[i] == next[i] == held[i];
      assert held <= all;
    } else {
      forall i | |held| <= i < |all| ensures all[i] != first { assert all[i] !in held; }
    }
  }

  // ----- all files of a plan -----

  /** What a plan's files make of the output at a path: one answer after the other. */
  ghost predicate Told(cfg: Config, plan: FilePlan, java: seq<(string, string)>, path: string, held: Option<Output>, out: Option<Output>)
    decreases |java|
  {
    if java == [] then out == held
    else
      var init, (name, text) := java[..|java| - 1], java[|java| - 1];
      if cfg.target(plan.file, name) != path then Told(cfg, plan, init, path, held, out)
      else
        && out.Some? && name in plan.owners
        && exists mid :: Told(cfg, plan, init, path, held, mid) && Answers(cfg, plan, mid, name, text, out.value)
  }

  lemma {:induction false} KeepAllTold(cfg: Config, b: Books, plan: FilePlan, java: seq<(string, string)>, path: string)
    requires KeepAll(cfg, b, plan, java).Some?
    ensures Told(cfg, plan, java, path, HeldAt(b, path), HeldAt(KeepAll(cfg, b, plan, java).value, path))
    decreases |java|
  {
    if java != [] {
      hide NewOutput, Answers, Told;
      var init, last := java[..|java| - 1], java[|java| - 1];
      KeepAllLast(cfg, b, plan, java);
      KeepAllTold(cfg, b, plan, init, path);
      var mid := KeepAll(cfg, b, plan, init).value;
      NewOutputAnswers(cfg, mid, plan, last.0, last.1);
      OwnersKnown(cfg, mid, plan, last.0, last.1);
      ToldLast(cfg, plan, java, path, HeldAt(b, path), HeldAt(mid, path), HeldAt(KeepAll(cfg, b, plan, java).value, path));
    } else {
      NothingTold(cfg, plan, path, HeldAt(b, path));
    }
  }

  lemma NothingTold(cfg: Config, plan: FilePlan, path: string, held: Option<Output>)
    ensures Told(cfg, plan, [], path, held, held)
  {
  }

  lemma OwnersKnown(cfg: Config, b: Books, plan: FilePlan, name: string, text: string)
    requires NewOutput(cfg, b, plan, name, text).Some?
    ensures name in plan.owners
  {
  }

  lemma ToldLast(cfg: Config, plan: FilePlan, java: seq<(string, string)>, path: string, held: Option<Output>, mid: Option<Output>, out: Option<Output>)
    requires java != [] && Told(cfg, plan, java[..|java| - 1], path, held, mid)
    requires var (name, text) := java[|java| - 1];
      if cfg.target(plan.file, name) == path then out.Some? && name in plan.owners && Answers(cfg, plan, mid, name, text, out.value)
      else out == mid
    ensures Told(cfg, plan, java, path, held, out)
  {
    hide Answers;
  }

  /** The last file of a list comes last. */
  lemma {:induction false} KeepAllLast(cfg: Config, b: Books, plan: FilePlan, java: seq<(string, string)>)
    requires java != [] && KeepAll(cfg, b, plan, java).Some?
    ensures var init, (name, text) := java[..|java| - 1], java[|java| - 1];
      && KeepAll(cfg, b, plan, init).Some?
      && var mid := KeepAll(cfg, b, plan, init).value;
         && NewOutput(cfg, mid, plan, name, text).Some?
         && KeepAll(cfg, b, plan, java).value == Keep(cfg, mid, plan, name, NewOutput(cfg, mid, plan, name, text).value)
    decreases |java|
  {
    hide NewOutput, Keep;
    var next := Keep(cfg, b, plan, java[0].0, NewOutput(cfg, b, plan, java[0].0, java[0].1).value);
    if |java| == 1 {
      assert java[1..] == [] && java[..0] == [];
    } else {
      KeepAllLast(cfg, next, plan, java[1..]);
      assert java[..|java| - 1][1..] == java[1..][..|java| - 2];
    }
  }

  // ----- a round -----

  /** The plan is not vetoed and writes to the path. */
  predicate WritesTo(cfg: Config, plan: FilePlan, path: string) {
    !cfg.Vetoes(plan) && exists k :: 0 <= k < |plan.java| && cfg.target(plan.file, plan.java[k].0) == path
  }

  /** What a plan finds at a path: what was there when the round began, if that is of its file. */
  function FoundAt(cfg: Config, b: Books, file: string, path: string): Option<Output> {
    if path in b.outputs && cfg.norm(b.outputs[path].origin) == cfg.norm(file) then Some(b.outputs[path]) else None
  }

  /** The output at a path after a plan. */
  ghost predicate PlanTells(cfg: Config, plan: FilePlan, path: string, held: Option<Output>, out: Option<Output>) {
    if cfg.Vetoes(plan) then
      out == if held.Some? && cfg.norm(held.value.origin) == cfg.norm(plan.file) then None else held
    else Told(cfg, plan, plan.java, path, held, out)
  }

  lemma AcceptTells(cfg: Config, b: Books, plan: FilePlan, path: string)
    requires Accept(cfg, b, plan).Some?
    ensures PlanTells(cfg, plan, path, HeldAt(b, path), HeldAt(Accept(cfg, b, plan).value, path))
  {
    hide Told, KeepAll;
    if !cfg.Vetoes(plan) {
      var proposed := Propose(b, plan, plan.proposal.value);
      KeepAllTold(cfg, proposed, plan, plan.java, path);
      assert proposed.outputs == b.outputs;
    }
  }

  lemma {:induction false} ToldElsewhere(cfg: Config, plan: FilePlan, java: seq<(string, string)>, path: string, held: Option<Output>, out: Option<Output>)
    requires Told(cfg, plan, java, path, held, out)
    requires forall k :: 0 <= k < |java| ==> cfg.target(plan.file, java[k].0) != path
    ensures out == held
    decreases |java|
  {
    if java != [] { ToldElsewhere(cfg, plan, java[..|java| - 1], path, held, out); }
  }

  /** What one plan leaves at a path it does not write to. */
  lemma Bystander(cfg: Config, plan: FilePlan, path: string, held: Option<Output>, out: Option<Output>)
    requires PlanTells(cfg, plan, path, held, out) && !WritesTo(cfg, plan, path)
    ensures out == if cfg.Vetoes(plan) && held.Some? && cfg.norm(held.value.origin) == cfg.norm(plan.file) then None else held
  {
    if !cfg.Vetoes(plan) { ToldElsewhere(cfg, plan, plan.java, path, held, out); }
  }

  /** The output at a path after plans none of which writes to it. */
  lemma {:induction false} NobodyWrites(cfg: Config, b: Books, plans: seq<FilePlan>, path: string)
    requires AcceptAll(cfg, b, plans).Some? && forall i :: 0 <= i < |plans| ==> !WritesTo(cfg, plans[i], path)
    ensures HeldAt(AcceptAll(cfg, b, plans).value, path)
         == if path in b.outputs && VetoesSome(cfg, plans, cfg.norm(b.outputs[path].origin)) then None else HeldAt(b, path)
    decreases |plans|
  {
    if plans != [] {
      hide Accept, PlanTells, WritesTo, VetoesSome;
      var next := Accept(cfg, b, plans[0]).value;
      AcceptTells(cfg, b, plans[0], path);
      Bystander(cfg, plans[0], path, HeldAt(b, path), HeldAt(next, path));
      assert forall i :: 0 <= i < |plans[1..]| ==> plans[1..][i] == plans[i + 1];
      NobodyWrites(cfg, next, plans[1..], path);
      VetoedSplit(cfg, plans);
    } else {
      assert forall id :: !VetoesSome(cfg, plans, id);
    }
  }

  /** A plan that writes to a path found nothing of another file there. */
  lemma {:induction false} WriterFinds(cfg: Config, b: Books, plan: FilePlan, java: seq<(string, string)>, path: string)
    requires KeepAll(cfg, b, plan, java).Some? && exists k :: 0 <= k < |java| && cfg.target(plan.file, java[k].0) == path
    ensures path in b.outputs ==> b.outputs[path].origin == plan.file
    decreases |java|
  {
    var k :| 0 <= k < |java| && cfg.target(plan.file, java[k].0) == path;
    if cfg.target(plan.file, java[0].0) != path {
      hide NewOutput;
      var next := Keep(cfg, b, plan, java[0].0, NewOutput(cfg, b, plan, java[0].0, java[0].1).value);
      assert java[1..][k - 1] == java[k];
      WriterFinds(cfg, next, plan, java[1..], path);
    }
  }

  /** Within a round: where plan `i` writes to a path, its own answers stand there in the end, and
      they start from what it had there before the round. */
  lemma {:induction false} WriterTells(cfg: Config, b: Books, plans: seq<FilePlan>, i: nat, path: string)
    requires PlannedOnce(cfg, plans) && AcceptAll(cfg, b, plans).Some? && i < |plans| && WritesTo(cfg, plans[i], path)
    ensures Told(cfg, plans[i], plans[i].java, path, FoundAt(cfg, b, plans[i].file, path), HeldAt(AcceptAll(cfg, b, plans).value, path))
    ensures path in AcceptAll(cfg, b, plans).value.outputs
    decreases |plans|
  {
    hide Accept, Told;
    var plan, next := plans[0], Accept(cfg, b, plans[0]).value;
    AcceptTells(cfg, b, plan, path);
    if i > 0 {
      var rest := plans[1..];
      assert rest[i - 1] == plans[i];
      RestPlannedOnce(cfg, plans);
      WriterTells(cfg, next, rest, i - 1, path);
      EarlierPlan(cfg, b, plans, i, path);
    } else {
      FirstWriter(cfg, b, plans, path);
    }
  }

  /** The first plan writes: nobody after it touches the path. */
  lemma FirstWriter(cfg: Config, b: Books, plans: seq<FilePlan>, path: string)
    requires PlannedOnce(cfg, plans) && AcceptAll(cfg, b, plans).Some? && plans != [] && WritesTo(cfg, plans[0], path)
    ensures Told(cfg, plans[0], plans[0].java, path, FoundAt(cfg, b, plans[0].file, path), HeldAt(AcceptAll(cfg, b, plans).value, path))
    ensures path in AcceptAll(cfg, b, plans).value.outputs
  {
    hide Told, KeepAll;
    var plan, next, rest := plans[0], Accept(cfg, b, plans[0]).value, plans[1..];
    AcceptTells(cfg, b, plan, path);
    var proposed := Propose(b, plan, plan.proposal.value);
    assert proposed.outputs == b.outputs;
    WriterFinds(cfg, proposed, plan, plan.java, path);
    assert HeldAt(b, path) == FoundAt(cfg, b, plan.file, path);
    ToldOrigin(cfg, plan, plan.java, path, HeldAt(b, path), HeldAt(next, path));
    assert next.outputs[path].origin == plan.file;
    Untouched(cfg, next, rest, path);
  }

  lemma {:induction false} ToldOrigin(cfg: Config, plan: FilePlan, java: seq<(string, string)>, path: string, held: Option<Output>, out: Option<Output>)
    requires Told(cfg, plan, java, path, held, out) && exists k :: 0 <= k < |java| && cfg.target(plan.file, java[k].0) == path
    ensures out.Some? && out.value.origin == plan.file
    decreases |java|
  {
    var k :| 0 <= k < |java| && cfg.target(plan.file, java[k].0) == path;
    if cfg.target(plan.file, java[|java| - 1].0) != path {
      assert java[..|java| - 1][k] == java[k];
      ToldOrigin(cfg, plan, java[..|java| - 1], path, held, out);
    }
  }

  /** Plans of other files leave an output alone, or are refused. */
  lemma {:induction false} Untouched(cfg: Config, b: Books, plans: seq<FilePlan>, path: string)
    requires AcceptAll(cfg, b, plans).Some? && path in b.outputs
    requires forall i :: 0 <= i < |plans| ==> cfg.norm(plans[i].file) != cfg.norm(b.outputs[path].origin)
    ensures HeldAt(AcceptAll(cfg, b, plans).value, path) == HeldAt(b, path)
    decreases |plans|
  {
    if plans != [] {
      hide PlanTells, KeepAll;
      var plan, next := plans[0], Accept(cfg, b, plans[0]).value;
      AcceptTells(cfg, b, plan, path);
      if WritesTo(cfg, plan, path) {
        WriterFinds(cfg, Propose(b, plan, plan.proposal.value), plan, plan.java, path);
        assert false;
      }
      Bystander(cfg, plan, path, HeldAt(b, path), HeldAt(next, path));
      assert forall i :: 0 <= i < |plans[1..]| ==> plans[1..][i] == plans[i + 1];
      Untouched(cfg, next, plans[1..], path);
    }
  }

  /** What the first plan leaves for a later one. */
  lemma EarlierPlan(cfg: Config, b: Books, plans: seq<FilePlan>, i: nat, path: string)
    requires PlannedOnce(cfg, plans) && AcceptAll(cfg, b, plans).Some? && 0 < i < |plans| && WritesTo(cfg, plans[i], path)
    ensures FoundAt(cfg, Accept(cfg, b, plans[0]).value, plans[i].file, path) == FoundAt(cfg, b, plans[i].file, path)
  {
    hide PlanTells, KeepAll;
    var plan, next := plans[0], Accept(cfg, b, plans[0]).value;
    AcceptTells(cfg, b, plan, path);
    if WritesTo(cfg, plan, path) {
      FirstWriter(cfg, b, plans, path);
      var proposed := Propose(b, plan, plan.proposal.value);
      WriterFinds(cfg, proposed, plan, plan.java, path);
      WriterOwns(cfg, b, plan, path);
      assert cfg.norm(plan.file) != cfg.norm(plans[i].file);
    } else {
      Bystander(cfg, plan, path, HeldAt(b, path), HeldAt(next, path));
    }
  }

  lemma WriterOwns(cfg: Config, b: Books, plan: FilePlan, path: string)
    requires Accept(cfg, b, plan).Some? && WritesTo(cfg, plan, path)
    ensures path in Accept(cfg, b, plan).value.outputs && Accept(cfg, b, plan).value.outputs[path].origin == plan.file
  {
    hide Told, KeepAll;
    AcceptTells(cfg, b, plan, path);
    ToldOrigin(cfg, plan, plan.java, path, HeldAt(b, path), HeldAt(Accept(cfg, b, plan).value, path));
  }

  /** Main result for a round. At a path some unvetoed plan writes to stands what that plan's
      emitted texts say; any other output is what it was, or gone with its vetoed file. */
  lemma RoundTexts(cfg: Config, start: Books, input: Input, path: string)
    requires PlannedOnce(cfg, input.plans) && RoundOf(cfg, start, input).Some?
    ensures var b := RoundOf(cfg, start, input).value;
      && (forall i :: 0 <= i < |input.plans| && WritesTo(cfg, input.plans[i], path) ==>
            path in b.outputs && Told(cfg, input.plans[i], input.plans[i].java, path, FoundAt(cfg, start, input.plans[i].file, path), HeldAt(b, path)))
      && ((forall i :: 0 <= i < |input.plans| ==> !WritesTo(cfg, input.plans[i], path)) ==>
            HeldAt(b, path) == if path in start.outputs && VetoesSome(cfg, input.plans, cfg.norm(start.outputs[path].origin)) then None else HeldAt(start, path))
  {
    hide AcceptAll, Told, WritesTo, VetoesSome, Repaired;
    var begun := start.(changed := false, vetoed := {});
    forall i | 0 <= i < |input.plans| && WritesTo(cfg, input.plans[i], path)
      ensures path in AcceptAll(cfg, begun, input.plans).value.outputs
      ensures Told(cfg, input.plans[i], input.plans[i].java, path, FoundAt(cfg, begun, input.plans[i].file, path), HeldAt(AcceptAll(cfg, begun, input.plans).value, path))
    {
      WriterTells(cfg, begun, input.plans, i, path);
    }
    if forall i :: 0 <= i < |input.plans| ==> !WritesTo(cfg, input.plans[i], path) {
      NobodyWrites(cfg, begun, input.plans, path);
    }
  }

  // ----- a run -----

  /** The books before round `n`. */
  function BooksBefore(cfg: Config, start: Books, inputs: seq<Input>, n: nat): Option<Books>
    requires n <= |inputs|
  {
    if n == 0 then Some(start)
    else match BooksBefore(cfg, start, inputs, n - 1)
      case None => None
      case Some(b) => RoundOf(cfg, b, inputs[n - 1])
  }

  predicate RoundWrites(cfg: Config, input: Input, path: string) {
    exists i :: 0 <= i < |input.plans| && WritesTo(cfg, input.plans[i], path)
  }

  /** Round `j` is the last of the first `n` that wrote to the path. */
  predicate LastWrote(cfg: Config, inputs: seq<Input>, n: nat, path: string, j: nat) {
    j < n <= |inputs| && RoundWrites(cfg, inputs[j], path) && forall k :: j < k < n ==> !RoundWrites(cfg, inputs[k], path)
  }

  /** Plan `i` of round `j` tells what is at the path. */
  ghost predicate ToldIn(cfg: Config, start: Books, inputs: seq<Input>, path: string, j: nat, i: nat, out: Output) {
    && j < |inputs| && i < |inputs[j].plans| && WritesTo(cfg, inputs[j].plans[i], path)
    && BooksBefore(cfg, start, inputs, j).Some?
    && var plan := inputs[j].plans[i];
       Told(cfg, plan, plan.java, path, FoundAt(cfg, BooksBefore(cfg, start, inputs, j).value, plan.file, path), Some(out))
  }

  /** Main result for a run from nothing. Every output stands as the last round that wrote to its
      path told it. */
  lemma {:induction false} TextsAreLast(cfg: Config, start: Books, inputs: seq<Input>, n: nat, path: string)
    requires AllPlannedOnce(cfg, inputs) && start.outputs == map[] && n <= |inputs|
    requires BooksBefore(cfg, start, inputs, n).Some? && path in BooksBefore(cfg, start, inputs, n).value.outputs
    ensures var out := BooksBefore(cfg, start, inputs, n).value.outputs[path];
      exists j, i :: LastWrote(cfg, inputs, n, path, j) && ToldIn(cfg, start, inputs, path, j, i, out)
    decreases n
  {
    hide RoundOf, Told, WritesTo, VetoesSome, PlannedOnce;
    if n > 0 {
      var before, input := BooksBefore(cfg, start, inputs, n - 1).value, inputs[n - 1];
      var b := BooksBefore(cfg, start, inputs, n).value;
      RoundTexts(cfg, before, input, path);
      if RoundWrites(cfg, input, path) {
        var i :| 0 <= i < |input.plans| && WritesTo(cfg, input.plans[i], path);
        assert ToldIn(cfg, start, inputs, path, n - 1, i, b.outputs[path]);
        assert LastWrote(cfg, inputs, n, path, n - 1);
      } else {
        assert HeldAt(b, path) == HeldAt(before, path);
        TextsAreLast(cfg, start, inputs, n - 1, path);
        var j, i :| LastWrote(cfg, inputs, n - 1, path, j) && ToldIn(cfg, start, inputs, path, j, i, before.outputs[path]);
        assert LastWrote(cfg, inputs, n, path, j);
      }
    }
  }

  /** What a run settles on are the books after its last round. */
  lemma {:induction false} RunIsBooks(cfg: Config, start: Books, ever: set<string>, inputs: seq<Input>, pass: nat)
    requires RunOf(cfg, start, ever, inputs, pass).Settled?
    ensures var r := RunOf(cfg, start, ever, inputs, pass);
      && pass <= r.rounds < pass + |inputs|
      && BooksBefore(cfg, start, inputs, r.rounds - pass + 1) == Some(r.books)
    decreases |inputs|
  {
    hide RoundOf;
    var b := RoundOf(cfg, start, inputs[0]).value;
    assert BooksBefore(cfg, start, inputs, 0) == Some(start);
    assert BooksBefore(cfg, start, inputs, 1) == Some(b);
    if !(b.files == start.files && !b.changed) {
      RunIsBooks(cfg, b, ever + b.vetoed, inputs[1..], pass + 1);
      var n := RunOf(cfg, start, ever, inputs, pass).rounds - pass;
      BooksShift(cfg, start, inputs, b, n);
    }
  }

  lemma {:induction false} BooksShift(cfg: Config, start: Books, inputs: seq<Input>, b: Books, n: nat)
    requires inputs != [] && n <= |inputs[1..]| && RoundOf(cfg, start, inputs[0]) == Some(b)
    ensures BooksBefore(cfg, b, inputs[1..], n) == BooksBefore(cfg, start, inputs, n + 1)
  {
    hide RoundOf;
    if n == 0 {
      assert BooksBefore(cfg, start, inputs, 0) == Some(start);
    } else {
      BooksShift(cfg, start, inputs, b, n - 1);
      assert inputs[1..][n - 1] == inputs[n];
    }
  }

  /** Main result. Over every run that settles: the Java at each path is what the last round that
      wrote there emitted, or what the merge made of it. */
  lemma SettledTexts(cfg: Config, edited: map<string, string>, inputs: seq<Input>, first: nat, path: string)
    requires AllPlannedOnce(cfg, inputs) && RunOf(cfg, Books(edited, map[], map[], false, {}), {}, inputs, first).Settled?
    requires path in RunOf(cfg, Books(edited, map[], map[], false, {}), {}, inputs, first).books.outputs
    ensures var start := Books(edited, map[], map[], false, {});
      var r := RunOf(cfg, start, {}, inputs, first);
      first <= r.rounds && exists j, i :: LastWrote(cfg, inputs, r.rounds - first + 1, path, j) && ToldIn(cfg, start, inputs, path, j, i, r.books.outputs[path])
  {
    hide RunOf, BooksBefore, AllPlannedOnce, LastWrote, ToldIn;
    var start := Books(edited, map[], map[], false, {});
    RunIsBooks(cfg, start, {}, inputs, first);
    TextsAreLast(cfg, start, inputs, RunOf(cfg, start, {}, inputs, first).rounds - first + 1, path);
  }

  // ----- the retained files -----

  /** The call-site repairs get exactly the files that were not vetoed; what the property repairs
      return is what the round leaves, but for the vetoed ones. */
  lemma RepairsKept(cfg: Config, start: Books, input: Input)
    requires RoundOf(cfg, start, input).Some?
    ensures var accepted, b := AcceptAll(cfg, start.(changed := false, vetoed := {}), input.plans).value, RoundOf(cfg, start, input).value;
      && (forall p :: p in Unvetoed(cfg, accepted) <==> p in accepted.files && cfg.norm(p) !in b.vetoed)
      && (forall p :: p in Unvetoed(cfg, accepted) ==> Unvetoed(cfg, accepted)[p] == accepted.files[p])
      && (forall p :: p in b.files <==> p in input.properties(BeforeProperties(cfg, start, input)))
      && (forall p :: p in b.files && cfg.norm(p) !in b.vetoed ==> b.files[p] == input.properties(BeforeProperties(cfg, start, input))[p])
      && (forall p :: p in BeforeProperties(cfg, start, input) && cfg.norm(p) !in b.vetoed ==>
            p in input.calls(Unvetoed(cfg, accepted)) && BeforeProperties(cfg, start, input)[p] == input.calls(Unvetoed(cfg, accepted))[p])
  {
    hide AcceptAll, Restore, Original;
    var accepted := AcceptAll(cfg, start.(changed := false, vetoed := {}), input.plans).value;
    var called := input.calls(Unvetoed(cfg, accepted));
    RestoredOnly(cfg, cfg.sources, accepted.vetoed, called);
  }

  lemma {:induction false} RestoredOnly(cfg: Config, sources: seq<(string, string)>, vetoed: set<string>, files: map<string, string>)
    ensures forall p :: cfg.norm(p) !in vetoed ==>
      (p in Restore(cfg, sources, vetoed, files) <==> p in files)
      && (p in files ==> Restore(cfg, sources, vetoed, files)[p] == files[p])
  {
    if sources != [] { RestoredOnly(cfg, sources[..|sources| - 1], vetoed, files); }
  }

  // ----- the proposals -----

  /** What a proposal makes of a file. */
  function Proposed(original: string, proposal: Proposal): Option<string> {
    match proposal
    case Untouched => Some(original)
    case Delete => None
    case Rewrite(text) => Some(text)
  }

  /** Carried out, the final proposal leaves a vetoed file alone and gives every other one its final
      text, or takes it away; and it rewrites only where the text differs. */
  lemma ProposalReachesFinal(cfg: Config, strictVetoed: set<string>, final: map<string, string>, path: string, original: string)
    ensures var proposal := FinalProposal(cfg, strictVetoed, final, path, original);
      && Proposed(original, proposal) ==
           (if cfg.norm(path) in strictVetoed then Some(original) else if path in final then Some(final[path]) else None)
      && (proposal.Rewrite? ==> proposal.text != original)
  {
  }
}
