/** The planner's state, changed in place round after round. */
module RoundLoop {
  import opened Options
  import opened Rounds

  class Workspace {
    const cfg: Config
    var files: map<string, string>
    var outputs: map<string, Output>
    var identities: map<string, string>
    var changed: bool
    var vetoed: set<string>
    /** Whatever was ever vetoed. */
    var strictVetoed: set<string>

    ghost function Now(): Books
      reads this
    {
      Books(files, outputs, identities, changed, vetoed)
    }

    constructor (cfg: Config, edited: map<string, string>)
      ensures this.cfg == cfg && Now() == Books(edited, map[], map[], false, {}) && strictVetoed == {}
    {
      this.cfg := cfg;
      files, outputs, identities, changed, vetoed, strictVetoed := edited, map[], map[], false, {}, {};
    }

    method VetoFile(plan: FilePlan)
      modifies this
      ensures Now() == Veto(cfg, old(Now()), plan)
      ensures strictVetoed == old(strictVetoed) + {cfg.norm(plan.file)}
    {
      var id := cfg.norm(plan.file);
      var original := Original(cfg, cfg.sources, id);
      if original.Some? {
        files := files[plan.file := original.value];
      }
      strictVetoed, vetoed := strictVetoed + {id}, vetoed + {id};
      DropOutputs(Stale(cfg, Books(files, outputs, identities, changed, vetoed), id));
    }

    method DropOutputs(stale: set<string>)
      modifies this`outputs, this`identities, this`changed
      ensures outputs == old(outputs) - stale && identities == old(identities) - Identities(cfg, stale)
      ensures changed == (old(changed) || stale != {})
    {
      var rest, done := stale, {};
      while rest != {}
        invariant done + rest == stale
        invariant outputs == old(outputs) - done && identities == old(identities) - Identities(cfg, done)
        invariant changed == (old(changed) || done != {})
      {
        var path :| path in rest;
        OneMoreIdentity(cfg, done, path);
        outputs, identities, changed := outputs - {path}, identities - {cfg.norm(path)}, true;
        rest, done := rest - {path}, done + {path};
      }
    }

    method AcceptOutputs(plan: FilePlan) returns (ok: bool)
      modifies this
      ensures ok <==> KeepAll(cfg, old(Now()), plan, plan.java).Some?
      ensures ok ==> Now() == KeepAll(cfg, old(Now()), plan, plan.java).value
      ensures strictVetoed == old(strictVetoed)
    {
      for i := 0 to |plan.java|
        invariant KeepAll(cfg, Now(), plan, plan.java[i..]) == KeepAll(cfg, old(Now()), plan, plan.java)
        invariant strictVetoed == old(strictVetoed)
      {
        hide NewOutput;
        var (name, text) := plan.java[i];
        assert plan.java[i..][0] == (name, text) && plan.java[i..][1..] == plan.java[i + 1..];
        var value := NewOutput(cfg, Books(files, outputs, identities, changed, vetoed), plan, name, text);
        if value.None? {
          return false;
        }
        var path := cfg.target(plan.file, name);
        changed := changed || path !in outputs || outputs[path] != value.value;
        outputs := outputs[path := value.value];
        identities := identities[cfg.norm(path) := path];
      }
      return true;
    }

    method AcceptPlan(plan: FilePlan) returns (ok: bool)
      modifies this
      ensures ok <==> Accept(cfg, old(Now()), plan).Some?
      ensures ok ==> Now() == Accept(cfg, old(Now()), plan).value
      ensures strictVetoed == old(strictVetoed) + if cfg.Vetoes(plan) then {cfg.norm(plan.file)} else {}
    {
      hide Veto, KeepAll;
      if cfg.Vetoes(plan) {
        VetoFile(plan);
        return true;
      }
      if plan.proposal.None? {
        return false;
      }
      match plan.proposal.value {
        case Untouched =>
        case Delete => files := files - {plan.file};
        case Rewrite(text) => files := files[plan.file := text];
      }
      ok := AcceptOutputs(plan);
    }

    method RestoreVetoed(repaired: map<string, string>) returns (next: map<string, string>)
      ensures next == Restore(cfg, cfg.sources, vetoed, repaired)
    {
      next := repaired;
      for i := 0 to |cfg.sources|
        invariant next == Restore(cfg, cfg.sources[..i], vetoed, repaired)
      {
        assert cfg.sources[..i + 1][..i] == cfg.sources[..i];
        var (path, original) := cfg.sources[i];
        if cfg.norm(path) in vetoed {
          next := next[path := original];
        }
      }
      assert cfg.sources[..|cfg.sources|] == cfg.sources;
    }

    /** One round. It has settled when neither the files nor the outputs moved. */
    method Round(input: Input) returns (ok: bool, settled: bool)
      modifies this
      ensures ok <==> RoundOf(cfg, old(Now()), input).Some?
      ensures ok ==> Now() == RoundOf(cfg, old(Now()), input).value && strictVetoed == old(strictVetoed) + vetoed
      ensures ok ==> (settled <==> files == old(files) && !changed)
    {
      hide Accept, Restore, Undo;
      settled := false;
      for i := 0 to |input.plans|
        invariant forall j :: 0 <= j < i ==> !input.plans[j].failed
        invariant Now() == old(Now()) && strictVetoed == old(strictVetoed)
      {
        if input.plans[i].failed {
          return false, false;
        }
      }
      var before := files;
      changed, vetoed := false, {};
      ghost var begun := Now();
      for i := 0 to |input.plans|
        invariant AcceptAll(cfg, Now(), input.plans[i..]) == AcceptAll(cfg, begun, input.plans)
        invariant strictVetoed == old(strictVetoed) + vetoed
      {
        assert input.plans[i..][0] == input.plans[i] && input.plans[i..][1..] == input.plans[i + 1..];
        ghost var was := Now();
        ok := AcceptPlan(input.plans[i]);
        if !ok {
          return false, false;
        }
        AcceptVetoes(cfg, was, input.plans[i]);
      }
      var repaired := input.calls(Unvetoed(cfg, Books(files, outputs, identities, changed, vetoed)));
      var restored := RestoreVetoed(repaired);
      files := Undo(cfg, vetoed, input.properties(restored));
      return true, files == before && !changed;
    }
  }

  lemma OneMoreIdentity(cfg: Config, paths: set<string>, path: string)
    ensures Identities(cfg, paths + {path}) == Identities(cfg, paths) + {cfg.norm(path)}
  {
  }

  lemma AcceptVetoes(cfg: Config, b: Books, plan: FilePlan)
    requires Accept(cfg, b, plan).Some?
    ensures Accept(cfg, b, plan).value.vetoed == b.vetoed + if cfg.Vetoes(plan) then {cfg.norm(plan.file)} else {}
  {
    if !cfg.Vetoes(plan) {
      KeepAllVetoes(cfg, Propose(b, plan, plan.proposal.value), plan, plan.java);
    }
  }

  lemma {:induction false} KeepAllVetoes(cfg: Config, b: Books, plan: FilePlan, java: seq<(string, string)>)
    requires KeepAll(cfg, b, plan, java).Some?
    ensures KeepAll(cfg, b, plan, java).value.vetoed == b.vetoed
    decreases |java|
  {
    hide NewOutput;
    if java != [] {
      KeepAllVetoes(cfg, Keep(cfg, b, plan, java[0].0, NewOutput(cfg, b, plan, java[0].0, java[0].1).value), plan, java[1..]);
    }
  }

  // ----- whole runs -----

  datatype Run = Failed | Unsettled | Settled(books: Books, before: Books, strictVetoed: set<string>, rounds: nat)

  /** The rounds from number `pass` on, until one settles. */
  function RunOf(cfg: Config, start: Books, ever: set<string>, inputs: seq<Input>, pass: nat): Run
    decreases |inputs|
  {
    if inputs == [] then Unsettled
    else match RoundOf(cfg, start, inputs[0])
      case None => Failed
      case Some(b) =>
        if b.files == start.files && !b.changed then Settled(b, start, ever + b.vetoed, pass)
        else RunOf(cfg, b, ever + b.vetoed, inputs[1..], pass + 1)
  }

  ghost predicate AllPlannedOnce(cfg: Config, inputs: seq<Input>) {
    forall i :: 0 <= i < |inputs| ==> PlannedOnce(cfg, inputs[i].plans)
  }

  /** Main result: over every run. What a run settles on came out of a round that changed
      neither the files nor the outputs; every output has one origin, and a file vetoed in
      that last round has its text and owns no output. The pass number is within the limit. */
  lemma {:induction false} RunKeeps(cfg: Config, start: Books, ever: set<string>, inputs: seq<Input>, pass: nat)
    requires Consistent(cfg, start) && AllPlannedOnce(cfg, inputs) && RunOf(cfg, start, ever, inputs, pass).Settled?
    ensures var r := RunOf(cfg, start, ever, inputs, pass);
      && Consistent(cfg, r.books) && VetoedOwnNothing(cfg, r.books) && VetoedOriginal(cfg, r.books)
      && r.books.files == r.before.files && r.books.outputs == r.before.outputs
      && ever + r.books.vetoed <= r.strictVetoed
      && pass <= r.rounds < pass + |inputs|
    decreases |inputs|
  {
    hide Consistent, VetoedOwnNothing, VetoedOriginal, PlannedOnce, RoundOf;
    RoundKeeps(cfg, start, inputs[0]);
    var b := RoundOf(cfg, start, inputs[0]).value;
    if !(b.files == start.files && !b.changed) {
      assert forall i :: 0 <= i < |inputs[1..]| ==> inputs[1..][i] == inputs[i + 1];
      RunKeeps(cfg, b, ever + b.vetoed, inputs[1..], pass + 1);
    }
  }

  method PlanRounds(cfg: Config, edited: map<string, string>, inputs: seq<Input>, first: nat) returns (run: Run)
    ensures run == RunOf(cfg, Books(edited, map[], map[], false, {}), {}, inputs, first)
  {
    hide RoundOf;
    var space := new Workspace(cfg, edited);
    ghost var start := space.Now();
    for i := 0 to |inputs|
      invariant space.cfg == cfg
      invariant RunOf(cfg, space.Now(), space.strictVetoed, inputs[i..], first + i) == RunOf(cfg, start, {}, inputs, first)
    {
      assert inputs[i..][0] == inputs[i] && inputs[i..][1..] == inputs[i + 1..];
      var before := Books(space.files, space.outputs, space.identities, space.changed, space.vetoed);
      var ok, settled := space.Round(inputs[i]);
      if !ok {
        return Failed;
      }
      if settled {
        return Settled(Books(space.files, space.outputs, space.identities, space.changed, space.vetoed), before, space.strictVetoed, first + i);
      }
    }
    return Unsettled;
  }

  // ----- what is proposed in the end -----

  /** The proposal for an input, from the texts the run ends with. */
  function FinalProposal(cfg: Config, strictVetoed: set<string>, final: map<string, string>, path: string, original: string): Proposal {
    if cfg.norm(path) in strictVetoed then Untouched
    else if path !in final then Delete
    else if final[path] == original then Untouched
    else Rewrite(final[path])
  }

  /** An input vetoed in the settling round is left alone and nothing was generated from it. */
  lemma LastVetoIsClean(cfg: Config, edited: map<string, string>, inputs: seq<Input>, first: nat, i: nat, final: map<string, string>)
    requires AllPlannedOnce(cfg, inputs) && i < |cfg.sources|
    requires RunOf(cfg, Books(edited, map[], map[], false, {}), {}, inputs, first).Settled?
    requires cfg.norm(cfg.sources[i].0) in RunOf(cfg, Books(edited, map[], map[], false, {}), {}, inputs, first).books.vetoed
    ensures var r := RunOf(cfg, Books(edited, map[], map[], false, {}), {}, inputs, first);
      && FinalProposal(cfg, r.strictVetoed, final, cfg.sources[i].0, cfg.sources[i].1) == Untouched
      && forall p :: p in r.books.outputs ==> cfg.norm(r.books.outputs[p].origin) != cfg.norm(cfg.sources[i].0)
  {
    RunKeeps(cfg, Books(edited, map[], map[], false, {}), {}, inputs, first);
  }

  // ----- who owns an output in the end -----

  /** Some output was generated from the file. */
  ghost predicate Owns(cfg: Config, b: Books, id: string) {
    exists p :: p in b.outputs && cfg.norm(b.outputs[p].origin) == id
  }

  /** Some plan of the file is not vetoed and has Java. */
  ghost predicate Emits(cfg: Config, plans: seq<FilePlan>, id: string) {
    exists i :: 0 <= i < |plans| && EmitsJava(cfg, plans[i], id)
  }

  predicate EmitsJava(cfg: Config, plan: FilePlan, id: string) {
    !cfg.Vetoes(plan) && cfg.norm(plan.file) == id && plan.java != []
  }

  lemma {:induction false} KeepAllOwns(cfg: Config, b: Books, plan: FilePlan, java: seq<(string, string)>, id: string)
    requires KeepAll(cfg, b, plan, java).Some?
    ensures Owns(cfg, KeepAll(cfg, b, plan, java).value, id) <==> Owns(cfg, b, id) || (cfg.norm(plan.file) == id && java != [])
    decreases |java|
  {
    if java != [] {
      var value := NewOutput(cfg, b, plan, java[0].0, java[0].1).value;
      var next := Keep(cfg, b, plan, java[0].0, value);
      var path := cfg.target(plan.file, java[0].0);
      assert path in next.outputs && next.outputs[path].origin == plan.file;
      if Owns(cfg, b, id) {
        var p :| p in b.outputs && cfg.norm(b.outputs[p].origin) == id;
        assert p in next.outputs && next.outputs[p].origin == b.outputs[p].origin;
      }
      KeepAllOwns(cfg, next, plan, java[1..], id);
    }
  }

  lemma AcceptOwns(cfg: Config, b: Books, plan: FilePlan, id: string)
    requires Accept(cfg, b, plan).Some?
    ensures Owns(cfg, Accept(cfg, b, plan).value, id) <==>
      if cfg.Vetoes(plan) && cfg.norm(plan.file) == id then false else Owns(cfg, b, id) || EmitsJava(cfg, plan, id)
  {
    hide KeepAll;
    if cfg.Vetoes(plan) {
      var v := Veto(cfg, b, plan);
      if Owns(cfg, b, id) && cfg.norm(plan.file) != id {
        var p :| p in b.outputs && cfg.norm(b.outputs[p].origin) == id;
        assert p in v.outputs;
      }
    } else {
      KeepAllOwns(cfg, Propose(b, plan, plan.proposal.value), plan, plan.java, id);
      assert Propose(b, plan, plan.proposal.value).outputs == b.outputs;
    }
  }

  lemma {:induction false} AcceptAllOwns(cfg: Config, b: Books, plans: seq<FilePlan>, id: string)
    requires PlannedOnce(cfg, plans) && AcceptAll(cfg, b, plans).Some?
    ensures Owns(cfg, AcceptAll(cfg, b, plans).value, id) <==>
      if VetoesSome(cfg, plans, id) then false else Owns(cfg, b, id) || Emits(cfg, plans, id)
    decreases |plans|
  {
    if plans != [] {
      hide Accept, Owns, EmitsJava, VetoesSome, Emits, PlannedOnce;
      AcceptOwns(cfg, b, plans[0], id);
      RestPlannedOnce(cfg, plans);
      AcceptAllOwns(cfg, Accept(cfg, b, plans[0]).value, plans[1..], id);
      VetoedSplit(cfg, plans);
      EmitsSplit(cfg, plans, id);
      OneAnswer(cfg, plans, id);
    } else {
      assert !VetoesSome(cfg, plans, id) && !Emits(cfg, plans, id);
    }
  }

  lemma RestPlannedOnce(cfg: Config, plans: seq<FilePlan>)
    requires PlannedOnce(cfg, plans) && plans != []
    ensures PlannedOnce(cfg, plans[1..])
  {
  }

  lemma EmitsSplit(cfg: Config, plans: seq<FilePlan>, id: string)
    requires plans != []
    ensures Emits(cfg, plans, id) <==> EmitsJava(cfg, plans[0], id) || Emits(cfg, plans[1..], id)
  {
    hide EmitsJava;
    if Emits(cfg, plans[1..], id) {
      var i :| 0 <= i < |plans[1..]| && EmitsJava(cfg, plans[1..][i], id);
      assert EmitsJava(cfg, plans[i + 1], id);
    }
    if Emits(cfg, plans, id) && !EmitsJava(cfg, plans[0], id) {
      var i :| 0 <= i < |plans| && EmitsJava(cfg, plans[i], id);
      assert EmitsJava(cfg, plans[1..][i - 1], id);
    }
  }

  /** A file that is planned once is vetoed or emitted, not both. */
  lemma OneAnswer(cfg: Config, plans: seq<FilePlan>, id: string)
    requires PlannedOnce(cfg, plans) && plans != []
    ensures cfg.norm(plans[0].file) == id ==> !VetoesSome(cfg, plans[1..], id) && !Emits(cfg, plans[1..], id)
  {
    assert forall i :: 0 <= i < |plans[1..]| ==> plans[1..][i] == plans[i + 1];
  }

  lemma RoundOwns(cfg: Config, start: Books, input: Input, id: string)
    requires PlannedOnce(cfg, input.plans) && RoundOf(cfg, start, input).Some?
    ensures Owns(cfg, RoundOf(cfg, start, input).value, id) <==>
      if VetoesSome(cfg, input.plans, id) then false else Owns(cfg, start, id) || Emits(cfg, input.plans, id)
  {
    hide AcceptAll, Repaired, VetoesSome, Emits;
    AcceptAllOwns(cfg, start.(changed := false, vetoed := {}), input.plans, id);
  }

  /** The last word on the file in the first `n` rounds is Java. */
  ghost predicate JavaLast(cfg: Config, inputs: seq<Input>, n: nat, id: string)
    requires n <= |inputs|
  {
    exists j :: 0 <= j < n && Emits(cfg, inputs[j].plans, id) && NotVetoed(cfg, inputs, j, n, id)
  }

  ghost predicate NotVetoed(cfg: Config, inputs: seq<Input>, j: nat, n: nat, id: string)
    requires n <= |inputs|
  {
    forall k :: j <= k < n ==> !VetoesSome(cfg, inputs[k].plans, id)
  }

  lemma {:induction false} RunOwns(cfg: Config, start: Books, ever: set<string>, inputs: seq<Input>, pass: nat, id: string)
    requires AllPlannedOnce(cfg, inputs) && RunOf(cfg, start, ever, inputs, pass).Settled?
    ensures var r := RunOf(cfg, start, ever, inputs, pass);
      && pass <= r.rounds < pass + |inputs|
      && (Owns(cfg, r.books, id) <==>
            JavaLast(cfg, inputs, r.rounds - pass + 1, id) || (Owns(cfg, start, id) && NotVetoed(cfg, inputs, 0, r.rounds - pass + 1, id)))
    decreases |inputs|
  {
    hide RoundOf, Owns, Emits, VetoesSome, PlannedOnce;
    RoundOwns(cfg, start, inputs[0], id);
    var b := RoundOf(cfg, start, inputs[0]).value;
    if !(b.files == start.files && !b.changed) {
      assert forall i :: 0 <= i < |inputs[1..]| ==> inputs[1..][i] == inputs[i + 1];
      RunOwns(cfg, b, ever + b.vetoed, inputs[1..], pass + 1, id);
      JavaLastSplit(cfg, inputs, RunOf(cfg, start, ever, inputs, pass).rounds - pass + 1, id);
    } else {
      OneRoundLast(cfg, inputs, id);
    }
  }

  lemma OneRoundLast(cfg: Config, inputs: seq<Input>, id: string)
    requires inputs != []
    ensures JavaLast(cfg, inputs, 1, id) <==> Emits(cfg, inputs[0].plans, id) && !VetoesSome(cfg, inputs[0].plans, id)
    ensures NotVetoed(cfg, inputs, 0, 1, id) <==> !VetoesSome(cfg, inputs[0].plans, id)
  {
    hide Emits, VetoesSome;
    assert NotVetoed(cfg, inputs, 0, 1, id) <==> !VetoesSome(cfg, inputs[0].plans, id);
  }

  lemma JavaLastSplit(cfg: Config, inputs: seq<Input>, n: nat, id: string)
    requires 0 < n <= |inputs|
    ensures NotVetoed(cfg, inputs, 0, n, id) <==> !VetoesSome(cfg, inputs[0].plans, id) && NotVetoed(cfg, inputs[1..], 0, n - 1, id)
    ensures JavaLast(cfg, inputs, n, id) <==>
      JavaLast(cfg, inputs[1..], n - 1, id) || (Emits(cfg, inputs[0].plans, id) && NotVetoed(cfg, inputs, 0, n, id))
  {
    hide Emits, VetoesSome;
    NotVetoedShift(cfg, inputs, 0, n, id);
    assert NotVetoed(cfg, inputs, 0, n, id) <==> !VetoesSome(cfg, inputs[0].plans, id) && NotVetoed(cfg, inputs, 1, n, id);
    if JavaLast(cfg, inputs[1..], n - 1, id) {
      var j: nat :| j < n - 1 && Emits(cfg, inputs[1..][j].plans, id) && NotVetoed(cfg, inputs[1..], j, n - 1, id);
      NotVetoedShift(cfg, inputs, j, n, id);
      assert Emits(cfg, inputs[j + 1].plans, id) && NotVetoed(cfg, inputs, j + 1, n, id);
    }
    if JavaLast(cfg, inputs, n, id) {
      var j: nat :| j < n && Emits(cfg, inputs[j].plans, id) && NotVetoed(cfg, inputs, j, n, id);
      if j > 0 {
        NotVetoedShift(cfg, inputs, j - 1, n, id);
        assert Emits(cfg, inputs[1..][j - 1].plans, id) && NotVetoed(cfg, inputs[1..], j - 1, n - 1, id);
      }
    }
  }

  lemma NotVetoedShift(cfg: Config, inputs: seq<Input>, j: nat, n: nat, id: string)
    requires j < n <= |inputs|
    ensures NotVetoed(cfg, inputs, j + 1, n, id) <==> NotVetoed(cfg, inputs[1..], j, n - 1, id)
  {
    hide VetoesSome;
    assert forall k :: j <= k < n - 1 ==> inputs[1..][k] == inputs[k + 1];
    if NotVetoed(cfg, inputs[1..], j, n - 1, id) {
      forall k | j + 1 <= k < n ensures !VetoesSome(cfg, inputs[k].plans, id) {
        assert inputs[1..][k - 1] == inputs[k];
      }
    }
  }

  lemma {:induction false} EverVetoed(cfg: Config, start: Books, ever: set<string>, inputs: seq<Input>, pass: nat, id: string)
    requires Consistent(cfg, start) && AllPlannedOnce(cfg, inputs) && RunOf(cfg, start, ever, inputs, pass).Settled?
    ensures var r := RunOf(cfg, start, ever, inputs, pass);
      && pass <= r.rounds < pass + |inputs|
      && (id in r.strictVetoed <==> id in ever || !NotVetoed(cfg, inputs, 0, r.rounds - pass + 1, id))
    decreases |inputs|
  {
    hide RoundOf, Consistent, VetoesSome, PlannedOnce, VetoedOwnNothing, VetoedOriginal;
    RoundKeeps(cfg, start, inputs[0]);
    var b := RoundOf(cfg, start, inputs[0]).value;
    if !(b.files == start.files && !b.changed) {
      assert forall i :: 0 <= i < |inputs[1..]| ==> inputs[1..][i] == inputs[i + 1];
      EverVetoed(cfg, b, ever + b.vetoed, inputs[1..], pass + 1, id);
      JavaLastSplit(cfg, inputs, RunOf(cfg, start, ever, inputs, pass).rounds - pass + 1, id);
    } else {
      OneRoundLast(cfg, inputs, id);
    }
  }

  /** Main result: an input vetoed in any round is proposed untouched, and yet keeps Java of its
      own exactly if some round after its last veto planned it with Java and without a veto. */
  lemma VetoedKeepsJava(cfg: Config, edited: map<string, string>, inputs: seq<Input>, first: nat, path: string, original: string, final: map<string, string>)
    requires AllPlannedOnce(cfg, inputs)
    requires RunOf(cfg, Books(edited, map[], map[], false, {}), {}, inputs, first).Settled?
    ensures var r := RunOf(cfg, Books(edited, map[], map[], false, {}), {}, inputs, first);
      && first <= r.rounds < first + |inputs|
      && (cfg.norm(path) in r.strictVetoed <==> !NotVetoed(cfg, inputs, 0, r.rounds - first + 1, cfg.norm(path)))
      && (cfg.norm(path) in r.strictVetoed ==> FinalProposal(cfg, r.strictVetoed, final, path, original) == Untouched)
      && (Owns(cfg, r.books, cfg.norm(path)) <==> JavaLast(cfg, inputs, r.rounds - first + 1, cfg.norm(path)))
  {
    hide RunOf, JavaLast, NotVetoed, AllPlannedOnce;
    var start := Books(edited, map[], map[], false, {});
    RunOwns(cfg, start, {}, inputs, first, cfg.norm(path));
    EverVetoed(cfg, start, {}, inputs, first, cfg.norm(path));
  }

  // ----- a veto is never forgotten -----

  function Plain(file: string, warnings: nat, proposal: Proposal, java: seq<(string, string)>, owners: map<string, seq<Symbol>>): FilePlan {
    FilePlan(file, false, 0, warnings, Some(proposal), java, owners)
  }

  function TwoFiles(): Config {
    Config(p => p, [("A.kt", "a"), ("B.kt", "b")], true, (f, n) => n, map[], (t, f) => false, o => false,
           (o, t, n, s) => None, (f, p, t, n) => None)
  }

  function ThreeRounds(): seq<Input> {
    [Input([Plain("A.kt", 1, Untouched, [], map[]), Plain("B.kt", 0, Rewrite("c"), [], map[])], m => m, m => m),
     Input([Plain("A.kt", 0, Delete, [("A.java", "class A {}")], map["A.java" := ["A"]])], m => m, m => m),
     Input([], m => m, m => m)]
  }

  /** The rejected paths of all rounds add up, the outputs do not: a file vetoed in round one
      and translated in round two is left in place beside the Java generated from it. */
  lemma VetoOutlivesItsReason()
    ensures AllPlannedOnce(TwoFiles(), ThreeRounds())
    ensures var edited := map["A.kt" := "a", "B.kt" := "b"];
      var r := RunOf(TwoFiles(), Books(edited, map[], map[], false, {}), {}, ThreeRounds(), 1);
      && r.Settled? && r.rounds == 3
      && r.books.outputs == map["A.java" := Output("A.kt", "class A {}", "A.java", ["A"])]
      && forall final :: FinalProposal(TwoFiles(), r.strictVetoed, final, "A.kt", "a") == Untouched
  {
    hide RoundOf;
    var cfg, inputs := TwoFiles(), ThreeRounds();
    var b0 := Books(map["A.kt" := "a", "B.kt" := "b"], map[], map[], false, {});
    var b1 := Books(map["A.kt" := "a", "B.kt" := "c"], map[], map[], false, {"A.kt"});
    var java := Output("A.kt", "class A {}", "A.java", ["A"]);
    var b2 := Books(map["B.kt" := "c"], map["A.java" := java], map["A.java" := "A.java"], true, {});
    FirstOfThree(cfg, b0, b1);
    SecondOfThree(cfg, b1, b2, java);
    ThirdOfThree(cfg, b2);
    var settled := Settled(b2.(changed := false), b2, {"A.kt"}, 3);
    assert RunOf(cfg, b2, {"A.kt"}, inputs[2..], 3) == settled;
    assert inputs[1..][1..] == inputs[2..];
    assert RunOf(cfg, b1, {"A.kt"}, inputs[1..], 2) == settled;
    assert b0.files["B.kt"] != b1.files["B.kt"];
    assert RunOf(cfg, b0, {}, inputs, 1) == settled;
  }

  lemma FirstOfThree(cfg: Config, b0: Books, b1: Books)
    requires cfg == TwoFiles() && b0 == Books(map["A.kt" := "a", "B.kt" := "b"], map[], map[], false, {})
    requires b1 == Books(map["A.kt" := "a", "B.kt" := "c"], map[], map[], false, {"A.kt"})
    ensures RoundOf(cfg, b0, ThreeRounds()[0]) == Some(b1)
  {
    hide Restore, Undo;
    var input := ThreeRounds()[0];
    assert Original(cfg, cfg.sources, "A.kt") == Some("a");
    var vetoed := Veto(cfg, b0, input.plans[0]);
    assert vetoed == b0.(vetoed := {"A.kt"});
    assert Accept(cfg, b0, input.plans[0]) == Some(vetoed);
    assert vetoed.files["B.kt" := "c"] == b1.files;
    assert Propose(vetoed, input.plans[1], Rewrite("c")) == b1;
    assert Accept(cfg, vetoed, input.plans[1]) == Some(b1);
    assert input.plans[1..] == [input.plans[1]];
    assert AcceptAll(cfg, b0, input.plans) == Some(b1);
    FirstRepaired(cfg, b1, input);
  }

  lemma FirstRepaired(cfg: Config, b1: Books, input: Input)
    requires cfg == TwoFiles() && input == ThreeRounds()[0]
    requires b1 == Books(map["A.kt" := "a", "B.kt" := "c"], map[], map[], false, {"A.kt"})
    ensures Repaired(cfg, b1, input) == b1.files
  {
    var kept := Unvetoed(cfg, b1);
    assert kept == map["B.kt" := "c"];
    assert cfg.sources[..1] == [cfg.sources[0]] && cfg.sources[..1][..0] == [];
    assert Restore(cfg, cfg.sources[..1], {"A.kt"}, kept) == map["B.kt" := "c", "A.kt" := "a"];
    assert Restore(cfg, cfg.sources, {"A.kt"}, kept) == map["B.kt" := "c", "A.kt" := "a"];
    assert Original(cfg, cfg.sources, "A.kt") == Some("a");
  }

  lemma SecondOfThree(cfg: Config, b1: Books, b2: Books, java: Output)
    requires cfg == TwoFiles() && b1 == Books(map["A.kt" := "a", "B.kt" := "c"], map[], map[], false, {"A.kt"})
    requires java == Output("A.kt", "class A {}", "A.java", ["A"])
    requires b2 == Books(map["B.kt" := "c"], map["A.java" := java], map["A.java" := "A.java"], true, {})
    ensures RoundOf(cfg, b1, ThreeRounds()[1]) == Some(b2)
  {
    var input := ThreeRounds()[1];
    var begun := b1.(vetoed := {});
    var plan := input.plans[0];
    var proposed := Propose(begun, plan, Delete);
    assert proposed.files == map["B.kt" := "c"];
    assert NewOutput(cfg, proposed, plan, "A.java", "class A {}") == Some(java);
    assert Keep(cfg, proposed, plan, "A.java", java) == b2;
    assert KeepAll(cfg, proposed, plan, plan.java) == Some(b2);
    assert AcceptAll(cfg, begun, input.plans) == Some(b2);
    NothingToRestore(cfg, b2, input);
  }

  lemma ThirdOfThree(cfg: Config, b2: Books)
    requires cfg == TwoFiles() && b2.changed && b2.vetoed == {}
    ensures RoundOf(cfg, b2, ThreeRounds()[2]) == Some(b2.(changed := false))
  {
    NothingToRestore(cfg, b2.(changed := false), ThreeRounds()[2]);
  }

  lemma NothingToRestore(cfg: Config, b: Books, input: Input)
    requires cfg == TwoFiles() && b.vetoed == {} && (forall m :: input.calls(m) == m && input.properties(m) == m)
    ensures Repaired(cfg, b, input) == b.files
  {
    assert Unvetoed(cfg, b) == b.files;
    assert cfg.sources[..1] == [cfg.sources[0]] && cfg.sources[..1][..0] == [];
    assert Restore(cfg, cfg.sources[..1], {}, b.files) == b.files;
    assert Restore(cfg, cfg.sources, {}, b.files) == b.files;
  }
}
