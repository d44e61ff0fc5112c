/** Speculative annotations: the texts planning starts from, and the loop that drops the
    requirements a candidate plan could not use. */
module Retry {
  import opened Options
  import opened Edits
  import opened EditEngines
  import opened SpanShift

  // ----- the starting texts -----

  /** An edit one implementer asks for, with the text it was planned on. */
  datatype Contract = Contract(implementer: string, file: string, snapshot: string, edit: Edit)

  datatype Planned = Planned(file: string, snapshot: string, edit: Edit)

  function PlannedOf(c: Contract): Planned {
    Planned(c.file, c.snapshot, c.edit)
  }

  /** The edits for one file, equal ones once. */
  function EditsFor(norm: string -> string, contracts: seq<Contract>, id: string): seq<Planned> {
    if contracts == [] then []
    else
      var init, last := EditsFor(norm, contracts[..|contracts| - 1], id), contracts[|contracts| - 1];
      if norm(last.file) == id && PlannedOf(last) !in init then init + [PlannedOf(last)] else init
  }

  /** A contract for the file, under any spelling of its path, asks for this edit on this text. */
  ghost predicate AskedFor(norm: string -> string, contracts: seq<Contract>, id: string, file: string, snapshot: string, edit: Edit) {
    exists c :: c in contracts && norm(c.file) == id && c.file == file && c.snapshot == snapshot && c.edit == edit
  }

  /** The edits of a file are exactly those asked for, each once whoever asks. */
  lemma {:induction false} EditsForIs(norm: string -> string, contracts: seq<Contract>, id: string)
    ensures var r := EditsFor(norm, contracts, id);
      && (forall file, snapshot, edit :: Planned(file, snapshot, edit) in r <==> AskedFor(norm, contracts, id, file, snapshot, edit))
      && forall i, j :: 0 <= i < j < |r| ==> r[i] != r[j]
  {
    if contracts != [] {
      var init, last := contracts[..|contracts| - 1], contracts[|contracts| - 1];
      EditsForIs(norm, init, id);
      assert forall c :: c in contracts <==> c in init || c == last;
      var r := EditsFor(norm, contracts, id);
      forall file, snapshot, edit
        ensures Planned(file, snapshot, edit) in r <==> AskedFor(norm, contracts, id, file, snapshot, edit)
      {
        assert AskedFor(norm, contracts, id, file, snapshot, edit) <==>
          AskedFor(norm, init, id, file, snapshot, edit)
          || (norm(last.file) == id && last.file == file && last.snapshot == snapshot && last.edit == edit);
      }
    }
  }

  function Bare(planned: seq<Planned>): (r: seq<Edit>)
    ensures |r| == |planned| && forall i :: 0 <= i < |r| ==> r[i] == planned[i].edit
  {
    if planned == [] then [] else Bare(planned[..|planned| - 1]) + [planned[|planned| - 1].edit]
  }

  function SortedFor(norm: string -> string, contracts: seq<Contract>, id: string): seq<Edit> {
    Sort(Bare(EditsFor(norm, contracts, id)))
  }

  /** Planned on this very text, in range, and clear of each other. */
  ghost predicate Applicable(norm: string -> string, contracts: seq<Contract>, id: string, text: string) {
    && (forall p :: p in EditsFor(norm, contracts, id) ==> p.snapshot == text)
    && Separated(Bare(EditsFor(norm, contracts, id)), |text|)
  }

  lemma ApplicableOrderly(norm: string -> string, contracts: seq<Contract>, id: string, text: string)
    requires Applicable(norm, contracts, id, text)
    ensures Orderly(SortedFor(norm, contracts, id), 0, |text|)
  {
    hide EditsFor, Bare, Sort, Separated;
    CheckedIsSeparated(Bare(EditsFor(norm, contracts, id)), |text|);
    CheckedIsOrderly(SortedFor(norm, contracts, id), 0, |text|);
  }

  /** The original text with the file's edits made all at once. */
  ghost function Edited(norm: string -> string, contracts: seq<Contract>, source: (string, string)): (string, string)
  {
    (source.0, Simultaneous(source.1, SortedFor(norm, contracts, norm(source.0))))
  }

  function FindSource(norm: string -> string, sources: seq<(string, string)>, id: string): (r: Option<nat>)
    ensures r.Some? ==> r.value < |sources| && norm(sources[r.value].0) == id
    ensures r.None? ==> forall i :: 0 <= i < |sources| ==> norm(sources[i].0) != id
  {
    if sources == [] then None
    else if norm(sources[0].0) == id then Some(0)
    else match FindSource(norm, sources[1..], id) case None => None case Some(i) => Some(i + 1)
  }

  /** The file is selected, and takes all its edits. */
  ghost predicate Takes(norm: string -> string, sources: seq<(string, string)>, contracts: seq<Contract>, id: string) {
    exists i :: 0 <= i < |sources| && norm(sources[i].0) == id && Applicable(norm, contracts, id, sources[i].1)
  }

  /** The files with edits. */
  function FilesOf(norm: string -> string, contracts: seq<Contract>): set<string> {
    set c | c in contracts :: norm(c.file)
  }

  /** All edits are made, on every file at once, or none: a file that is not selected, a stale
      text or an overlap refuses. */
  method ApplyContracts(norm: string -> string, sources: seq<(string, string)>, contracts: seq<Contract>)
    returns (r: Option<seq<(string, string)>>)
    requires forall i, j :: 0 <= i < j < |sources| ==> norm(sources[i].0) != norm(sources[j].0)
    ensures r.Some? <==> forall c :: c in contracts ==> Takes(norm, sources, contracts, norm(c.file))
    ensures r.Some? ==> |r.value| == |sources| && forall i :: 0 <= i < |sources| ==>
      r.value[i] == if exists c :: c in contracts && norm(c.file) == norm(sources[i].0) then Edited(norm, contracts, sources[i]) else sources[i]
  {
    hide Applicable, Edited;
    var result, rest, done := sources, FilesOf(norm, contracts), {};
    assert forall id :: id in rest <==> exists c :: c in contracts && norm(c.file) == id;
    while rest != {}
      invariant done + rest == FilesOf(norm, contracts) && done !! rest && |result| == |sources|
      invariant forall id :: id in done ==> Takes(norm, sources, contracts, id)
      invariant forall i :: 0 <= i < |sources| ==>
        result[i] == if norm(sources[i].0) in done then Edited(norm, contracts, sources[i]) else sources[i]
    {
      var id :| id in rest;
      var at := FindSource(norm, sources, id);
      if at.None? {
        return None;
      }
      var text := ApplyToFile(norm, contracts, sources[at.value]);
      if text.None? {
        return None;
      }
      result := result[at.value := (sources[at.value].0, text.value)];
      rest, done := rest - {id}, done + {id};
    }
    assert forall c :: c in contracts ==> norm(c.file) in done;
    return Some(result);
  }

  method ApplyToFile(norm: string -> string, contracts: seq<Contract>, source: (string, string)) returns (text: Option<string>)
    ensures text.Some? <==> Applicable(norm, contracts, norm(source.0), source.1)
    ensures text.Some? ==> (source.0, text.value) == Edited(norm, contracts, source)
  {
    hide EditsFor, Bare, Sort, Simultaneous, Orderly, Separated, ChecksOut, InRange;
    var planned := EditsFor(norm, contracts, norm(source.0));
    var edits := Sort(Bare(planned));
    CheckedIsSeparated(Bare(planned), |source.1|);
    var fresh' := FreshEdits(planned, source.1);
    if !fresh' || !InRange(edits, |source.1|) || !ChecksOut(edits) {
      return None;
    }
    ApplicableOrderly(norm, contracts, norm(source.0), source.1);
    var out := ApplyRightToLeft(source.1, edits);
    return Some(out);
  }

  method FreshEdits(planned: seq<Planned>, text: string) returns (all: bool)
    ensures all <==> forall p :: p in planned ==> p.snapshot == text
  {
    for i := 0 to |planned|
      invariant forall j :: 0 <= j < i ==> planned[j].snapshot == text
    {
      if planned[i].snapshot != text {
        assert planned[i] in planned;
        return false;
      }
    }
    return true;
  }

  // ----- the retries -----

  /** The edits one implementer's acceptance depends on. */
  datatype Requirement = Requirement(implementer: string, contracts: seq<Contract>)

  /** A plan made with some annotations: its last pass, and who owns its Java. */
  datatype Candidate = Candidate(rounds: nat, owners: set<string>)

  function Flatten(requirements: seq<Requirement>): seq<Contract> {
    if requirements == [] then [] else requirements[0].contracts + Flatten(requirements[1..])
  }

  function Retained(requirements: seq<Requirement>, owners: set<string>): (r: seq<Requirement>)
    ensures |r| <= |requirements|
    ensures forall q :: q in r <==> q in requirements && q.implementer in owners
    ensures |r| == |requirements| ==> r == requirements
  {
    if requirements == [] then []
    else (if requirements[0].implementer in owners then [requirements[0]] else []) + Retained(requirements[1..], owners)
  }

  /** The edits of some groups are those of each in turn. */
  lemma {:induction false} FlattenJoins(a: seq<Requirement>, q: Requirement, b: seq<Requirement>)
    ensures Flatten([]) == [] && Flatten([q] + b) == q.contracts + Flatten(b)
    ensures Flatten(a + b) == Flatten(a) + Flatten(b)
  {
    assert ([q] + b)[1..] == b;
    if a == [] {
      assert [] + b == b && [] + Flatten(b) == Flatten(b);
    } else {
      FlattenJoins(a[1..], q, b);
      assert (a + b)[1..] == a[1..] + b;
      assert (a[0].contracts + Flatten(a[1..])) + Flatten(b) == a[0].contracts + (Flatten(a[1..]) + Flatten(b));
    }
  }

  /** And the groups that are kept stay in order. */
  lemma {:induction false} RetainedJoins(a: seq<Requirement>, b: seq<Requirement>, owners: set<string>)
    ensures Retained(a + b, owners) == Retained(a, owners) + Retained(b, owners)
  {
    hide *;
    if a == [] {
      NoneRetained(owners);
      assert a + b == b;
    } else {
      RetainedJoins(a[1..], b, owners);
      RetainedUnfold(a, owners);
      RetainedUnfold(a + b, owners);
      assert (a + b)[1..] == a[1..] + b && (a + b)[0] == a[0];
    }
  }

  lemma NoneRetained(owners: set<string>)
    ensures Retained([], owners) == []
  {
  }

  lemma RetainedUnfold(a: seq<Requirement>, owners: set<string>)
    requires a != []
    ensures Retained(a, owners) == (if a[0].implementer in owners then [a[0]] else []) + Retained(a[1..], owners)
  {
  }

  /** One try: what it was planned with, from which pass on, and what came of it. */
  datatype Try = Try(requirements: seq<Requirement>, first: nat, candidate: Candidate)

  /** Each try is planned from the originals with what the one before it accepted, on the
      passes after its last. */
  ghost predicate Chain(planner: (seq<Contract>, nat) -> Option<Candidate>, tries: seq<Try>) {
    && (forall k :: 0 <= k < |tries| ==> planner(Flatten(tries[k].requirements), tries[k].first) == Some(tries[k].candidate))
    && forall k :: 0 <= k < |tries| - 1 ==> Follows(tries[k], tries[k + 1])
  }

  ghost predicate Follows(t: Try, next: Try) {
    && next.first == t.candidate.rounds + 1
    && next.requirements == Retained(t.requirements, t.candidate.owners) && next.requirements != t.requirements
  }

  /** A plan settles in one of the passes it was given. */
  ghost predicate WithinLimit(planner: (seq<Contract>, nat) -> Option<Candidate>, limit: nat) {
    forall contracts, first: nat :: planner(contracts, first).Some? ==> first <= planner(contracts, first).value.rounds <= limit
  }

  /** What the next try is planned with, and its first pass. */
  ghost function Upcoming(requirements: seq<Requirement>, tries: seq<Try>): (seq<Requirement>, nat) {
    if tries == [] then (requirements, 1)
    else
      var last := tries[|tries| - 1];
      (Retained(last.requirements, last.candidate.owners), last.candidate.rounds + 1)
  }

  /** What the loop comes to: the first candidate that accepts all it was planned with. */
  function Settled(requirements: seq<Requirement>, planner: (seq<Contract>, nat) -> Option<Candidate>, first: nat): Option<Candidate>
    decreases |requirements|
  {
    match planner(Flatten(requirements), first)
    case None => None
    case Some(candidate) =>
      var kept := Retained(requirements, candidate.owners);
      if |kept| == |requirements| then Some(candidate) else Settled(kept, planner, candidate.rounds + 1)
  }

  method Settle(requirements: seq<Requirement>, planner: (seq<Contract>, nat) -> Option<Candidate>)
    returns (r: Option<Candidate>, ghost tries: seq<Try>)
    ensures r == Settled(requirements, planner, 1)
    ensures Chain(planner, tries) && (tries != [] ==> tries[0].requirements == requirements && tries[0].first == 1)
    ensures r.Some? ==> tries != [] && r == Some(tries[|tries| - 1].candidate)
    ensures r.Some? ==> forall q :: q in tries[|tries| - 1].requirements ==> q.implementer in r.value.owners
    ensures r.None? ==> planner(Flatten(Upcoming(requirements, tries).0), Upcoming(requirements, tries).1) == None
  {
    hide Flatten, Retained, Chain;
    var left, completed: nat := requirements, 0;
    tries := [];
    NoTries(planner);
    while true
      invariant Chain(planner, tries) && (tries != [] ==> tries[0].requirements == requirements && tries[0].first == 1)
      invariant Upcoming(requirements, tries) == (left, completed + 1)
      invariant tries != [] ==> left != tries[|tries| - 1].requirements
      invariant Settled(requirements, planner, 1) == Settled(left, planner, completed + 1)
      decreases |left|
    {
      var candidate := planner(Flatten(left), completed + 1);
      if candidate.None? {
        return None, tries;
      }
      OneMoreTry(planner, tries, Try(left, completed + 1, candidate.value));
      tries := tries + [Try(left, completed + 1, candidate.value)];
      completed := candidate.value.rounds;
      var kept := Retained(left, candidate.value.owners);
      if |kept| == |left| {
        return Some(candidate.value), tries;
      }
      left := kept;
    }
  }

  lemma NoTries(planner: (seq<Contract>, nat) -> Option<Candidate>)
    ensures Chain(planner, [])
  {
  }

  lemma OneMoreTry(planner: (seq<Contract>, nat) -> Option<Candidate>, tries: seq<Try>, t: Try)
    requires Chain(planner, tries) && planner(Flatten(t.requirements), t.first) == Some(t.candidate)
    requires tries != [] ==> Follows(tries[|tries| - 1], t)
    ensures Chain(planner, tries + [t])
  {
    hide Flatten, Retained;
  }

  /** Main result: the tries are at most one more than the requirements; their passes go up
      and stay within the limit; and requirements are only ever dropped. */
  lemma {:induction false} TriesSettle(planner: (seq<Contract>, nat) -> Option<Candidate>, tries: seq<Try>, limit: nat)
    requires Chain(planner, tries) && WithinLimit(planner, limit) && tries != []
    ensures |tries| + |tries[|tries| - 1].requirements| <= |tries[0].requirements| + 1
    ensures forall k :: 0 <= k < |tries| ==> tries[k].first <= tries[k].candidate.rounds <= limit
    ensures forall k :: 0 <= k < |tries| - 1 ==> tries[k].candidate.rounds < tries[k + 1].first
    ensures forall q :: q in tries[|tries| - 1].requirements ==> q in tries[0].requirements
    ensures forall q :: q in tries[0].requirements && q !in tries[|tries| - 1].requirements ==>
      exists k :: 0 <= k < |tries| && q in tries[k].requirements && q.implementer !in tries[k].candidate.owners
    decreases |tries|
  {
    hide Retained;
    if |tries| > 1 {
      var init, t, last := tries[..|tries| - 1], tries[|tries| - 2], tries[|tries| - 1];
      assert Chain(planner, init) by {
        assert forall k :: 0 <= k < |init| ==> init[k] == tries[k];
      }
      TriesSettle(planner, init, limit);
      assert Follows(t, last);
      forall q | q in tries[0].requirements && q !in last.requirements
        ensures exists k :: 0 <= k < |tries| && q in tries[k].requirements && q.implementer !in tries[k].candidate.owners
      {
        if q in t.requirements {
          assert tries[|tries| - 2] == t;
        } else {
          var k :| 0 <= k < |init| && q in init[k].requirements && q.implementer !in init[k].candidate.owners;
          assert tries[k] == init[k];
        }
      }
    }
  }
}
