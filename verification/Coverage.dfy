/** The coverage report: accepted outputs counted against the original declarations. */
module Coverage {
  import opened Options
  import opened Acceptance

  datatype Original = Original(symbol: Symbol, owner: Option<Owner>, reasons: set<string>)

  /** An accepted output and its owners. */
  datatype Accepted = Accepted(path: string, owners: seq<Symbol>)

  datatype Entry = Entry(symbol: Symbol, outputs: set<string>, reasons: set<string>) {
    predicate Translated() { outputs != {} }
  }

  datatype Report = Report(original: nat, translated: nat, retained: nat, byReason: map<string, nat>, entries: seq<Entry>)

  /** The paths of the outputs a symbol owns. */
  function PathsOf(outputs: seq<Accepted>, s: Symbol): set<string> {
    set i | 0 <= i < |outputs| && s in outputs[i].owners :: outputs[i].path
  }

  ghost predicate Owns(outputs: seq<Accepted>, s: Symbol) {
    exists i :: 0 <= i < |outputs| && s in outputs[i].owners
  }

  ghost predicate DistinctSymbols(all: seq<Original>) {
    forall i, j :: 0 <= i < j < |all| ==> all[i].symbol != all[j].symbol
  }

  /** No declaration twice, none retained that has an output, and no output without one. */
  ghost predicate Countable(all: seq<Original>, outputs: seq<Accepted>) {
    && DistinctSymbols(all)
    && (forall i :: 0 <= i < |all| && all[i].owner == Some(Kotlin) ==> !Owns(outputs, all[i].symbol))
    && forall s :: Owns(outputs, s) ==> exists i :: 0 <= i < |all| && all[i].symbol == s
  }

  function EntryOf(outputs: seq<Accepted>, d: Original): Entry {
    Entry(d.symbol, PathsOf(outputs, d.symbol), d.reasons)
  }

  function Entries(outputs: seq<Accepted>, all: seq<Original>): (r: seq<Entry>)
    ensures |r| == |all| && forall i :: 0 <= i < |r| ==> r[i] == EntryOf(outputs, all[i])
  {
    if all == [] then [] else Entries(outputs, all[..|all| - 1]) + [EntryOf(outputs, all[|all| - 1])]
  }

  // ----- counting -----

  function Translated(entries: seq<Entry>): nat {
    if entries == [] then 0 else Translated(entries[..|entries| - 1]) + if entries[|entries| - 1].Translated() then 1 else 0
  }

  /** What a retained declaration counts under. */
  function Codes(e: Entry): set<string> {
    if e.Translated() then {} else if e.reasons == {} then {"unclassified"} else e.reasons
  }

  function CountWith(entries: seq<Entry>, code: string): nat {
    if entries == [] then 0 else CountWith(entries[..|entries| - 1], code) + if code in Codes(entries[|entries| - 1]) then 1 else 0
  }

  function Counted(byReason: map<string, nat>, code: string): nat {
    if code in byReason then byReason[code] else 0
  }

  /** The table holds the count of every code, and no other codes. */
  ghost predicate Tallies(byReason: map<string, nat>, entries: seq<Entry>) {
    && (forall code :: Counted(byReason, code) == CountWith(entries, code))
    && forall code :: code in byReason ==> byReason[code] > 0
  }

  method CountCodes(byReason: map<string, nat>, codes: set<string>) returns (r: map<string, nat>)
    ensures forall code :: Counted(r, code) == Counted(byReason, code) + if code in codes then 1 else 0
    ensures (forall code :: code in byReason ==> byReason[code] > 0) ==> forall code :: code in r ==> r[code] > 0
  {
    r := byReason;
    var rest := codes;
    while rest != {}
      invariant rest <= codes
      invariant forall code :: Counted(r, code) == Counted(byReason, code) + if code in codes - rest then 1 else 0
      invariant (forall code :: code in byReason ==> byReason[code] > 0) ==> forall code :: code in r ==> r[code] > 0
    {
      var code :| code in rest;
      r := r[code := Counted(r, code) + 1];
      rest := rest - {code};
    }
  }

  function Index(outputs: seq<Accepted>): map<Symbol, set<string>> {
    if outputs == [] then map[]
    else AddOwned(Index(outputs[..|outputs| - 1]), outputs[|outputs| - 1].path, outputs[|outputs| - 1].owners)
  }

  function AddOwned(index: map<Symbol, set<string>>, path: string, owners: seq<Symbol>): map<Symbol, set<string>> {
    if owners == [] then index
    else
      var init, last := AddOwned(index, path, owners[..|owners| - 1]), owners[|owners| - 1];
      init[last := {path} + if last in init then init[last] else {}]
  }

  lemma {:induction false} AddOwnedIs(index: map<Symbol, set<string>>, path: string, owners: seq<Symbol>)
    ensures var r := AddOwned(index, path, owners);
      && (forall s :: s in r <==> s in index || s in owners)
      && forall s :: s in r ==> r[s] == (if s in index then index[s] else {}) + if s in owners then {path} else {}
  {
    if owners != [] {
      AddOwnedIs(index, path, owners[..|owners| - 1]);
      assert owners == owners[..|owners| - 1] + [owners[|owners| - 1]];
    }
  }

  lemma {:induction false} IndexIs(outputs: seq<Accepted>)
    ensures forall s :: s in Index(outputs) <==> Owns(outputs, s)
    ensures forall s :: s in Index(outputs) ==> Index(outputs)[s] == PathsOf(outputs, s)
  {
    if outputs != [] {
      var init, last := outputs[..|outputs| - 1], outputs[|outputs| - 1];
      IndexIs(init);
      AddOwnedIs(Index(init), last.path, last.owners);
      forall s
        ensures Owns(outputs, s) <==> Owns(init, s) || s in last.owners
        ensures PathsOf(outputs, s) == PathsOf(init, s) + if s in last.owners then {last.path} else {}
      {
        PathsSplit(outputs, s);
      }
      forall s | s !in Index(init) ensures PathsOf(init, s) == {} {}
    }
  }

  lemma PathsSplit(outputs: seq<Accepted>, s: Symbol)
    requires outputs != []
    ensures var init, last := outputs[..|outputs| - 1], outputs[|outputs| - 1];
      && (Owns(outputs, s) <==> Owns(init, s) || s in last.owners)
      && PathsOf(outputs, s) == PathsOf(init, s) + if s in last.owners then {last.path} else {}
  {
    var init := outputs[..|outputs| - 1];
    assert forall i :: 0 <= i < |init| ==> init[i] == outputs[i];
    assert forall i :: 0 <= i < |init| && s in outputs[i].owners ==> s in init[i].owners;
  }

  /** Counts the declarations one by one, striking their outputs off the index. */
  method Collect(all: seq<Original>, outputs: seq<Accepted>) returns (r: Option<Report>)
    ensures r.Some? <==> Countable(all, outputs)
    ensures r.Some? ==> r.value.entries == Entries(outputs, all) && Tallies(r.value.byReason, r.value.entries)
    ensures r.Some? ==> r.value.original == |all| && r.value.translated == Translated(r.value.entries)
    ensures r.Some? ==> r.value.retained == r.value.original - r.value.translated
  {
    hide PathsOf, Owns, CountWith, Codes, Tallies, Translated, Entries, Index;
    var owners := Index(outputs);
    IndexIs(outputs);
    var seen: set<Symbol> := {};
    var entries: seq<Entry> := [];
    var byReason: map<string, nat> := map[];
    var translated: nat := 0;
    NothingCounted(outputs);
    for i := 0 to |all|
      invariant DistinctSymbols(all[..i]) && forall s :: s in seen <==> exists j :: 0 <= j < i && all[j].symbol == s
      invariant forall j :: 0 <= j < i && all[j].owner == Some(Kotlin) ==> !Owns(outputs, all[j].symbol)
      invariant owners == Index(outputs) - seen
      invariant entries == Entries(outputs, all[..i]) && translated == Translated(entries) && Tallies(byReason, entries)
    {
      var d := all[i];
      assert all[..i + 1][..i] == all[..i];
      if d.symbol in seen {
        return None;
      }
      seen := seen + {d.symbol};
      PathsEmpty(outputs, d.symbol);
      var paths := if d.symbol in owners then owners[d.symbol] else {};
      owners := owners - {d.symbol};
      if paths != {} && d.owner == Some(Kotlin) {
        return None;
      }
      var entry := Entry(d.symbol, paths, d.reasons);
      byReason := CountEntry(byReason, entries, entry);
      if entry.Translated() {
        translated := translated + 1;
      }
      OneMoreEntry(outputs, all, i);
      entries := entries + [entry];
    }
    assert all[..|all|] == all;
    if owners != map[] {
      var s :| s in owners;
      return None;
    }
    forall s | Owns(outputs, s) ensures exists i :: 0 <= i < |all| && all[i].symbol == s {
      assert s in Index(outputs) && s !in owners;
      assert s in seen;
    }
    TranslatedBounded(entries);
    return Some(Report(|all|, translated, |all| - translated, byReason, entries));
  }

  lemma NothingCounted(outputs: seq<Accepted>)
    ensures Tallies(map[], []) && Entries(outputs, []) == [] && Translated([]) == 0
  {
  }

  lemma OneMoreEntry(outputs: seq<Accepted>, all: seq<Original>, i: nat)
    requires i < |all|
    ensures var es, e := Entries(outputs, all[..i]), EntryOf(outputs, all[i]);
      && Entries(outputs, all[..i + 1]) == es + [e]
      && Translated(es + [e]) == Translated(es) + if e.Translated() then 1 else 0
  {
    var es, e := Entries(outputs, all[..i]), EntryOf(outputs, all[i]);
    assert all[..i + 1][..i] == all[..i] && (es + [e])[..|es|] == es;
  }

  lemma PathsEmpty(outputs: seq<Accepted>, s: Symbol)
    ensures PathsOf(outputs, s) == {} <==> !Owns(outputs, s)
  {
    if i :| 0 <= i < |outputs| && s in outputs[i].owners {
      assert outputs[i].path in PathsOf(outputs, s);
    }
  }

  method CountEntry(byReason: map<string, nat>, entries: seq<Entry>, entry: Entry) returns (r: map<string, nat>)
    requires Tallies(byReason, entries)
    ensures Tallies(r, entries + [entry])
  {
    r := byReason;
    if !entry.Translated() {
      if entry.reasons == {} {
        r := CountCodes(byReason, {"unclassified"});
      } else {
        r := CountCodes(byReason, entry.reasons);
      }
    }
    assert (entries + [entry])[..|entries|] == entries;
  }

  lemma TranslatedBounded(entries: seq<Entry>)
    ensures Translated(entries) <= |entries|
  {
  }

  // ----- what the report says -----

  /** The sum of the counts of a set of codes. */
  ghost function Sum(count: string -> nat, codes: set<string>): nat {
    if codes == {} then 0
    else
      var code :| code in codes;
      count(code) + Sum(count, codes - {code})
  }

  lemma {:induction false} SumAdds(f: string -> nat, g: string -> nat, h: string -> nat, codes: set<string>)
    requires forall c :: c in codes ==> h(c) == f(c) + g(c)
    ensures Sum(h, codes) == Sum(f, codes) + Sum(g, codes)
  {
    if codes != {} {
      var code :| code in codes && Sum(h, codes) == h(code) + Sum(h, codes - {code})
        && Sum(f, codes) == f(code) + Sum(f, codes - {code}) && Sum(g, codes) == g(code) + Sum(g, codes - {code});
      SumAdds(f, g, h, codes - {code});
    }
  }

  lemma {:induction false} SumAtLeast(f: string -> nat, codes: set<string>, c: string)
    requires c in codes
    ensures Sum(f, codes) >= f(c)
  {
    var code :| code in codes && Sum(f, codes) == f(code) + Sum(f, codes - {code});
    if code != c {
      SumAtLeast(f, codes - {code}, c);
    } else {
      assert Sum(f, codes - {code}) >= 0;
    }
  }

  lemma {:induction false} CountsBounded(entries: seq<Entry>, code: string)
    ensures CountWith(entries, code) + Translated(entries) <= |entries|
  {
    if entries != [] {
      CountsBounded(entries[..|entries| - 1], code);
    }
  }

  lemma {:induction false} CountsCover(entries: seq<Entry>, codes: set<string>)
    requires forall i :: 0 <= i < |entries| ==> Codes(entries[i]) <= codes
    ensures Sum(c => CountWith(entries, c), codes) + Translated(entries) >= |entries|
  {
    if entries != [] {
      var init, last := entries[..|entries| - 1], entries[|entries| - 1];
      CountsCover(init, codes);
      var one := c => if c in Codes(last) then 1 else 0;
      SumAdds(c => CountWith(init, c), one, c => CountWith(entries, c), codes);
      if !last.Translated() {
        var code :| code in Codes(last);
        SumAtLeast(one, codes, code);
      }
    }
  }

  /** The declaration gives `code` as a reason, or gives none and counts as unclassified. */
  predicate GivenAs(d: Original, code: string) {
    if d.reasons == {} then code == "unclassified" else code in d.reasons
  }

  /** The declarations without an output that give `code`. */
  ghost function RetainedFor(all: seq<Original>, outputs: seq<Accepted>, code: string): set<int> {
    set i | 0 <= i < |all| && !Owns(outputs, all[i].symbol) && GivenAs(all[i], code)
  }

  ghost function Owned(all: seq<Original>, outputs: seq<Accepted>): set<int> {
    set i | 0 <= i < |all| && Owns(outputs, all[i].symbol)
  }

  lemma {:induction false} CountsAre(all: seq<Original>, outputs: seq<Accepted>, code: string)
    ensures CountWith(Entries(outputs, all), code) == |RetainedFor(all, outputs, code)|
    ensures Translated(Entries(outputs, all)) == |Owned(all, outputs)|
  {
    hide *;
    if all == [] {
      NoneCounted(outputs, code);
    } else {
      var n := |all| - 1;
      CountsAre(all[..n], outputs, code);
      assert all[..n] + [all[n]] == all;
      OneMoreCount(outputs, all[..n], all[n], code);
      RetainedStep(all[..n], all[n], outputs, code);
      OwnedStep(all[..n], all[n], outputs);
    }
  }

  lemma NoneCounted(outputs: seq<Accepted>, code: string)
    ensures CountWith(Entries(outputs, []), code) == |RetainedFor([], outputs, code)| == 0
    ensures Translated(Entries(outputs, [])) == |Owned([], outputs)| == 0
  {
  }

  lemma OneMoreCount(outputs: seq<Accepted>, init: seq<Original>, d: Original, code: string)
    ensures var es := Entries(outputs, init);
      && CountWith(Entries(outputs, init + [d]), code) == CountWith(es, code) + (if !Owns(outputs, d.symbol) && GivenAs(d, code) then 1 else 0)
      && Translated(Entries(outputs, init + [d])) == Translated(es) + (if Owns(outputs, d.symbol) then 1 else 0)
  {
    hide Owns, PathsOf;
    var es, e := Entries(outputs, init), EntryOf(outputs, d);
    PathsEmpty(outputs, d.symbol);
    assert (init + [d])[..|init|] == init && (es + [e])[..|es|] == es;
    assert Entries(outputs, init + [d]) == es + [e];
  }

  lemma RetainedStep(init: seq<Original>, d: Original, outputs: seq<Accepted>, code: string)
    ensures |RetainedFor(init + [d], outputs, code)|
         == |RetainedFor(init, outputs, code)| + (if !Owns(outputs, d.symbol) && GivenAs(d, code) then 1 else 0)
  {
    hide Owns, GivenAs;
    assert RetainedFor(init + [d], outputs, code)
        == RetainedFor(init, outputs, code) + if !Owns(outputs, d.symbol) && GivenAs(d, code) then {|init| as int} else {};
  }

  lemma OwnedStep(init: seq<Original>, d: Original, outputs: seq<Accepted>)
    ensures |Owned(init + [d], outputs)| == |Owned(init, outputs)| + (if Owns(outputs, d.symbol) then 1 else 0)
  {
    hide Owns;
    assert Owned(init + [d], outputs) == Owned(init, outputs) + if Owns(outputs, d.symbol) then {|init| as int} else {};
  }

  lemma OwnersTranslated(all: seq<Original>, outputs: seq<Accepted>, entries: seq<Entry>)
    requires Countable(all, outputs) && entries == Entries(outputs, all)
    ensures forall s :: Owns(outputs, s) <==> exists i :: 0 <= i < |entries| && entries[i].symbol == s && entries[i].Translated()
  {
    hide Owns, PathsOf, Entries;
    forall s ensures PathsOf(outputs, s) == {} <==> !Owns(outputs, s) {
      PathsEmpty(outputs, s);
    }
    forall s | Owns(outputs, s) ensures exists i :: 0 <= i < |entries| && entries[i].symbol == s && entries[i].Translated() {
      var i :| 0 <= i < |all| && all[i].symbol == s;
      assert entries[i] == EntryOf(outputs, all[i]);
    }
  }

  /** Main result: translated and retained make up the original declarations; the translated
      ones are exactly the owners of the outputs; each reason's count is the number of retained
      declarations that give it, and the counts together reach all of them. */
  lemma ReportConserves(all: seq<Original>, outputs: seq<Accepted>, r: Report)
    requires Countable(all, outputs) && r.entries == Entries(outputs, all) && Tallies(r.byReason, r.entries)
    requires r.original == |all| && r.translated == Translated(r.entries) && r.retained == r.original - r.translated
    ensures r.original == r.translated + r.retained
    ensures forall s :: Owns(outputs, s) <==> exists i :: 0 <= i < |r.entries| && r.entries[i].symbol == s && r.entries[i].Translated()
    ensures r.translated == |Owned(all, outputs)|
    ensures forall code :: Counted(r.byReason, code) == |RetainedFor(all, outputs, code)| <= r.retained
    ensures Sum(c => Counted(r.byReason, c), r.byReason.Keys) >= r.retained
  {
    hide Owns, PathsOf, Codes, CountWith, Translated, Entries, RetainedFor, Owned;
    OwnersTranslated(all, outputs, r.entries);
    forall code ensures CountWith(r.entries, code) == |RetainedFor(all, outputs, code)| <= r.retained {
      CountsBounded(r.entries, code);
      CountsAre(all, outputs, code);
    }
    CountsAre(all, outputs, "");
    AllCodesKnown(r);
    CountsCover(r.entries, r.byReason.Keys);
    SumAdds(c => CountWith(r.entries, c), c => 0, c => Counted(r.byReason, c), r.byReason.Keys);
  }

  lemma {:induction false} CountedOnce(entries: seq<Entry>, i: nat, code: string)
    requires i < |entries| && code in Codes(entries[i])
    ensures CountWith(entries, code) > 0
  {
    if i < |entries| - 1 {
      CountedOnce(entries[..|entries| - 1], i, code);
    }
  }

  lemma AllCodesKnown(r: Report)
    requires Tallies(r.byReason, r.entries)
    ensures forall i :: 0 <= i < |r.entries| ==> Codes(r.entries[i]) <= r.byReason.Keys
  {
    forall i, code | 0 <= i < |r.entries| && code in Codes(r.entries[i]) ensures code in r.byReason {
      CountedOnce(r.entries, i, code);
    }
  }

  /** What acceptance lets through can be counted: over one plan's declarations the report of an
      accepted cover never fails. */
  lemma AcceptedCountable(declarations: seq<Declaration>, snapshot: string, assignments: seq<Assignment>,
                          all: seq<Original>, outputs: seq<Accepted>)
    requires ExactCover(declarations, snapshot, assignments) && DistinctSymbols(all)
    requires |all| == |declarations| && forall i :: 0 <= i < |all| ==>
      all[i].symbol == declarations[i].symbol && all[i].owner == declarations[i].owner
    requires |outputs| == |assignments| && forall i :: 0 <= i < |outputs| ==> outputs[i] == Accepted(assignments[i].path, assignments[i].owners)
    ensures Countable(all, outputs)
    ensures forall s :: Owns(outputs, s) <==> JavaOwned(declarations, s)
  {
    forall s ensures Owns(outputs, s) <==> s in AllOwners(assignments) {
      OwnsIsListed(assignments, outputs, s);
    }
    forall s | s in AllOwners(assignments) ensures JavaOwned(declarations, s) {
      OwnerOfFile(assignments, s);
    }
    forall i | 0 <= i < |all| && all[i].owner == Some(Kotlin) ensures !Owns(outputs, all[i].symbol) {
      assert forall j :: 0 <= j < |all| && all[j].symbol == all[i].symbol ==> j == i;
      forall d | d in declarations && d.symbol == all[i].symbol ensures d.owner != Some(Java) {
        var j :| 0 <= j < |declarations| && declarations[j] == d;
      }
      assert !JavaOwned(declarations, all[i].symbol);
    }
    forall s | Owns(outputs, s) ensures exists i :: 0 <= i < |all| && all[i].symbol == s {
      var d :| d in declarations && d.symbol == s && d.owner == Some(Java);
      var j :| 0 <= j < |declarations| && declarations[j] == d;
      assert all[j].symbol == s;
    }
  }

  lemma {:induction false} OwnsIsListed(assignments: seq<Assignment>, outputs: seq<Accepted>, s: Symbol)
    requires |outputs| == |assignments| && forall i :: 0 <= i < |outputs| ==> outputs[i] == Accepted(assignments[i].path, assignments[i].owners)
    ensures Owns(outputs, s) <==> s in AllOwners(assignments)
    decreases |outputs|
  {
    if outputs != [] {
      OwnsIsListed(assignments[..|assignments| - 1], outputs[..|outputs| - 1], s);
      PathsSplit(outputs, s);
    }
  }
}
