/** The blame graph of retained declarations: what follows when a reason is fixed. */
module BlameGraph {

  /** Each name with the retained declarations it waits on. */
  type Graph = map<string, set<string>>

  /** Whether a name comes along once `reached` has: all of what it waits on, or any. */
  predicate Follows(g: Graph, reached: set<string>, name: string, all: bool) {
    name in g && g[name] != {} && if all then g[name] <= reached else g[name] * reached != {}
  }

  ghost predicate Closed(g: Graph, s: set<string>, all: bool) {
    forall n :: n in g && Follows(g, s, n, all) ==> n in s
  }

  /** The least set with the seeds in it that nothing more follows from. */
  ghost predicate IsClosure(g: Graph, seeds: set<string>, s: set<string>, all: bool) {
    && seeds <= s && Closed(g, s, all)
    && forall t :: seeds <= t && Closed(g, t, all) ==> s <= t
  }

  lemma FollowsGrows(g: Graph, s: set<string>, t: set<string>, name: string, all: bool)
    requires s <= t && Follows(g, s, name, all)
    ensures Follows(g, t, name, all)
  {
    if !all {
      var b :| b in g[name] * s;
      assert b in g[name] * t;
    }
  }

  // ----- counting sites -----

  /** Sites whose name is in `s`; a simple name can cover several. */
  function CountIn(sites: seq<string>, s: set<string>): nat {
    if sites == [] then 0 else (if sites[0] in s then 1 else 0) + CountIn(sites[1..], s)
  }

  lemma CountSplits(sites: seq<string>, s: set<string>, t: set<string>)
    requires s !! t
    ensures CountIn(sites, s + t) == CountIn(sites, s) + CountIn(sites, t)
  {
  }

  lemma CountBounded(sites: seq<string>, s: set<string>)
    ensures CountIn(sites, s) <= |sites|
  {
  }

  ghost predicate CountsSites(sites: seq<string>, perName: map<string, nat>) {
    forall n :: CountIn(sites, {n}) == if n in perName then perName[n] else 0
  }

  lemma CountAppend(sites: seq<string>, name: string, s: set<string>)
    ensures CountIn(sites + [name], s) == CountIn(sites, s) + if name in s then 1 else 0
  {
    if sites != [] {
      assert (sites + [name])[1..] == sites[1..] + [name];
    }
  }

  method SitesPerName(sites: seq<string>) returns (perName: map<string, nat>)
    ensures CountsSites(sites, perName)
  {
    perName := map[];
    for i := 0 to |sites|
      invariant CountsSites(sites[..i], perName)
    {
      var n := sites[i];
      forall x ensures CountIn(sites[..i + 1], {x}) == CountIn(sites[..i], {x}) + if n == x then 1 else 0 {
        assert sites[..i + 1] == sites[..i] + [n];
        CountAppend(sites[..i], n, {x});
      }
      perName := perName[n := 1 + if n in perName then perName[n] else 0];
    }
    assert sites[..|sites|] == sites;
  }

  // ----- the fixpoint loop -----

  /** Grows the seeds pass by pass over the names, in whatever order they come, and counts the
      sites reached. */
  method Downstream(seeds: set<string>, g: Graph, order: seq<string>, sites: seq<string>, perName: map<string, nat>, all: bool)
    returns (count: nat, reached: set<string>)
    requires (forall n :: n in order <==> n in g) && CountsSites(sites, perName)
    ensures IsClosure(g, seeds, reached, all)
    ensures count == CountIn(sites, reached)
  {
    hide CountsSites;
    reached := seeds;
    while true
      invariant seeds <= reached <= seeds + g.Keys
      invariant forall t :: seeds <= t && Closed(g, t, all) ==> reached <= t
      decreases seeds + g.Keys - reached
    {
      var grew, next := OnePass(seeds, g, order, reached, all);
      if !grew {
        break;
      }
      reached := next;
    }
    count := Tally(sites, perName, reached);
  }

  method OnePass(ghost seeds: set<string>, g: Graph, order: seq<string>, reached: set<string>, all: bool)
    returns (grew: bool, next: set<string>)
    requires forall n :: n in order <==> n in g
    requires seeds <= reached <= seeds + g.Keys
    requires forall t :: seeds <= t && Closed(g, t, all) ==> reached <= t
    ensures seeds <= next <= seeds + g.Keys
    ensures forall t :: seeds <= t && Closed(g, t, all) ==> next <= t
    ensures grew ==> reached < next
    ensures !grew ==> next == reached && Closed(g, reached, all)
  {
    next, grew := reached, false;
    for i := 0 to |order|
      invariant reached <= next <= seeds + g.Keys
      invariant forall t :: seeds <= t && Closed(g, t, all) ==> next <= t
      invariant grew ==> reached < next
      invariant !grew ==> next == reached && forall j :: 0 <= j < i ==> Follows(g, reached, order[j], all) ==> order[j] in reached
    {
      var name := order[i];
      assert name in order;
      if name !in next && Follows(g, next, name, all) {
        forall t | seeds <= t && Closed(g, t, all) ensures name in t {
          FollowsGrows(g, next, t, name, all);
        }
        next, grew := next + {name}, true;
      }
    }
  }

  method Tally(sites: seq<string>, perName: map<string, nat>, reached: set<string>) returns (count: nat)
    requires CountsSites(sites, perName)
    ensures count == CountIn(sites, reached)
  {
    count := 0;
    var rest := reached;
    NothingCounts(sites);
    assert reached - rest == {};
    while rest != {}
      invariant rest <= reached && count == CountIn(sites, reached - rest)
    {
      var n :| n in rest;
      CountSplits(sites, reached - rest, {n});
      assert reached - (rest - {n}) == (reached - rest) + {n};
      count := count + if n in perName then perName[n] else 0;
      rest := rest - {n};
    }
    assert reached - {} == reached;
  }

  lemma NothingCounts(sites: seq<string>)
    ensures CountIn(sites, {}) == 0
  {
  }

  // ----- what the closures are worth -----

  /** The order of the passes does not matter. */
  lemma ClosureUnique(g: Graph, seeds: set<string>, s: set<string>, t: set<string>, all: bool)
    requires IsClosure(g, seeds, s, all) && IsClosure(g, seeds, t, all)
    ensures s == t
  {
  }

  /** Whatever is reached is a seed or follows from what is reached. */
  lemma ClosureInverts(g: Graph, seeds: set<string>, s: set<string>, all: bool, n: string)
    requires IsClosure(g, seeds, s, all) && n in s && n !in seeds
    ensures Follows(g, s, n, all)
  {
    var t := s - {n};
    if !Follows(g, s, n, all) {
      forall m | m in g && Follows(g, t, m, all) ensures m in t {
        FollowsGrows(g, t, s, m, all);
      }
      assert Closed(g, t, all);
      assert false;
    }
  }

  /** What follows from fixing a reason lies in the shadow it casts: blocking <= holds. */
  lemma FollowingInsideShadow(g: Graph, seeds: set<string>, following: set<string>, shadow: set<string>, sites: seq<string>)
    requires IsClosure(g, seeds, following, true) && IsClosure(g, seeds, shadow, false)
    ensures following <= shadow && CountIn(sites, following) <= CountIn(sites, shadow)
  {
    forall n | n in g && Follows(g, shadow, n, true) ensures n in shadow {
      var b :| b in g[n];
      assert b in g[n] * shadow;
    }
    assert Closed(g, shadow, true);
    CountSplits(sites, following, shadow - following);
    assert following + (shadow - following) == shadow;
  }

  /** Shadows add up: the shadow of two reasons is the union of theirs. */
  lemma ShadowsUnite(g: Graph, a: set<string>, b: set<string>, s: set<string>, t: set<string>)
    requires IsClosure(g, a, s, false) && IsClosure(g, b, t, false)
    ensures IsClosure(g, a + b, s + t, false)
  {
    forall n | n in g && Follows(g, s + t, n, false) ensures n in s + t {
      var x :| x in g[n] * (s + t);
      assert x in g[n] * s || x in g[n] * t;
    }
  }

  /** What follows from a set away from `t` is outside the closure `t`, seeds aside. */
  lemma FollowerAvoids(g: Graph, b: set<string>, t: set<string>, u: set<string>, n: string)
    requires IsClosure(g, b, t, true) && n !in b && Follows(g, u, n, true) && u !! t
    ensures n !in t
  {
    var x :| x in g[n];
    if n in t {
      ClosureInverts(g, b, t, true, n);
    }
  }

  /** No declaration follows from two reasons, exactly when neither reason's seeds follow from
      the other. */
  lemma NoSharedCredit(g: Graph, a: set<string>, b: set<string>, s: set<string>, t: set<string>)
    requires IsClosure(g, a, s, true) && IsClosure(g, b, t, true)
    ensures s !! t <==> a !! t && b !! s
  {
    if a !! t && b !! s {
      var u := s - t;
      forall n | n in g && Follows(g, u, n, true) ensures n in u {
        FollowsGrows(g, u, s, n, true);
        FollowerAvoids(g, b, t, u, n);
      }
      assert Closed(g, u, true);
    }
  }

  /** The same told by the seeds: none is shared, and none follows from what the other reached. */
  lemma SeedsDecide(g: Graph, a: set<string>, b: set<string>, s: set<string>, t: set<string>)
    requires IsClosure(g, a, s, true) && IsClosure(g, b, t, true)
    ensures s !! t
       <==> a !! b && (forall n :: n in a ==> !Follows(g, t, n, true)) && (forall n :: n in b ==> !Follows(g, s, n, true))
  {
    NoSharedCredit(g, a, b, s, t);
    if a !! b && (forall n :: n in a ==> !Follows(g, t, n, true)) && (forall n :: n in b ==> !Follows(g, s, n, true)) {
      forall n | n in a ensures n !in t { if n in t { ClosureInverts(g, b, t, true, n); } }
      forall n | n in b ensures n !in s { if n in s { ClosureInverts(g, a, s, true, n); } }
    }
  }

  // ----- the report's rows -----

  datatype Site = Site(kind: nat, name: string, blockers: set<string>)

  function Names(sites: seq<Site>): seq<string> {
    seq(|sites|, i requires 0 <= i < |sites| => sites[i].name)
  }

  /** Blockers of sites with the same name merge. */
  function GraphOf(sites: seq<Site>): Graph {
    if sites == [] then map[]
    else
      var rest := GraphOf(sites[..|sites| - 1]);
      var last := sites[|sites| - 1];
      rest[last.name := last.blockers + if last.name in rest then rest[last.name] else {}]
  }

  /** The seeds of a row: names of the kind's sites that wait on nothing. */
  function Seeds(sites: seq<Site>, kind: nat): set<string> {
    set i | 0 <= i < |sites| && sites[i].kind == kind && sites[i].blockers == {} :: sites[i].name
  }

  /** No name has both a site that waits on nothing and one that waits. */
  ghost predicate Unmixed(sites: seq<Site>) {
    forall i, j :: 0 <= i < |sites| && 0 <= j < |sites| && sites[i].name == sites[j].name && sites[i].blockers == {} ==>
      sites[j].blockers == {}
  }

  lemma {:induction false} GraphFree(sites: seq<Site>, name: string)
    requires forall i :: 0 <= i < |sites| && sites[i].name == name ==> sites[i].blockers == {}
    ensures name in GraphOf(sites) ==> GraphOf(sites)[name] == {}
  {
    if sites != [] {
      GraphFree(sites[..|sites| - 1], name);
    }
  }

  /** When two rows claim different declarations: their seeds do, and no seed of one follows from
      what the other reached. Where no name is mixed the seeds alone decide. */
  lemma RowsDisjoint(sites: seq<Site>, k: nat, l: nat, s: set<string>, t: set<string>)
    requires IsClosure(GraphOf(sites), Seeds(sites, k), s, true)
    requires IsClosure(GraphOf(sites), Seeds(sites, l), t, true)
    ensures var g := GraphOf(sites);
      s !! t <==>
        && Seeds(sites, k) !! Seeds(sites, l)
        && (forall n :: n in Seeds(sites, k) ==> !Follows(g, t, n, true))
        && (forall n :: n in Seeds(sites, l) ==> !Follows(g, s, n, true))
    ensures Unmixed(sites) ==> (s !! t <==> Seeds(sites, k) !! Seeds(sites, l))
  {
    SeedsDecide(GraphOf(sites), Seeds(sites, k), Seeds(sites, l), s, t);
    if Unmixed(sites) {
      SeedsFollowNothing(sites, k);
      SeedsFollowNothing(sites, l);
    }
  }

  lemma SeedsFollowNothing(sites: seq<Site>, kind: nat)
    requires Unmixed(sites)
    ensures forall n, s :: n in Seeds(sites, kind) ==> !Follows(GraphOf(sites), s, n, true)
  {
    forall n | n in Seeds(sites, kind) ensures n in GraphOf(sites) ==> GraphOf(sites)[n] == {} {
      var i :| 0 <= i < |sites| && sites[i].kind == kind && sites[i].blockers == {} && sites[i].name == n;
      GraphFree(sites, n);
    }
  }

  function Claims(sites: seq<Site>, reached: seq<set<string>>): nat {
    if reached == [] then 0 else CountIn(Names(sites), reached[0]) + Claims(sites, reached[1..])
  }

  function Union(sets: seq<set<string>>): set<string> {
    if sets == [] then {} else sets[0] + Union(sets[1..])
  }

  ghost predicate Apart(sets: seq<set<string>>) {
    forall i, j :: 0 <= i < j < |sets| ==> sets[i] !! sets[j]
  }

  lemma {:induction false} CountOverlaps(sites: seq<string>, s: set<string>, t: set<string>)
    ensures CountIn(sites, s) + CountIn(sites, t) == CountIn(sites, s + t) + CountIn(sites, s * t)
  {
    if sites != [] {
      CountOverlaps(sites[1..], s, t);
    }
  }

  lemma {:induction false} CountPositive(sites: seq<string>, s: set<string>)
    ensures CountIn(sites, s) > 0 <==> exists n :: n in sites && n in s
  {
    if sites != [] {
      CountPositive(sites[1..], s);
      assert sites[0] in sites && forall n :: n in sites ==> n == sites[0] || n in sites[1..];
    }
  }

  /** The claims of rows that have sites count every site once, exactly if the rows are apart;
      else some are counted twice. */
  lemma {:induction false} ClaimsCount(sites: seq<Site>, reached: seq<set<string>>)
    requires forall i, n :: 0 <= i < |reached| && n in reached[i] ==> n in Names(sites)
    ensures Claims(sites, reached) >= CountIn(Names(sites), Union(reached))
    ensures Claims(sites, reached) == CountIn(Names(sites), Union(reached)) <==> Apart(reached)
  {
    if reached == [] {
      NothingCounts(Names(sites));
    } else {
      var s, rest := reached[0], reached[1..];
      ClaimsCount(sites, rest);
      CountOverlaps(Names(sites), s, Union(rest));
      CountPositive(Names(sites), s * Union(rest));
      ApartSplits(reached);
      if !(s !! Union(rest)) {
        var n :| n in s && n in Union(rest);
        assert n in reached[0] && n in Names(sites) && n in s * Union(rest);
      }
    }
  }

  lemma ApartSplits(reached: seq<set<string>>)
    requires reached != []
    ensures Apart(reached) <==> Apart(reached[1..]) && reached[0] !! Union(reached[1..])
  {
    var s, rest := reached[0], reached[1..];
    UnionHolds(rest);
    assert forall i :: 0 < i < |reached| ==> rest[i - 1] == reached[i];
    if Apart(reached) {
      forall i, j | 0 <= i < j < |rest| ensures rest[i] !! rest[j] {
        assert reached[i + 1] !! reached[j + 1];
      }
      forall i | 0 <= i < |rest| ensures s !! rest[i] {
        assert reached[0] !! reached[i + 1];
      }
    }
    if Apart(rest) && s !! Union(rest) {
      forall i, j | 0 <= i < j < |reached| ensures reached[i] !! reached[j] {
        if i > 0 { assert rest[i - 1] !! rest[j - 1]; } else { assert rest[j - 1] <= Union(rest); }
      }
    }
  }

  lemma {:induction false} UnionHolds(sets: seq<set<string>>)
    ensures forall n :: n in Union(sets) <==> exists i :: 0 <= i < |sets| && n in sets[i]
  {
    if sets != [] {
      UnionHolds(sets[1..]);
      forall n ensures n in Union(sets) <==> exists i :: 0 <= i < |sets| && n in sets[i] {
        if n in Union(sets[1..]) {
          var i :| 0 <= i < |sets[1..]| && n in sets[1..][i];
          assert n in sets[i + 1];
        }
        if i :| 0 <= i < |sets| && n in sets[i] {
          if i > 0 { assert n in sets[1..][i - 1]; }
        }
      }
    }
  }

  /** Whatever a row claims has a site. */
  lemma RowsHaveSites(sites: seq<Site>, kind: nat, s: set<string>)
    requires IsClosure(GraphOf(sites), Seeds(sites, kind), s, true)
    ensures forall n :: n in s ==> n in Names(sites)
  {
    GraphNames(sites);
    forall n | n in s ensures n in Names(sites) {
      if n in Seeds(sites, kind) {
        var i :| 0 <= i < |sites| && sites[i].kind == kind && sites[i].blockers == {} && sites[i].name == n;
        assert Names(sites)[i] == n;
      } else {
        ClosureInverts(GraphOf(sites), Seeds(sites, kind), s, true, n);
      }
    }
  }

  lemma {:induction false} GraphNames(sites: seq<Site>)
    ensures forall n :: n in GraphOf(sites) ==> n in Names(sites)
  {
    if sites != [] {
      var init := sites[..|sites| - 1];
      GraphNames(init);
      assert Names(sites) == Names(init) + [sites[|sites| - 1].name];
    }
  }

  ghost predicate AreRows(sites: seq<Site>, kinds: seq<nat>, reached: seq<set<string>>) {
    && |kinds| == |reached|
    && forall i :: 0 <= i < |kinds| ==> IsClosure(GraphOf(sites), Seeds(sites, kinds[i]), reached[i], true)
  }

  /** No name is a seed of two rows. */
  ghost predicate SeedsApart(sites: seq<Site>, kinds: seq<nat>) {
    forall i, j :: 0 <= i < j < |kinds| ==> Seeds(sites, kinds[i]) !! Seeds(sites, kinds[j])
  }

  /** Main result: the rows together count every site at most once exactly if they are apart, and
      then what they promise together is at most what there is. Where no name is mixed, that is
      if no name is a seed of two rows; `RowsDisjoint` has the condition for the other names. */
  lemma RowsNeverOverclaim(sites: seq<Site>, kinds: seq<nat>, reached: seq<set<string>>)
    requires AreRows(sites, kinds, reached)
    ensures Claims(sites, reached) == CountIn(Names(sites), Union(reached)) <==> Apart(reached)
    ensures Apart(reached) ==> Claims(sites, reached) <= |sites|
    ensures Unmixed(sites) ==> (Apart(reached) <==> SeedsApart(sites, kinds))
  {
    forall i | 0 <= i < |reached| ensures forall n :: n in reached[i] ==> n in Names(sites) {
      RowsHaveSites(sites, kinds[i], reached[i]);
    }
    ClaimsCount(sites, reached);
    CountBounded(Names(sites), Union(reached));
    forall i, j | 0 <= i < j < |kinds| && Unmixed(sites)
      ensures reached[i] !! reached[j] <==> Seeds(sites, kinds[i]) !! Seeds(sites, kinds[j])
    {
      RowsDisjoint(sites, kinds[i], kinds[j], reached[i], reached[j]);
    }
  }

  /** A name with sites of two kinds, and one of them waits: the row that frees it and its own
      row both claim it. */
  lemma MixedNameOverclaims()
    ensures var sites := [Site(0, "A", {}), Site(1, "B", {}), Site(0, "B", {"A"})];
      && !Unmixed(sites) && SeedsApart(sites, [0, 1])
      && AreRows(sites, [0, 1], [{"A", "B"}, {"B"}])
      && Claims(sites, [{"A", "B"}, {"B"}]) == 5 > |sites|
  {
    hide GraphOf, IsClosure, CountIn, Seeds;
    var sites := [Site(0, "A", {}), Site(1, "B", {}), Site(0, "B", {"A"})];
    assert sites[1].name == sites[2].name && sites[1].blockers == {} && sites[2].blockers != {};
    MixedGraph(sites);
    MixedSeeds(sites);
    MixedClosures();
    assert Names(sites) == ["A", "B", "B"];
    var rows: seq<set<string>> := [{"A", "B"}, {"B"}];
    MixedCounts(rows);
    assert rows[1..] == [{"B"}] && [{"B"}][1..] == [];
    assert Claims(sites, [{"B"}]) == 2;
  }

  lemma MixedSeeds(sites: seq<Site>)
    requires sites == [Site(0, "A", {}), Site(1, "B", {}), Site(0, "B", {"A"})]
    ensures Seeds(sites, 0) == {"A"} && Seeds(sites, 1) == {"B"}
  {
    assert sites[0].name in Seeds(sites, 0) && sites[1].name in Seeds(sites, 1);
  }

  lemma MixedGraph(sites: seq<Site>)
    requires sites == [Site(0, "A", {}), Site(1, "B", {}), Site(0, "B", {"A"})]
    ensures GraphOf(sites) == map["A" := {}, "B" := {"A"}]
  {
    hide Follows;
    var none: set<string> := {};
    assert none + none == none;
    assert sites[..2] == [sites[0], sites[1]] && sites[..2][..1] == [sites[0]] && [sites[0]][..0] == [];
    assert GraphOf([sites[0]]) == map["A" := none];
    assert GraphOf(sites[..2]) == map["A" := none, "B" := none];
    assert {"A"} + none == {"A"};
  }

  lemma MixedClosures()
    ensures var g: Graph := map["A" := {}, "B" := {"A"}];
      IsClosure(g, {"A"}, {"A", "B"}, true) && IsClosure(g, {"B"}, {"B"}, true)
  {
    var g: Graph := map["A" := {}, "B" := {"A"}];
    forall t | {"A"} <= t && Closed(g, t, true) ensures {"A", "B"} <= t {
      assert Follows(g, t, "B", true);
    }
    assert !Follows(g, {"B"}, "A", true) && !Follows(g, {"B"}, "B", true);
  }

  lemma MixedCounts(rows: seq<set<string>>)
    requires rows == [{"A", "B"}, {"B"}]
    ensures CountIn(["A", "B", "B"], rows[0]) == 3 && CountIn(["A", "B", "B"], rows[1]) == 2
  {
    assert ["A", "B", "B"][1..] == ["B", "B"] && ["B", "B"][1..] == ["B"] && ["B"][1..] == [];
  }

  /** With two kinds of site of one name it fails: both rows claim both sites. */
  lemma SharedNameOverclaims()
    ensures var sites := [Site(0, "A", {}), Site(1, "A", {})];
      && Unmixed(sites) && !SeedsApart(sites, [0, 1])
      && AreRows(sites, [0, 1], [{"A"}, {"A"}])
      && Claims(sites, [{"A"}, {"A"}]) == 4 > |sites|
  {
    var sites := [Site(0, "A", {}), Site(1, "A", {})];
    assert sites[0].name == sites[1].name && sites[0].blockers == {} && sites[1].kind != sites[0].kind;
    var one := [sites[0]];
    var none: set<string> := {};
    assert none + none == none;
    assert one[..0] == [] && sites[..1] == one;
    assert GraphOf(one) == map["A" := {}];
    assert GraphOf(sites) == map["A" := {}];
    assert sites[0].name in Seeds(sites, 0) && sites[1].name in Seeds(sites, 1);
    assert Seeds(sites, 0) == {"A"} && Seeds(sites, 1) == {"A"};
    assert [0, 1][0] == 0 && [0, 1][1] == 1 && !(Seeds(sites, [0, 1][0]) !! Seeds(sites, [0, 1][1]));
    assert Names(sites) == ["A", "A"];
    assert CountIn(["A"], {"A"}) == 1 && ["A", "A"][1..] == ["A"];
    assert CountIn(Names(sites), {"A"}) == 2;
    assert [{"A"}, {"A"}][1..] == [{"A"}];
    assert Claims(sites, [{"A"}]) == 2;
  }
}
