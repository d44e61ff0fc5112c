/** Collecting the root causes behind a retained declaration: a recursive search with one
    shared visited set, over a blame graph that may have cycles. */
module RetentionRoots {

  /** Sites are identified by file and line. */
  datatype Key = Key(file: string, line: nat)

  datatype Site = Site(blockers: seq<string>, labels: seq<string>)

  datatype Root = Marker(site: Key, text: string) | Intrinsic(site: Key) | Unresolved(text: string)

  /** The recorded sites, which of them each simple name covers, and the extra markers. */
  datatype World = World(sites: map<Key, Site>, byName: map<string, seq<Key>>, markers: map<Key, seq<string>>) {
    ghost predicate Valid() {
      forall n, k :: n in byName && k in byName[n] ==> k in sites
    }
  }

  /** The label kept beside blocker `i`, or the blocker itself. */
  function Label(s: Site, i: nat): string
    requires i < |s.blockers|
  {
    if i < |s.labels| then s.labels[i] else s.blockers[i]
  }

  ghost predicate MarkerOf(w: World, k: Key, r: Root) {
    r.Marker? && r.site == k && k in w.markers && r.text in w.markers[k]
  }

  /** `r` comes from one of the first `n` blockers of `k`. */
  ghost predicate LabelOf(w: World, k: Key, n: nat, r: Root)
    requires k in w.sites && n <= |w.sites[k].blockers|
  {
    exists i :: 0 <= i < n && w.sites[k].blockers[i] !in w.byName && r == Unresolved(Label(w.sites[k], i))
  }

  /** The roots site `k` gives by itself. */
  ghost predicate RootOf(w: World, k: Key, r: Root)
    requires k in w.sites
  {
    || MarkerOf(w, k, r)
    || (w.sites[k].blockers == [] && r == Intrinsic(k))
    || LabelOf(w, k, |w.sites[k].blockers|, r)
  }

  /** `k` waits on `l`, through one of its first `n` blockers. */
  ghost predicate WaitsOn(w: World, k: Key, n: nat, l: Key)
    requires k in w.sites && n <= |w.sites[k].blockers|
  {
    exists i :: 0 <= i < n && w.sites[k].blockers[i] in w.byName && l in w.byName[w.sites[k].blockers[i]]
  }

  /** A set of sites that contains whatever its members wait on. */
  ghost predicate Closed(w: World, s: set<Key>) {
    forall k, l :: k in s && k in w.sites && WaitsOn(w, k, |w.sites[k].blockers|, l) ==> l in s
  }

  /** The sites reachable from `start`. */
  ghost predicate IsReachable(w: World, start: Key, s: set<Key>) {
    && start in s && s <= w.sites.Keys && Closed(w, s)
    && forall t :: start in t && Closed(w, t) ==> s <= t
  }

  /** A stretch of the search that began with `before` visited and `had` collected: whatever
      is new, `open` aside, waits on visited sites only and left its roots; nothing came in
      that is not below `from`, and no root without a new site it comes from. */
  ghost predicate Explored(w: World, before: set<Key>, now: set<Key>, had: set<Root>, has: set<Root>, from: set<Key>, open: set<Key>) {
    && before <= now <= w.sites.Keys && had <= has
    && (forall m, l :: m in now && m !in before && m !in open && WaitsOn(w, m, |w.sites[m].blockers|, l) ==> l in now)
    && (forall m, r :: m in now && m !in before && m !in open && RootOf(w, m, r) ==> r in has)
    && (forall t :: from <= t && Closed(w, t) ==> now <= before + t)
    && (forall r :: r in has ==> r in had || exists m :: m in now && m !in before && RootOf(w, m, r))
  }

  /** One stretch after another, where the second starts below the first. */
  lemma ExploredOn(w: World, a: set<Key>, b: set<Key>, c: set<Key>, ra: set<Root>, rb: set<Root>, rc: set<Root>,
                   from: set<Key>, more: set<Key>, open: set<Key>)
    requires Explored(w, a, b, ra, rb, from, open) && Explored(w, b, c, rb, rc, more, {})
    requires forall t :: from <= t && Closed(w, t) ==> more <= t
    ensures Explored(w, a, c, ra, rc, from, open)
  {
    forall t | from <= t && Closed(w, t) ensures c <= a + t {
      assert more <= t;
    }
  }

  class Collector {
    const w: World
    var visited: set<Key>
    var roots: set<Root>

    constructor (w: World)
      ensures this.w == w && visited == {} && roots == {}
    {
      this.w := w;
      visited, roots := {}, {};
    }

    method Collect(k: Key)
      requires w.Valid() && k in w.sites && visited <= w.sites.Keys
      modifies this
      ensures k in visited && Explored(w, old(visited), visited, old(roots), roots, {k}, {})
      decreases w.sites.Keys - visited, 1
    {
      if k in visited {
        return;
      }
      hide RootOf, WaitsOn, LabelOf, Explored;
      ghost var before, had := visited, roots;
      visited := visited + {k};
      if k in w.markers {
        roots := roots + set i | 0 <= i < |w.markers[k]| :: Marker(k, w.markers[k][i]);
      }
      var site := w.sites[k];
      if site.blockers == [] {
        roots := roots + {Intrinsic(k)};
        LeafExplored(w, k, before, visited, had, roots);
        return;
      }
      NodeEntered(w, k, before, visited, had, roots);
      for i := 0 to |site.blockers|
        invariant k in visited && before + {k} <= visited <= w.sites.Keys
        invariant Explored(w, before, visited, had, roots, {k}, {k})
        invariant Served(w, k, i, visited, roots)
      {
        ghost var mid, held := visited, roots;
        var blocker := site.blockers[i];
        if blocker in w.byName {
          CollectEach(w.byName[blocker]);
          ListBelow(w, k, i);
          ExploredOn(w, before, mid, visited, had, held, roots, {k}, set l | l in w.byName[blocker], {k});
        } else {
          roots := roots + {Unresolved(Label(site, i))};
          LabelExplored(w, k, i, before, visited, had, held, roots);
        }
        BlockerServed(w, k, i, mid, visited, held, roots);
      }
      NodeLeft(w, k, before, visited, had, roots);
    }

    method CollectEach(keys: seq<Key>)
      requires w.Valid() && (forall k :: k in keys ==> k in w.sites) && visited <= w.sites.Keys
      modifies this
      ensures old(visited) <= visited <= w.sites.Keys && old(roots) <= roots
      ensures forall k :: k in keys ==> k in visited
      ensures Explored(w, old(visited), visited, old(roots), roots, set k | k in keys, {})
      decreases w.sites.Keys - visited, 2, |keys|
    {
      ghost var before, had := visited, roots;
      if keys != [] {
        Collect(keys[0]);
        ghost var mid, held := visited, roots;
        CollectEach(keys[1..]);
        ExploredFrom(w, before, mid, had, held, {keys[0]}, set k | k in keys);
        ExploredOn(w, before, mid, visited, had, held, roots, set k | k in keys, set k | k in keys[1..], {});
      }
    }

    /** Main result: from a fresh start the search ends on every blame graph, cyclic or not,
        having visited exactly the reachable sites and kept exactly their roots. */
    method CollectRoots(start: Key)
      requires w.Valid() && start in w.sites && visited == {} && roots == {}
      modifies this
      ensures IsReachable(w, start, visited)
      ensures forall r :: r in roots <==> exists m :: m in visited && m in w.sites && RootOf(w, m, r)
    {
      Collect(start);
    }
  }

  /** The first `n` blockers of `k` are dealt with, and so are its markers. */
  ghost predicate Served(w: World, k: Key, n: nat, now: set<Key>, has: set<Root>)
    requires k in w.sites && n <= |w.sites[k].blockers|
  {
    && (forall l :: WaitsOn(w, k, n, l) ==> l in now)
    && (forall r :: MarkerOf(w, k, r) || LabelOf(w, k, n, r) ==> r in has)
  }

  lemma ExploredFrom(w: World, a: set<Key>, b: set<Key>, ra: set<Root>, rb: set<Root>, from: set<Key>, more: set<Key>)
    requires Explored(w, a, b, ra, rb, from, {}) && from <= more
    ensures Explored(w, a, b, ra, rb, more, {})
  {
  }

  lemma LeafExplored(w: World, k: Key, before: set<Key>, now: set<Key>, had: set<Root>, has: set<Root>)
    requires k in w.sites && k !in before && before <= w.sites.Keys && now == before + {k} && w.sites[k].blockers == []
    requires had <= has && forall r :: r in has <==> r in had || MarkerOf(w, k, r) || r == Intrinsic(k)
    ensures Explored(w, before, now, had, has, {k}, {})
  {
    forall r | r in has && r !in had ensures RootOf(w, k, r) {}
  }

  lemma NodeEntered(w: World, k: Key, before: set<Key>, now: set<Key>, had: set<Root>, has: set<Root>)
    requires k in w.sites && k !in before && before <= w.sites.Keys && now == before + {k} && w.sites[k].blockers != []
    requires had <= has && forall r :: r in has <==> r in had || MarkerOf(w, k, r)
    ensures Explored(w, before, now, had, has, {k}, {k}) && Served(w, k, 0, now, has)
  {
    forall r | r in has && r !in had ensures RootOf(w, k, r) {}
  }

  lemma ListBelow(w: World, k: Key, i: nat)
    requires k in w.sites && i < |w.sites[k].blockers| && w.sites[k].blockers[i] in w.byName
    ensures forall t :: {k} <= t && Closed(w, t) ==> (set l | l in w.byName[w.sites[k].blockers[i]]) <= t
  {
    forall t, l | k in t && Closed(w, t) && l in w.byName[w.sites[k].blockers[i]] ensures l in t {
      assert WaitsOn(w, k, |w.sites[k].blockers|, l);
    }
  }

  lemma LabelExplored(w: World, k: Key, i: nat, before: set<Key>, now: set<Key>, had: set<Root>, held: set<Root>, has: set<Root>)
    requires k in w.sites && i < |w.sites[k].blockers| && w.sites[k].blockers[i] !in w.byName
    requires k in now && k !in before && Explored(w, before, now, had, held, {k}, {k})
    requires has == held + {Unresolved(Label(w.sites[k], i))}
    ensures Explored(w, before, now, had, has, {k}, {k})
  {
    assert LabelOf(w, k, |w.sites[k].blockers|, Unresolved(Label(w.sites[k], i)));
    assert RootOf(w, k, Unresolved(Label(w.sites[k], i)));
  }

  lemma BlockerServed(w: World, k: Key, i: nat, mid: set<Key>, now: set<Key>, held: set<Root>, has: set<Root>)
    requires k in w.sites && i < |w.sites[k].blockers| && mid <= now && held <= has
    requires Served(w, k, i, mid, held)
    requires w.sites[k].blockers[i] in w.byName ==> forall l :: l in w.byName[w.sites[k].blockers[i]] ==> l in now
    requires w.sites[k].blockers[i] !in w.byName ==> Unresolved(Label(w.sites[k], i)) in has
    ensures Served(w, k, i + 1, now, has)
  {
    forall l | WaitsOn(w, k, i + 1, l) ensures l in now {
      if !WaitsOn(w, k, i, l) {
        assert w.sites[k].blockers[i] in w.byName && l in w.byName[w.sites[k].blockers[i]];
      }
    }
    forall r | LabelOf(w, k, i + 1, r) ensures r in has {
      if !LabelOf(w, k, i, r) {
        assert r == Unresolved(Label(w.sites[k], i));
      }
    }
  }

  lemma NodeLeft(w: World, k: Key, before: set<Key>, now: set<Key>, had: set<Root>, has: set<Root>)
    requires k in w.sites && w.sites[k].blockers != []
    requires Explored(w, before, now, had, has, {k}, {k}) && Served(w, k, |w.sites[k].blockers|, now, has)
    ensures Explored(w, before, now, had, has, {k}, {})
  {
  }
}
