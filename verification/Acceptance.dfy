/** Accepting emitted Java: the outputs must cover the Java-owned declarations exactly. */
module Acceptance {
  import opened Options

  datatype Symbol = Symbol(name: string, kind: string)

  datatype Owner = Java | Kotlin

  datatype Declaration = Declaration(symbol: Symbol, owner: Option<Owner>)

  /** An emitted file: whose declarations it holds, the snapshot they were planned on, and the
      types at its top level. */
  datatype Assignment = Assignment(path: string, owners: seq<Symbol>, snapshot: string, types: seq<string>)

  datatype Refusal = Stale | DuplicatePath | NoOwners | NotJavaOwned | AssignedTwice | WrongTypes | NoOutput

  predicate JavaOwned(declarations: seq<Declaration>, s: Symbol) {
    exists d :: d in declarations && d.symbol == s && d.owner == Some(Java)
  }

  predicate IsClassLike(s: Symbol) {
    s.kind in {"class", "interface", "enum", "annotation", "object"}
  }

  function ClassOwners(owners: seq<Symbol>): seq<Symbol> {
    if owners == [] then []
    else (if IsClassLike(owners[0]) then [owners[0]] else []) + ClassOwners(owners[1..])
  }

  predicate TypesMatch(a: Assignment) {
    var classes := ClassOwners(a.owners);
    classes != [] ==> |a.types| == |classes| && forall s :: s in classes ==> s.name in a.types
  }

  function AllOwners(assignments: seq<Assignment>): seq<Symbol> {
    if assignments == [] then [] else AllOwners(assignments[..|assignments| - 1]) + assignments[|assignments| - 1].owners
  }

  ghost predicate NoRepeats<T(!new)>(xs: seq<T>) {
    forall i, j :: 0 <= i < j < |xs| ==> xs[i] != xs[j]
  }

  ghost predicate PathsDistinct(assignments: seq<Assignment>) {
    forall i, j :: 0 <= i < j < |assignments| ==> assignments[i].path != assignments[j].path
  }

  /** One file by itself. */
  ghost predicate FileFits(declarations: seq<Declaration>, snapshot: string, a: Assignment) {
    && a.snapshot == snapshot && a.owners != [] && TypesMatch(a)
    && forall s :: s in a.owners ==> exists d :: d in declarations && d.symbol == s && d.owner == Some(Java)
  }

  /** All files together, and nothing left out. */
  ghost predicate ExactCover(declarations: seq<Declaration>, snapshot: string, assignments: seq<Assignment>) {
    && (forall a :: a in assignments ==> FileFits(declarations, snapshot, a))
    && PathsDistinct(assignments) && NoRepeats(AllOwners(assignments))
    && forall d :: d in declarations && d.owner == Some(Java) ==> d.symbol in AllOwners(assignments)
  }

  method AssignOwners(declarations: seq<Declaration>, owners: seq<Symbol>, taken: set<Symbol>, ghost before: seq<Symbol>)
    returns (refusal: Option<Refusal>, now: set<Symbol>)
    requires NoRepeats(before) && forall s :: s in taken <==> s in before
    ensures refusal.None? <==> (forall s :: s in owners ==> JavaOwned(declarations, s)) && NoRepeats(before + owners)
    ensures refusal.None? ==> forall s :: s in now <==> s in before + owners
  {
    now := taken;
    for i := 0 to |owners|
      invariant forall j :: 0 <= j < i ==> JavaOwned(declarations, owners[j])
      invariant NoRepeats(before + owners[..i]) && forall s :: s in now <==> s in before + owners[..i]
    {
      var owner := owners[i];
      assert before + owners[..i + 1] == (before + owners[..i]) + [owner];
      if !JavaOwned(declarations, owner) {
        assert owner in owners;
        return Some(NotJavaOwned), now;
      }
      if owner in now {
        RepeatsStay(before + owners[..i], owner, owners[i + 1..]);
        assert before + owners == (before + owners[..i]) + [owner] + owners[i + 1..];
        return Some(AssignedTwice), now;
      }
      now := now + {owner};
    }
    assert owners[..|owners|] == owners;
    return None, now;
  }

  lemma RepeatsStay<T(!new)>(xs: seq<T>, x: T, rest: seq<T>)
    requires x in xs
    ensures !NoRepeats(xs + [x] + rest)
  {
    var i :| 0 <= i < |xs| && xs[i] == x;
    var all := xs + [x] + rest;
    assert all[i] == all[|xs|];
  }

  /** Accepted exactly when the files cover the Java-owned declarations, each once. */
  method AcceptAssignments(declarations: seq<Declaration>, snapshot: string, assignments: seq<Assignment>)
    returns (refusal: Option<Refusal>)
    ensures refusal.None? <==> ExactCover(declarations, snapshot, assignments)
  {
    hide TypesMatch, NoRepeats, AllOwners, PathsDistinct;
    var taken: set<Symbol> := {};
    var paths: set<string> := {};
    NothingRepeats();
    for i := 0 to |assignments|
      invariant forall j :: 0 <= j < i ==> FileFits(declarations, snapshot, assignments[j])
      invariant PathsDistinct(assignments[..i]) && forall p :: p in paths <==> exists j :: 0 <= j < i && assignments[j].path == p
      invariant NoRepeats(AllOwners(assignments[..i])) && forall s :: s in taken <==> s in AllOwners(assignments[..i])
    {
      var a := assignments[i];
      assert a in assignments;
      OneMoreFile(assignments, i);
      OneMorePath(assignments, i);
      if a.snapshot != snapshot {
        return Some(Stale);
      }
      if a.path in paths {
        return Some(DuplicatePath);
      }
      paths := paths + {a.path};
      if a.owners == [] {
        return Some(NoOwners);
      }
      var refused, now := AssignOwners(declarations, a.owners, taken, AllOwners(assignments[..i]));
      if refused.Some? {
        return refused;
      }
      taken := now;
      if !TypesMatch(a) {
        return Some(WrongTypes);
      }
    }
    assert assignments[..|assignments|] == assignments;
    for i := 0 to |declarations|
      invariant forall j :: 0 <= j < i && declarations[j].owner == Some(Java) ==> declarations[j].symbol in taken
    {
      if declarations[i].owner == Some(Java) && declarations[i].symbol !in taken {
        assert declarations[i] in declarations;
        return Some(NoOutput);
      }
    }
    return None;
  }

  lemma NothingRepeats()
    ensures NoRepeats(AllOwners([])) && AllOwners([]) == [] && PathsDistinct([])
  {
  }

  lemma OneMorePath(assignments: seq<Assignment>, i: nat)
    requires i < |assignments|
    ensures PathsDistinct(assignments[..i]) && (forall j :: 0 <= j < i ==> assignments[j].path != assignments[i].path)
      ==> PathsDistinct(assignments[..i + 1])
    ensures (exists j :: 0 <= j < i && assignments[j].path == assignments[i].path) ==> !PathsDistinct(assignments)
  {
    assert forall j :: 0 <= j < i ==> assignments[..i + 1][j] == assignments[..i][j] == assignments[j];
  }

  /** What fails for the first files fails for all. */
  lemma OneMoreFile(assignments: seq<Assignment>, i: nat)
    requires i < |assignments|
    ensures AllOwners(assignments[..i + 1]) == AllOwners(assignments[..i]) + assignments[i].owners
    ensures !NoRepeats(AllOwners(assignments[..i + 1])) ==> !NoRepeats(AllOwners(assignments))
  {
    assert assignments[..i + 1][..i] == assignments[..i];
    OwnersPrefix(assignments, i + 1);
    if !NoRepeats(AllOwners(assignments[..i + 1])) {
      var part, all := AllOwners(assignments[..i + 1]), AllOwners(assignments);
      var j, k :| 0 <= j < k < |part| && part[j] == part[k];
      assert all[j] == part[j] && all[k] == part[k];
    }
  }

  lemma {:induction false} OwnersPrefix(assignments: seq<Assignment>, n: nat)
    requires n <= |assignments|
    ensures AllOwners(assignments[..n]) <= AllOwners(assignments)
    decreases |assignments|
  {
    if n < |assignments| {
      OwnersPrefix(assignments[..|assignments| - 1], n);
      assert assignments[..|assignments| - 1][..n] == assignments[..n];
    } else {
      assert assignments[..n] == assignments;
    }
  }

  /** Main result: an accepted plan's owner lists, one after another, list every Java-owned
      declaration once and nothing else. */
  lemma CoverIsExact(declarations: seq<Declaration>, snapshot: string, assignments: seq<Assignment>)
    requires ExactCover(declarations, snapshot, assignments)
    ensures forall s :: multiset(AllOwners(assignments))[s]
                        == if exists d :: d in declarations && d.symbol == s && d.owner == Some(Java) then 1 else 0
  {
    hide TypesMatch;
    var all := AllOwners(assignments);
    forall s ensures multiset(all)[s] == if JavaOwned(declarations, s) then 1 else 0 {
      CountOnce(all, s);
      if s in all {
        OwnerOfFile(assignments, s);
      }
    }
  }

  lemma {:induction false} CountOnce<T(!new)>(xs: seq<T>, x: T)
    requires NoRepeats(xs)
    ensures multiset(xs)[x] == if x in xs then 1 else 0
  {
    if xs != [] {
      var init, last := xs[..|xs| - 1], xs[|xs| - 1];
      CountOnce(init, x);
      assert xs == init + [last];
      assert forall i :: 0 <= i < |init| ==> init[i] == xs[i] != last;
    }
  }

  lemma {:induction false} OwnerOfFile(assignments: seq<Assignment>, s: Symbol)
    requires s in AllOwners(assignments)
    ensures exists a :: a in assignments && s in a.owners
    decreases |assignments|
  {
    var init, last := assignments[..|assignments| - 1], assignments[|assignments| - 1];
    if s in AllOwners(init) {
      OwnerOfFile(init, s);
    } else {
      assert last in assignments;
    }
  }

  // ----- the types of a file -----

  /** Owner `i` stands for a type. */
  predicate ClassAt(owners: seq<Symbol>, i: int) {
    0 <= i < |owners| && (owners[i].kind == "class" || owners[i].kind == "interface" || owners[i].kind == "enum"
                          || owners[i].kind == "annotation" || owners[i].kind == "object")
  }

  function Classes(owners: seq<Symbol>): set<int> {
    set i | 0 <= i < |owners| && ClassAt(owners, i)
  }

  function ClassesFrom(owners: seq<Symbol>, n: nat): set<int> {
    set i | n <= i < |owners| && ClassAt(owners, i)
  }

  lemma {:induction false} ClassesListed(owners: seq<Symbol>, n: nat)
    requires n <= |owners|
    ensures |ClassOwners(owners[n..])| == |ClassesFrom(owners, n)|
    ensures forall s :: s in ClassOwners(owners[n..]) <==> exists i :: i in ClassesFrom(owners, n) && owners[i] == s
    decreases |owners| - n
  {
    if n < |owners| {
      ClassesListed(owners, n + 1);
      var rest := ClassesFrom(owners, n + 1);
      assert owners[n..][1..] == owners[n + 1..] && owners[n..][0] == owners[n];
      assert ClassAt(owners, n) <==> IsClassLike(owners[n]);
      hide ClassAt, IsClassLike;
      assert ClassesFrom(owners, n) == rest + if ClassAt(owners, n) then {n as int} else {};
      assert ClassOwners(owners[n..]) == (if ClassAt(owners, n) then [owners[n]] else []) + ClassOwners(owners[n + 1..]);
    }
  }

  /** What the gate asks of a file's types: as many as there are owners that stand for types, and
      each of those named among them. */
  lemma TypesMatchIs(a: Assignment)
    ensures TypesMatch(a) <==>
      Classes(a.owners) == {} ||
      (|a.types| == |Classes(a.owners)| && forall i :: ClassAt(a.owners, i) ==> a.owners[i].name in a.types)
  {
    hide ClassOwners, IsClassLike;
    ClassesListed(a.owners, 0);
    assert a.owners[0..] == a.owners && ClassesFrom(a.owners, 0) == Classes(a.owners);
  }

  /** So where those owners have different names, the types of an accepted file are exactly theirs,
      each once. */
  lemma TypesAreOwners(declarations: seq<Declaration>, snapshot: string, a: Assignment)
    requires FileFits(declarations, snapshot, a) && Classes(a.owners) != {}
    requires forall i, j :: ClassAt(a.owners, i) && ClassAt(a.owners, j) && i != j ==> a.owners[i].name != a.owners[j].name
    ensures NoRepeats(a.types) && forall t :: t in a.types <==> exists i :: ClassAt(a.owners, i) && a.owners[i].name == t
  {
    hide TypesMatch;
    TypesMatchIs(a);
    var names := set i | i in Classes(a.owners) :: a.owners[i].name;
    NamesSize(a.owners, Classes(a.owners), names);
    var types := set t | t in a.types;
    assert names <= types;
    SetOfSeq(a.types);
    SubsetSize(names, types);
    forall t | t in a.types ensures exists i :: ClassAt(a.owners, i) && a.owners[i].name == t {
      assert t in names;
    }
  }

  lemma {:induction false} NamesSize(owners: seq<Symbol>, indices: set<int>, names: set<string>)
    requires indices <= Classes(owners) && names == set i | i in indices :: owners[i].name
    requires forall i, j :: ClassAt(owners, i) && ClassAt(owners, j) && i != j ==> owners[i].name != owners[j].name
    ensures |names| == |indices|
    decreases |indices|
  {
    if indices != {} {
      var i :| i in indices;
      NamesSize(owners, indices - {i}, names - {owners[i].name});
    }
  }

  lemma {:induction false} SetOfSeq<T(!new)>(xs: seq<T>)
    ensures var s := set x | x in xs; |s| <= |xs| && (|s| == |xs| ==> NoRepeats(xs))
  {
    if xs != [] {
      var init, last := xs[..|xs| - 1], xs[|xs| - 1];
      SetOfSeq(init);
      var few, all := set x | x in init, set x | x in xs;
      assert xs == init + [last] && all == few + {last};
      if |all| == |xs| {
        assert last !in few;
        assert forall i :: 0 <= i < |init| ==> init[i] == xs[i] && init[i] in few;
      }
    }
  }

  lemma SubsetSize<T>(a: set<T>, b: set<T>)
    requires a <= b
    ensures |a| <= |b| && (|a| == |b| ==> a == b)
  {
    assert b == a + (b - a);
  }
}
