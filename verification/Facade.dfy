/** Merging a regenerated file facade into the one an earlier run left. */
module Facade {
  import opened Options

  /** A static method by signature, or a static field by name, with its rendered text. */
  datatype Member = Member(key: string, text: string)

  /** What stands in a class body: comments and constructors, static members, and the rest. */
  datatype Item = Skipped(text: string) | Static(member: Member) | Other(text: string)

  datatype Path = Path(text: string, simple: string, wildcard: bool, isStatic: bool)

  /** An import renders with the trivia before it: the blanks and breaks since what precedes it. */
  datatype Import = Import(trivia: string, path: Path)

  predicate IsBlank(trivia: string) {
    forall c :: c in trivia ==> c == ' ' || '\t' <= c <= '\r'
  }

  datatype Unit = Unit(package: string, name: string, imports: seq<Import>, items: seq<Item>)

  // ----- what can be merged -----

  ghost predicate DistinctKeys(items: seq<Item>) {
    forall i, j :: 0 <= i < j < |items| && items[i].Static? && items[j].Static? ==> items[i].member.key != items[j].member.key
  }

  /** Static members only, each key once. */
  ghost predicate GoodItems(items: seq<Item>) {
    (forall i :: 0 <= i < |items| ==> !items[i].Other?) && DistinctKeys(items)
  }

  /** Each import is legible, nothing but blanks before it, and no simple name comes twice. */
  ghost predicate GoodImports(imports: seq<Import>) {
    && (forall i :: 0 <= i < |imports| ==> IsBlank(imports[i].trivia))
    && forall i, j :: 0 <= i < j < |imports| && !imports[i].path.wildcard && !imports[j].path.wildcard ==>
      imports[i].path.simple != imports[j].path.simple
  }

  function Wildcards(imports: seq<Import>): set<Path> {
    set i | i in imports && i.path.wildcard :: i.path
  }

  function StaticImports(imports: seq<Import>): set<Import> {
    set i | i in imports && i.path.isStatic
  }

  ghost predicate SameNames(b: seq<Import>, x: seq<Import>) {
    forall i, j :: i in b && j in x && !i.path.wildcard && !j.path.wildcard && i.path.simple == j.path.simple ==> i.path == j.path
  }

  ghost predicate Compatible(b: seq<Import>, x: seq<Import>) {
    && GoodImports(b) && GoodImports(x) && SameNames(b, x)
    && Wildcards(b) == Wildcards(x) && StaticImports(b) == StaticImports(x)
  }

  /** Every path with the property in the one list is in the other. */
  ghost predicate WildcardsIn(b: seq<Import>, x: seq<Import>) {
    forall i :: i in b && i.path.wildcard ==> exists j :: j in x && j.path == i.path
  }

  ghost predicate StaticsIn(b: seq<Import>, x: seq<Import>) {
    forall i :: i in b && i.path.isStatic ==> i in x
  }

  ghost predicate Legible(imports: seq<Import>) {
    && (forall i, c :: i in imports && c in i.trivia ==> c in {' ', '\t', '\n', '\U{0B}', '\U{0C}', '\r'})
    && forall i, j :: 0 <= i < j < |imports| && !imports[i].path.wildcard && !imports[j].path.wildcard ==>
      imports[i].path.simple != imports[j].path.simple
  }

  /** What is asked of two lists of imports, one by one: blanks alone before each, every simple name
      once in each and for one path in both, and the wildcards and static imports of each, these to
      the letter, in the other. */
  lemma CompatibleIs(b: seq<Import>, x: seq<Import>)
    ensures Compatible(b, x) <==>
      && Legible(b) && Legible(x) && SameNames(b, x)
      && WildcardsIn(b, x) && WildcardsIn(x, b) && StaticsIn(b, x) && StaticsIn(x, b)
  {
    LegibleIs(b);
    LegibleIs(x);
    hide GoodImports, Legible, SameNames;
    WildcardSubset(b, x);
    WildcardSubset(x, b);
    StaticSubset(b, x);
    StaticSubset(x, b);
  }

  lemma LegibleIs(imports: seq<Import>)
    ensures GoodImports(imports) <==> Legible(imports)
  {
    if GoodImports(imports) {
      forall i, c | i in imports && c in i.trivia ensures c in {' ', '\t', '\n', '\U{0B}', '\U{0C}', '\r'} {
        assert IsBlank(i.trivia);
      }
    }
  }

  lemma StaticSubset(b: seq<Import>, x: seq<Import>)
    ensures StaticImports(b) <= StaticImports(x) <==> StaticsIn(b, x)
  {
    if StaticImports(b) <= StaticImports(x) {
      forall i | i in b && i.path.isStatic ensures i in x {
        assert i in StaticImports(b);
      }
    }
  }

  lemma WildcardSubset(b: seq<Import>, x: seq<Import>)
    ensures Wildcards(b) <= Wildcards(x) <==> WildcardsIn(b, x)
  {
    if Wildcards(b) <= Wildcards(x) {
      forall i | i in b && i.path.wildcard ensures exists j :: j in x && j.path == i.path {
        assert i.path in Wildcards(b);
      }
    }
  }

  ghost predicate StaticIn(items: seq<Item>, i: Item) {
    i in items && i.Static?
  }

  ghost predicate Agree(b: seq<Item>, x: seq<Item>) {
    forall i, j :: StaticIn(b, i) && StaticIn(x, j) && i.member.key == j.member.key ==> i == j
  }

  ghost predicate Mergeable(stem: string, b: Unit, x: Unit) {
    && b.name == stem && x.name == stem && b.package == x.package && Compatible(b.imports, x.imports)
    && GoodItems(b.items) && GoodItems(x.items) && Agree(b.items, x.items)
  }

  // ----- the merge -----

  ghost predicate HasKey(items: seq<Item>, key: string) {
    exists i :: i in items && i.Static? && i.member.key == key
  }

  /** The members of `x` with keys that `b` lacks, in order. */
  ghost function NewMembers(b: seq<Item>, x: seq<Item>): (r: seq<Item>)
    ensures forall i :: i in r ==> i.Static?
  {
    if x == [] then []
    else NewMembers(b, x[..|x| - 1]) +
         if x[|x| - 1].Static? && !HasKey(b, x[|x| - 1].member.key) then [x[|x| - 1]] else []
  }

  /** The imports of `x` that do not stand in `b` to the letter, each once. */
  function NewImports(b: seq<Import>, x: seq<Import>): seq<Import> {
    if x == [] then []
    else
      var rest := NewImports(b, x[..|x| - 1]);
      if x[|x| - 1] in b || x[|x| - 1] in rest then rest else rest + [x[|x| - 1]]
  }

  ghost function Merged(b: Unit, x: Unit): Unit {
    b.(imports := b.imports + NewImports(b.imports, x.imports), items := b.items + NewMembers(b.items, x.items))
  }

  /** The members by key, or none where the body cannot be merged. */
  method MembersOf(items: seq<Item>) returns (members: Option<map<string, Item>>)
    ensures members.Some? <==> GoodItems(items)
    ensures members.Some? ==> forall k :: k in members.value <==> HasKey(items, k)
    ensures members.Some? ==> forall k :: k in members.value ==> members.value[k] in items && members.value[k].Static? && members.value[k].member.key == k
  {
    var byKey: map<string, Item> := map[];
    for n := 0 to |items|
      invariant GoodItems(items[..n])
      invariant forall i :: 0 <= i < n && items[i].Static? ==> items[i].member.key in byKey && byKey[items[i].member.key] == items[i]
      invariant forall k :: k in byKey ==> byKey[k] in items[..n] && byKey[k].Static? && byKey[k].member.key == k
    {
      assert forall i :: 0 <= i < n ==> items[..n + 1][i] == items[..n][i];
      var item := items[n];
      match item
      case Skipped(_) =>
      case Other(_) => return None;
      case Static(m) =>
        if m.key in byKey {
          return None;
        }
        byKey := byKey[m.key := item];
    }
    assert items[..|items|] == items;
    return Some(byKey);
  }

  method CollectImports(imports: seq<Import>) returns (explicit: Option<map<string, Path>>)
    ensures explicit.Some? <==> GoodImports(imports)
    ensures explicit.Some? ==> forall i :: i in imports && !i.path.wildcard ==> i.path.simple in explicit.value && explicit.value[i.path.simple] == i.path
    ensures explicit.Some? ==> forall n :: n in explicit.value ==> exists i :: i in imports && !i.path.wildcard && i.path == explicit.value[n] && i.path.simple == n
  {
    var byName: map<string, Path> := map[];
    for n := 0 to |imports|
      invariant GoodImports(imports[..n])
      invariant forall i :: 0 <= i < n && !imports[i].path.wildcard ==> imports[i].path.simple in byName && byName[imports[i].path.simple] == imports[i].path
      invariant forall k :: k in byName ==> exists i :: 0 <= i < n && !imports[i].path.wildcard && imports[i].path == byName[k] && imports[i].path.simple == k
    {
      assert forall i :: 0 <= i < n ==> imports[..n + 1][i] == imports[..n][i];
      assert imports[..n + 1][n] == imports[n];
      if !IsBlank(imports[n].trivia) {
        return None;
      }
      var path := imports[n].path;
      if !path.wildcard {
        if path.simple in byName {
          return None;
        }
        byName := byName[path.simple := path];
      }
    }
    assert imports[..|imports|] == imports;
    return Some(byName);
  }

  method ImportsCompatible(b: seq<Import>, x: seq<Import>) returns (ok: bool)
    ensures ok <==> Compatible(b, x)
  {
    var before := CollectImports(b);
    var after := CollectImports(x);
    if before.None? || after.None? || Wildcards(b) != Wildcards(x) {
      return false;
    }
    var names := after.value.Keys;
    var rest := names;
    while rest != {}
      invariant rest <= names
      invariant forall n :: n in names - rest && n in before.value ==> before.value[n] == after.value[n]
    {
      var n :| n in rest;
      if n in before.value && before.value[n] != after.value[n] {
        NamesClash(b, x, before.value, after.value, n);
        return false;
      }
      rest := rest - {n};
    }
    return StaticImports(b) == StaticImports(x);
  }

  lemma NamesClash(b: seq<Import>, x: seq<Import>, before: map<string, Path>, after: map<string, Path>, n: string)
    requires n in before && n in after && before[n] != after[n]
    requires exists i :: i in b && !i.path.wildcard && i.path == before[n] && i.path.simple == n
    requires exists i :: i in x && !i.path.wildcard && i.path == after[n] && i.path.simple == n
    ensures !SameNames(b, x)
  {
  }

  /** The merge, or none: refused exactly when the two cannot be merged. */
  method MergeExisting(stem: string, b: Unit, x: Unit) returns (r: Option<Unit>)
    ensures r.Some? <==> Mergeable(stem, b, x)
    ensures r.Some? ==> r.value == Merged(b, x)
  {
    hide Compatible, DistinctKeys, NewImports, NewMembers;
    if b.name != stem || x.name != stem || b.package != x.package {
      return None;
    }
    var compatible := ImportsCompatible(b.imports, x.imports);
    if !compatible {
      return None;
    }
    var held := MembersOf(b.items);
    var incoming := MembersOf(x.items);
    if held.None? || incoming.None? {
      return None;
    }
    var additions := Additions(b.items, held.value, x.items);
    if additions.None? {
      return None;
    }
    return Some(b.(imports := b.imports + NewImports(b.imports, x.imports), items := b.items + additions.value));
  }

  method Additions(b: seq<Item>, held: map<string, Item>, x: seq<Item>) returns (r: Option<seq<Item>>)
    requires DistinctKeys(b)
    requires forall k :: k in held <==> HasKey(b, k)
    requires forall k :: k in held ==> held[k] in b && held[k].Static? && held[k].member.key == k
    ensures r.Some? <==> Agree(b, x)
    ensures r.Some? ==> r.value == NewMembers(b, x)
  {
    var additions := [];
    for n := 0 to |x|
      invariant Agree(b, x[..n]) && additions == NewMembers(b, x[..n])
    {
      assert x[..n + 1] == x[..n] + [x[n]] && x[..n + 1][..n] == x[..n];
      var item := x[n];
      if item.Static? {
        if item.member.key in held {
          KeyUnique(b, held[item.member.key]);
          if held[item.member.key] != item {
            assert StaticIn(x, item) && StaticIn(b, held[item.member.key]);
            return None;
          }
        } else {
          additions := additions + [item];
        }
      }
    }
    assert x[..|x|] == x;
    return Some(additions);
  }

  lemma KeyUnique(items: seq<Item>, item: Item)
    requires DistinctKeys(items) && item in items && item.Static?
    ensures forall i :: i in items && i.Static? && i.member.key == item.member.key ==> i == item
  {
  }

  // ----- the merged unit -----

  lemma {:induction false} NewMembersAre(b: seq<Item>, x: seq<Item>)
    requires DistinctKeys(x)
    ensures forall i :: i in NewMembers(b, x) <==> StaticIn(x, i) && !HasKey(b, i.member.key)
    ensures DistinctKeys(NewMembers(b, x))
    decreases |x|
  {
    if x != [] {
      var init, last := x[..|x| - 1], x[|x| - 1];
      assert x == init + [last];
      NewMembersAre(b, init);
      var rest := NewMembers(b, init);
      if last.Static? {
        forall i | 0 <= i < |rest| ensures rest[i].member.key != last.member.key {
          assert rest[i] in rest;
          var j :| 0 <= j < |init| && init[j] == rest[i];
          assert x[j] == init[j];
        }
      }
    }
  }

  lemma {:induction false} NewImportsAre(b: seq<Import>, x: seq<Import>)
    ensures forall i :: i in NewImports(b, x) <==> i in x && i !in b
    ensures forall i, j :: 0 <= i < j < |NewImports(b, x)| ==> NewImports(b, x)[i] != NewImports(b, x)[j]
    decreases |x|
  {
    if x != [] {
      assert x == x[..|x| - 1] + [x[|x| - 1]];
      NewImportsAre(b, x[..|x| - 1]);
    }
  }

  /** Equal imports stand behind equal trivia in both. */
  ghost predicate SameTrivia(b: seq<Import>, x: seq<Import>) {
    forall i, j :: i in b && j in x && i.path == j.path && !i.path.wildcard ==> i.trivia == j.trivia
  }

  /** A merge keeps every old member in its place, appends exactly the incoming ones with new
      keys, and never holds a key twice. */
  lemma MergeIsUnion(stem: string, b: Unit, x: Unit)
    requires Mergeable(stem, b, x)
    ensures var r := Merged(b, x);
      && b.items <= r.items && b.imports <= r.imports && GoodItems(r.items)
      && (forall i :: StaticIn(r.items, i) <==> StaticIn(b.items, i) || StaticIn(x.items, i))
      && (forall i :: i in r.imports <==> i in b.imports || i in x.imports)
  {
    NewMembersAre(b.items, x.items);
    NewImportsAre(b.imports, x.imports);
    var r, fresh' := Merged(b, x), NewMembers(b.items, x.items);
    assert r.items == b.items + fresh';
    forall i, j | 0 <= i < j < |r.items| && r.items[i].Static? && r.items[j].Static?
      ensures r.items[i].member.key != r.items[j].member.key
    {
      if i < |b.items| <= j {
        assert fresh'[j - |b.items|] in fresh' && b.items[i] in b.items;
      } else if |b.items| <= i {
        assert fresh'[i - |b.items|] == r.items[i] && fresh'[j - |b.items|] == r.items[j];
      }
    }
    forall i | 0 <= i < |r.items| ensures !r.items[i].Other? {
      if i >= |b.items| { assert fresh'[i - |b.items|] in fresh'; }
    }
    forall i | StaticIn(x.items, i) ensures StaticIn(r.items, i) {
      if HasKey(b.items, i.member.key) {
        var j :| j in b.items && j.Static? && j.member.key == i.member.key;
        assert j == i;
      }
    }
  }

  /** The merged imports are good again, exactly when no import came in twice behind different
      trivia. */
  lemma MergedImportsGood(stem: string, b: Unit, x: Unit)
    requires Mergeable(stem, b, x)
    ensures GoodImports(Merged(b, x).imports) <==> SameTrivia(b.imports, x.imports)
  {
    hide NewImports, NewMembers, GoodItems, Agree;
    NewImportsAre(b.imports, x.imports);
    var r, more := Merged(b, x).imports, NewImports(b.imports, x.imports);
    assert r == b.imports + more;
    if SameTrivia(b.imports, x.imports) {
      forall i | 0 <= i < |r| ensures IsBlank(r[i].trivia) {
        if i < |b.imports| { assert r[i] == b.imports[i]; } else { assert more[i - |b.imports|] in x.imports; }
      }
      forall i, j | 0 <= i < j < |r| && !r[i].path.wildcard && !r[j].path.wildcard ensures r[i].path.simple != r[j].path.simple {
        if i < |b.imports| <= j {
          assert more[j - |b.imports|] in more && b.imports[i] in b.imports;
          ImportNotTwice(b.imports, x.imports, b.imports[i], more[j - |b.imports|]);
        } else if |b.imports| <= i {
          assert more[i - |b.imports|] in more && more[j - |b.imports|] in more;
          SimpleOnce(x.imports, more[i - |b.imports|], more[j - |b.imports|]);
        }
      }
    } else {
      var i, j :| i in b.imports && j in x.imports && i.path == j.path && !i.path.wildcard && i.trivia != j.trivia;
      ImportTwice(b.imports, x.imports, more, i, j);
    }
  }

  lemma ImportTwice(b: seq<Import>, x: seq<Import>, more: seq<Import>, i: Import, j: Import)
    requires GoodImports(b) && i in b && j in x && i.path == j.path && !i.path.wildcard && i != j
    requires j !in b ==> j in more
    ensures !GoodImports(b + more)
  {
    if j in b {
      SimpleOnce(b, i, j);
    }
    var n :| 0 <= n < |b| && b[n] == i;
    var m :| 0 <= m < |more| && more[m] == j;
    assert (b + more)[n] == i && (b + more)[|b| + m] == j;
  }

  lemma SimpleOnce(imports: seq<Import>, i: Import, j: Import)
    requires GoodImports(imports) && i in imports && j in imports && !i.path.wildcard && !j.path.wildcard
    ensures i != j ==> i.path.simple != j.path.simple
  {
  }

  lemma ImportNotTwice(b: seq<Import>, x: seq<Import>, i: Import, j: Import)
    requires SameNames(b, x) && SameTrivia(b, x) && i in b && j in x && j !in b && !i.path.wildcard && !j.path.wildcard
    ensures i.path.simple != j.path.simple
  {
  }

  /** Main result: merging the same members once more changes nothing, exactly when no import
      came in twice behind different trivia; else the merged file is refused. */
  lemma MergeTwice(stem: string, b: Unit, x: Unit)
    requires Mergeable(stem, b, x)
    ensures Mergeable(stem, Merged(b, x), x) <==> SameTrivia(b.imports, x.imports)
    ensures Merged(Merged(b, x), x) == Merged(b, x)
  {
    hide GoodItems, GoodImports, DistinctKeys;
    var r := Merged(b, x);
    MergeIsUnion(stem, b, x);
    MergedImportsGood(stem, b, x);
    NothingNew(r.items, x.items);
    NoNewImports(r.imports, x.imports);
    assert r.items + [] == r.items && r.imports + [] == r.imports;
    if SameTrivia(b.imports, x.imports) {
      GoodImportsAgree(x.imports);
      MergedCompatible(b.imports, x.imports, r.imports, x.imports);
      GoodItemsAgree(x.items);
      AgreeOnUnion(b.items, x.items, r.items, x.items);
    }
  }

  lemma GoodImportsAgree(imports: seq<Import>)
    requires GoodImports(imports)
    ensures SameNames(imports, imports)
  {
  }

  lemma GoodItemsAgree(items: seq<Item>)
    requires GoodItems(items)
    ensures Agree(items, items)
  {
  }

  lemma {:induction false} NothingNew(r: seq<Item>, x: seq<Item>)
    requires forall i :: StaticIn(x, i) ==> StaticIn(r, i)
    ensures NewMembers(r, x) == []
    decreases |x|
  {
    if x != [] {
      assert StaticIn(x, x[|x| - 1]) || !x[|x| - 1].Static?;
      assert forall i :: StaticIn(x[..|x| - 1], i) ==> StaticIn(x, i);
      NothingNew(r, x[..|x| - 1]);
    }
  }

  lemma {:induction false} NoNewImports(r: seq<Import>, x: seq<Import>)
    requires forall i :: i in x ==> i in r
    ensures NewImports(r, x) == []
    decreases |x|
  {
    if x != [] {
      NoNewImports(r, x[..|x| - 1]);
    }
  }

  /** The merged imports get along with what both got along with. */
  lemma MergedCompatible(b: seq<Import>, x: seq<Import>, r: seq<Import>, c: seq<Import>)
    requires Compatible(b, x) && GoodImports(r) && (forall i :: i in r <==> i in b || i in x)
    requires GoodImports(c) && SameNames(x, c) && SameNames(b, c)
    requires Wildcards(x) == Wildcards(c) && StaticImports(x) == StaticImports(c)
    ensures Compatible(r, c)
  {
    hide GoodImports;
    forall p ensures p in Wildcards(r) <==> p in Wildcards(c) {
      if p in Wildcards(r) {
        var i :| i in r && i.path.wildcard && i.path == p;
        assert p in Wildcards(b) || p in Wildcards(x);
      }
      if p in Wildcards(c) {
        assert p in Wildcards(x);
        var i :| i in x && i.path.wildcard && i.path == p;
        assert i in r;
      }
    }
    forall i ensures i in StaticImports(r) <==> i in StaticImports(c) {
      assert i in StaticImports(r) <==> i in StaticImports(b) || i in StaticImports(x);
    }
  }

  // ----- three facades -----

  /** Merging `a`, then `b`, then `c` goes through. */
  ghost predicate MergeableInTurn(stem: string, a: Unit, b: Unit, c: Unit) {
    Mergeable(stem, a, b) && Mergeable(stem, Merged(a, b), c)
  }

  /** Whether three merge is a matter of each pair, and of the trivia of the first two. */
  lemma InTurnIsPairwise(stem: string, a: Unit, b: Unit, c: Unit)
    ensures MergeableInTurn(stem, a, b, c)
       <==> Mergeable(stem, a, b) && Mergeable(stem, a, c) && Mergeable(stem, b, c) && SameTrivia(a.imports, b.imports)
  {
    hide GoodItems, GoodImports, DistinctKeys, NewMembers, NewImports;
    if Mergeable(stem, a, b) {
      var r := Merged(a, b);
      MergeIsUnion(stem, a, b);
      MergedImportsGood(stem, a, b);
      if Mergeable(stem, a, c) && Mergeable(stem, b, c) && SameTrivia(a.imports, b.imports) {
        MergedCompatible(a.imports, b.imports, r.imports, c.imports);
        AgreeOnUnion(a.items, b.items, r.items, c.items);
      }
      if Mergeable(stem, r, c) {
        ComponentsCompatible(a.imports, b.imports, r.imports, c.imports);
        AgreeOnUnion(a.items, b.items, r.items, c.items);
      }
    }
  }

  lemma AgreeOnUnion(a: seq<Item>, b: seq<Item>, r: seq<Item>, c: seq<Item>)
    requires forall i :: StaticIn(r, i) <==> StaticIn(a, i) || StaticIn(b, i)
    ensures Agree(r, c) <==> Agree(a, c) && Agree(b, c)
  {
  }

  lemma ComponentsCompatible(b: seq<Import>, x: seq<Import>, r: seq<Import>, c: seq<Import>)
    requires Compatible(b, x) && Compatible(r, c) && (forall i :: i in r <==> i in b || i in x)
    ensures Compatible(b, c) && Compatible(x, c)
  {
    hide GoodImports;
    forall p ensures p in Wildcards(r) <==> p in Wildcards(b) {
      if p in Wildcards(r) {
        var i :| i in r && i.path.wildcard && i.path == p;
        assert p in Wildcards(b) || p in Wildcards(x);
      }
      if p in Wildcards(b) {
        var i :| i in b && i.path.wildcard && i.path == p;
        assert i in r;
      }
    }
    forall i ensures i in StaticImports(r) <==> i in StaticImports(b) {
      assert i in StaticImports(r) <==> i in StaticImports(b) || i in StaticImports(x);
    }
  }

  /** Each two of the three can be merged. */
  ghost predicate PairsMergeable(stem: string, a: Unit, b: Unit, c: Unit) {
    Mergeable(stem, a, b) && Mergeable(stem, a, c) && Mergeable(stem, b, c)
  }

  /** Main result: when the order of two merges does not matter. Of three facades that merge
      pair by pair, one order goes through if and only if the other does, exactly when the
      second and the third both repeat the first one's imports behind the same trivia or both
      do not; where both go through they end with the same members and the same imports. */
  lemma OrderIndependent(stem: string, a: Unit, b: Unit, c: Unit)
    ensures (MergeableInTurn(stem, a, b, c) <==> MergeableInTurn(stem, a, c, b))
       <==> (PairsMergeable(stem, a, b, c) ==> (SameTrivia(a.imports, b.imports) <==> SameTrivia(a.imports, c.imports)))
    ensures MergeableInTurn(stem, a, b, c) && MergeableInTurn(stem, a, c, b) ==>
      var r, s := Merged(Merged(a, b), c), Merged(Merged(a, c), b);
      && (forall i :: StaticIn(r.items, i) <==> StaticIn(s.items, i))
      && (forall i :: i in r.imports <==> i in s.imports)
  {
    hide Compatible, GoodItems, DistinctKeys, NewMembers, NewImports, SameTrivia;
    InTurnIsPairwise(stem, a, b, c);
    InTurnIsPairwise(stem, a, c, b);
    MergeableSwaps(stem, b, c);
    if MergeableInTurn(stem, a, b, c) && MergeableInTurn(stem, a, c, b) {
      MergeIsUnion(stem, a, b);
      MergeIsUnion(stem, Merged(a, b), c);
      MergeIsUnion(stem, a, c);
      MergeIsUnion(stem, Merged(a, c), b);
    }
  }

  lemma MergeableSwaps(stem: string, b: Unit, c: Unit)
    ensures Mergeable(stem, b, c) <==> Mergeable(stem, c, b)
  {
    hide GoodItems, GoodImports;
  }

  /** A facade with one import, behind `trivia`. */
  function OneImport(trivia: string): Unit {
    Unit("p", "FooKt", [Import(trivia, Path("import a.B", "B", false, false))], [])
  }

  lemma OneImportMergeable(t: string, u: string)
    requires IsBlank(t) && IsBlank(u)
    ensures Mergeable("FooKt", OneImport(t), OneImport(u))
    ensures SameTrivia(OneImport(t).imports, OneImport(u).imports) <==> t == u
  {
    var b, x := OneImport(t), OneImport(u);
    assert Wildcards(b.imports) == {} && Wildcards(x.imports) == {};
    assert StaticImports(b.imports) == {} && StaticImports(x.imports) == {};
    assert b.imports[0] in b.imports && x.imports[0] in x.imports;
  }

  /** An import that has moved up behind the package line comes in behind another break than
      before: merged once, the file is refused ever after. */
  lemma TriviaRefusesNextMerge()
    ensures var b, x := OneImport("\n"), OneImport("\n\n");
      Mergeable("FooKt", b, x) && !Mergeable("FooKt", Merged(b, x), x)
  {
    OneImportMergeable("\n", "\n\n");
    MergeTwice("FooKt", OneImport("\n"), OneImport("\n\n"));
  }

  /** And the order matters: the one that differs goes through last only. */
  lemma TriviaMakesOrderMatter()
    ensures var a, b := OneImport("\n"), OneImport("\n\n");
      !MergeableInTurn("FooKt", a, b, a) && MergeableInTurn("FooKt", a, a, b)
  {
    hide Mergeable, Merged, MergeableInTurn;
    OneImportMergeable("\n", "\n");
    OneImportMergeable("\n", "\n\n");
    OneImportMergeable("\n\n", "\n");
    InTurnIsPairwise("FooKt", OneImport("\n"), OneImport("\n\n"), OneImport("\n"));
    InTurnIsPairwise("FooKt", OneImport("\n"), OneImport("\n"), OneImport("\n\n"));
  }
}
