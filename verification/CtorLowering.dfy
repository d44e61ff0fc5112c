/** The plan, the lowered call and the emitted constructors together. */
module CtorLowering {
  import opened Options
  import opened DefaultText
  import opened CtorDefaults
  import opened CtorMeaning

  // ----- a planned overload compiles -----

  /** The constructor as the planner is given it. */
  ghost predicate Describes(shape: Shape, c: Ctor) {
    && c.Legal() && shape.names == c.names && shape.defaults == c.Texts() && |shape.types| == |c.names|
  }

  lemma ScanWhole(e: Expr)
    requires Written(e)
    ensures Scan(Show(e), None) == Seen(e)
  {
    ScanShow(e, "");
    assert Show(e) + "" == Show(e);
  }

  lemma PositionOf(names: seq<string>, j: nat)
    requires j < |names| && forall i, k :: 0 <= i < k < |names| ==> names[i] != names[k]
    ensures Position(names, names[j]) == Some(j)
  {
    var r := Position(names, names[j]);
    assert names[j] in names;
  }

  /** The default of the omitted parameter `i` names the omitted parameter `j`. */
  predicate Names(c: Ctor, slots: seq<Option<Value>>, i: nat, j: nat)
    requires |slots| == |c.names| == |c.defaults| && i < |slots| && j < |slots|
    requires slots[i].None? ==> c.defaults[i].Some?
  {
    slots[i].None? && slots[j].None? && c.names[j] in Free(c.defaults[i].value)
  }

  /** Main result, part one: a pattern the plan has an overload for compiles as a delegating
      constructor exactly if the scan sees each omitted parameter that an omitted default names:
      if none stands in a template or right behind `..`. Then it delivers Kotlin's parameters. */
  lemma PlannedOverloadIsKotlin(shape: Shape, c: Ctor, slots: seq<Option<Value>>)
    requires Describes(shape, c) && Callable(c, slots)
    requires Writable(shape, Needed(shape.patterns, shape.ladder))
    requires Omitted(slots) in shape.patterns && Omitted(slots) !in shape.ladder
    ensures Delegated(c, slots).Some? <==>
      forall i, j :: 0 <= i < |slots| && 0 <= j < |slots| && Names(c, slots, i, j) ==> c.names[j] in Seen(c.defaults[i].value)
    ensures Delegated(c, slots).Some? <==>
      forall i, j :: 0 <= i < |slots| && 0 <= j < |slots| && slots[i].None? && slots[j].None? ==> c.names[j] !in Unseen(c.defaults[i].value)
    ensures Delegated(c, slots).Some? ==> Delegated(c, slots).value == Kotlin(c, slots)
  {
    hide Writable, Omitted, Kotlin, Delegated, Free, Seen, Unseen, Written;
    DelegatedIsKotlin(c, slots);
    forall i, j | 0 <= i < |slots| && 0 <= j < |slots| && slots[i].None? && slots[j].None?
      ensures c.names[j] !in Seen(c.defaults[i].value)
      ensures c.names[j] in Free(c.defaults[i].value) <==> c.names[j] in Unseen(c.defaults[i].value)
    {
      OmittedNotSeen(shape, c, slots, i, j);
      FreeIsSeenOrUnseen(c.defaults[i].value, c.names[j]);
    }
    if Delegated(c, slots).None? {
      var i, j :| 0 <= i < |slots| && 0 <= j < |slots| && slots[i].None? && slots[j].None? && c.names[j] in Free(c.defaults[i].value);
      assert Names(c, slots, i, j);
    }
  }

  lemma OmittedNotSeen(shape: Shape, c: Ctor, slots: seq<Option<Value>>, i: nat, j: nat)
    requires Describes(shape, c) && Callable(c, slots)
    requires Writable(shape, Needed(shape.patterns, shape.ladder))
    requires Omitted(slots) in shape.patterns && Omitted(slots) !in shape.ladder
    requires i < |slots| && j < |slots| && slots[i].None? && slots[j].None? && i < |c.defaults| && c.defaults[i].Some?
    requires j < |c.names|
    ensures c.names[j] !in Seen(c.defaults[i].value)
  {
    hide Scan, Show, Apart, Signature;
    var pattern, e := Omitted(slots), c.defaults[i].value;
    assert i in pattern && j in pattern;
    assert Fault(shape, pattern, i).None?;
    assert DefaultAt(shape.defaults, i) == Some(Show(e));
    ScanWhole(e);
    PositionOf(c.names, j);
    assert !Missing(c.names, pattern, Seen(e));
  }

  /** A name right behind `..` escapes the scan: the plan lets the overload through, and it
      does not compile. */
  lemma RangeHidesName()
    ensures HidesName(UpTo(Number("0"), Name("n")))
  {
    ScanWhole(UpTo(Number("0"), Name("n")));
    HiddenDoesNotCompile(UpTo(Number("0"), Name("n")));
  }

  /** So does a name in a string template. */
  lemma TemplateHidesName()
    ensures HidesName(Template("n"))
  {
    ScanWhole(Template("n"));
    HiddenDoesNotCompile(Template("n"));
  }

  /** The default names `n`, the scan of its text lets it through, and a class whose other
      parameter is `n` has no overload without both. */
  ghost predicate HidesName(e: Expr) {
    && Written(e) && Free(e) == {"n"} && !UnsuppliedReference(Show(e), ["n", "r"], [0, 1])
    && var c := Ctor(["n", "r"], [Some(Number("1")), Some(e)]);
       c.Legal() && Delegated(c, [None, None]) == None
  }

  lemma HiddenDoesNotCompile(e: Expr)
    requires Written(e) && Free(e) == {"n"}
    ensures var c := Ctor(["n", "r"], [Some(Number("1")), Some(e)]); c.Legal() && Delegated(c, [None, None]) == None
  {
    var c := Ctor(["n", "r"], [Some(Number("1")), Some(e)]);
    assert c.defaults[1].Some? && c.names[0] in Free(c.defaults[1].value);
    var slots: seq<Option<Value>> := [None, None];
    assert slots[1].None? && slots[0].None?;
  }

  // ----- one constructor per signature -----

  lemma {:induction false} TypesLeftShort(shape: Shape, pattern: seq<nat>, n: nat)
    requires |shape.types| == |shape.names| && n <= |shape.names|
    ensures |TypesLeft(shape, pattern, n)| <= n
    ensures (exists i :: i in pattern && i < n) ==> |TypesLeft(shape, pattern, n)| < n
    ensures pattern == [] ==> |TypesLeft(shape, pattern, n)| == n
  {
    if n > 0 {
      TypesLeftShort(shape, pattern, n - 1);
    }
  }

  /** No two constructors the class gets share arity and erased types, the canonical one (which
      omits nothing) included; so a signature picks one of them. */
  lemma SignatureSelectsOne(shape: Shape, p: seq<nat>, q: seq<nat>)
    requires |shape.types| == |shape.names|
    requires Apart(shape, Needed(shape.patterns, shape.ladder) + shape.ladder)
    requires forall r :: r in shape.patterns || r in shape.ladder ==> r != [] && r[0] < |shape.names|
    requires p == [] || p in Needed(shape.patterns, shape.ladder) + shape.ladder
    requires q == [] || q in Needed(shape.patterns, shape.ladder) + shape.ladder
    requires Signature(shape, p) == Signature(shape, q)
    ensures p == q
  {
    var all := Needed(shape.patterns, shape.ladder) + shape.ladder;
    if p != [] { OverloadIsShorter(shape, p); } else { TypesLeftShort(shape, p, |shape.names|); }
    if q != [] { OverloadIsShorter(shape, q); } else { TypesLeftShort(shape, q, |shape.names|); }
    if p != [] && q != [] {
      var i :| 0 <= i < |all| && all[i] == p;
      var j :| 0 <= j < |all| && all[j] == q;
      assert i == j;
    }
  }

  lemma OverloadIsShorter(shape: Shape, p: seq<nat>)
    requires |shape.types| == |shape.names| && p != [] && p[0] < |shape.names|
    ensures Signature(shape, p).0 < |shape.names|
  {
    assert p[0] in p;
    TypesLeftShort(shape, p, |shape.names|);
  }

  // ----- the ladder -----

  ghost predicate Descending(indices: seq<nat>) {
    forall i, j :: 0 <= i < j < |indices| ==> indices[i] > indices[j]
  }

  lemma DescendingBelow(top: nat, rest: seq<nat>)
    requires Descending(rest) && forall i :: i in rest ==> i < top
    ensures Descending([top] + rest)
  {
    forall j | 0 <= j < |rest| ensures rest[j] < top {
      assert rest[j] in rest;
    }
  }

  /** Both ladders list defaulted parameters from right to left. */
  lemma {:induction false} LaddersDescend(defaults: seq<Option<string>>, n: nat)
    requires n <= |defaults|
    ensures Descending(DefaultedDown(defaults, n)) && Descending(TrailingDown(defaults, n))
    ensures forall i :: i in DefaultedDown(defaults, n) || i in TrailingDown(defaults, n) ==> i < n && defaults[i].Some?
  {
    if n > 0 {
      LaddersDescend(defaults, n - 1);
      DescendingBelow(n - 1, DefaultedDown(defaults, n - 1));
      DescendingBelow(n - 1, TrailingDown(defaults, n - 1));
    }
  }

  /** A rung's pattern is sorted. */
  lemma {:induction false} ReversedAscends(indices: seq<nat>)
    requires Descending(indices)
    ensures |Reversed(indices)| == |indices|
    ensures forall i :: 0 <= i < |indices| ==> Reversed(indices)[i] == indices[|indices| - 1 - i]
  {
    if indices != [] {
      ReversedAscends(indices[..|indices| - 1]);
    }
  }

  lemma {:induction false} ReversedStep(indices: seq<nat>)
    requires indices != []
    ensures Reversed(indices) != [] && Reversed(indices)[0] == indices[|indices| - 1]
    ensures Reversed(indices)[1..] == Reversed(indices[..|indices| - 1])
  {
  }

  /** Each rung is the rung before it with one more parameter omitted, left of all others;
      the first rung delegates to the canonical constructor. */
  lemma {:induction false} RungsNest(indices: seq<nat>, k: nat)
    requires k < |indices|
    ensures |Cumulative(indices)| == |indices|
    ensures Cumulative(indices)[k] != [] && Cumulative(indices)[k][0] == indices[k]
    ensures Cumulative(indices)[k][1..] == if k == 0 then [] else Cumulative(indices)[k - 1]
  {
    var init := indices[..|indices| - 1];
    ReversedStep(indices);
    CumulativeLength(indices);
    CumulativeLength(init);
    if k == |indices| - 1 {
      if k > 0 {
        assert Cumulative(init)[k - 1] == Reversed(init);
      }
    } else {
      RungsNest(init, k);
    }
  }

  lemma {:induction false} CumulativeLength(indices: seq<nat>)
    ensures |Cumulative(indices)| == |indices|
    ensures indices != [] ==> Cumulative(indices)[|indices| - 1] == Reversed(indices)
  {
    if indices != [] {
      CumulativeLength(indices[..|indices| - 1]);
    }
  }

  /** A pattern lists parameters from left to right. */
  ghost predicate Ascending(pattern: seq<nat>, n: nat) {
    && (forall i, j :: 0 <= i < j < |pattern| ==> pattern[i] < pattern[j])
    && forall i :: 0 <= i < |pattern| ==> pattern[i] < n
  }

  /** What the emitter writes whether it is called or not: nothing, or one of the two ladders. */
  ghost predicate Laddered(shape: Shape) {
    || shape.ladder == []
    || shape.ladder == TrailingPatterns(shape.defaults)
    || shape.ladder == JvmOverloadPatterns(shape.defaults)
  }

  lemma {:induction false} CumulativeIs(indices: seq<nat>, k: nat)
    requires k < |indices| && |Cumulative(indices)| == |indices|
    ensures Cumulative(indices)[k] == Reversed(indices[..k + 1])
  {
    var init := indices[..|indices| - 1];
    CumulativeLength(init);
    if k == |indices| - 1 {
      assert indices[..k + 1] == indices;
    } else {
      CumulativeIs(init, k);
      assert init[..k + 1] == indices[..k + 1];
    }
  }

  /** Both ladders climb over some of the defaulted parameters from right to left: rung `k`
      leaves out `k + 1` of them. */
  lemma LadderClimbs(shape: Shape) returns (indices: seq<nat>)
    requires Laddered(shape) && |shape.defaults| == |shape.names|
    ensures Descending(indices) && shape.ladder == Cumulative(indices) && |shape.ladder| == |indices|
    ensures forall k :: 0 <= k < |indices| ==> |shape.ladder[k]| == k + 1 && Ascending(shape.ladder[k], |shape.names|)
  {
    hide TrailingDown, DefaultedDown, Cumulative, Reversed;
    var n := |shape.defaults|;
    LaddersDescend(shape.defaults, n);
    indices := if shape.ladder == [] then []
               else if shape.ladder == Cumulative(TrailingDown(shape.defaults, n)) then TrailingDown(shape.defaults, n)
               else DefaultedDown(shape.defaults, n);
    CumulativeLength(indices);
    forall k | 0 <= k < |indices| ensures |Cumulative(indices)[k]| == k + 1 && Ascending(Cumulative(indices)[k], n) {
      CumulativeIs(indices, k);
      ReversedAscends(indices[..k + 1]);
      assert forall i :: 0 <= i <= k ==> indices[i] in indices;
    }
  }

  /** A constructor takes as many parameters as its pattern leaves. */
  lemma {:induction false} TypesLeftCount(shape: Shape, pattern: seq<nat>, n: nat)
    requires n <= |shape.names| == |shape.types| && Ascending(pattern, n)
    ensures |pattern| <= n && |TypesLeft(shape, pattern, n)| == n - |pattern|
    decreases n
  {
    if n > 0 {
      if pattern != [] && pattern[|pattern| - 1] == n - 1 {
        var init := pattern[..|pattern| - 1];
        TypesLeftCount(shape, init, n - 1);
        SameTypesLeft(shape, pattern, init, n - 1);
      } else {
        TypesLeftCount(shape, pattern, n - 1);
        assert n - 1 !in pattern;
      }
    }
  }

  lemma {:induction false} SameTypesLeft(shape: Shape, p: seq<nat>, q: seq<nat>, n: nat)
    requires forall i: nat :: i < n ==> (i in p <==> i in q)
    ensures TypesLeft(shape, p, n) == TypesLeft(shape, q, n)
  {
    if n > 0 { SameTypesLeft(shape, p, q, n - 1); }
  }

  /** The plan does not compare the rungs of a ladder where it adds nothing; they never clash. */
  lemma PlannedApart(shape: Shape)
    requires Laddered(shape) && |shape.defaults| == |shape.names| == |shape.types|
    requires Needed(shape.patterns, shape.ladder) == [] || Writable(shape, Needed(shape.patterns, shape.ladder))
    ensures Apart(shape, Needed(shape.patterns, shape.ladder) + shape.ladder)
    ensures forall r :: r in shape.ladder ==> r != [] && r[0] < |shape.names|
  {
    hide Needed, Fault, TypesLeft, Cumulative;
    var indices := LadderClimbs(shape);
    if Needed(shape.patterns, shape.ladder) == [] {
      forall i, j | 0 <= i < j < |shape.ladder| ensures Signature(shape, shape.ladder[i]) != Signature(shape, shape.ladder[j]) {
        TypesLeftCount(shape, shape.ladder[i], |shape.names|);
        TypesLeftCount(shape, shape.ladder[j], |shape.names|);
      }
      assert Needed(shape.patterns, shape.ladder) + shape.ladder == shape.ladder;
    }
  }

  /** Main result, part two: a call that omits a rung's pattern climbs rung by rung and
      delivers Kotlin's parameters. No default of the ladder needs to be checked for that:
      what rung `k` leaves omitted is what rung `k - 1` takes. */
  lemma LadderIsKotlin(shape: Shape, c: Ctor, slots: seq<Option<Value>>, k: nat)
    requires Describes(shape, c) && Laddered(shape) && Callable(c, slots)
    requires k < |shape.ladder| && Omitted(slots) == shape.ladder[k]
    ensures Climbed(c, slots) == Kotlin(c, slots)
    ensures var first := FirstFree(slots);
      && first.Some?
      && forall v :: Omitted(slots[first.value := Some(v)]) == if k == 0 then [] else shape.ladder[k - 1]
  {
    hide Kotlin, Climbed, Cumulative;
    ClimbedIsKotlin(c, slots);
    var indices := LadderClimbs(shape);
    RungsNest(indices, k);
    var i := indices[k];
    assert i in Omitted(slots);
    var first := FirstFree(slots);
    assert first.Some? && first.value in Omitted(slots);
    forall v: Value ensures Omitted(slots[first.value := Some(v)]) == Omitted(slots)[1..] {
      OmittedShrinks(slots, first.value, v);
    }
  }
}
