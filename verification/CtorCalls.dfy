/** A constructor call from the Kotlin arguments to the parameters Java delivers. */
module CtorCalls {
  import opened Options
  import opened DefaultText
  import opened NeutralLiterals
  import opened CtorDefaults
  import opened CtorMeaning
  import opened CtorLowering

  // ----- positional lists -----

  /** The parameters of a constructor that leaves out `omitted`, filled in order. */
  function Bind<T>(n: nat, omitted: seq<nat>, values: seq<T>): (r: seq<Option<T>>)
    ensures |r| == n
  {
    if n == 0 then []
    else if n - 1 in omitted || values == [] then Bind(n - 1, omitted, values) + [None]
    else Bind(n - 1, omitted, values[..|values| - 1]) + [Some(values[|values| - 1])]
  }

  /** A list written for a pattern lands each value at its own parameter. */
  lemma {:induction false} BindSupplied<T>(slots: seq<Option<T>>, omitted: seq<nat>)
    requires forall i: nat :: i < |slots| ==> (i in omitted <==> slots[i].None?)
    ensures Bind(|slots|, omitted, Supplied(slots)) == slots
  {
    if slots != [] {
      var n := |slots| - 1;
      BindSupplied(slots[..n], omitted);
      assert slots == slots[..n] + [slots[n]];
      if slots[n].Some? {
        var all := Supplied(slots);
        assert all == Supplied(slots[..n]) + [slots[n].value];
        assert all[..|all| - 1] == Supplied(slots[..n]);
      } else {
        assert Supplied(slots) == Supplied(slots[..n]);
      }
    }
  }

  // ----- the constructors of the class -----

  /** The canonical constructor, the planned overloads and the ladder, by what they leave out. */
  function Constructors(shape: Shape): seq<seq<nat>> {
    [[]] + (Needed(shape.patterns, shape.ladder) + shape.ladder)
  }

  /** Overload resolution on arguments of these types. */
  predicate Selects(shape: Shape, p: seq<nat>, types: seq<string>) {
    Signature(shape, p) == (|types|, ErasureKey(types))
  }

  /** What constructor `p` calls: a rung the rung below it, every other the canonical one. */
  function Delegate(shape: Shape, p: seq<nat>): seq<nat> {
    var k := RungOf(shape.ladder, p);
    if k.Some? && k.value > 0 then shape.ladder[k.value - 1] else []
  }

  function RungOf(ladder: seq<seq<nat>>, p: seq<nat>): (r: Option<nat>)
    ensures r.Some? ==> r.value < |ladder| && ladder[r.value] == p && p !in ladder[..r.value]
    ensures r.None? ==> p !in ladder
  {
    if ladder == [] then None
    else if ladder[0] == p then Some(0)
    else match RungOf(ladder[1..], p) case None => None case Some(k) => Some(k + 1)
  }

  /** The parameters constructor `p` computes: those it leaves out and its delegate does not. */
  predicate Computes(shape: Shape, p: seq<nat>, i: nat) {
    i in p && i !in Delegate(shape, p)
  }

  /** Constructor `p` on an argument list: it computes its share of the defaults with its own
      parameters in scope and calls its delegate. A default that names a parameter it does not
      take does not compile. `left` bounds the calls still to come. */
  function Run(shape: Shape, c: Ctor, p: seq<nat>, values: seq<Value>, left: nat): Option<seq<Option<Value>>>
    requires |c.names| == |c.defaults|
    decreases left
  {
    var slots := Bind(|c.names|, p, values);
    if p == [] then Some(slots)
    else if left == 0 then None
    else if exists i, j :: 0 <= i < |slots| && 0 <= j < |slots| && Computes(shape, p, i) && j in p && Reads(c, i, j) then None
    else Run(shape, c, Delegate(shape, p), Supplied(Next(shape, c, p, slots)), left - 1)
  }

  predicate Reads(c: Ctor, i: nat, j: nat)
    requires i < |c.defaults| && j < |c.names|
  {
    c.defaults[i].Some? ==> c.names[j] in Free(c.defaults[i].value)
  }

  /** The argument list a constructor hands on, still by parameter. */
  function Next(shape: Shape, c: Ctor, p: seq<nat>, slots: seq<Option<Value>>): seq<Option<Value>>
    requires |slots| == |c.names| == |c.defaults|
  {
    seq(|slots|, i requires 0 <= i < |slots| =>
      if Computes(shape, p, i) && c.defaults[i].Some? then Some(Eval(c.defaults[i].value, ScopeOf(c.names, slots))) else slots[i])
  }

  lemma OmittedIs(slots: seq<Option<Value>>, p: seq<nat>)
    requires Omitted(slots) == p
    ensures forall i: nat :: i < |slots| ==> (i in p <==> slots[i].None?)
  {
  }

  lemma BindBack(slots: seq<Option<Value>>, p: seq<nat>)
    requires Omitted(slots) == p
    ensures Bind(|slots|, p, Supplied(slots)) == slots
  {
    OmittedIs(slots, p);
    BindSupplied(slots, p);
  }

  /** A pattern overload that is no rung computes all it leaves out. */
  lemma OverloadRuns(shape: Shape, c: Ctor, slots: seq<Option<Value>>, left: nat)
    requires Callable(c, slots) && Omitted(slots) != [] && Omitted(slots) !in shape.ladder && left > 0
    ensures Run(shape, c, Omitted(slots), Supplied(slots), left) == Delegated(c, slots)
  {
    hide Omitted, Supplied, Run, Bind, RungOf;
    var p := Omitted(slots);
    OmittedIs(slots, p);
    BindBack(slots, p);
    assert Delegate(shape, p) == [];
    RunUnfolds(shape, c, p, Supplied(slots), left);
    forall i, j | 0 <= i < |slots| && 0 <= j < |slots|
      ensures Computes(shape, p, i) && j in p && Reads(c, i, j) <==> slots[i].None? && slots[j].None? && c.names[j] in Free(c.defaults[i].value)
    {
    }
    if Delegated(c, slots).Some? {
      var next := Next(shape, c, p, slots);
      assert next == Delegated(c, slots).value;
      CanonicalRuns(shape, c, next, left - 1);
    }
  }

  lemma RunUnfolds(shape: Shape, c: Ctor, p: seq<nat>, values: seq<Value>, left: nat)
    requires |c.names| == |c.defaults| && p != [] && left > 0
    ensures var slots := Bind(|c.names|, p, values);
      Run(shape, c, p, values, left) ==
        if exists i, j :: 0 <= i < |slots| && 0 <= j < |slots| && Computes(shape, p, i) && j in p && Reads(c, i, j) then None
        else Run(shape, c, Delegate(shape, p), Supplied(Next(shape, c, p, slots)), left - 1)
  {
  }

  lemma CanonicalRuns(shape: Shape, c: Ctor, slots: seq<Option<Value>>, left: nat)
    requires |slots| == |c.names| == |c.defaults| && forall i :: 0 <= i < |slots| ==> slots[i].Some?
    ensures Run(shape, c, [], Supplied(slots), left) == Some(slots)
  {
    hide Bind, Supplied;
    BindSupplied(slots, []);
  }

  /** A rung computes its leftmost omission and hands on to the rung below. */
  lemma RungStep(shape: Shape, c: Ctor, slots: seq<Option<Value>>, k: nat, left: nat) returns (next: seq<Option<Value>>)
    requires Describes(shape, c) && Laddered(shape) && Callable(c, slots)
    requires k < |shape.ladder| && Omitted(slots) == shape.ladder[k] && left > 0
    ensures var below := if k == 0 then [] else shape.ladder[k - 1];
      && Omitted(next) == below && Callable(c, next)
      && Run(shape, c, Omitted(slots), Supplied(slots), left) == Run(shape, c, below, Supplied(next), left - 1)
    ensures Climbed(c, slots) == Climbed(c, next)
  {
    hide Omitted, Supplied, Run, Bind, RungOf, Cumulative, Computes, Delegate, Climbed, Kotlin, Laddered, Eval, Free, Written, Next;
    var p, first := shape.ladder[k], FirstFree(slots);
    var below := if k == 0 then [] else shape.ladder[k - 1];
    LadderIsKotlin(shape, c, slots, k);
    RungDelegates(shape, k);
    BindBack(slots, p);
    RungNotEmpty(slots, first.value, p);
    RunUnfolds(shape, c, p, Supplied(slots), left);
    ComputesFirst(shape, p, below, slots, first.value);
    RungCompiles(shape, c, p, slots, first.value);
    next := slots[first.value := Some(Eval(c.defaults[first.value].value, ScopeOf(c.names, slots)))];
    NextIs(shape, c, p, slots, first.value);
    ClimbsFrom(c, slots, first.value);
  }

  lemma RungNotEmpty(slots: seq<Option<Value>>, first: nat, p: seq<nat>)
    requires FirstFree(slots) == Some(first) && Omitted(slots) == p
    ensures p != [] && forall j: nat :: j in p ==> first <= j < |slots|
  {
    hide Omitted;
    assert first in p;
  }

  /** The one default a rung computes names parameters before its own, and those it takes. */
  lemma RungCompiles(shape: Shape, c: Ctor, p: seq<nat>, slots: seq<Option<Value>>, first: nat)
    requires Callable(c, slots) && FirstFree(slots) == Some(first)
    requires forall i: nat :: i < |slots| ==> (Computes(shape, p, i) <==> i == first)
    requires forall j: nat :: j in p ==> first <= j < |slots|
    ensures !exists i, j :: 0 <= i < |slots| && 0 <= j < |slots| && Computes(shape, p, i) && j in p && Reads(c, i, j)
  {
    hide Computes, Free;
    forall i, j | 0 <= i < |slots| && 0 <= j < |slots| && Computes(shape, p, i) && j in p ensures !Reads(c, i, j) {
      assert i == first && first <= j;
    }
  }

  lemma NextIs(shape: Shape, c: Ctor, p: seq<nat>, slots: seq<Option<Value>>, first: nat)
    requires Callable(c, slots) && FirstFree(slots) == Some(first)
    requires forall i: nat :: i < |slots| ==> (Computes(shape, p, i) <==> i == first)
    ensures Next(shape, c, p, slots) == slots[first := Some(Eval(c.defaults[first].value, ScopeOf(c.names, slots)))]
  {
    hide Computes;
  }

  /** A rung goes down to the canonical constructor, one default at a time. */
  lemma {:induction false} RungRuns(shape: Shape, c: Ctor, slots: seq<Option<Value>>, k: nat, left: nat)
    requires Describes(shape, c) && Laddered(shape) && Callable(c, slots)
    requires k < |shape.ladder| && Omitted(slots) == shape.ladder[k] && left > k
    ensures Run(shape, c, Omitted(slots), Supplied(slots), left) == Some(Climbed(c, slots))
    decreases k
  {
    hide Omitted, Supplied, Run, Climbed, Laddered, Describes;
    var next := RungStep(shape, c, slots, k, left);
    if k == 0 {
      NothingOmitted(next);
      CanonicalRuns(shape, c, next, left - 1);
      CanonicalClimbs(c, next);
    } else {
      RungRuns(shape, c, next, k - 1, left - 1);
    }
  }

  lemma CanonicalClimbs(c: Ctor, slots: seq<Option<Value>>)
    requires Callable(c, slots) && forall i: nat :: i < |slots| ==> slots[i].Some?
    ensures Climbed(c, slots) == slots
  {
  }

  lemma ClimbsFrom(c: Ctor, slots: seq<Option<Value>>, first: nat)
    requires Callable(c, slots) && FirstFree(slots) == Some(first)
    ensures Climbed(c, slots) == Climbed(c, slots[first := Some(Eval(c.defaults[first].value, ScopeOf(c.names, slots)))])
    ensures forall i :: 0 <= i < |slots| && i != first && slots[i].None? ==> c.defaults[i].Some?
  {
  }

  lemma RungDelegates(shape: Shape, k: nat)
    requires Laddered(shape) && |shape.defaults| == |shape.names| && k < |shape.ladder|
    ensures Delegate(shape, shape.ladder[k]) == if k == 0 then [] else shape.ladder[k - 1]
  {
    hide Cumulative;
    var indices := LadderClimbs(shape);
    var r := RungOf(shape.ladder, shape.ladder[k]);
    assert r.Some?;
    assert |shape.ladder[r.value]| == r.value + 1;
  }

  /** What a rung leaves out beyond the rung below is its leftmost omission. */
  lemma ComputesFirst(shape: Shape, p: seq<nat>, below: seq<nat>, slots: seq<Option<Value>>, first: nat)
    requires Delegate(shape, p) == below && Omitted(slots) == p && FirstFree(slots) == Some(first)
    requires forall v :: Omitted(slots[first := Some(v)]) == below
    ensures forall i: nat :: i < |slots| ==> (Computes(shape, p, i) <==> i == first)
  {
    hide Omitted, Delegate;
    var v := Value("", []);
    OmittedIs(slots, p);
    OmittedIs(slots[first := Some(v)], below);
  }

  // ----- argument lists -----

  function Texts(slots: seq<Option<Expr>>): seq<Option<string>> {
    seq(|slots|, i requires 0 <= i < |slots| => if slots[i].Some? then Some(Show(slots[i].value)) else None)
  }

  function Values(slots: seq<Option<Expr>>, caller: Scope): seq<Option<Value>> {
    seq(|slots|, i requires 0 <= i < |slots| => if slots[i].Some? then Some(Eval(slots[i].value, caller)) else None)
  }

  function Shown(args: seq<Expr>): seq<string> {
    seq(|args|, i requires 0 <= i < |args| => Show(args[i]))
  }

  /** The argument for parameter `i` of an inlined call. */
  function Argument(c: Ctor, slots: seq<Option<Expr>>, i: nat): Expr
    requires i < |slots| == |c.defaults| && (slots[i].None? ==> c.defaults[i].Some?)
  {
    if slots[i].Some? then slots[i].value else c.defaults[i].value
  }

  /** Omitted parameters have a default. */
  ghost predicate Accepts(c: Ctor, slots: seq<Option<Expr>>) {
    && c.Legal() && |slots| == |c.names|
    && forall i :: 0 <= i < |slots| && slots[i].None? ==> c.defaults[i].Some?
  }

  /** The list of a lowered call: inlined, or the supplied arguments for the overload. */
  function List(c: Ctor, slots: seq<Option<Expr>>, left: seq<nat>): seq<Expr>
    requires |slots| == |c.defaults| && forall i :: 0 <= i < |slots| && slots[i].None? ==> c.defaults[i].Some?
  {
    if left == [] then seq(|slots|, i requires 0 <= i < |slots| => Argument(c, slots, i)) else Supplied(slots)
  }

  lemma {:induction false} SuppliedTexts(slots: seq<Option<Expr>>)
    ensures Supplied(Texts(slots)) == Shown(Supplied(slots))
  {
    if slots != [] {
      var init := slots[..|slots| - 1];
      SuppliedTexts(init);
      assert Texts(slots)[..|slots| - 1] == Texts(init);
    }
  }

  lemma {:induction false} SuppliedValues(slots: seq<Option<Expr>>, caller: Scope)
    ensures Supplied(Values(slots, caller)) == EvalAll(Supplied(slots), caller)
  {
    if slots != [] {
      var init := slots[..|slots| - 1];
      SuppliedValues(init, caller);
      assert Values(slots, caller)[..|slots| - 1] == Values(init, caller);
      var last := slots[|slots| - 1];
      assert Values(slots, caller)[|slots| - 1] == if last.Some? then Some(Eval(last.value, caller)) else None;
      if last.Some? {
        EvalAllAppends(Supplied(init), last.value, caller);
        assert Supplied(slots) == Supplied(init) + [last.value];
      } else {
        assert Supplied(slots) == Supplied(init);
      }
    }
  }

  lemma {:induction false} EvalAllAppends(args: seq<Expr>, e: Expr, caller: Scope)
    ensures EvalAll(args + [e], caller) == EvalAll(args, caller) + [Eval(e, caller)]
  {
    if args != [] {
      assert (args + [e])[1..] == args[1..] + [e];
      EvalAllAppends(args[1..], e, caller);
    }
  }

  lemma {:induction false} EvalAllAt(args: seq<Expr>, caller: Scope, i: nat)
    requires i < |args|
    ensures |EvalAll(args, caller)| == |args| && EvalAll(args, caller)[i] == Eval(args[i], caller)
  {
    if i > 0 { EvalAllAt(args[1..], caller, i - 1); }
    else if |args| > 1 { EvalAllAt(args[1..], caller, 0); }
  }

  lemma {:induction false} SameOmitted<T, U>(slots: seq<Option<T>>, other: seq<Option<U>>)
    requires |slots| == |other| && forall i :: 0 <= i < |slots| ==> (slots[i].None? <==> other[i].None?)
    ensures Omitted(slots) == Omitted(other)
  {
    if slots != [] {
      SameOmitted(slots[..|slots| - 1], other[..|other| - 1]);
    }
  }

  /** The list a call is lowered to is what is written. */
  lemma LoweredIsList(c: Ctor, slots: seq<Option<Expr>>, texts: seq<string>, left: seq<nat>)
    requires Accepts(c, slots) && Lowered(Texts(slots), c.Texts(), texts, left)
    ensures texts == Shown(List(c, slots, left))
    ensures left == [] || left == Omitted(slots)
    ensures left == [] ==> forall i :: 0 <= i < |slots| && slots[i].None? ==> Neutral(Show(c.defaults[i].value))
  {
    hide Supplied, Omitted, Show, Neutral, NeedsOverload;
    SameOmitted(Texts(slots), slots);
    if NeedsOverload(Texts(slots), c.Texts()) {
      SuppliedTexts(slots);
      OmissionNeeded(slots, c);
    } else {
      forall i | 0 <= i < |slots| ensures texts[i] == Show(Argument(c, slots, i)) {
        assert Texts(slots)[i].Some? <==> slots[i].Some?;
      }
    }
  }

  lemma OmissionNeeded(slots: seq<Option<Expr>>, c: Ctor)
    requires Accepts(c, slots) && NeedsOverload(Texts(slots), c.Texts())
    ensures Omitted(slots) != []
  {
    var i :| 0 <= i < |slots| && LeavesGap(Texts(slots), c.Texts(), i);
    assert i in Omitted(slots);
  }

  // ----- types -----

  /** The types of the written arguments, each that of the parameter it is for. */
  function ListTypes(shape: Shape, slots: seq<Option<Expr>>, left: seq<nat>): seq<string>
    requires |shape.types| == |slots|
  {
    if left == [] then shape.types
    else Supplied(seq(|slots|, i requires 0 <= i < |slots| => if slots[i].Some? then Some(shape.types[i]) else None))
  }

  lemma {:induction false} SuppliedTypes(shape: Shape, typed: seq<Option<string>>, omitted: seq<nat>)
    requires |typed| <= |shape.types|
    requires forall i: nat :: i < |typed| ==> typed[i] == if i in omitted then None else Some(shape.types[i])
    ensures Supplied(typed) == TypesLeft(shape, omitted, |typed|)
  {
    if typed != [] {
      SuppliedTypes(shape, typed[..|typed| - 1], omitted);
    }
  }

  lemma ListTypesLeft(shape: Shape, slots: seq<Option<Expr>>, left: seq<nat>)
    requires |shape.types| == |slots| == |shape.names| && (left == [] || left == Omitted(slots))
    ensures ListTypes(shape, slots, left) == TypesLeft(shape, left, |shape.names|)
  {
    hide Supplied, TypesLeft;
    var typed := seq(|slots|, i requires 0 <= i < |slots| => if i in left then None else Some(shape.types[i]));
    SuppliedTypes(shape, typed, left);
    if left == [] {
      assert typed == seq(|slots|, i requires 0 <= i < |slots| => Some(shape.types[i]));
      SuppliedFull(typed);
      assert Supplied(typed) == shape.types;
    } else {
      assert typed == seq(|slots|, i requires 0 <= i < |slots| => if slots[i].Some? then Some(shape.types[i]) else None);
    }
  }

  // ----- the call -----

  /** What the planner has let through. */
  ghost predicate Planned(shape: Shape, c: Ctor) {
    && Describes(shape, c) && Laddered(shape)
    && (Needed(shape.patterns, shape.ladder) == [] || Writable(shape, Needed(shape.patterns, shape.ladder)))
    && forall p :: p in shape.patterns ==> p != [] && p[0] < |shape.names|
  }

  /** Each list of constructor arguments has one constructor of the class to go to: that of its
      pattern. */
  lemma OneConstructor(shape: Shape, c: Ctor, slots: seq<Option<Expr>>, left: seq<nat>, p: seq<nat>)
    requires Planned(shape, c) && |slots| == |c.names| && (left == [] || left == Omitted(slots))
    requires left in Constructors(shape) && p in Constructors(shape)
    ensures Selects(shape, p, ListTypes(shape, slots, left)) <==> p == left
  {
    hide Needed, Writable, Apart, TypesLeft, ListTypes, ErasureKey, Laddered;
    PlannedApart(shape);
    ListTypesLeft(shape, slots, left);
    if Selects(shape, p, ListTypes(shape, slots, left)) {
      SignatureSelectsOne(shape, p, left);
    }
  }

  /** Main result: an accepted call, lowered for an unblocked plan, is written as the supplied
      arguments in declared order, or with every omission inlined; of all constructors of the
      class its argument types select just the one for its pattern; and that delivers Kotlin's
      parameters: a rung always, an overload exactly if no omitted parameter hides from the scan,
      the canonical constructor if all words of the inlined defaults are constants. */
  lemma LoweredCallIsKotlin(shape: Shape, c: Ctor, args: seq<Arg<Expr>>, slots: seq<Option<Expr>>, caller: Scope,
                            texts: seq<string>, left: seq<nat>)
    requires Planned(shape, c)
    requires Places(c.names, args, |args|, slots) && Accepts(c, slots)
    requires Lowered(Texts(slots), c.Texts(), texts, left) && left in Constructors(shape)
    ensures texts == Shown(List(c, slots, left))
    ensures forall p :: p in Constructors(shape) ==> (Selects(shape, p, ListTypes(shape, slots, left)) <==> p == left)
    ensures var run := Run(shape, c, left, EvalAll(List(c, slots, left), caller), |c.names|);
      && (left != [] ==> (run.Some? <==> left in shape.ladder || NothingHides(c, slots)))
      && (left != [] && run.Some? ==> run.value == Kotlin(c, Values(slots, caller)))
      && (left == [] && InlinedAreClosed(c, slots) ==> run == Some(Kotlin(c, Values(slots, caller))))
  {
    hide Needed, Writable, Laddered, Constructors, Selects, ListTypes, List, Places, Lowered, Run, Kotlin, Eval, EvalAll, Omitted, NothingHides;
    DescribesSizes(shape, c);
    LoweredIsList(c, slots, texts, left);
    forall p | p in Constructors(shape) ensures Selects(shape, p, ListTypes(shape, slots, left)) <==> p == left {
      OneConstructor(shape, c, slots, left, p);
    }
    if left == [] {
      if InlinedAreClosed(c, slots) { InlinedRuns(shape, c, slots, caller); }
    } else {
      PatternRuns(shape, c, slots, caller);
    }
  }

  /** No omitted default has an omitted parameter in a template or right behind `..`. */
  ghost predicate NothingHides(c: Ctor, slots: seq<Option<Expr>>)
    requires Accepts(c, slots)
  {
    forall i, j :: 0 <= i < |slots| && 0 <= j < |slots| && slots[i].None? && slots[j].None? ==> c.names[j] !in Unseen(c.defaults[i].value)
  }

  ghost predicate InlinedAreClosed(c: Ctor, slots: seq<Option<Expr>>)
    requires Accepts(c, slots)
  {
    forall i :: 0 <= i < |slots| && slots[i].None? ==> OnlyConstants(Show(c.defaults[i].value))
  }

  /** A list for an overload or a rung. A call that stays in Kotlin is always written like this. */
  lemma PatternRuns(shape: Shape, c: Ctor, slots: seq<Option<Expr>>, caller: Scope)
    requires Planned(shape, c) && Accepts(c, slots)
    requires Omitted(slots) != [] && Omitted(slots) in Constructors(shape)
    ensures var run := Run(shape, c, Omitted(slots), EvalAll(List(c, slots, Omitted(slots)), caller), |c.names|);
      && (run.Some? <==> Omitted(slots) in shape.ladder || NothingHides(c, slots))
      && (run.Some? ==> run.value == Kotlin(c, Values(slots, caller)))
  {
    hide Omitted, Supplied, Run, Bind, Kotlin, Climbed, Delegated, Eval, EvalAll, Unseen, Writable, Laddered, Describes, Seen, Free;
    var values := Values(slots, caller);
    assert Callable(c, values) && |c.names| == |shape.names| by { DescribesSizes(shape, c); }
    SameOmitted(slots, values);
    SuppliedValues(slots, caller);
    if Omitted(slots) in shape.ladder {
      var k :| 0 <= k < |shape.ladder| && shape.ladder[k] == Omitted(slots);
      RungFits(shape, c, k);
      RungRuns(shape, c, values, k, |c.names|);
      LadderIsKotlin(shape, c, values, k);
    } else {
      OmissionFits(slots);
      OverloadRuns(shape, c, values, |c.names|);
      PlannedOverloadIsKotlin(shape, c, values);
      assert forall i :: 0 <= i < |slots| ==> (values[i].None? <==> slots[i].None?);
    }
  }

  lemma DescribesSizes(shape: Shape, c: Ctor)
    requires Describes(shape, c)
    ensures |c.names| == |shape.names| == |shape.defaults| == |shape.types| == |c.defaults|
  {
  }

  lemma OmissionFits<T>(slots: seq<Option<T>>)
    requires Omitted(slots) != []
    ensures |slots| > 0
  {
  }

  lemma RungFits(shape: Shape, c: Ctor, k: nat)
    requires Describes(shape, c) && Laddered(shape) && k < |shape.ladder|
    ensures k < |c.names|
  {
    hide Cumulative, Laddered;
    var indices := LadderClimbs(shape);
    TypesLeftCount(shape, shape.ladder[k], |shape.names|);
  }

  /** The canonical call, every omission inlined. */
  lemma InlinedRuns(shape: Shape, c: Ctor, slots: seq<Option<Expr>>, caller: Scope)
    requires Accepts(c, slots) && InlinedAreClosed(c, slots)
    requires forall i :: 0 <= i < |slots| && slots[i].None? ==> Neutral(Show(c.defaults[i].value))
    ensures Run(shape, c, [], EvalAll(List(c, slots, []), caller), |c.names|) == Some(Kotlin(c, Values(slots, caller)))
  {
    hide Supplied, Run, Bind, Kotlin, Eval, EvalAll, Neutral, Show, Free, Written;
    var values, list := Values(slots, caller), List(c, slots, []);
    var full: seq<Option<Value>> := seq(|slots|, i requires 0 <= i < |slots| => Some(Eval(list[i], caller)));
    assert Callable(c, values);
    KotlinLength(c, values);
    forall i | 0 <= i < |slots| ensures Kotlin(c, values)[i] == full[i] {
      if slots[i].None? {
        assert values[i].None?;
        var e := c.defaults[i].value;
        assert list[i] == e && full[i] == Some(Eval(e, caller));
        NeutralIsClosed(e);
        assert Free(e) == {};
        InlinedIsKotlin(c, values, i);
        assert Kotlin(c, values)[i] == Some(Eval(e, caller));
      } else {
        assert list[i] == slots[i].value && values[i] == full[i];
        KotlinAt(c, values, i);
      }
    }
    assert Kotlin(c, values) == full;
    SuppliedFull(full);
    EvalAllLength(list, caller);
    forall i | 0 <= i < |slots| ensures EvalAll(list, caller)[i] == full[i].value { EvalAllAt(list, caller, i); }
    assert EvalAll(list, caller) == Supplied(full);
    CanonicalRuns(shape, c, full, |c.names|);
  }

  lemma KotlinLength(c: Ctor, slots: seq<Option<Value>>)
    requires Callable(c, slots)
    ensures |Kotlin(c, slots)| == |slots|
  {
  }

  lemma EvalAllLength(args: seq<Expr>, caller: Scope)
    ensures |EvalAll(args, caller)| == |args|
  {
  }

  /** The arguments as they are written. */
  function AsTexts(args: seq<Arg<Expr>>): seq<Arg<string>> {
    seq(|args|, i requires 0 <= i < |args| => Arg(args[i].name, Show(args[i].value)))
  }

  lemma {:induction false} SamePositional<T, U>(args: seq<Arg<T>>, other: seq<Arg<U>>)
    requires |args| == |other| && forall i :: 0 <= i < |args| ==> args[i].name == other[i].name
    ensures Positional(args) == Positional(other)
  {
    if args != [] { SamePositional(args[1..], other[1..]); }
  }

  lemma PlacesTexts(names: seq<string>, args: seq<Arg<Expr>>, slots: seq<Option<Expr>>)
    requires Places(names, args, |args|, slots)
    ensures |AsTexts(args)| == |args| && Places(names, AsTexts(args), |args|, Texts(slots))
  {
    hide Show, Position;
    var texts := AsTexts(args);
    SamePositional(args, texts);
    forall i | 0 <= i < |args| ensures Target(names, texts, i) == Target(names, args, i) {
    }
    forall p | 0 <= p < |slots| && Texts(slots)[p].Some? ensures exists i :: 0 <= i < |args| && Target(names, texts, i) == Some(p) {
      var i := PlacedFrom(names, args, slots, p);
      assert Target(names, texts, i) == Some(p);
    }
  }

  /** Main result for a caller that stays Kotlin: its rewritten list is the supplied arguments in
      declared order, its types select the constructor of the omission pattern only, and that
      delivers Kotlin's parameters whenever it compiles. */
  lemma RewrittenCallIsKotlin(shape: Shape, c: Ctor, args: seq<Arg<Expr>>, slots: seq<Option<Expr>>, caller: Scope)
    requires Planned(shape, c)
    requires Places(c.names, args, |args|, slots) && Accepts(c, slots)
    requires Omitted(slots) in Constructors(shape)
    ensures |AsTexts(args)| == |args| && Places(c.names, AsTexts(args), |args|, Texts(slots))
    ensures Supplied(Texts(slots)) == Shown(Supplied(slots))
    ensures forall p :: p in Constructors(shape) ==> (Selects(shape, p, ListTypes(shape, slots, Omitted(slots))) <==> p == Omitted(slots))
    ensures var run := Run(shape, c, Omitted(slots), EvalAll(Supplied(slots), caller), |c.names|);
      && (run.Some? <==> Omitted(slots) in shape.ladder || NothingHides(c, slots))
      && (run.Some? ==> run.value == Kotlin(c, Values(slots, caller)))
  {
    hide Needed, Writable, Laddered, Constructors, Selects, ListTypes, Places, Run, Kotlin, Eval, EvalAll, Omitted, Supplied;
    DescribesSizes(shape, c);
    PlacesTexts(c.names, args, slots);
    SuppliedTexts(slots);
    forall p | p in Constructors(shape) ensures Selects(shape, p, ListTypes(shape, slots, Omitted(slots))) <==> p == Omitted(slots) {
      OneConstructor(shape, c, slots, Omitted(slots), p);
    }
    if Omitted(slots) == [] {
      NothingOmitted(slots);
      SuppliedFull(slots);
      assert List(c, slots, []) == Supplied(slots);
      InlinedRuns(shape, c, slots, caller);
    } else {
      PatternRuns(shape, c, slots, caller);
    }
  }

  /** An inlined sum of strings picks up the caller's own variable: here `n` is a companion
      member to the class and a local of the caller. */
  lemma InliningCaptures()
    ensures var e := Plus(Plus(Quoted("a"), Name("n")), Quoted("b"));
      var c := Ctor(["s"], [Some(e)]);
      var caller := map["n" := Value("local", [])];
      && Accepts(c, [None]) && !NeedsOverload(Texts([None]), c.Texts()) && !InlinedAreClosed(c, [None])
      && Kotlin(c, [None])[0] != Some(Eval(e, caller))
  {
    StringSumPasses();
    CapturedDiffers(Plus(Plus(Quoted("a"), Name("n")), Quoted("b")));
  }

  lemma CapturedDiffers(e: Expr)
    requires Written(e) && Neutral(Show(e)) && Free(e) == {"n"}
    ensures var c := Ctor(["s"], [Some(e)]);
      && Accepts(c, [None]) && !NeedsOverload(Texts([None]), c.Texts()) && !InlinedAreClosed(c, [None])
      && Kotlin(c, [None])[0] != Some(Eval(e, map["n" := Value("local", [])]))
  {
    hide Neutral, Show, Eval, Words, Written;
    var c := Ctor(["s"], [Some(e)]);
    var slots: seq<Option<Expr>> := [None];
    NeutralIsClosed(e);
    assert DefaultAt(c.Texts(), 0) == Some(Show(e));
    KotlinAt(c, [None], 0);
    assert slots[0].None?;
    EvalTells(e, "n", map[], map["n" := Value("local", [])]);
  }
}
