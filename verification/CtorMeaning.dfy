/** A lowered call delivers the parameters Kotlin's named and default arguments deliver. */
module CtorMeaning {
  import opened Options
  import opened DefaultText
  import opened CtorDefaults

  // ----- values -----

  /** Values as the expressions that make them: nothing is equal that need not be. */
  datatype Value = Value(tag: string, parts: seq<Value>)

  type Scope = map<string, Value>

  /** A name outside the scope is the class's own affair: a companion member or an import. */
  function Lookup(name: string, scope: Scope): Value {
    if name in scope then scope[name] else Value(name, [])
  }

  function Eval(e: Expr, scope: Scope): Value
    decreases e, 0
  {
    match e
    case Number(ds) => Value(ds, [])
    case Constant(w) => Value(w, [])
    case Quoted(s) => Value("string " + s, [])
    case Template(n) => Value("template", [Lookup(n, scope)])
    case Name(n) => Lookup(n, scope)
    case Member(t, n) => Value("." + n, [Eval(t, scope)])
    case Apply(n, args) => Value("()", [Lookup(n, scope)] + EvalAll(args, scope))
    case Plus(l, r) => Value("+", [Eval(l, scope), Eval(r, scope)])
    case UpTo(l, h) => Value("..", [Eval(l, scope), Eval(h, scope)])
  }

  function EvalAll(args: seq<Expr>, scope: Scope): seq<Value>
    decreases args, 0
  {
    if args == [] then [] else [Eval(args[0], scope)] + EvalAll(args[1..], scope)
  }

  /** Only the free names matter. */
  lemma EvalAgrees(e: Expr, scope: Scope, other: Scope)
    requires forall n :: n in Free(e) ==> (n in scope <==> n in other) && (n in scope ==> scope[n] == other[n])
    ensures Eval(e, scope) == Eval(e, other)
    decreases e, 0
  {
    match e {
      case Member(t, _) => EvalAgrees(t, scope, other);
      case Apply(_, args) => EvalAllAgrees(args, scope, other);
      case Plus(l, r) => EvalAgrees(l, scope, other); EvalAgrees(r, scope, other);
      case UpTo(l, h) => EvalAgrees(l, scope, other); EvalAgrees(h, scope, other);
      case _ =>
    }
  }

  lemma EvalAllAgrees(args: seq<Expr>, scope: Scope, other: Scope)
    requires forall n :: n in FreeIn(args) ==> (n in scope <==> n in other) && (n in scope ==> scope[n] == other[n])
    ensures EvalAll(args, scope) == EvalAll(args, other)
    decreases args, 0
  {
    if args != [] {
      EvalAgrees(args[0], scope, other);
      EvalAllAgrees(args[1..], scope, other);
    }
  }

  // ----- Kotlin: defaults run left to right -----

  datatype Ctor = Ctor(names: seq<string>, defaults: seq<Option<Expr>>) {
    /** Distinct parameters; a default mentions parameters before its own only. */
    ghost predicate Legal() {
      && |defaults| == |names|
      && (forall i, j :: 0 <= i < j < |names| ==> names[i] != names[j])
      && (forall i :: 0 <= i < |defaults| && defaults[i].Some? ==> Written(defaults[i].value))
      && forall i, j :: 0 <= i < |defaults| && defaults[i].Some? && i <= j < |names| ==> names[j] !in Free(defaults[i].value)
    }

    function Texts(): seq<Option<string>> {
      seq(|defaults|, i requires 0 <= i < |defaults| =>
        if defaults[i].Some? then Some(Show(defaults[i].value)) else None)
    }
  }

  /** Each name with its value, for the slots that have one. */
  function ScopeOf(names: seq<string>, slots: seq<Option<Value>>): Scope
    requires |names| == |slots|
  {
    if names == [] then map[]
    else
      var before := ScopeOf(names[..|names| - 1], slots[..|names| - 1]);
      var last := slots[|names| - 1];
      if last.Some? then before[names[|names| - 1] := last.value] else before
  }

  /** Omitted parameters with a default, and nothing else omitted. */
  ghost predicate Callable(c: Ctor, slots: seq<Option<Value>>) {
    && c.Legal() && |slots| == |c.names|
    && forall i :: 0 <= i < |slots| && slots[i].None? ==> c.defaults[i].Some?
  }

  /** The first `n` parameters as Kotlin binds them. */
  function KotlinBinds(c: Ctor, slots: seq<Option<Value>>, n: nat): (r: seq<Option<Value>>)
    requires |slots| == |c.names| == |c.defaults| && n <= |slots|
    requires forall i :: 0 <= i < |slots| && slots[i].None? ==> c.defaults[i].Some?
    ensures |r| == n && forall i :: 0 <= i < n ==> r[i].Some?
  {
    if n == 0 then []
    else
      var before := KotlinBinds(c, slots, n - 1);
      before + [if slots[n - 1].Some? then slots[n - 1]
                else Some(Eval(c.defaults[n - 1].value, ScopeOf(c.names[..n - 1], before)))]
  }

  function Kotlin(c: Ctor, slots: seq<Option<Value>>): seq<Option<Value>>
    requires |slots| == |c.names| == |c.defaults|
    requires forall i :: 0 <= i < |slots| && slots[i].None? ==> c.defaults[i].Some?
  {
    KotlinBinds(c, slots, |slots|)
  }

  // ----- Java: constructors that delegate -----

  /** A pattern overload passes its parameters on and computes every omitted default itself;
      a default that names a parameter the overload does not take does not compile. */
  function Delegated(c: Ctor, slots: seq<Option<Value>>): Option<seq<Option<Value>>>
    requires |slots| == |c.names| == |c.defaults|
    requires forall i :: 0 <= i < |slots| && slots[i].None? ==> c.defaults[i].Some?
  {
    if exists i, j :: 0 <= i < |slots| && 0 <= j < |slots| && slots[i].None? && slots[j].None?
         && c.names[j] in Free(c.defaults[i].value) then None
    else Some(seq(|slots|, i requires 0 <= i < |slots| =>
      if slots[i].Some? then slots[i] else Some(Eval(c.defaults[i].value, ScopeOf(c.names, slots)))))
  }

  /** A ladder rung computes the leftmost omitted default and calls the next rung. */
  function Climbed(c: Ctor, slots: seq<Option<Value>>): seq<Option<Value>>
    requires |slots| == |c.names| == |c.defaults|
    requires forall i :: 0 <= i < |slots| && slots[i].None? ==> c.defaults[i].Some?
    decreases |Omitted(slots)|
  {
    match FirstFree(slots)
    case None => slots
    case Some(i) =>
      var next := slots[i := Some(Eval(c.defaults[i].value, ScopeOf(c.names, slots)))];
      OmittedShrinks(slots, i, next[i].value);
      Climbed(c, next)
  }

  lemma {:induction false} OmittedShrinks<T>(slots: seq<Option<T>>, i: nat, value: T)
    requires i < |slots| && slots[i].None? && forall j :: 0 <= j < i ==> slots[j].Some?
    ensures Omitted(slots) == [i] + Omitted(slots[i := Some(value)])
  {
    var last := |slots| - 1;
    var next := slots[i := Some(value)];
    if i == last {
      assert next[..last] == slots[..last];
      NoneOmitted(slots[..last]);
    } else {
      assert next[..last] == slots[..last][i := Some(value)];
      OmittedShrinks(slots[..last], i, value);
    }
  }

  lemma NoneOmitted<T>(slots: seq<Option<T>>)
    requires forall j :: 0 <= j < |slots| ==> slots[j].Some?
    ensures Omitted(slots) == []
  {
    if slots != [] {
      NoneOmitted(slots[..|slots| - 1]);
    }
  }

  // ----- scopes -----

  lemma {:induction false} ScopeOfLookup(names: seq<string>, slots: seq<Option<Value>>, x: string)
    requires |names| == |slots| && forall i, j :: 0 <= i < j < |names| ==> names[i] != names[j]
    ensures x in ScopeOf(names, slots) <==> exists i :: 0 <= i < |names| && names[i] == x && slots[i].Some?
    ensures forall i :: 0 <= i < |names| && names[i] == x && slots[i].Some? ==>
      x in ScopeOf(names, slots) && ScopeOf(names, slots)[x] == slots[i].value
  {
    if names != [] {
      var n := |names| - 1;
      ScopeOfLookup(names[..n], slots[..n], x);
      assert forall i :: 0 <= i < n ==> names[..n][i] == names[i] && slots[..n][i] == slots[i];
    }
  }

  /** Two scopes a default cannot tell apart: they agree on the parameters it mentions. */
  lemma DefaultAgrees(c: Ctor, i: nat, slots: seq<Option<Value>>, bound: seq<Option<Value>>)
    requires c.Legal() && i < |c.names| && c.defaults[i].Some? && |slots| == |c.names| && |bound| == i
    requires forall j :: 0 <= j < i ==> bound[j].Some?
    requires forall j :: 0 <= j < i && c.names[j] in Free(c.defaults[i].value) ==> slots[j] == bound[j]
    ensures Eval(c.defaults[i].value, ScopeOf(c.names, slots)) == Eval(c.defaults[i].value, ScopeOf(c.names[..i], bound))
  {
    var e := c.defaults[i].value;
    var all, some := ScopeOf(c.names, slots), ScopeOf(c.names[..i], bound);
    forall x | x in Free(e)
      ensures (x in all <==> x in some) && (x in all ==> all[x] == some[x])
    {
      ScopeOfLookup(c.names, slots, x);
      ScopeOfLookup(c.names[..i], bound, x);
      if j :| 0 <= j < |c.names| && c.names[j] == x {
        assert j < i;
        assert c.names[..i][j] == x;
      }
    }
    EvalAgrees(e, all, some);
  }

  // ----- the three ways a call is served -----

  lemma {:induction false} KotlinBindsPrefix(c: Ctor, slots: seq<Option<Value>>, n: nat, m: nat)
    requires Callable(c, slots) && n <= m <= |slots|
    ensures KotlinBinds(c, slots, m)[..n] == KotlinBinds(c, slots, n)
  {
    if n < m {
      KotlinBindsPrefix(c, slots, n, m - 1);
    }
  }

  lemma KotlinAt(c: Ctor, slots: seq<Option<Value>>, i: nat)
    requires Callable(c, slots) && i < |slots|
    ensures Kotlin(c, slots)[i] ==
      if slots[i].Some? then slots[i] else Some(Eval(c.defaults[i].value, ScopeOf(c.names[..i], KotlinBinds(c, slots, i))))
  {
    KotlinBindsPrefix(c, slots, i + 1, |slots|);
    assert Kotlin(c, slots)[i] == Kotlin(c, slots)[..i + 1][i];
  }

  /** Supplied parameters are bound as given. */
  lemma KotlinBindsSupplied(c: Ctor, slots: seq<Option<Value>>, n: nat, j: nat)
    requires Callable(c, slots) && j < n <= |slots| && slots[j].Some?
    ensures KotlinBinds(c, slots, n)[j] == slots[j]
  {
    KotlinBindsPrefix(c, slots, j + 1, n);
    assert KotlinBinds(c, slots, n)[j] == KotlinBinds(c, slots, n)[..j + 1][j];
  }

  /** A pattern overload compiles exactly when no omitted default names an omitted parameter,
      and then binds what Kotlin binds. */
  lemma DelegatedIsKotlin(c: Ctor, slots: seq<Option<Value>>)
    requires Callable(c, slots)
    ensures Delegated(c, slots).Some? <==>
      forall i, j :: 0 <= i < |slots| && 0 <= j < |slots| && slots[i].None? && slots[j].None? ==>
        c.names[j] !in Free(c.defaults[i].value)
    ensures Delegated(c, slots).Some? ==> Delegated(c, slots).value == Kotlin(c, slots)
  {
    if Delegated(c, slots).Some? {
      forall i | 0 <= i < |slots| ensures Delegated(c, slots).value[i] == Kotlin(c, slots)[i] {
        KotlinAt(c, slots, i);
        if slots[i].None? {
          var bound := KotlinBinds(c, slots, i);
          forall j | 0 <= j < i && c.names[j] in Free(c.defaults[i].value) ensures slots[j] == bound[j] {
            KotlinBindsSupplied(c, slots, i, j);
          }
          DefaultAgrees(c, i, slots, bound);
        }
      }
    }
  }

  /** The ladder needs no such condition: each rung adds the leftmost omitted default. */
  lemma {:induction false} ClimbedIsKotlin(c: Ctor, slots: seq<Option<Value>>)
    requires Callable(c, slots)
    ensures Climbed(c, slots) == Kotlin(c, slots)
    decreases |Omitted(slots)|
  {
    match FirstFree(slots) {
      case None =>
        forall i | 0 <= i < |slots| ensures slots[i] == Kotlin(c, slots)[i] { KotlinAt(c, slots, i); }
      case Some(i) =>
        var value := Eval(c.defaults[i].value, ScopeOf(c.names, slots));
        var next := slots[i := Some(value)];
        OmittedShrinks(slots, i, value);
        var bound := KotlinBinds(c, slots, i);
        forall j | 0 <= j < i ensures slots[j] == bound[j] { KotlinBindsSupplied(c, slots, i, j); }
        DefaultAgrees(c, i, slots, bound);
        SameBinds(c, slots, i, value, |slots|);
        ClimbedIsKotlin(c, next);
    }
  }

  /** Writing a default's value where Kotlin would compute it changes nothing. */
  lemma {:induction false} SameBinds(c: Ctor, slots: seq<Option<Value>>, i: nat, value: Value, n: nat)
    requires Callable(c, slots) && i < |slots| && slots[i].None? && n <= |slots|
    requires value == Eval(c.defaults[i].value, ScopeOf(c.names[..i], KotlinBinds(c, slots, i)))
    ensures KotlinBinds(c, slots[i := Some(value)], n) == KotlinBinds(c, slots, n)
  {
    if n > 0 {
      SameBinds(c, slots, i, value, n - 1);
    }
  }

  /** A scope that differs at a free name gives another value. */
  lemma {:induction false} EvalTells(e: Expr, x: string, scope: Scope, other: Scope)
    requires x in Free(e) && Lookup(x, scope) != Lookup(x, other)
    ensures Eval(e, scope) != Eval(e, other)
    decreases e, 1
  {
    match e {
      case Member(t, _) =>
        EvalTells(t, x, scope, other);
        assert Eval(e, scope).parts[0] != Eval(e, other).parts[0];
      case Apply(n, args) =>
        if x == n {
          assert Eval(e, scope).parts[0] != Eval(e, other).parts[0];
        } else {
          EvalAllTells(args, x, scope, other);
          assert Eval(e, scope).parts[1..] == EvalAll(args, scope) && Eval(e, other).parts[1..] == EvalAll(args, other);
        }
      case Plus(l, r) => PairTells(e, l, r, x, scope, other);
      case UpTo(l, h) => PairTells(e, l, h, x, scope, other);
      case Template(_) => assert Eval(e, scope).parts[0] != Eval(e, other).parts[0];
      case _ =>
    }
  }

  lemma {:induction false} PairTells(e: Expr, l: Expr, r: Expr, x: string, scope: Scope, other: Scope)
    requires (e == Plus(l, r) || e == UpTo(l, r)) && x in Free(e) && Lookup(x, scope) != Lookup(x, other)
    ensures Eval(e, scope) != Eval(e, other)
    decreases e, 0
  {
    if x in Free(l) {
      EvalTells(l, x, scope, other);
      assert Eval(e, scope).parts[0] != Eval(e, other).parts[0];
    } else {
      EvalTells(r, x, scope, other);
      assert Eval(e, scope).parts[1] != Eval(e, other).parts[1];
    }
  }

  lemma {:induction false} EvalAllTells(args: seq<Expr>, x: string, scope: Scope, other: Scope)
    requires x in FreeIn(args) && Lookup(x, scope) != Lookup(x, other)
    ensures EvalAll(args, scope) != EvalAll(args, other)
    decreases args, 0
  {
    if x in Free(args[0]) {
      EvalTells(args[0], x, scope, other);
      assert EvalAll(args, scope)[0] != EvalAll(args, other)[0];
    } else {
      EvalAllTells(args[1..], x, scope, other);
      assert EvalAll(args, scope)[1..] == EvalAll(args[1..], scope) && EvalAll(args, other)[1..] == EvalAll(args[1..], other);
    }
  }

  /** Inlining: an omitted default that is written into the call runs in the caller's scope, and
      has Kotlin's value for every caller exactly if it names nothing. */
  lemma InlinedIsKotlin(c: Ctor, slots: seq<Option<Value>>, i: nat)
    requires Callable(c, slots) && i < |slots| && slots[i].None?
    ensures (forall caller :: Kotlin(c, slots)[i] == Some(Eval(c.defaults[i].value, caller))) <==> Free(c.defaults[i].value) == {}
  {
    var e, own := c.defaults[i].value, ScopeOf(c.names[..i], KotlinBinds(c, slots, i));
    KotlinAt(c, slots, i);
    if Free(e) == {} {
      forall caller: Scope ensures Eval(e, own) == Eval(e, caller) { EvalAgrees(e, own, caller); }
    } else {
      var x :| x in Free(e);
      var one: Scope, two: Scope := map[x := Value("1", [])], map[x := Value("2", [])];
      EvalTells(e, x, one, two);
    }
  }
}
