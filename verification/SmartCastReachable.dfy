/** States a function can reach: every cell belongs to one variable, and every closure in
    the store keeps to the rules the repair relies on. */
module SmartCastReachable {
  import opened Options
  import opened Kotlin
  import opened SmartCastSimulation

  // ----- lambdas that leave the receiver alone -----

  /** No lambda in `n` that captures the variable `x` means outside `n` assigns it; `n` itself may. */
  ghost predicate LambdasKeep(x: string, n: Node)
    decreases n, 0
  {
    match n
    case Nav(t, _) => LambdasKeep(x, t)
    case Is(e, _, _) => LambdasKeep(x, e)
    case And(a, b) => LambdasKeep(x, a) && LambdasKeep(x, b)
    case Call(f, a) => LambdasKeep(x, f) && LambdasKeep(x, a)
    case Log(a) => LambdasKeep(x, a)
    case Lambda(_, _) => Keeps(x, n)
    case Block(ss) => LambdasKeepIn(x, ss)
    case Val(_, e) => LambdasKeep(x, e)
    case Assign(_, e) => LambdasKeep(x, e)
    case If(e, t, f) => LambdasKeep(x, e) && LambdasKeep(x, t) && (f.Some? ==> LambdasKeep(x, f.value))
    case When(s, es) => (s.Some? ==> LambdasKeep(x, s.value)) && LambdasKeepAt(x, es)
    case For(y, e, b) => LambdasKeep(x, e) && (y == x || LambdasKeep(x, b))
    case Try(b, y, h) => LambdasKeep(x, b) && (y == x || LambdasKeep(x, h))
    case Return(e) => LambdasKeep(x, e)
    case Throw(e) => LambdasKeep(x, e)
    case _ => true
  }

  ghost predicate LambdasKeepIn(x: string, ns: seq<Node>)
    decreases ns, 0
  {
    ns != [] ==>
      && LambdasKeep(x, ns[0])
      && ((ns[0].Val? && ns[0].name == x) || LambdasKeepIn(x, ns[1..]))
  }

  ghost predicate LambdasKeepAt(x: string, es: seq<Entry>)
    decreases es, 0
  {
    es != [] ==>
      assert es decreases to es[0];
      && (es[0].test.Cond? ==> LambdasKeep(x, es[0].test.node))
      && LambdasKeep(x, es[0].body)
      && LambdasKeepAt(x, es[1..])
  }

  lemma KeepsLambdas(x: string, n: Node)
    requires Keeps(x, n)
    ensures LambdasKeep(x, n)
    decreases n, 0
  {
    match n {
      case Block(ss) => KeepsLambdasIn(x, ss);
      case When(s, es) => KeepsLambdasAt(x, es);
      case _ =>
    }
  }

  lemma KeepsLambdasIn(x: string, ns: seq<Node>)
    requires KeepsList(x, ns)
    ensures LambdasKeepIn(x, ns)
    decreases ns, 0
  {
    if ns != [] {
      KeepsLambdas(x, ns[0]);
      if !(ns[0].Val? && ns[0].name == x) { KeepsLambdasIn(x, ns[1..]); }
    }
  }

  lemma KeepsLambdasAt(x: string, es: seq<Entry>)
    requires KeepsEntries(x, es)
    ensures LambdasKeepAt(x, es)
    decreases es, 0
  {
    if es != [] {
      assert es decreases to es[0];
      if es[0].test.Cond? { KeepsLambdas(x, es[0].test.node); }
      KeepsLambdas(x, es[0].body);
      KeepsLambdasAt(x, es[1..]);
    }
  }

  // ----- lambdas that do not mention a name -----

  /** No lambda in `n` uses the name `x`; `n` itself may. */
  ghost predicate LambdasUnused(x: string, n: Node)
    decreases n, 0
  {
    match n
    case Nav(t, _) => LambdasUnused(x, t)
    case Is(e, _, _) => LambdasUnused(x, e)
    case And(a, b) => LambdasUnused(x, a) && LambdasUnused(x, b)
    case Call(f, a) => LambdasUnused(x, f) && LambdasUnused(x, a)
    case Log(a) => LambdasUnused(x, a)
    case Lambda(_, _) => Unused(x, n)
    case Block(ss) => LambdasUnusedIn(x, ss)
    case Val(_, e) => LambdasUnused(x, e)
    case Assign(_, e) => LambdasUnused(x, e)
    case If(e, t, f) => LambdasUnused(x, e) && LambdasUnused(x, t) && (f.Some? ==> LambdasUnused(x, f.value))
    case When(s, es) => (s.Some? ==> LambdasUnused(x, s.value)) && LambdasUnusedAt(x, es)
    case For(_, e, b) => LambdasUnused(x, e) && LambdasUnused(x, b)
    case Try(b, _, h) => LambdasUnused(x, b) && LambdasUnused(x, h)
    case Return(e) => LambdasUnused(x, e)
    case Throw(e) => LambdasUnused(x, e)
    case _ => true
  }

  ghost predicate LambdasUnusedIn(x: string, ns: seq<Node>)
    decreases ns, 0
  {
    ns != [] ==> LambdasUnused(x, ns[0]) && LambdasUnusedIn(x, ns[1..])
  }

  ghost predicate LambdasUnusedAt(x: string, es: seq<Entry>)
    decreases es, 0
  {
    es != [] ==>
      assert es decreases to es[0];
      && (es[0].test.Cond? ==> LambdasUnused(x, es[0].test.node))
      && LambdasUnused(x, es[0].body)
      && LambdasUnusedAt(x, es[1..])
  }

  lemma UnusedLambdas(x: string, n: Node)
    requires Unused(x, n)
    ensures LambdasUnused(x, n)
    decreases n, 0
  {
    match n {
      case Block(ss) => UnusedLambdasIn(x, ss);
      case When(s, es) => UnusedLambdasAt(x, es);
      case _ =>
    }
  }

  lemma UnusedLambdasIn(x: string, ns: seq<Node>)
    requires UnusedList(x, ns)
    ensures LambdasUnusedIn(x, ns)
    decreases ns, 0
  {
    if ns != [] {
      UnusedLambdas(x, ns[0]);
      UnusedLambdasIn(x, ns[1..]);
    }
  }

  lemma UnusedLambdasAt(x: string, es: seq<Entry>)
    requires UnusedEntries(x, es)
    ensures LambdasUnusedAt(x, es)
    decreases es, 0
  {
    if es != [] {
      assert es decreases to es[0];
      if es[0].test.Cond? { UnusedLambdas(x, es[0].test.node); }
      UnusedLambdas(x, es[0].body);
      UnusedLambdasAt(x, es[1..]);
    }
  }

  // ----- the states a function can reach -----

  /** What is watched: the names of a chain, and the receiver's own cell once it is there. */
  datatype Watch = Watch(c: Chain, cell: Option<nat>) {
    predicate Sees(env: Env) {
      cell.Some? && c.receiver in env && env[c.receiver] == cell.value
    }
  }

  /** `names[i]` is the variable cell `i` was made for. */
  ghost predicate EnvTidy(env: Env, names: seq<string>) {
    forall x :: x in env ==> env[x] < |names| && names[env[x]] == x
  }

  /** Lambdas of code run under `env` leave the local's name and the receiver's cell alone. */
  ghost predicate CodeTidy(k: Watch, n: Node, env: Env) {
    LambdasUnused(k.c.local, n) && (k.Sees(env) ==> LambdasKeep(k.c.receiver, n))
  }

  ghost predicate ListTidy(k: Watch, ns: seq<Node>, env: Env) {
    LambdasUnusedIn(k.c.local, ns) && (k.Sees(env) ==> LambdasKeepIn(k.c.receiver, ns))
  }

  ghost predicate EntriesTidy(k: Watch, es: seq<Entry>, env: Env) {
    LambdasUnusedAt(k.c.local, es) && (k.Sees(env) ==> LambdasKeepAt(k.c.receiver, es))
  }

  /** Code below a binder of `x`. */
  ghost predicate CodeTidyUnder(k: Watch, x: string, n: Node, env: Env) {
    LambdasUnused(k.c.local, n) && (k.Sees(env) ==> x == k.c.receiver || LambdasKeep(k.c.receiver, n))
  }

  ghost predicate ListTidyUnder(k: Watch, x: string, ns: seq<Node>, env: Env) {
    LambdasUnusedIn(k.c.local, ns) && (k.Sees(env) ==> x == k.c.receiver || LambdasKeepIn(k.c.receiver, ns))
  }

  /** A closure that captured the receiver's cell does not assign it. */
  ghost predicate ValueTidy(k: Watch, v: Value, names: seq<string>) {
    v.Closure? ==>
      && EnvTidy(v.env, names)
      && Unused(k.c.local, Lambda(v.param, v.stmts))
      && (k.Sees(v.env) ==> Keeps(k.c.receiver, Lambda(v.param, v.stmts)))
  }

  ghost predicate StateTidy(k: Watch, st: State, names: seq<string>) {
    && |st.store| == |names|
    && (k.cell.Some? ==> k.cell.value < |names|)
    && forall i :: 0 <= i < |names| ==> ValueTidy(k, st.store[i], names)
  }

  ghost predicate OutcomeTidy(k: Watch, r: Outcome, names: seq<string>, before: seq<string>) {
    && before <= names
    && StateTidy(k, r.st, names)
    && (r.c.Normal? || r.c.Returned? || r.c.Threw? ==> ValueTidy(k, r.c.v, names))
  }

  lemma TidyGrows(k: Watch, env: Env, v: Value, names: seq<string>, more: seq<string>)
    requires names <= more
    ensures EnvTidy(env, names) ==> EnvTidy(env, more)
    ensures ValueTidy(k, v, names) ==> ValueTidy(k, v, more)
  {
  }

  lemma BindTidy(k: Watch, env: Env, st: State, names: seq<string>, x: string, v: Value)
    requires EnvTidy(env, names) && StateTidy(k, st, names) && ValueTidy(k, v, names)
    ensures EnvTidy(env[x := |st.store|], names + [x]) && StateTidy(k, Alloc(st, v), names + [x])
  {
    var more := names + [x];
    var next := Alloc(st, v);
    forall i | 0 <= i < |more|
      ensures ValueTidy(k, next.store[i], more)
    {
      TidyGrows(k, env, if i < |names| then st.store[i] else v, names, more);
    }
  }

  lemma UpdateTidy(k: Watch, st: State, names: seq<string>, at: nat, v: Value)
    requires StateTidy(k, st, names) && ValueTidy(k, v, names) && at < |st.store|
    ensures StateTidy(k, State(st.store[at := v], st.log), names)
  {
  }

  /** Tidy states are closed under running tidy code. */
  lemma {:induction false} EvalTidy(k: Watch, fuel: nat, w: World, n: Node, env: Env, st: State, names: seq<string>)
    returns (out: seq<string>)
    requires EnvTidy(env, names) && StateTidy(k, st, names) && CodeTidy(k, n, env)
    ensures OutcomeTidy(k, Eval(fuel, w, n, env, st), out, names)
    decreases fuel, n, 1
  {
    hide Eval, EnvTidy, StateTidy, ValueTidy;
    Unfold(fuel, w, n, env, st);
    out := names;
    match n {
      case Lit(_) => PlainTidy(k, names);
      case Name(x) => out := NameTidy(k, fuel, w, x, env, st, names);
      case Nav(t, _) => PlainTidy(k, names); out := EvalTidy(k, fuel, w, t, env, st, names); PlainTidy(k, out);
      case Is(e, _, _) => out := EvalTidy(k, fuel, w, e, env, st, names); PlainTidy(k, out);
      case And(a, b) => out := ThenTidy(k, fuel, w, n, a, b, b, env, st, names);
      case Call(f, a) => out := CallTidy(k, fuel, w, f, a, env, st, names);
      case Log(a) => out := EvalTidy(k, fuel, w, a, env, st, names); if Eval(fuel, w, a, env, st).c.Normal? { LogTidy(k, Eval(fuel, w, a, env, st), out, names); }
      case Lambda(_, _) => LambdaTidy(k, n, env, names);
      case Block(ss) => out := ListEvalTidy(k, fuel, w, ss, env, st, names);
      case Val(_, e) => out := EvalTidy(k, fuel, w, e, env, st, names);
      case Assign(x, e) =>
        out := EvalTidy(k, fuel, w, e, env, st, names);
        var r := Eval(fuel, w, e, env, st);
        PlainTidy(k, out);
        if r.c.Normal? && x in env && env[x] < |r.st.store| { UpdateTidy(k, r.st, out, env[x], r.c.v); }
      case If(e, t, f) =>
        out := ThenTidy(k, fuel, w, n, e, t, if f.Some? then f.value else t, env, st, names);
      case When(s, es) =>
        if s.None? {
          out := EntriesEvalTidy(k, fuel, w, es, None, env, st, names);
        } else {
          out := EvalTidy(k, fuel, w, s.value, env, st, names);
          var r := Eval(fuel, w, s.value, env, st);
          if r.c.Normal? {
            TidyGrows(k, env, r.c.v, names, out);
            out := EntriesEvalTidy(k, fuel, w, es, Some(Observe(r.c.v)), env, r.st, out);
          }
        }
      case For(x, e, b) =>
        out := EvalTidy(k, fuel, w, e, env, st, names);
        var r := Eval(fuel, w, e, env, st);
        if r.c.Normal? && r.c.v.Plain? && r.c.v.g.Num? && r.c.v.g.n >= 0 {
          TidyGrows(k, env, r.c.v, names, out);
          out := ForTidy(k, fuel, w, x, b, r.c.v.g.n, env, r.st, out);
        }
      case Try(b, x, h) =>
        out := EvalTidy(k, fuel, w, b, env, st, names);
        var r := Eval(fuel, w, b, env, st);
        if r.c.Threw? {
          TidyGrows(k, env, r.c.v, names, out);
          BindTidy(k, env, r.st, out, x, r.c.v);
          BelowTidy(k, x, h, env, r.st, out);
          out := EvalTidy(k, fuel, w, h, env[x := |r.st.store|], Alloc(r.st, r.c.v), out + [x]);
        }
      case Return(e) => out := EvalTidy(k, fuel, w, e, env, st, names);
      case Throw(e) => out := EvalTidy(k, fuel, w, e, env, st, names);
      case Break =>
      case Continue =>
    }
  }

  lemma PlainTidy(k: Watch, names: seq<string>)
    ensures forall g :: ValueTidy(k, Plain(g), names)
  {
  }

  lemma NameTidy(k: Watch, fuel: nat, w: World, x: string, env: Env, st: State, names: seq<string>) returns (out: seq<string>)
    requires EnvTidy(env, names) && StateTidy(k, st, names)
    ensures OutcomeTidy(k, Eval(fuel, w, Name(x), env, st), out, names)
  {
    out := names;
  }

  lemma LogTidy(k: Watch, r: Outcome, out: seq<string>, names: seq<string>)
    requires OutcomeTidy(k, r, out, names) && r.c.Normal?
    ensures OutcomeTidy(k, Outcome(Normal(UnitValue()), State(r.st.store, r.st.log + [Observe(r.c.v)])), out, names)
  {
  }

  lemma LambdaTidy(k: Watch, n: Node, env: Env, names: seq<string>)
    requires n.Lambda? && EnvTidy(env, names) && CodeTidy(k, n, env)
    ensures ValueTidy(k, Closure(n.param, n.stmts, env), names)
  {
  }

  /** A condition, then one of two continuations (or none). */
  lemma {:induction false} ThenTidy(k: Watch, fuel: nat, w: World, n: Node, e: Node, t: Node, f: Node, env: Env, st: State, names: seq<string>)
    returns (out: seq<string>)
    requires EnvTidy(env, names) && StateTidy(k, st, names)
    requires CodeTidy(k, e, env) && CodeTidy(k, t, env) && CodeTidy(k, f, env)
    requires n == And(e, t) || n == If(e, t, Some(f)) || n == If(e, t, None)
    ensures OutcomeTidy(k, Eval(fuel, w, n, env, st), out, names)
    decreases fuel, n, 0
  {
    hide Eval, EnvTidy, StateTidy, ValueTidy, CodeTidy;
    Unfold(fuel, w, n, env, st);
    out := EvalTidy(k, fuel, w, e, env, st, names);
    var r := Eval(fuel, w, e, env, st);
    if r.c.Normal? {
      PlainTidy(k, out);
      TidyGrows(k, env, r.c.v, names, out);
      if r.c.v == Plain(Truth(true)) {
        out := EvalTidy(k, fuel, w, t, env, r.st, out);
      } else if r.c.v == Plain(Truth(false)) && n == If(e, t, Some(f)) {
        out := EvalTidy(k, fuel, w, f, env, r.st, out);
      }
    }
  }

  lemma {:induction false} CallTidy(k: Watch, fuel: nat, w: World, f: Node, a: Node, env: Env, st: State, names: seq<string>)
    returns (out: seq<string>)
    requires EnvTidy(env, names) && StateTidy(k, st, names) && CodeTidy(k, f, env) && CodeTidy(k, a, env)
    ensures OutcomeTidy(k, Eval(fuel, w, Call(f, a), env, st), out, names)
    decreases fuel, Call(f, a), 0
  {
    hide Eval, EnvTidy, StateTidy, ValueTidy, CodeTidy;
    Unfold(fuel, w, Call(f, a), env, st);
    out := EvalTidy(k, fuel, w, f, env, st, names);
    var g := Eval(fuel, w, f, env, st);
    if g.c.Normal? {
      var mid := out;
      TidyGrows(k, env, g.c.v, names, mid);
      out := EvalTidy(k, fuel, w, a, env, g.st, mid);
      var r := Eval(fuel, w, a, env, g.st);
      TidyGrows(k, env, g.c.v, mid, out);
      if r.c.Normal? && g.c.v.Closure? && fuel > 0 {
        var x := ParamName(g.c.v.param);
        ClosureTidy(k, g.c.v, out);
        BindTidy(k, g.c.v.env, r.st, out, x, r.c.v);
        EnterTidy(k, x, g.c.v.stmts, g.c.v.env, r.st, out);
        out := ListEvalTidy(k, fuel - 1, w, g.c.v.stmts, g.c.v.env[x := |r.st.store|], Alloc(r.st, r.c.v), out + [x]);
      }
    }
  }

  lemma ClosureTidy(k: Watch, v: Value, names: seq<string>)
    requires v.Closure? && ValueTidy(k, v, names)
    ensures EnvTidy(v.env, names) && ListTidyUnder(k, ParamName(v.param), v.stmts, v.env)
  {
    UnusedLambdasIn(k.c.local, v.stmts);
    if k.Sees(v.env) && ParamName(v.param) != k.c.receiver { KeepsLambdasIn(k.c.receiver, v.stmts); }
  }

  /** Entering a scope: the new cell is nobody's receiver, unless it shadows it. */
  lemma EnterTidy(k: Watch, x: string, ns: seq<Node>, env: Env, st: State, names: seq<string>)
    requires StateTidy(k, st, names) && ListTidyUnder(k, x, ns, env)
    ensures ListTidy(k, ns, env[x := |st.store|])
  {
    hide ValueTidy;
  }

  lemma BelowTidy(k: Watch, x: string, n: Node, env: Env, st: State, names: seq<string>)
    requires StateTidy(k, st, names) && CodeTidyUnder(k, x, n, env)
    ensures CodeTidy(k, n, env[x := |st.store|])
  {
    hide ValueTidy;
  }

  lemma {:induction false} ListEvalTidy(k: Watch, fuel: nat, w: World, ns: seq<Node>, env: Env, st: State, names: seq<string>)
    returns (out: seq<string>)
    requires EnvTidy(env, names) && StateTidy(k, st, names) && ListTidy(k, ns, env)
    ensures OutcomeTidy(k, EvalList(fuel, w, ns, env, st), out, names)
    decreases fuel, ns, 0
  {
    hide Eval, EnvTidy, StateTidy, ValueTidy, LambdasUnused, LambdasKeep;
    out := names;
    PlainTidy(k, names);
    if ns != [] {
      out := EvalTidy(k, fuel, w, ns[0], env, st, names);
      var r := Eval(fuel, w, ns[0], env, st);
      if r.c.Normal? {
        TidyGrows(k, env, r.c.v, names, out);
        if ns[0].Val? {
          BindTidy(k, env, r.st, out, ns[0].name, r.c.v);
          EnterTidy(k, ns[0].name, ns[1..], env, r.st, out);
          out := ListEvalTidy(k, fuel, w, ns[1..], env[ns[0].name := |r.st.store|], Alloc(r.st, r.c.v), out + [ns[0].name]);
        } else if |ns| > 1 {
          out := ListEvalTidy(k, fuel, w, ns[1..], env, r.st, out);
        }
      }
    }
  }

  lemma {:induction false} EntriesEvalTidy(k: Watch, fuel: nat, w: World, es: seq<Entry>, subject: Option<Ground>, env: Env, st: State, names: seq<string>)
    returns (out: seq<string>)
    requires EnvTidy(env, names) && StateTidy(k, st, names) && EntriesTidy(k, es, env)
    ensures OutcomeTidy(k, EvalEntries(fuel, w, es, subject, env, st), out, names)
    decreases fuel, es, 0
  {
    hide Eval, EnvTidy, StateTidy, ValueTidy, LambdasUnused, LambdasKeep;
    out := names;
    PlainTidy(k, names);
    if es != [] {
      assert es decreases to es[0];
      var e := es[0];
      if e.test.Otherwise? || (e.test.IsType? && subject.Some? && w.instance(subject.value, e.test.ty)) {
        out := EvalTidy(k, fuel, w, e.body, env, st, names);
      } else if e.test.IsType? {
        if subject.Some? {
          out := EntriesEvalTidy(k, fuel, w, es[1..], subject, env, st, names);
        }
      } else {
        out := EvalTidy(k, fuel, w, e.test.node, env, st, names);
        var r := Eval(fuel, w, e.test.node, env, st);
        if r.c.Normal? {
          TidyGrows(k, env, r.c.v, names, out);
          if Observe(r.c.v) == (if subject.Some? then subject.value else Truth(true)) {
            out := EvalTidy(k, fuel, w, e.body, env, r.st, out);
          } else {
            out := EntriesEvalTidy(k, fuel, w, es[1..], subject, env, r.st, out);
          }
        }
      }
    }
  }

  lemma {:induction false} ForTidy(k: Watch, fuel: nat, w: World, x: string, b: Node, left: nat, env: Env, st: State, names: seq<string>)
    returns (out: seq<string>)
    requires EnvTidy(env, names) && StateTidy(k, st, names) && CodeTidyUnder(k, x, b, env)
    ensures OutcomeTidy(k, EvalFor(fuel, w, x, b, left, env, st), out, names)
    decreases fuel, b, left + 2
  {
    hide Eval, EnvTidy, StateTidy, ValueTidy, CodeTidy, CodeTidyUnder;
    out := names;
    PlainTidy(k, names);
    if left > 0 {
      var v := Plain(Num(left));
      BindTidy(k, env, st, names, x, v);
      BelowTidy(k, x, b, env, st, names);
      out := EvalTidy(k, fuel, w, b, env[x := |st.store|], Alloc(st, v), names + [x]);
      var r := Eval(fuel, w, b, env[x := |st.store|], Alloc(st, v));
      PlainTidy(k, out);
      if r.c.Normal? || r.c.Continued? {
        TidyGrows(k, env, UnitValue(), names, out);
        out := ForTidy(k, fuel, w, x, b, left - 1, env, r.st, out);
      }
    }
  }
}
