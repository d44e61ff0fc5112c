/** Receivers that are assigned once their property has been read for the last time: from then on
    both programs run the same code. */
module SmartCastSteady {
  import opened Options
  import opened Kotlin
  import opened SmartCastSimulation
  import opened SmartCastReachable

  // ----- nothing is left replaced in code without the local -----

  lemma {:induction false} ReplacedUnused(c: Chain, n: Node, m: Node)
    requires Replaced(c, n, m) && Unused(c.local, m)
    ensures n == m
    decreases n, 1
  {
    if n.Nav? || n.Is? || n.And? || n.Call? || n.Log? {
      ReplacedUnusedOperands(c, n, m);
    } else if n.Lambda? || n.Block? || n.When? {
      ReplacedUnusedListed(c, n, m);
    } else {
      ReplacedUnusedBelow(c, n, m);
    }
  }

  lemma {:induction false} ReplacedUnusedOperands(c: Chain, n: Node, m: Node)
    requires Replaced(c, n, m) && Unused(c.local, m) && (n.Nav? || n.Is? || n.And? || n.Call? || n.Log?)
    ensures n == m
    decreases n, 0
  {
    match n {
      case Nav(t, _) => if m.Nav? { ReplacedSame(c, t); ReplacedUnused(c, t, m.target); }
      case Is(e, _, _) => ReplacedSame(c, e); ReplacedUnused(c, e, m.operand);
      case And(a, b) => ReplacedSame(c, a); ReplacedSame(c, b); ReplacedUnused(c, a, m.left); ReplacedUnused(c, b, m.right);
      case Call(f, a) => ReplacedSame(c, f); ReplacedSame(c, a); ReplacedUnused(c, f, m.callee); ReplacedUnused(c, a, m.arg);
      case Log(a) => ReplacedSame(c, a); ReplacedUnused(c, a, m.arg);
    }
  }

  lemma {:induction false} ReplacedUnusedListed(c: Chain, n: Node, m: Node)
    requires Replaced(c, n, m) && Unused(c.local, m) && (n.Lambda? || n.Block? || n.When?)
    ensures n == m
    decreases n, 0
  {
    hide ReplacedList, ReplacedEntries, UnusedList, UnusedEntries;
    match n {
      case Lambda(p, ss) =>
        if ParamName(p) != c.receiver {
          ReplacedListSame(c, ss);
          ReplacedUnusedIn(c, ss, m.stmts);
        }
      case Block(ss) => ReplacedListSame(c, ss); ReplacedUnusedIn(c, ss, m.stmts);
      case When(s, es) =>
        if s.Some? { ReplacedSame(c, s.value); ReplacedUnused(c, s.value, m.subject.value); }
        ReplacedEntriesSame(c, es);
        ReplacedUnusedAt(c, es, m.entries);
    }
  }

  lemma {:induction false} ReplacedUnusedBelow(c: Chain, n: Node, m: Node)
    requires Replaced(c, n, m) && Unused(c.local, m)
    requires !(n.Nav? || n.Is? || n.And? || n.Call? || n.Log? || n.Lambda? || n.Block? || n.When?)
    ensures n == m
    decreases n, 0
  {
    match n {
      case Val(_, e) => ReplacedSame(c, e); ReplacedUnused(c, e, m.init);
      case Assign(_, e) => ReplacedSame(c, e); ReplacedUnused(c, e, m.rhs);
      case If(e, t, f) =>
        ReplacedSame(c, e); ReplacedUnused(c, e, m.cond);
        ReplacedSame(c, t); ReplacedUnused(c, t, m.thn);
        if f.Some? { ReplacedSame(c, f.value); ReplacedUnused(c, f.value, m.els.value); }
      case For(x, e, b) =>
        ReplacedSame(c, e); ReplacedUnused(c, e, m.count);
        if x != c.receiver { ReplacedSame(c, b); ReplacedUnused(c, b, m.body); }
      case Try(b, x, h) =>
        ReplacedSame(c, b); ReplacedUnused(c, b, m.body);
        if x != c.receiver { ReplacedSame(c, h); ReplacedUnused(c, h, m.handler); }
      case Return(e) => ReplacedSame(c, e); ReplacedUnused(c, e, m.result);
      case Throw(e) => ReplacedSame(c, e); ReplacedUnused(c, e, m.error);
      case _ =>
    }
  }

  lemma {:induction false} ReplacedUnusedIn(c: Chain, ns: seq<Node>, ms: seq<Node>)
    requires ReplacedList(c, ns, ms) && UnusedList(c.local, ms)
    ensures ns == ms
    decreases ns, 0
  {
    if ns != [] {
      ReplacedSame(c, ns[0]);
      ReplacedUnused(c, ns[0], ms[0]);
      if !(ns[0].Val? && ns[0].name == c.receiver) {
        ReplacedListSame(c, ns[1..]);
        ReplacedUnusedIn(c, ns[1..], ms[1..]);
      }
      assert ns == [ns[0]] + ns[1..] && ms == [ms[0]] + ms[1..];
    }
  }

  lemma {:induction false} ReplacedUnusedAt(c: Chain, es: seq<Entry>, fs: seq<Entry>)
    requires ReplacedEntries(c, es, fs) && UnusedEntries(c.local, fs)
    ensures es == fs
    decreases es, 0
  {
    if es != [] {
      assert es decreases to es[0];
      if es[0].test.Cond? {
        ReplacedSame(c, es[0].test.node);
        ReplacedUnused(c, es[0].test.node, fs[0].test.node);
      }
      ReplacedSame(c, es[0].body);
      ReplacedUnused(c, es[0].body, fs[0].body);
      ReplacedEntriesSame(c, es[1..]);
      ReplacedUnusedAt(c, es[1..], fs[1..]);
      assert es == [es[0]] + es[1..] && fs == [fs[0]] + fs[1..];
    }
  }

  // ----- giving up the link -----

  function Dead(k: Link): Link {
    k.(live := false)
  }

  /** What the rewritten run's store must be like: no closure in it uses the local. */
  ghost predicate Unread(c: Chain, env': Env, st': State, names: seq<string>) {
    EnvTidy(env', names) && StateTidy(Watch(c, None), st', names)
  }

  lemma RetireValue(k: Link, v: Value, v': Value, size: nat, names: seq<string>)
    requires ValueRel(k, v, v', size) && ValueTidy(Watch(k.c, None), v', names)
    ensures ValueRel(Dead(k), v, v', size)
  {
    if v.Closure? {
      ReplacedUnused(k.c, Lambda(v.param, v.stmts), Lambda(v'.param, v'.stmts));
    }
  }

  lemma RetireState(k: Link, st: State, st': State, names: seq<string>)
    requires k.Valid() && StateRel(k, st, st') && StateTidy(Watch(k.c, None), st', names)
    ensures StateRel(Dead(k), st, st') && Dead(k).Valid()
  {
    hide ValueRel, ValueTidy;
    forall i | 0 <= i < |st.store| ensures ValueRel(Dead(k), st.store[i], st'.store[Dead(k).Shift(i)], |st.store|) {
      RetireValue(k, st.store[i], st'.store[k.Shift(i)], |st.store|, names);
    }
  }

  lemma RetireOutcome(k: Link, r: Outcome, r': Outcome, size: nat, out: seq<string>, names: seq<string>)
    requires k.Valid() && OutcomeRel(k, r, r', size) && OutcomeTidy(Watch(k.c, None), r', out, names)
    ensures OutcomeRel(Dead(k), r, r', size)
  {
    hide StateRel, StateTidy, ValueRel, ValueTidy;
    RetireState(k, r.st, r'.st, out);
    match r.c {
      case Normal(v) => RetireValue(k, v, r'.c.v, |r.st.store|, out);
      case Returned(v) => RetireValue(k, v, r'.c.v, |r.st.store|, out);
      case Threw(v) => RetireValue(k, v, r'.c.v, |r.st.store|, out);
      case _ =>
    }
  }

  lemma EnvDead(k: Link, env: Env, env': Env, size: nat)
    ensures EnvRel(Dead(k), env, env', size) <==> EnvRel(k, env, env', size)
  {
  }

  // ----- code that reads the property no more once the receiver may be assigned -----

  /** Replaced reads first, assignments of the receiver after: in the code the link is live in,
      nothing assigns the receiver, and what follows is the same in both programs. */
  ghost predicate Steady(c: Chain, n: Node, m: Node)
    decreases n, 0
  {
    || n == m
    || (Replaced(c, n, m) && Keeps(c.receiver, n))
    || match n
       case Block(ss) => m.Block? && SteadyList(c, ss, m.stmts)
       case If(e, t, f) =>
         && m.If? && Replaced(c, e, m.cond) && Keeps(c.receiver, e) && Steady(c, t, m.thn)
         && (if f.Some? then m.els.Some? && Steady(c, f.value, m.els.value) else m.els.None?)
       case When(s, es) =>
         && m.When? && SteadyEntries(c, es, m.entries)
         && (if s.Some? then m.subject.Some? && Replaced(c, s.value, m.subject.value) && Keeps(c.receiver, s.value) else m.subject.None?)
       case _ => false
  }

  ghost predicate SteadyList(c: Chain, ns: seq<Node>, ms: seq<Node>)
    decreases ns, 0
  {
    || ns == ms
    || (&& |ns| == |ms| > 0
        && if ns[1..] == ms[1..] then Steady(c, ns[0], ms[0]) && (ns[0].Val? ==> ms[0].Val? && ms[0].name == ns[0].name)
           else Replaced(c, ns[0], ms[0]) && Keeps(c.receiver, ns[0]) && !(ns[0].Val? && ns[0].name == c.receiver)
                && SteadyList(c, ns[1..], ms[1..]))
  }

  ghost predicate SteadyEntries(c: Chain, es: seq<Entry>, fs: seq<Entry>)
    decreases es, 0
  {
    || es == fs
    || (&& |es| == |fs| > 0
        && assert es decreases to es[0];
        && ReplacedTest(c, es[0].test, fs[0].test) && (es[0].test.Cond? ==> Keeps(c.receiver, es[0].test.node))
        && Steady(c, es[0].body, fs[0].body)
        && SteadyEntries(c, es[1..], fs[1..]))
  }

  /** A piece of code and where it runs. */
  ghost predicate Ready(k: Link, env: Env, env': Env, st: State, st': State, names: seq<string>) {
    && k.Valid() && StateRel(k, st, st') && EnvRel(k, env, env', |st.store|) && Region(k, env, env')
    && Unread(k.c, env', st', names)
  }

  /** The first part: live code, after which the local is still unread by closures. */
  lemma LivePart(k: Link, fuel: nat, n: Node, m: Node, env: Env, env': Env, st: State, st': State, names: seq<string>)
    returns (out: seq<string>)
    requires Ready(k, env, env', st, st', names) && Unused(k.c.local, n) && LambdasUnused(k.c.local, m)
    requires Replaced(k.c, n, m) && Keeps(k.c.receiver, n)
    ensures var r, r' := Eval(fuel, k.w, n, env, st), Eval(fuel, k.w, m, env', st');
      && OutcomeRel(k, r, r', |st.store|) && OutcomeRel(Dead(k), r, r', |st.store|)
      && OutcomeTidy(Watch(k.c, None), r', out, names)
      && Ready(k, env, env', r.st, r'.st, out)
  {
    hide Eval, StateRel, StateTidy, ValueRel, ValueTidy, EnvRel, EnvTidy, Replaced, Keeps, Unused, LambdasUnused;
    Simulates(k, fuel, n, m, env, env', st, st');
    out := EvalTidy(Watch(k.c, None), fuel, k.w, m, env', st', names);
    var r, r' := Eval(fuel, k.w, n, env, st), Eval(fuel, k.w, m, env', st');
    RetireOutcome(k, r, r', |st.store|, out, names);
    EnvRelGrows(k, env, env', |st.store|, |r.st.store|);
    TidyGrows(Watch(k.c, None), env', UnitValue(), names, out);
  }

  /** The second part: the same code in both programs. */
  lemma DeadPart(k: Link, fuel: nat, n: Node, env: Env, env': Env, st: State, st': State, names: seq<string>)
    requires Ready(k, env, env', st, st', names) && Unused(k.c.local, n)
    ensures OutcomeRel(Dead(k), Eval(fuel, k.w, n, env, st), Eval(fuel, k.w, n, env', st'), |st.store|)
  {
    hide Eval, StateRel, StateTidy, EnvRel, EnvTidy, Replaced, Keeps, Unused;
    RetireState(k, st, st', names);
    EnvDead(k, env, env', |st.store|);
    ReplacedSame(k.c, n);
    Simulates(Dead(k), fuel, n, n, env, env', st, st');
  }

  lemma DeadList(k: Link, fuel: nat, ns: seq<Node>, env: Env, env': Env, st: State, st': State)
    requires Dead(k).Valid() && StateRel(Dead(k), st, st') && EnvRel(k, env, env', |st.store|) && UnusedList(k.c.local, ns)
    ensures OutcomeRel(Dead(k), EvalList(fuel, k.w, ns, env, st), EvalList(fuel, k.w, ns, env', st'), |st.store|)
  {
    hide EvalList, StateRel, EnvRel, ReplacedList, KeepsList, UnusedList;
    EnvDead(k, env, env', |st.store|);
    ReplacedListSame(k.c, ns);
    SimulatesList(Dead(k), fuel, ns, ns, env, env', st, st');
  }

  lemma DeadEntries(k: Link, fuel: nat, es: seq<Entry>, subject: Option<Ground>, env: Env, env': Env, st: State, st': State, names: seq<string>)
    requires Ready(k, env, env', st, st', names) && UnusedEntries(k.c.local, es)
    ensures OutcomeRel(Dead(k), EvalEntries(fuel, k.w, es, subject, env, st), EvalEntries(fuel, k.w, es, subject, env', st'), |st.store|)
  {
    hide EvalEntries, StateRel, StateTidy, EnvRel, EnvTidy, ReplacedEntries, KeepsEntries, UnusedEntries;
    RetireState(k, st, st', names);
    EnvDead(k, env, env', |st.store|);
    ReplacedEntriesSame(k.c, es);
    SimulatesEntries(Dead(k), fuel, es, es, subject, env, env', st, st');
  }

  /** Steady code runs the same; afterwards the receiver may be anything. */
  lemma {:induction false} SteadySimulates(k: Link, fuel: nat, n: Node, m: Node, env: Env, env': Env, st: State, st': State, names: seq<string>)
    requires Ready(k, env, env', st, st', names) && Unused(k.c.local, n) && LambdasUnused(k.c.local, m) && Steady(k.c, n, m)
    ensures OutcomeRel(Dead(k), Eval(fuel, k.w, n, env, st), Eval(fuel, k.w, m, env', st'), |st.store|)
    decreases n, 1
  {
    hide Eval, Ready, OutcomeRel, Replaced, Keeps, SteadyList, SteadyEntries;
    if n == m {
      DeadPart(k, fuel, n, env, env', st, st', names);
    } else if Replaced(k.c, n, m) && Keeps(k.c.receiver, n) {
      var _ := LivePart(k, fuel, n, m, env, env', st, st', names);
    } else {
      match n {
        case Block(ss) =>
          Unfold(fuel, k.w, n, env, st);
          Unfold(fuel, k.w, m, env', st');
          SteadySimulatesList(k, fuel, ss, m.stmts, env, env', st, st', names);
        case If(_, _, _) => SteadySimulatesIf(k, fuel, n, m, env, env', st, st', names);
        case When(_, _) => SteadySimulatesWhen(k, fuel, n, m, env, env', st, st', names);
      }
    }
  }

  lemma {:induction false} SteadySimulatesIf(k: Link, fuel: nat, n: Node, m: Node, env: Env, env': Env, st: State, st': State, names: seq<string>)
    requires Ready(k, env, env', st, st', names) && Unused(k.c.local, n) && LambdasUnused(k.c.local, m)
    requires n.If? && m.If? && Replaced(k.c, n.cond, m.cond) && Keeps(k.c.receiver, n.cond) && Steady(k.c, n.thn, m.thn)
    requires if n.els.Some? then m.els.Some? && Steady(k.c, n.els.value, m.els.value) else m.els.None?
    ensures OutcomeRel(Dead(k), Eval(fuel, k.w, n, env, st), Eval(fuel, k.w, m, env', st'), |st.store|)
    decreases n, 0
  {
    hide Eval, Ready, StateRel, ValueRel, Steady, Replaced, Keeps;
    Unfold(fuel, k.w, n, env, st);
    Unfold(fuel, k.w, m, env', st');
    var out := LivePart(k, fuel, n.cond, m.cond, env, env', st, st', names);
    var r, r' := Eval(fuel, k.w, n.cond, env, st), Eval(fuel, k.w, m.cond, env', st');
    if r.c.Normal? {
      PlainRel(k, r.c.v, r'.c.v, |r.st.store|);
      SameRel(Dead(k), UnitValue(), |r.st.store|);
      SteadySimulates(k, fuel, n.thn, m.thn, env, env', r.st, r'.st, out);
      if n.els.Some? {
        SteadySimulates(k, fuel, n.els.value, m.els.value, env, env', r.st, r'.st, out);
      }
    }
  }

  lemma {:induction false} SteadySimulatesWhen(k: Link, fuel: nat, n: Node, m: Node, env: Env, env': Env, st: State, st': State, names: seq<string>)
    requires Ready(k, env, env', st, st', names) && Unused(k.c.local, n) && LambdasUnused(k.c.local, m)
    requires n.When? && m.When? && SteadyEntries(k.c, n.entries, m.entries)
    requires if n.subject.Some? then m.subject.Some? && Replaced(k.c, n.subject.value, m.subject.value) && Keeps(k.c.receiver, n.subject.value)
             else m.subject.None?
    ensures OutcomeRel(Dead(k), Eval(fuel, k.w, n, env, st), Eval(fuel, k.w, m, env', st'), |st.store|)
    decreases n, 0
  {
    hide Eval, Ready, StateRel, ValueRel, SteadyEntries, Replaced, Keeps;
    Unfold(fuel, k.w, n, env, st);
    Unfold(fuel, k.w, m, env', st');
    if n.subject.None? {
      SteadySimulatesEntries(k, fuel, n.entries, m.entries, None, env, env', st, st', names);
    } else {
      var out := LivePart(k, fuel, n.subject.value, m.subject.value, env, env', st, st', names);
      var r, r' := Eval(fuel, k.w, n.subject.value, env, st), Eval(fuel, k.w, m.subject.value, env', st');
      if r.c.Normal? {
        PlainRel(k, r.c.v, r'.c.v, |r.st.store|);
        SteadySimulatesEntries(k, fuel, n.entries, m.entries, Some(Observe(r.c.v)), env, env', r.st, r'.st, out);
      }
    }
  }

  lemma {:induction false} SteadySimulatesEntries(k: Link, fuel: nat, es: seq<Entry>, fs: seq<Entry>, subject: Option<Ground>,
                                                  env: Env, env': Env, st: State, st': State, names: seq<string>)
    requires Ready(k, env, env', st, st', names) && UnusedEntries(k.c.local, es) && LambdasUnusedAt(k.c.local, fs)
    requires SteadyEntries(k.c, es, fs)
    ensures OutcomeRel(Dead(k), EvalEntries(fuel, k.w, es, subject, env, st), EvalEntries(fuel, k.w, fs, subject, env', st'), |st.store|)
    decreases es, 0
  {
    hide Eval, Ready, StateRel, ValueRel, Steady, Replaced, Keeps;
    if es == fs {
      DeadEntries(k, fuel, es, subject, env, env', st, st', names);
    } else {
      assert es decreases to es[0];
      match es[0].test {
        case Otherwise => SteadySimulates(k, fuel, es[0].body, fs[0].body, env, env', st, st', names);
        case IsType(ty) =>
          SteadySimulates(k, fuel, es[0].body, fs[0].body, env, env', st, st', names);
          SteadySimulatesEntries(k, fuel, es[1..], fs[1..], subject, env, env', st, st', names);
          StuckRel(k, env, env', st, st', names);
        case Cond(node) =>
          var out := LivePart(k, fuel, node, fs[0].test.node, env, env', st, st', names);
          var r, r' := Eval(fuel, k.w, node, env, st), Eval(fuel, k.w, fs[0].test.node, env', st');
          if r.c.Normal? {
            PlainRel(k, r.c.v, r'.c.v, |r.st.store|);
            SteadySimulates(k, fuel, es[0].body, fs[0].body, env, env', r.st, r'.st, out);
            SteadySimulatesEntries(k, fuel, es[1..], fs[1..], subject, env, env', r.st, r'.st, out);
          }
      }
    }
  }

  lemma StuckRel(k: Link, env: Env, env': Env, st: State, st': State, names: seq<string>)
    requires Ready(k, env, env', st, st', names)
    ensures OutcomeRel(Dead(k), Outcome(Stuck, st), Outcome(Stuck, st'), |st.store|)
  {
    hide StateRel, StateTidy, EnvRel, EnvTidy;
    RetireState(k, st, st', names);
  }

  lemma {:induction false} SteadySimulatesList(k: Link, fuel: nat, ns: seq<Node>, ms: seq<Node>, env: Env, env': Env, st: State, st': State, names: seq<string>)
    requires Ready(k, env, env', st, st', names) && UnusedList(k.c.local, ns) && LambdasUnusedIn(k.c.local, ms)
    requires SteadyList(k.c, ns, ms)
    ensures OutcomeRel(Dead(k), EvalList(fuel, k.w, ns, env, st), EvalList(fuel, k.w, ms, env', st'), |st.store|)
    decreases ns, 1
  {
    hide Eval, Ready, StateRel, ValueRel, EnvRel, Steady, Replaced, Keeps, LambdasUnused, LambdasUnusedIn, Unused;
    if ns == ms {
      ReadyParts(k, env, env', st, st', names);
      DeadList(k, fuel, ns, env, env', st, st');
    } else if ns[1..] == ms[1..] {
      SameTail(k, fuel, ns, ms, env, env', st, st', names);
    } else {
      LambdasUnusedCons(k.c.local, ms);
      var out := LivePart(k, fuel, ns[0], ms[0], env, env', st, st', names);
      var r, r' := Eval(fuel, k.w, ns[0], env, st), Eval(fuel, k.w, ms[0], env', st');
      TailsDiffer(ns, ms);
      ValAgrees(k.c, ns[0], ms[0]);
      assert ns[0].Val? ==> ns[0].name != k.c.local by { UnusedVal(k.c.local, ns[0]); }
      if r.c.Normal? {
        if ns[0].Val? {
          var next := ReadyBinds(k, ns[0].name, env, env', r, r', |st.store|, out, names);
          SteadySimulatesList(k, fuel, ns[1..], ms[1..], env[ns[0].name := |r.st.store|], env'[ns[0].name := |r'.st.store|],
                              Alloc(r.st, r.c.v), Alloc(r'.st, r'.c.v), next);
        } else {
          SteadySimulatesList(k, fuel, ns[1..], ms[1..], env, env', r.st, r'.st, out);
        }
      }
    }
  }

  lemma TailsDiffer<T>(xs: seq<T>, ys: seq<T>)
    requires |xs| == |ys| > 0
    ensures xs[1..] != ys[1..] ==> |xs| > 1
  {
    if |xs| == 1 { assert xs[1..] == ys[1..]; }
  }

  lemma LambdasUnusedCons(x: string, ns: seq<Node>)
    requires ns != [] && LambdasUnusedIn(x, ns)
    ensures LambdasUnused(x, ns[0]) && LambdasUnusedIn(x, ns[1..])
  {
  }

  lemma UnusedVal(x: string, n: Node)
    requires Unused(x, n)
    ensures n.Val? ==> n.name != x
  {
  }

  lemma ValAgrees(c: Chain, n: Node, m: Node)
    requires Replaced(c, n, m)
    ensures n.Val? <==> m.Val?
    ensures n.Val? ==> m.name == n.name
  {
  }

  lemma ReadyParts(k: Link, env: Env, env': Env, st: State, st': State, names: seq<string>)
    requires Ready(k, env, env', st, st', names)
    ensures EnvRel(k, env, env', |st.store|) && Dead(k).Valid() && StateRel(Dead(k), st, st') && k.Valid()
  {
    hide StateRel, StateTidy, EnvRel, EnvTidy;
    RetireState(k, st, st', names);
  }

  /** A `val` of another name, and the link is as good as before. */
  lemma ReadyBinds(k: Link, x: string, env: Env, env': Env, r: Outcome, r': Outcome, size: nat, out: seq<string>, names: seq<string>)
    returns (next: seq<string>)
    requires Ready(k, env, env', r.st, r'.st, out) && x != k.c.local && x != k.c.receiver
    requires OutcomeRel(k, r, r', size) && OutcomeTidy(Watch(k.c, None), r', out, names) && r.c.Normal?
    ensures Ready(k, env[x := |r.st.store|], env'[x := |r'.st.store|], Alloc(r.st, r.c.v), Alloc(r'.st, r'.c.v), next)
  {
    hide StateRel, StateTidy, EnvRel, EnvTidy, ValueRel, ValueTidy;
    BindRel(k, env, env', r.st, r'.st, x);
    AllocRel(k, r.st, r'.st, r.c.v, r'.c.v);
    BindTidy(Watch(k.c, None), env', r'.st, out, x, r'.c.v);
    next := out + [x];
  }

  /** Only the first statement differs. */
  lemma {:induction false} SameTail(k: Link, fuel: nat, ns: seq<Node>, ms: seq<Node>, env: Env, env': Env, st: State, st': State, names: seq<string>)
    requires Ready(k, env, env', st, st', names) && UnusedList(k.c.local, ns) && LambdasUnusedIn(k.c.local, ms)
    requires |ns| == |ms| > 0 && ns[1..] == ms[1..] && Steady(k.c, ns[0], ms[0])
    requires ns[0].Val? ==> ms[0].Val? && ms[0].name == ns[0].name
    ensures OutcomeRel(Dead(k), EvalList(fuel, k.w, ns, env, st), EvalList(fuel, k.w, ms, env', st'), |st.store|)
    decreases ns, 0
  {
    hide Eval, Ready, StateRel, ValueRel, EnvRel, Steady, LambdasUnused, LambdasUnusedIn;
    LambdasUnusedCons(k.c.local, ms);
    SteadySimulates(k, fuel, ns[0], ms[0], env, env', st, st', names);
    ReadyParts(k, env, env', st, st', names);
    var r, r' := Eval(fuel, k.w, ns[0], env, st), Eval(fuel, k.w, ms[0], env', st');
    SteadyVal(k.c, ns[0], ms[0]);
    if r.c.Normal? {
      EnvRelGrows(k, env, env', |st.store|, |r.st.store|);
      EnvDead(k, env, env', |r.st.store|);
      if ns[0].Val? {
        var x := ns[0].name;
        BindRel(Dead(k), env, env', r.st, r'.st, x);
        AllocRel(Dead(k), r.st, r'.st, r.c.v, r'.c.v);
        EnvDead(k, env[x := |r.st.store|], env'[x := |r'.st.store|], |r.st.store| + 1);
        DeadList(k, fuel, ns[1..], env[x := |r.st.store|], env'[x := |r'.st.store|], Alloc(r.st, r.c.v), Alloc(r'.st, r'.c.v));
      } else if |ns| > 1 {
        DeadList(k, fuel, ns[1..], env, env', r.st, r'.st);
      }
    }
  }

  lemma SteadyVal(c: Chain, n: Node, m: Node)
    requires Steady(c, n, m)
    ensures n.Val? <==> m.Val?
  {
  }
}
