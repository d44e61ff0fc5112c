/** Why replacing reads of a stable property by one local is invisible.

    `Replaced` allows any selection of reads of the chain to become the local, as long as
    the receiver's name still means the same variable there. `Simulates` follows the two
    programs step by step: the rewritten one carries one store cell more. */
module SmartCastSimulation {
  import opened Options
  import opened Kotlin

  /** The chain `receiver.property` and the local it is bound to. */
  datatype Chain = Chain(receiver: string, property: string, local: string) {
    function Read(): Node { Nav(Name(receiver), property) }
  }

  // ----- what the rewritten code may look like -----

  /** `m` is `n` with some reads of the chain replaced. */
  ghost predicate Replaced(c: Chain, n: Node, m: Node)
    decreases n, 0
  {
    || n == m
    || (n == c.Read() && m == Name(c.local))
    || match n
       case Nav(t, p) => m.Nav? && m.property == p && Replaced(c, t, m.target)
       case Is(e, ty, neg) => m.Is? && m.ty == ty && m.negated == neg && Replaced(c, e, m.operand)
       case And(a, b) => m.And? && Replaced(c, a, m.left) && Replaced(c, b, m.right)
       case Call(f, a) => m.Call? && Replaced(c, f, m.callee) && Replaced(c, a, m.arg)
       case Log(a) => m.Log? && Replaced(c, a, m.arg)
       case Lambda(p, ss) => m.Lambda? && m.param == p && ReplacedListUnder(c, ParamName(p), ss, m.stmts)
       case Block(ss) => m.Block? && ReplacedList(c, ss, m.stmts)
       case Val(x, e) => m.Val? && m.name == x && Replaced(c, e, m.init)
       case Assign(x, e) => m.Assign? && m.name == x && Replaced(c, e, m.rhs)
       case If(e, t, f) =>
         && m.If? && Replaced(c, e, m.cond) && Replaced(c, t, m.thn)
         && (if f.Some? then m.els.Some? && Replaced(c, f.value, m.els.value) else m.els.None?)
       case When(s, es) =>
         && m.When? && ReplacedEntries(c, es, m.entries)
         && (if s.Some? then m.subject.Some? && Replaced(c, s.value, m.subject.value) else m.subject.None?)
       case For(x, e, b) =>
         m.For? && m.binder == x && Replaced(c, e, m.count) && ReplacedUnder(c, x, b, m.body)
       case Try(b, x, h) =>
         m.Try? && m.binder == x && Replaced(c, b, m.body) && ReplacedUnder(c, x, h, m.handler)
       case Return(e) => m.Return? && Replaced(c, e, m.result)
       case Throw(e) => m.Throw? && Replaced(c, e, m.error)
       case _ => false
  }

  /** Below a binder of the receiver's name nothing may change. */
  ghost predicate ReplacedUnder(c: Chain, binder: string, n: Node, m: Node)
    decreases n, 1
  {
    if binder == c.receiver then n == m else Replaced(c, n, m)
  }

  ghost predicate ReplacedListUnder(c: Chain, binder: string, ns: seq<Node>, ms: seq<Node>)
    decreases ns, 1
  {
    if binder == c.receiver then ns == ms else ReplacedList(c, ns, ms)
  }

  ghost predicate ReplacedList(c: Chain, ns: seq<Node>, ms: seq<Node>)
    decreases ns, 0
  {
    || ns == ms
    || (&& |ns| == |ms|
        && ns != []
        && Replaced(c, ns[0], ms[0])
        && if ns[0].Val? && ns[0].name == c.receiver then ns[1..] == ms[1..]
           else ReplacedList(c, ns[1..], ms[1..]))
  }

  ghost predicate ReplacedEntries(c: Chain, es: seq<Entry>, fs: seq<Entry>)
    decreases es, 0
  {
    || es == fs
    || (&& |es| == |fs|
        && es != []
        && assert es decreases to es[0];
        && ReplacedTest(c, es[0].test, fs[0].test)
        && Replaced(c, es[0].body, fs[0].body)
        && ReplacedEntries(c, es[1..], fs[1..]))
  }

  ghost predicate ReplacedTest(c: Chain, t: Test, u: Test)
    decreases t, 0
  {
    if t.Cond? then u.Cond? && Replaced(c, t.node, u.node) else t == u
  }

  /** `x` names no variable in `n`; property names do not count. */
  ghost predicate Unused(x: string, n: Node)
    decreases n, 0
  {
    match n
    case Name(y) => x != y
    case Nav(t, _) => Unused(x, t)
    case Is(e, _, _) => Unused(x, e)
    case And(a, b) => Unused(x, a) && Unused(x, b)
    case Call(f, a) => Unused(x, f) && Unused(x, a)
    case Log(a) => Unused(x, a)
    case Lambda(p, ss) => ParamName(p) != x && UnusedList(x, ss)
    case Block(ss) => UnusedList(x, ss)
    case Val(y, e) => x != y && Unused(x, e)
    case Assign(y, e) => x != y && Unused(x, e)
    case If(e, t, f) => Unused(x, e) && Unused(x, t) && (f.Some? ==> Unused(x, f.value))
    case When(s, es) => (s.Some? ==> Unused(x, s.value)) && UnusedEntries(x, es)
    case For(y, e, b) => x != y && Unused(x, e) && Unused(x, b)
    case Try(b, y, h) => x != y && Unused(x, b) && Unused(x, h)
    case Return(e) => Unused(x, e)
    case Throw(e) => Unused(x, e)
    case _ => true
  }

  ghost predicate UnusedList(x: string, ns: seq<Node>)
    decreases ns, 0
  {
    ns != [] ==> Unused(x, ns[0]) && UnusedList(x, ns[1..])
  }

  ghost predicate UnusedEntries(x: string, es: seq<Entry>)
    decreases es, 0
  {
    es != [] ==>
      assert es decreases to es[0];
      && (es[0].test.Cond? ==> Unused(x, es[0].test.node))
      && Unused(x, es[0].body)
      && UnusedEntries(x, es[1..])
  }

  /** No assignment in `n` reaches the variable that `x` means outside `n`. */
  ghost predicate Keeps(x: string, n: Node)
    decreases n, 0
  {
    match n
    case Nav(t, _) => Keeps(x, t)
    case Is(e, _, _) => Keeps(x, e)
    case And(a, b) => Keeps(x, a) && Keeps(x, b)
    case Call(f, a) => Keeps(x, f) && Keeps(x, a)
    case Log(a) => Keeps(x, a)
    case Lambda(p, ss) => ParamName(p) == x || KeepsList(x, ss)
    case Block(ss) => KeepsList(x, ss)
    case Val(_, e) => Keeps(x, e)
    case Assign(y, e) => x != y && Keeps(x, e)
    case If(e, t, f) => Keeps(x, e) && Keeps(x, t) && (f.Some? ==> Keeps(x, f.value))
    case When(s, es) => (s.Some? ==> Keeps(x, s.value)) && KeepsEntries(x, es)
    case For(y, e, b) => Keeps(x, e) && (y == x || Keeps(x, b))
    case Try(b, y, h) => Keeps(x, b) && (y == x || Keeps(x, h))
    case Return(e) => Keeps(x, e)
    case Throw(e) => Keeps(x, e)
    case _ => true
  }

  ghost predicate KeepsList(x: string, ns: seq<Node>)
    decreases ns, 0
  {
    ns != [] ==>
      && Keeps(x, ns[0])
      && ((ns[0].Val? && ns[0].name == x) || KeepsList(x, ns[1..]))
  }

  ghost predicate KeepsEntries(x: string, es: seq<Entry>)
    decreases es, 0
  {
    es != [] ==>
      assert es decreases to es[0];
      && (es[0].test.Cond? ==> Keeps(x, es[0].test.node))
      && Keeps(x, es[0].body)
      && KeepsEntries(x, es[1..])
  }

  // ----- related states -----

  /** Where the two runs stand: `cell` holds the receiver in both, `extra` is the cell only
      the rewritten run has; it holds `value`, the property's value. Once the receiver may have
      been assigned the link is not live any more: nothing replaced is left to run. */
  datatype Link = Link(c: Chain, w: World, cell: nat, extra: nat, target: Ground, value: Ground, live: bool) {
    ghost predicate Valid() {
      && c.local != c.receiver
      && cell < extra
      && forall log :: w.read(target, c.property, log) == Some(value)
    }

    function Shift(x: nat): nat {
      if x < extra then x else x + 1
    }
  }

  ghost predicate EnvRel(k: Link, env: Env, env': Env, size: nat) {
    && (forall x :: x != k.c.local ==> (x in env <==> x in env'))
    && (forall x :: x in env && x != k.c.local ==> env'[x] == k.Shift(env[x]))
    && (forall x :: x in env && x != k.c.local ==> env[x] < size)
    && (forall x :: x in env && x != k.c.local && env[x] == k.cell ==> x == k.c.receiver)
  }

  ghost predicate SeesReceiver(k: Link, env: Env) {
    k.live && k.c.receiver in env && env[k.c.receiver] == k.cell
  }

  /** Both names mean what the rewriting took them to mean. */
  ghost predicate Region(k: Link, env: Env, env': Env) {
    && SeesReceiver(k, env)
    && k.c.local in env' && env'[k.c.local] == k.extra
  }

  /** Static facts about a piece of code run under `env`. */
  ghost predicate Code(k: Link, n: Node, m: Node, env: Env, env': Env) {
    && Unused(k.c.local, n)
    && (SeesReceiver(k, env) ==> Keeps(k.c.receiver, n))
    && Replaced(k.c, n, m)
    && (n == m || Region(k, env, env'))
  }

  /** The same for code below a binder of `x`. */
  ghost predicate CodeUnder(k: Link, x: string, n: Node, m: Node, env: Env, env': Env) {
    && Unused(k.c.local, n) && x != k.c.local
    && (SeesReceiver(k, env) ==> x == k.c.receiver || Keeps(k.c.receiver, n))
    && ReplacedUnder(k.c, x, n, m)
    && (n == m || Region(k, env, env'))
  }

  ghost predicate CodeListUnder(k: Link, x: string, ns: seq<Node>, ms: seq<Node>, env: Env, env': Env) {
    && UnusedList(k.c.local, ns) && x != k.c.local
    && (SeesReceiver(k, env) ==> x == k.c.receiver || KeepsList(k.c.receiver, ns))
    && ReplacedListUnder(k.c, x, ns, ms)
    && (ns == ms || Region(k, env, env'))
  }

  ghost predicate CodeList(k: Link, ns: seq<Node>, ms: seq<Node>, env: Env, env': Env) {
    && UnusedList(k.c.local, ns)
    && (SeesReceiver(k, env) ==> KeepsList(k.c.receiver, ns))
    && ReplacedList(k.c, ns, ms)
    && (ns == ms || Region(k, env, env'))
  }

  ghost predicate CodeEntries(k: Link, es: seq<Entry>, fs: seq<Entry>, env: Env, env': Env) {
    && UnusedEntries(k.c.local, es)
    && (SeesReceiver(k, env) ==> KeepsEntries(k.c.receiver, es))
    && ReplacedEntries(k.c, es, fs)
    && (es == fs || Region(k, env, env'))
  }

  ghost predicate ValueRel(k: Link, v: Value, v': Value, size: nat) {
    match v
    case Plain(g) => v' == v
    case Closure(p, ss, e) =>
      && v'.Closure?
      && EnvRel(k, e, v'.env, size)
      && Code(k, Lambda(p, ss), Lambda(v'.param, v'.stmts), e, v'.env)
  }

  ghost predicate StateRel(k: Link, st: State, st': State) {
    && st.log == st'.log
    && |st'.store| == |st.store| + 1
    && k.cell < k.extra <= |st.store|
    && (k.live ==> Observe(st.store[k.cell]) == k.target)
    && st'.store[k.extra] == Plain(k.value)
    && forall i :: 0 <= i < |st.store| ==> ValueRel(k, st.store[i], st'.store[k.Shift(i)], |st.store|)
  }

  ghost predicate CompletionRel(k: Link, c: Completion, c': Completion, size: nat) {
    match c
    case Normal(v) => c'.Normal? && ValueRel(k, v, c'.v, size)
    case Returned(v) => c'.Returned? && ValueRel(k, v, c'.v, size)
    case Threw(v) => c'.Threw? && ValueRel(k, v, c'.v, size)
    case _ => c == c'
  }

  /** Same completion, same log, related stores; `size` bounds the cells in use before. */
  ghost predicate OutcomeRel(k: Link, r: Outcome, r': Outcome, size: nat) {
    && size <= |r.st.store|
    && StateRel(k, r.st, r'.st)
    && CompletionRel(k, r.c, r'.c, |r.st.store|)
  }

  // ----- small steps on related states -----

  lemma ValueRelGrows(k: Link, v: Value, v': Value, size: nat, more: nat)
    requires ValueRel(k, v, v', size) && size <= more
    ensures ValueRel(k, v, v', more)
  {
  }

  lemma AllocRel(k: Link, st: State, st': State, v: Value, v': Value)
    requires k.Valid() && StateRel(k, st, st') && ValueRel(k, v, v', |st.store|)
    ensures StateRel(k, Alloc(st, v), Alloc(st', v'))
  {
    var next, next' := Alloc(st, v), Alloc(st', v');
    forall i | 0 <= i < |next.store|
      ensures ValueRel(k, next.store[i], next'.store[k.Shift(i)], |next.store|)
    {
      ValueRelGrows(k, if i < |st.store| then st.store[i] else v,
                    if i < |st.store| then st'.store[k.Shift(i)] else v', |st.store|, |next.store|);
    }
  }

  lemma UpdateRel(k: Link, st: State, st': State, at: nat, v: Value, v': Value)
    requires k.Valid() && StateRel(k, st, st') && ValueRel(k, v, v', |st.store|)
    requires at < |st.store| && (k.live ==> at != k.cell)
    ensures StateRel(k, State(st.store[at := v], st.log), State(st'.store[k.Shift(at) := v'], st'.log))
  {
  }

  /** Entering a scope: a new cell bound to `x` in both. */
  lemma BindRel(k: Link, env: Env, env': Env, st: State, st': State, x: string)
    requires k.Valid() && StateRel(k, st, st') && EnvRel(k, env, env', |st.store|)
    requires x != k.c.local
    ensures EnvRel(k, env[x := |st.store|], env'[x := |st'.store|], |st.store| + 1)
    ensures SeesReceiver(k, env[x := |st.store|]) <==> SeesReceiver(k, env) && x != k.c.receiver
    ensures Region(k, env, env') && x != k.c.receiver ==> Region(k, env[x := |st.store|], env'[x := |st'.store|])
  {
  }

  lemma EnvRelGrows(k: Link, env: Env, env': Env, size: nat, more: nat)
    requires EnvRel(k, env, env', size) && size <= more
    ensures EnvRel(k, env, env', more)
  {
  }

  /** The chain itself: the read finds the property's value, the local holds it. */
  lemma ReadRel(k: Link, fuel: nat, env: Env, env': Env, st: State, st': State)
    requires k.Valid() && StateRel(k, st, st') && Region(k, env, env')
    ensures Eval(fuel, k.w, k.c.Read(), env, st) == Outcome(Normal(Plain(k.value)), st)
    ensures Eval(fuel, k.w, Name(k.c.local), env', st') == Outcome(Normal(Plain(k.value)), st')
  {
    assert Eval(fuel, k.w, Name(k.c.receiver), env, st) == Outcome(Normal(st.store[k.cell]), st);
  }

  lemma NameRel(k: Link, fuel: nat, x: string, env: Env, env': Env, st: State, st': State)
    requires k.Valid() && StateRel(k, st, st') && EnvRel(k, env, env', |st.store|) && x != k.c.local
    ensures OutcomeRel(k, Eval(fuel, k.w, Name(x), env, st), Eval(fuel, k.w, Name(x), env', st'), |st.store|)
  {
  }

  lemma PlainRel(k: Link, v: Value, v': Value, size: nat)
    requires ValueRel(k, v, v', size)
    ensures Observe(v) == Observe(v')
    ensures v.Plain? || v'.Plain? ==> v == v'
  {
  }

  lemma PropertyRel(k: Link, r: Outcome, r': Outcome, p: string, size: nat)
    requires OutcomeRel(k, r, r', size) && r.c.Normal?
    ensures r'.c.Normal?
    ensures OutcomeRel(k, ReadProperty(k.w, r.c.v, p, r.st), ReadProperty(k.w, r'.c.v, p, r'.st), size)
  {
  }

  lemma LogRel(k: Link, r: Outcome, r': Outcome, size: nat)
    requires OutcomeRel(k, r, r', size) && r.c.Normal?
    ensures r'.c.Normal?
    ensures StateRel(k, State(r.st.store, r.st.log + [Observe(r.c.v)]), State(r'.st.store, r'.st.log + [Observe(r'.c.v)]))
  {
  }

  lemma AssignRel(k: Link, r: Outcome, r': Outcome, x: string, env: Env, env': Env, size: nat)
    requires k.Valid() && OutcomeRel(k, r, r', size) && r.c.Normal?
    requires EnvRel(k, env, env', size) && x != k.c.local
    requires SeesReceiver(k, env) ==> x != k.c.receiver
    ensures r'.c.Normal? && (x in env && env[x] < |r.st.store| <==> x in env' && env'[x] < |r'.st.store|)
    ensures x in env && env[x] < |r.st.store| ==>
      OutcomeRel(k, Outcome(Normal(UnitValue()), State(r.st.store[env[x] := r.c.v], r.st.log)),
                 Outcome(Normal(UnitValue()), State(r'.st.store[env'[x] := r'.c.v], r'.st.log)), size)
  {
    if x in env && env[x] < |r.st.store| {
      UpdateRel(k, r.st, r'.st, env[x], r.c.v, r'.c.v);
    }
  }

  lemma SameRel(k: Link, v: Value, size: nat)
    requires v.Plain?
    ensures ValueRel(k, v, v, size)
  {
  }

  lemma LitRel(k: Link, fuel: nat, g: Ground, env: Env, env': Env, st: State, st': State)
    requires StateRel(k, st, st')
    ensures OutcomeRel(k, Eval(fuel, k.w, Lit(g), env, st), Eval(fuel, k.w, Lit(g), env', st'), |st.store|)
  {
  }

  lemma JumpRel(k: Link, fuel: nat, n: Node, env: Env, env': Env, st: State, st': State)
    requires StateRel(k, st, st') && (n.Break? || n.Continue?)
    ensures OutcomeRel(k, Eval(fuel, k.w, n, env, st), Eval(fuel, k.w, n, env', st'), |st.store|)
  {
  }

  lemma ClosureRel(k: Link, fuel: nat, n: Node, m: Node, env: Env, env': Env, st: State, st': State)
    requires n.Lambda? && StateRel(k, st, st') && EnvRel(k, env, env', |st.store|) && Code(k, n, m, env, env')
    ensures OutcomeRel(k, Eval(fuel, k.w, n, env, st), Eval(fuel, k.w, m, env', st'), |st.store|)
  {
  }

  lemma ReplacedSame(c: Chain, n: Node)
    ensures Replaced(c, n, n)
  {
  }

  lemma ReplacedListSame(c: Chain, ns: seq<Node>)
    ensures ReplacedList(c, ns, ns)
  {
  }

  lemma ReplacedEntriesSame(c: Chain, es: seq<Entry>)
    ensures ReplacedEntries(c, es, es)
  {
  }

  lemma EntriesParts(k: Link, es: seq<Entry>, fs: seq<Entry>, env: Env, env': Env)
    requires CodeEntries(k, es, fs, env, env')
    ensures |es| == |fs|
    ensures es != [] ==>
      && Code(k, es[0].body, fs[0].body, env, env')
      && CodeEntries(k, es[1..], fs[1..], env, env')
      && (es[0].test.Cond? ==> fs[0].test.Cond? && Code(k, es[0].test.node, fs[0].test.node, env, env'))
      && (!es[0].test.Cond? ==> fs[0].test == es[0].test)
  {
    hide EnvRel, Replaced, Unused, Keeps;
    if es != [] {
      ReplacedSame(k.c, es[0].body);
      assert es == fs || ReplacedTest(k.c, es[0].test, fs[0].test);
      if es[0].test.Cond? {
        ReplacedSame(k.c, es[0].test.node);
      }
    }
  }

  /** Code below a binder, once the binder's cell is there. */
  lemma CodeBelow(k: Link, x: string, n: Node, m: Node, env: Env, env': Env, st: State, st': State)
    requires k.Valid() && StateRel(k, st, st') && EnvRel(k, env, env', |st.store|) && CodeUnder(k, x, n, m, env, env')
    ensures EnvRel(k, env[x := |st.store|], env'[x := |st'.store|], |st.store| + 1)
    ensures Code(k, n, m, env[x := |st.store|], env'[x := |st'.store|])
  {
    hide Replaced, Unused, Keeps;
    ReplacedSame(k.c, n);
    BindRel(k, env, env', st, st', x);
  }

  lemma CodeListBelow(k: Link, x: string, ns: seq<Node>, ms: seq<Node>, env: Env, env': Env, st: State, st': State)
    requires k.Valid() && StateRel(k, st, st') && EnvRel(k, env, env', |st.store|) && CodeListUnder(k, x, ns, ms, env, env')
    ensures EnvRel(k, env[x := |st.store|], env'[x := |st'.store|], |st.store| + 1)
    ensures CodeList(k, ns, ms, env[x := |st.store|], env'[x := |st'.store|])
  {
    hide ReplacedList, UnusedList, KeepsList;
    ReplacedListSame(k.c, ns);
    BindRel(k, env, env', st, st', x);
  }

  lemma ClosureBody(k: Link, f: Value, f': Value, size: nat)
    requires f.Closure? && ValueRel(k, f, f', size)
    ensures f'.Closure? && f'.param == f.param && EnvRel(k, f.env, f'.env, size)
    ensures CodeListUnder(k, ParamName(f.param), f.stmts, f'.stmts, f.env, f'.env)
  {
  }

  /** Running related code from related states ends in related states. */
  lemma {:induction false} Simulates(k: Link, fuel: nat, n: Node, m: Node, env: Env, env': Env, st: State, st': State)
    requires k.Valid() && StateRel(k, st, st') && EnvRel(k, env, env', |st.store|) && Code(k, n, m, env, env')
    ensures OutcomeRel(k, Eval(fuel, k.w, n, env, st), Eval(fuel, k.w, m, env', st'), |st.store|)
    decreases fuel, n, 3
  {
    if n == k.c.Read() && m == Name(k.c.local) {
      ReadRel(k, fuel, env, env', st, st');
    } else {
      SimulatesShape(k, fuel, n, m, env, env', st, st');
    }
  }

  /** One construct. The parts of `n` run related, so the whole does. */
  lemma {:induction false} SimulatesShape(k: Link, fuel: nat, n: Node, m: Node, env: Env, env': Env, st: State, st': State)
    requires k.Valid() && StateRel(k, st, st') && EnvRel(k, env, env', |st.store|) && Code(k, n, m, env, env')
    requires !(n == k.c.Read() && m == Name(k.c.local))
    ensures OutcomeRel(k, Eval(fuel, k.w, n, env, st), Eval(fuel, k.w, m, env', st'), |st.store|)
    decreases fuel, n, 2
  {
    hide Eval, EnvRel, StateRel, ValueRel, OutcomeRel, ReplacedList, ReplacedEntries, UnusedList, UnusedEntries, KeepsList, KeepsEntries;
    match n {
      case Lit(g) => LitRel(k, fuel, g, env, env', st, st');
      case Name(x) => NameRel(k, fuel, x, env, env', st, st');
      case Nav(t, p) => SimulatesNav(k, fuel, t, p, m, env, env', st, st');
      case Is(e, ty, neg) => SimulatesIs(k, fuel, e, ty, neg, m, env, env', st, st');
      case And(a, b) => SimulatesAnd(k, fuel, a, b, m, env, env', st, st');
      case Call(f, a) => SimulatesCall(k, fuel, f, a, m, env, env', st, st');
      case Log(a) => SimulatesLog(k, fuel, a, m, env, env', st, st');
      case Lambda(_, _) => SimulatesControl(k, fuel, n, m, env, env', st, st');
      case Block(_) => SimulatesControl(k, fuel, n, m, env, env', st, st');
      case If(_, _, _) => SimulatesControl(k, fuel, n, m, env, env', st, st');
      case When(_, _) => SimulatesControl(k, fuel, n, m, env, env', st, st');
      case For(_, _, _) => SimulatesControl(k, fuel, n, m, env, env', st, st');
      case Try(_, _, _) => SimulatesControl(k, fuel, n, m, env, env', st, st');
      case Val(_, _) => SimulatesStatement(k, fuel, n, m, env, env', st, st');
      case Assign(_, _) => SimulatesStatement(k, fuel, n, m, env, env', st, st');
      case Return(_) => SimulatesStatement(k, fuel, n, m, env, env', st, st');
      case Throw(_) => SimulatesStatement(k, fuel, n, m, env, env', st, st');
      case Break => SimulatesStatement(k, fuel, n, m, env, env', st, st');
      case Continue => SimulatesStatement(k, fuel, n, m, env, env', st, st');
    }
  }

  lemma {:induction false} SimulatesStatement(k: Link, fuel: nat, n: Node, m: Node, env: Env, env': Env, st: State, st': State)
    requires k.Valid() && StateRel(k, st, st') && EnvRel(k, env, env', |st.store|) && Code(k, n, m, env, env')
    requires n.Val? || n.Assign? || n.Return? || n.Throw? || n.Break? || n.Continue?
    ensures OutcomeRel(k, Eval(fuel, k.w, n, env, st), Eval(fuel, k.w, m, env', st'), |st.store|)
    decreases fuel, n, 1
  {
    hide Eval, EnvRel, StateRel, ValueRel, OutcomeRel, ReplacedList, ReplacedEntries, UnusedList, UnusedEntries, KeepsList, KeepsEntries;
    match n {
      case Val(x, e) => SimulatesLeave(k, fuel, n, m, e, m.init, env, env', st, st');
      case Assign(x, e) => SimulatesAssign(k, fuel, x, e, m, env, env', st, st');
      case Return(e) => SimulatesLeave(k, fuel, n, m, e, m.result, env, env', st, st');
      case Throw(e) => SimulatesLeave(k, fuel, n, m, e, m.error, env, env', st, st');
      case Break => JumpRel(k, fuel, n, env, env', st, st');
      case Continue => JumpRel(k, fuel, n, env, env', st, st');
    }
  }

  lemma {:induction false} SimulatesControl(k: Link, fuel: nat, n: Node, m: Node, env: Env, env': Env, st: State, st': State)
    requires k.Valid() && StateRel(k, st, st') && EnvRel(k, env, env', |st.store|) && Code(k, n, m, env, env')
    requires n.Lambda? || n.Block? || n.If? || n.When? || n.For? || n.Try?
    ensures OutcomeRel(k, Eval(fuel, k.w, n, env, st), Eval(fuel, k.w, m, env', st'), |st.store|)
    decreases fuel, n, 1
  {
    hide Eval, EnvRel, StateRel, ValueRel, OutcomeRel, ReplacedList, ReplacedEntries, UnusedList, UnusedEntries, KeepsList, KeepsEntries;
    match n {
      case Lambda(_, _) => ClosureRel(k, fuel, n, m, env, env', st, st');
      case Block(ss) => ReplacedListSame(k.c, ss); SimulatesBlock(k, fuel, ss, m, env, env', st, st');
      case If(e, t, f) => SimulatesIf(k, fuel, e, t, f, m, env, env', st, st');
      case When(s, es) => ReplacedEntriesSame(k.c, es); SimulatesWhen(k, fuel, s, es, m, env, env', st, st');
      case For(x, e, b) => ReplacedSame(k.c, b); SimulatesForNode(k, fuel, x, e, b, m, env, env', st, st');
      case Try(b, x, h) => ReplacedSame(k.c, h); SimulatesTry(k, fuel, b, x, h, m, env, env', st, st');
    }
  }

  lemma {:induction false} SimulatesNav(k: Link, fuel: nat, t: Node, p: string, m: Node, env: Env, env': Env, st: State, st': State)
    requires k.Valid() && StateRel(k, st, st') && EnvRel(k, env, env', |st.store|)
    requires m.Nav? && m.property == p && Code(k, t, m.target, env, env')
    ensures OutcomeRel(k, Eval(fuel, k.w, Nav(t, p), env, st), Eval(fuel, k.w, m, env', st'), |st.store|)
    decreases fuel, Nav(t, p), 0
  {
    hide Eval, EnvRel, StateRel, ValueRel, Code;
    Unfold(fuel, k.w, Nav(t, p), env, st);
    Unfold(fuel, k.w, m, env', st');
    Simulates(k, fuel, t, m.target, env, env', st, st');
    var r, r' := Eval(fuel, k.w, t, env, st), Eval(fuel, k.w, m.target, env', st');
    if r.c.Normal? {
      PropertyRel(k, r, r', p, |st.store|);
    }
  }

  lemma {:induction false} SimulatesIs(k: Link, fuel: nat, e: Node, ty: string, neg: bool, m: Node, env: Env, env': Env, st: State, st': State)
    requires k.Valid() && StateRel(k, st, st') && EnvRel(k, env, env', |st.store|)
    requires m.Is? && m.ty == ty && m.negated == neg && Code(k, e, m.operand, env, env')
    ensures OutcomeRel(k, Eval(fuel, k.w, Is(e, ty, neg), env, st), Eval(fuel, k.w, m, env', st'), |st.store|)
    decreases fuel, Is(e, ty, neg), 0
  {
    hide Eval, EnvRel, StateRel, ValueRel, Code;
    Unfold(fuel, k.w, Is(e, ty, neg), env, st);
    Unfold(fuel, k.w, m, env', st');
    Simulates(k, fuel, e, m.operand, env, env', st, st');
    var r, r' := Eval(fuel, k.w, e, env, st), Eval(fuel, k.w, m.operand, env', st');
    if r.c.Normal? {
      PlainRel(k, r.c.v, r'.c.v, |r.st.store|);
      SameRel(k, Plain(Truth(k.w.instance(Observe(r.c.v), ty) != neg)), |r.st.store|);
    }
  }

  lemma {:induction false} SimulatesAnd(k: Link, fuel: nat, a: Node, b: Node, m: Node, env: Env, env': Env, st: State, st': State)
    requires k.Valid() && StateRel(k, st, st') && EnvRel(k, env, env', |st.store|)
    requires m.And? && Code(k, a, m.left, env, env') && Code(k, b, m.right, env, env')
    ensures OutcomeRel(k, Eval(fuel, k.w, And(a, b), env, st), Eval(fuel, k.w, m, env', st'), |st.store|)
    decreases fuel, And(a, b), 0
  {
    hide Eval, EnvRel, StateRel, ValueRel, Code;
    Unfold(fuel, k.w, And(a, b), env, st);
    Unfold(fuel, k.w, m, env', st');
    Simulates(k, fuel, a, m.left, env, env', st, st');
    var r, r' := Eval(fuel, k.w, a, env, st), Eval(fuel, k.w, m.left, env', st');
    if r.c.Normal? {
      PlainRel(k, r.c.v, r'.c.v, |r.st.store|);
      EnvRelGrows(k, env, env', |st.store|, |r.st.store|);
      Simulates(k, fuel, b, m.right, env, env', r.st, r'.st);
    }
  }

  lemma {:induction false} SimulatesLog(k: Link, fuel: nat, a: Node, m: Node, env: Env, env': Env, st: State, st': State)
    requires k.Valid() && StateRel(k, st, st') && EnvRel(k, env, env', |st.store|)
    requires m.Log? && Code(k, a, m.arg, env, env')
    ensures OutcomeRel(k, Eval(fuel, k.w, Log(a), env, st), Eval(fuel, k.w, m, env', st'), |st.store|)
    decreases fuel, Log(a), 0
  {
    hide Eval, EnvRel, StateRel, ValueRel, Code;
    Unfold(fuel, k.w, Log(a), env, st);
    Unfold(fuel, k.w, m, env', st');
    Simulates(k, fuel, a, m.arg, env, env', st, st');
    var r, r' := Eval(fuel, k.w, a, env, st), Eval(fuel, k.w, m.arg, env', st');
    if r.c.Normal? {
      LogRel(k, r, r', |st.store|);
      SameRel(k, UnitValue(), |r.st.store|);
    }
  }

  lemma {:induction false} SimulatesBlock(k: Link, fuel: nat, ss: seq<Node>, m: Node, env: Env, env': Env, st: State, st': State)
    requires k.Valid() && StateRel(k, st, st') && EnvRel(k, env, env', |st.store|)
    requires m.Block? && CodeList(k, ss, m.stmts, env, env')
    ensures OutcomeRel(k, Eval(fuel, k.w, Block(ss), env, st), Eval(fuel, k.w, m, env', st'), |st.store|)
    decreases fuel, Block(ss), 0
  {
    hide Eval, EnvRel, StateRel, ValueRel, CodeList;
    Unfold(fuel, k.w, Block(ss), env, st);
    Unfold(fuel, k.w, m, env', st');
    SimulatesList(k, fuel, ss, m.stmts, env, env', st, st');
  }

  /** `val`, `return` and `throw` only pass the value of their operand on. */
  lemma {:induction false} SimulatesLeave(k: Link, fuel: nat, n: Node, m: Node, e: Node, e': Node, env: Env, env': Env, st: State, st': State)
    requires k.Valid() && StateRel(k, st, st') && EnvRel(k, env, env', |st.store|)
    requires (n.Val? && m.Val? && n.init == e && m.init == e') || (n.Return? && m == Return(e') && n.result == e) || (n.Throw? && m == Throw(e') && n.error == e)
    requires Code(k, e, e', env, env')
    ensures OutcomeRel(k, Eval(fuel, k.w, n, env, st), Eval(fuel, k.w, m, env', st'), |st.store|)
    decreases fuel, n, 0
  {
    hide Eval, EnvRel, StateRel, ValueRel, Code;
    Unfold(fuel, k.w, n, env, st);
    Unfold(fuel, k.w, m, env', st');
    Simulates(k, fuel, e, e', env, env', st, st');
  }

  lemma {:induction false} SimulatesAssign(k: Link, fuel: nat, x: string, e: Node, m: Node, env: Env, env': Env, st: State, st': State)
    requires k.Valid() && StateRel(k, st, st') && EnvRel(k, env, env', |st.store|)
    requires m.Assign? && m.name == x && Code(k, e, m.rhs, env, env') && x != k.c.local
    requires SeesReceiver(k, env) ==> x != k.c.receiver
    ensures OutcomeRel(k, Eval(fuel, k.w, Assign(x, e), env, st), Eval(fuel, k.w, m, env', st'), |st.store|)
    decreases fuel, Assign(x, e), 0
  {
    hide Eval, EnvRel, StateRel, ValueRel, Code;
    Unfold(fuel, k.w, Assign(x, e), env, st);
    Unfold(fuel, k.w, m, env', st');
    Simulates(k, fuel, e, m.rhs, env, env', st, st');
    var r, r' := Eval(fuel, k.w, e, env, st), Eval(fuel, k.w, m.rhs, env', st');
    if r.c.Normal? {
      EnvRelGrows(k, env, env', |st.store|, |r.st.store|);
      AssignRel(k, r, r', x, env, env', |r.st.store|);
    }
  }

  lemma {:induction false} SimulatesForNode(k: Link, fuel: nat, x: string, e: Node, b: Node, m: Node, env: Env, env': Env, st: State, st': State)
    requires k.Valid() && StateRel(k, st, st') && EnvRel(k, env, env', |st.store|)
    requires m.For? && m.binder == x && Code(k, e, m.count, env, env') && CodeUnder(k, x, b, m.body, env, env')
    ensures OutcomeRel(k, Eval(fuel, k.w, For(x, e, b), env, st), Eval(fuel, k.w, m, env', st'), |st.store|)
    decreases fuel, For(x, e, b), 0
  {
    hide Eval, EnvRel, StateRel, ValueRel, Code, CodeUnder;
    Unfold(fuel, k.w, For(x, e, b), env, st);
    Unfold(fuel, k.w, m, env', st');
    Simulates(k, fuel, e, m.count, env, env', st, st');
    var r, r' := Eval(fuel, k.w, e, env, st), Eval(fuel, k.w, m.count, env', st');
    if r.c.Normal? {
      PlainRel(k, r.c.v, r'.c.v, |r.st.store|);
      if r.c.v.Plain? && r.c.v.g.Num? && r.c.v.g.n >= 0 {
        EnvRelGrows(k, env, env', |st.store|, |r.st.store|);
        SimulatesFor(k, fuel, x, b, m.body, r.c.v.g.n, env, env', r.st, r'.st);
      }
    }
  }

  lemma {:induction false} SimulatesTry(k: Link, fuel: nat, b: Node, x: string, h: Node, m: Node, env: Env, env': Env, st: State, st': State)
    requires k.Valid() && StateRel(k, st, st') && EnvRel(k, env, env', |st.store|)
    requires m.Try? && m.binder == x && Code(k, b, m.body, env, env') && CodeUnder(k, x, h, m.handler, env, env')
    ensures OutcomeRel(k, Eval(fuel, k.w, Try(b, x, h), env, st), Eval(fuel, k.w, m, env', st'), |st.store|)
    decreases fuel, Try(b, x, h), 0
  {
    hide Eval, EnvRel, StateRel, ValueRel, Code, CodeUnder;
    Unfold(fuel, k.w, Try(b, x, h), env, st);
    Unfold(fuel, k.w, m, env', st');
    Simulates(k, fuel, b, m.body, env, env', st, st');
    var r, r' := Eval(fuel, k.w, b, env, st), Eval(fuel, k.w, m.body, env', st');
    if r.c.Threw? {
      EnvRelGrows(k, env, env', |st.store|, |r.st.store|);
      SimulatesBinding(k, fuel, x, r.c.v, r'.c.v, h, m.handler, env, env', r.st, r'.st);
    }
  }

  lemma {:induction false} SimulatesCall(k: Link, fuel: nat, f: Node, a: Node, m: Node, env: Env, env': Env, st: State, st': State)
    requires k.Valid() && StateRel(k, st, st') && EnvRel(k, env, env', |st.store|)
    requires m.Call? && Code(k, f, m.callee, env, env') && Code(k, a, m.arg, env, env')
    ensures OutcomeRel(k, Eval(fuel, k.w, Call(f, a), env, st), Eval(fuel, k.w, m, env', st'), |st.store|)
    decreases fuel, Call(f, a), 0
  {
    hide Eval, EvalList, EnvRel, StateRel, ValueRel, Code;
    Unfold(fuel, k.w, Call(f, a), env, st);
    Unfold(fuel, k.w, m, env', st');
    Simulates(k, fuel, f, m.callee, env, env', st, st');
    var g, g' := Eval(fuel, k.w, f, env, st), Eval(fuel, k.w, m.callee, env', st');
    if g.c.Normal? {
      EnvRelGrows(k, env, env', |st.store|, |g.st.store|);
      Simulates(k, fuel, a, m.arg, env, env', g.st, g'.st);
      var r, r' := Eval(fuel, k.w, a, env, g.st), Eval(fuel, k.w, m.arg, env', g'.st);
      PlainRel(k, g.c.v, g'.c.v, |g.st.store|);
      if r.c.Normal? && g.c.v.Closure? && fuel > 0 {
        ValueRelGrows(k, g.c.v, g'.c.v, |g.st.store|, |r.st.store|);
        ClosureBody(k, g.c.v, g'.c.v, |r.st.store|);
        SimulatesEntering(k, fuel - 1, ParamName(g.c.v.param), r.c.v, r'.c.v, g.c.v.stmts, g'.c.v.stmts,
                          g.c.v.env, g'.c.v.env, r.st, r'.st);
      }
    }
  }

  /** A new variable for `v` and the code in its scope. */
  lemma {:induction false} SimulatesBinding(k: Link, fuel: nat, x: string, v: Value, v': Value, b: Node, b': Node, env: Env, env': Env, st: State, st': State)
    requires k.Valid() && StateRel(k, st, st') && EnvRel(k, env, env', |st.store|)
    requires ValueRel(k, v, v', |st.store|) && CodeUnder(k, x, b, b', env, env')
    ensures OutcomeRel(k, Eval(fuel, k.w, b, env[x := |st.store|], Alloc(st, v)),
                       Eval(fuel, k.w, b', env'[x := |st'.store|], Alloc(st', v')), |st.store|)
    decreases fuel, b, 4
  {
    hide Eval, EnvRel, StateRel, ValueRel, Code, CodeUnder;
    AllocRel(k, st, st', v, v');
    CodeBelow(k, x, b, b', env, env', st, st');
    Simulates(k, fuel, b, b', env[x := |st.store|], env'[x := |st'.store|], Alloc(st, v), Alloc(st', v'));
  }

  lemma {:induction false} SimulatesEntering(k: Link, fuel: nat, x: string, v: Value, v': Value, ns: seq<Node>, ms: seq<Node>, env: Env, env': Env, st: State, st': State)
    requires k.Valid() && StateRel(k, st, st') && EnvRel(k, env, env', |st.store|)
    requires ValueRel(k, v, v', |st.store|) && CodeListUnder(k, x, ns, ms, env, env')
    ensures OutcomeRel(k, EvalList(fuel, k.w, ns, env[x := |st.store|], Alloc(st, v)),
                       EvalList(fuel, k.w, ms, env'[x := |st'.store|], Alloc(st', v')), |st.store|)
    decreases fuel, ns, 4
  {
    hide Eval, EvalList, EnvRel, StateRel, ValueRel, CodeList, CodeListUnder;
    AllocRel(k, st, st', v, v');
    CodeListBelow(k, x, ns, ms, env, env', st, st');
    SimulatesList(k, fuel, ns, ms, env[x := |st.store|], env'[x := |st'.store|], Alloc(st, v), Alloc(st', v'));
  }

  lemma {:induction false} SimulatesIf(k: Link, fuel: nat, e: Node, t: Node, f: Option<Node>, m: Node, env: Env, env': Env, st: State, st': State)
    requires k.Valid() && StateRel(k, st, st') && EnvRel(k, env, env', |st.store|)
    requires m.If? && Code(k, e, m.cond, env, env') && Code(k, t, m.thn, env, env')
    requires f.None? <==> m.els.None?
    requires f.Some? ==> Code(k, f.value, m.els.value, env, env')
    ensures OutcomeRel(k, Eval(fuel, k.w, If(e, t, f), env, st), Eval(fuel, k.w, m, env', st'), |st.store|)
    decreases fuel, If(e, t, f), 0
  {
    hide Eval, EnvRel, StateRel, ValueRel, Code;
    Unfold(fuel, k.w, If(e, t, f), env, st);
    Unfold(fuel, k.w, m, env', st');
    Simulates(k, fuel, e, m.cond, env, env', st, st');
    var r, r' := Eval(fuel, k.w, e, env, st), Eval(fuel, k.w, m.cond, env', st');
    if r.c.Normal? {
      PlainRel(k, r.c.v, r'.c.v, |r.st.store|);
      SameRel(k, UnitValue(), |r.st.store|);
      EnvRelGrows(k, env, env', |st.store|, |r.st.store|);
      Simulates(k, fuel, t, m.thn, env, env', r.st, r'.st);
      if f.Some? {
        Simulates(k, fuel, f.value, m.els.value, env, env', r.st, r'.st);
      }
    }
  }

  lemma {:induction false} SimulatesWhen(k: Link, fuel: nat, s: Option<Node>, es: seq<Entry>, m: Node, env: Env, env': Env, st: State, st': State)
    requires k.Valid() && StateRel(k, st, st') && EnvRel(k, env, env', |st.store|)
    requires m.When? && CodeEntries(k, es, m.entries, env, env')
    requires s.None? <==> m.subject.None?
    requires s.Some? ==> Code(k, s.value, m.subject.value, env, env')
    ensures OutcomeRel(k, Eval(fuel, k.w, When(s, es), env, st), Eval(fuel, k.w, m, env', st'), |st.store|)
    decreases fuel, When(s, es), 0
  {
    hide Eval, EnvRel, StateRel, ValueRel, Code, CodeEntries;
    Unfold(fuel, k.w, When(s, es), env, st);
    Unfold(fuel, k.w, m, env', st');
    if s.None? {
      SimulatesEntries(k, fuel, es, m.entries, None, env, env', st, st');
    } else {
      Simulates(k, fuel, s.value, m.subject.value, env, env', st, st');
      var r, r' := Eval(fuel, k.w, s.value, env, st), Eval(fuel, k.w, m.subject.value, env', st');
      if r.c.Normal? {
        PlainRel(k, r.c.v, r'.c.v, |r.st.store|);
        EnvRelGrows(k, env, env', |st.store|, |r.st.store|);
        SimulatesEntries(k, fuel, es, m.entries, Some(Observe(r.c.v)), env, env', r.st, r'.st);
      }
    }
  }

  lemma {:induction false} ListParts(k: Link, ns: seq<Node>, ms: seq<Node>, env: Env, env': Env)
    requires CodeList(k, ns, ms, env, env')
    ensures |ms| == |ns|
    ensures ns != [] ==> Code(k, ns[0], ms[0], env, env') && (ns[0].Val? <==> ms[0].Val?)
    ensures ns != [] && ns[0].Val? ==> ms[0].name == ns[0].name != k.c.local
    ensures ns != [] && !ns[0].Val? ==> CodeList(k, ns[1..], ms[1..], env, env')
  {
  }

  lemma {:induction false} ListBinds(k: Link, ns: seq<Node>, ms: seq<Node>, env: Env, env': Env, st: State, st': State)
    requires k.Valid() && StateRel(k, st, st') && EnvRel(k, env, env', |st.store|)
    requires CodeList(k, ns, ms, env, env') && |ms| == |ns| > 0 && ns[0].Val? && ns[0].name != k.c.local
    ensures CodeList(k, ns[1..], ms[1..], env[ns[0].name := |st.store|], env'[ns[0].name := |st'.store|])
  {
    hide EnvRel, StateRel, ValueRel;
    BindRel(k, env, env', st, st', ns[0].name);
  }

  lemma {:induction false} SimulatesList(k: Link, fuel: nat, ns: seq<Node>, ms: seq<Node>, env: Env, env': Env, st: State, st': State)
    requires k.Valid() && StateRel(k, st, st') && EnvRel(k, env, env', |st.store|) && CodeList(k, ns, ms, env, env')
    ensures OutcomeRel(k, EvalList(fuel, k.w, ns, env, st), EvalList(fuel, k.w, ms, env', st'), |st.store|)
    decreases fuel, ns, 0
  {
    hide Eval, EnvRel, StateRel, ValueRel, CodeList, Code;
    ListParts(k, ns, ms, env, env');
    if ns == [] {
      SameRel(k, UnitValue(), |st.store|);
    } else {
      Simulates(k, fuel, ns[0], ms[0], env, env', st, st');
      var r, r' := Eval(fuel, k.w, ns[0], env, st), Eval(fuel, k.w, ms[0], env', st');
      if r.c.Normal? {
        EnvRelGrows(k, env, env', |st.store|, |r.st.store|);
        if ns[0].Val? {
          var x := ns[0].name;
          BindRel(k, env, env', r.st, r'.st, x);
          AllocRel(k, r.st, r'.st, r.c.v, r'.c.v);
          ListBinds(k, ns, ms, env, env', r.st, r'.st);
          SimulatesList(k, fuel, ns[1..], ms[1..], env[x := |r.st.store|], env'[x := |r'.st.store|],
                        Alloc(r.st, r.c.v), Alloc(r'.st, r'.c.v));
        } else if |ns| > 1 {
          SimulatesList(k, fuel, ns[1..], ms[1..], env, env', r.st, r'.st);
        }
      }
    }
  }

  lemma {:induction false} SimulatesEntries(k: Link, fuel: nat, es: seq<Entry>, fs: seq<Entry>, subject: Option<Ground>, env: Env, env': Env, st: State, st': State)
    requires k.Valid() && StateRel(k, st, st') && EnvRel(k, env, env', |st.store|) && CodeEntries(k, es, fs, env, env')
    ensures OutcomeRel(k, EvalEntries(fuel, k.w, es, subject, env, st), EvalEntries(fuel, k.w, fs, subject, env', st'), |st.store|)
    decreases fuel, es, 0
  {
    hide Eval, EnvRel, StateRel, ValueRel, CodeEntries, Code;
    if es == [] {
      assert fs == [] by { EntriesParts(k, es, fs, env, env'); }
      SameRel(k, UnitValue(), |st.store|);
    } else {
      assert es decreases to es[0];
      EntriesParts(k, es, fs, env, env');
      match es[0].test {
        case Otherwise => Simulates(k, fuel, es[0].body, fs[0].body, env, env', st, st');
        case IsType(ty) =>
          Simulates(k, fuel, es[0].body, fs[0].body, env, env', st, st');
          SimulatesEntries(k, fuel, es[1..], fs[1..], subject, env, env', st, st');
        case Cond(node) =>
          Simulates(k, fuel, node, fs[0].test.node, env, env', st, st');
          var r, r' := Eval(fuel, k.w, node, env, st), Eval(fuel, k.w, fs[0].test.node, env', st');
          if r.c.Normal? {
            PlainRel(k, r.c.v, r'.c.v, |r.st.store|);
            EnvRelGrows(k, env, env', |st.store|, |r.st.store|);
            Simulates(k, fuel, es[0].body, fs[0].body, env, env', r.st, r'.st);
            SimulatesEntries(k, fuel, es[1..], fs[1..], subject, env, env', r.st, r'.st);
          }
      }
    }
  }

  lemma {:induction false} SimulatesFor(k: Link, fuel: nat, x: string, b: Node, b': Node, left: nat, env: Env, env': Env, st: State, st': State)
    requires k.Valid() && StateRel(k, st, st') && EnvRel(k, env, env', |st.store|)
    requires CodeUnder(k, x, b, b', env, env')
    ensures OutcomeRel(k, EvalFor(fuel, k.w, x, b, left, env, st), EvalFor(fuel, k.w, x, b', left, env', st'), |st.store|)
    decreases fuel, b, left + 5
  {
    hide Eval, EnvRel, StateRel, ValueRel;
    SameRel(k, UnitValue(), |st.store|);
    if left > 0 {
      var v := Plain(Num(left));
      SameRel(k, v, |st.store|);
      SimulatesBinding(k, fuel, x, v, v, b, b', env, env', st, st');
      var r := Eval(fuel, k.w, b, env[x := |st.store|], Alloc(st, v));
      var r' := Eval(fuel, k.w, b', env'[x := |st'.store|], Alloc(st', v));
      SameRel(k, UnitValue(), |r.st.store|);
      if r.c.Normal? || r.c.Continued? {
        EnvRelGrows(k, env, env', |st.store|, |r.st.store|);
        SimulatesFor(k, fuel, x, b, b', left - 1, env, env', r.st, r'.st);
      }
    }
  }
}
