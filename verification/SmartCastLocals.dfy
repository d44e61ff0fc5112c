/** Naming the local a repair binds. */
module SmartCastLocals {
  import opened Options
  import opened Kotlin
  import opened SmartCastSimulation
  import opened SmartCast
  import opened SmartCastReachable
  import opened SmartCastSpent
  import opened SmartCastMeaning

  /** Identifiers that may name something in scope: the leaf of a navigation is left out. */
  function ScopeNames(n: Node): set<string>
    decreases n, 0
  {
    match n
    case Name(x) => {x}
    case Nav(t, _) => ScopeNames(t)
    case Is(e, ty, _) => ScopeNames(e) + {ty}
    case And(a, b) => ScopeNames(a) + ScopeNames(b)
    case Call(f, a) => ScopeNames(f) + ScopeNames(a)
    case Log(a) => ScopeNames(a)
    case Lambda(p, ss) => (if p.Some? then {p.value} else {}) + ScopeNamesOf(ss)
    case Block(ss) => ScopeNamesOf(ss)
    case Val(x, e) => {x} + ScopeNames(e)
    case Assign(x, e) => {x} + ScopeNames(e)
    case If(e, t, f) => ScopeNames(e) + ScopeNames(t) + (if f.Some? then ScopeNames(f.value) else {})
    case When(s, es) => (if s.Some? then ScopeNames(s.value) else {}) + EntryNames(es)
    case For(x, e, b) => {x} + ScopeNames(e) + ScopeNames(b)
    case Try(b, x, h) => ScopeNames(b) + {x} + ScopeNames(h)
    case Return(e) => ScopeNames(e)
    case Throw(e) => ScopeNames(e)
    case _ => {}
  }

  function ScopeNamesOf(ns: seq<Node>): set<string>
    decreases ns, 0
  {
    if ns == [] then {} else ScopeNames(ns[0]) + ScopeNamesOf(ns[1..])
  }

  function EntryNames(es: seq<Entry>): set<string>
    decreases es, 0
  {
    if es == [] then {} else
    assert es decreases to es[0];
    (if es[0].test.Cond? then ScopeNames(es[0].test.node) else if es[0].test.IsType? then {es[0].test.ty} else {})
    + ScopeNames(es[0].body) + EntryNames(es[1..])
  }

  function Digits(n: nat): string
  {
    (if n < 10 then "" else Digits(n / 10)) + [(n % 10 + '0' as int) as char]
  }

  function Suffixed(property: string, n: nat): string {
    property + "Notlin" + Digits(n)
  }

  /** What `LocalName` tries in turn. */
  ghost predicate SomeFree(property: string, receiver: string, taken: set<string>) {
    (property != receiver && property !in taken) || exists n: nat :: 1 <= n < 64 && Suffixed(property, n) !in taken
  }

  /** The name is free as long as one of the candidates is; then it is taken from now on. When
      all are gone the last resort is returned without a look. */
  method LocalName(property: string, receiver: string, taken: set<string>) returns (local: string, now: set<string>)
    requires receiver in taken
    ensures SomeFree(property, receiver, taken) ==> local !in taken && local != receiver && now == taken + {local}
    ensures !SomeFree(property, receiver, taken) ==> local == property + "Notlin" && now == taken
  {
    if property != receiver && property !in taken {
      return property, taken + {property};
    }
    for n := 1 to 64
      invariant forall m :: 1 <= m < n ==> Suffixed(property, m) in taken
    {
      var candidate := Suffixed(property, n);
      if candidate !in taken {
        return candidate, taken + {candidate};
      }
    }
    return property + "Notlin", taken;
  }

  // ----- a free name is unused -----

  /** No lambda in `n` binds its parameter silently. */
  ghost predicate NoImplicitIt(n: Node)
    decreases n, 0
  {
    match n
    case Nav(t, _) => NoImplicitIt(t)
    case Is(e, _, _) => NoImplicitIt(e)
    case And(a, b) => NoImplicitIt(a) && NoImplicitIt(b)
    case Call(f, a) => NoImplicitIt(f) && NoImplicitIt(a)
    case Log(a) => NoImplicitIt(a)
    case Lambda(p, ss) => p.Some? && NoImplicitItIn(ss)
    case Block(ss) => NoImplicitItIn(ss)
    case Val(_, e) => NoImplicitIt(e)
    case Assign(_, e) => NoImplicitIt(e)
    case If(e, t, f) => NoImplicitIt(e) && NoImplicitIt(t) && (f.Some? ==> NoImplicitIt(f.value))
    case When(s, es) => (s.Some? ==> NoImplicitIt(s.value)) && NoImplicitItAt(es)
    case For(_, e, b) => NoImplicitIt(e) && NoImplicitIt(b)
    case Try(b, _, h) => NoImplicitIt(b) && NoImplicitIt(h)
    case Return(e) => NoImplicitIt(e)
    case Throw(e) => NoImplicitIt(e)
    case _ => true
  }

  ghost predicate NoImplicitItIn(ns: seq<Node>)
    decreases ns, 0
  {
    ns != [] ==> NoImplicitIt(ns[0]) && NoImplicitItIn(ns[1..])
  }

  ghost predicate NoImplicitItAt(es: seq<Entry>)
    decreases es, 0
  {
    es != [] ==>
      assert es decreases to es[0];
      && (es[0].test.Cond? ==> NoImplicitIt(es[0].test.node))
      && NoImplicitIt(es[0].body)
      && NoImplicitItAt(es[1..])
  }

  /** A name that is no identifier in `n` is used by nothing there, exactly unless it is `it`
      and some lambda binds that silently. */
  lemma {:induction false} FreeIsUnused(x: string, n: Node)
    requires x !in ScopeNames(n)
    ensures Unused(x, n) <==> x != "it" || NoImplicitIt(n)
    decreases n, 0
  {
    match n {
      case Nav(t, _) => FreeIsUnused(x, t);
      case Is(e, _, _) => FreeIsUnused(x, e);
      case And(a, b) => FreeIsUnused(x, a); FreeIsUnused(x, b);
      case Call(f, a) => FreeIsUnused(x, f); FreeIsUnused(x, a);
      case Log(a) => FreeIsUnused(x, a);
      case Lambda(_, ss) => FreeIsUnusedIn(x, ss);
      case Block(ss) => FreeIsUnusedIn(x, ss);
      case Val(_, e) => FreeIsUnused(x, e);
      case Assign(_, e) => FreeIsUnused(x, e);
      case If(e, t, f) =>
        FreeIsUnused(x, e); FreeIsUnused(x, t);
        if f.Some? { FreeIsUnused(x, f.value); }
      case When(s, es) =>
        if s.Some? { FreeIsUnused(x, s.value); }
        FreeIsUnusedAt(x, es);
      case For(_, e, b) => FreeIsUnused(x, e); FreeIsUnused(x, b);
      case Try(b, _, h) => FreeIsUnused(x, b); FreeIsUnused(x, h);
      case Return(e) => FreeIsUnused(x, e);
      case Throw(e) => FreeIsUnused(x, e);
      case _ =>
    }
  }

  lemma {:induction false} FreeIsUnusedIn(x: string, ns: seq<Node>)
    requires x !in ScopeNamesOf(ns)
    ensures UnusedList(x, ns) <==> x != "it" || NoImplicitItIn(ns)
    decreases ns, 0
  {
    if ns != [] {
      FreeIsUnused(x, ns[0]);
      FreeIsUnusedIn(x, ns[1..]);
    }
  }

  lemma {:induction false} FreeIsUnusedAt(x: string, es: seq<Entry>)
    requires x !in EntryNames(es)
    ensures UnusedEntries(x, es) <==> x != "it" || NoImplicitItAt(es)
    decreases es, 0
  {
    if es != [] {
      assert es decreases to es[0];
      if es[0].test.Cond? { FreeIsUnused(x, es[0].test.node); }
      FreeIsUnused(x, es[0].body);
      FreeIsUnusedAt(x, es[1..]);
    }
  }

  // ----- a repaired function -----

  lemma {:induction false} UnusedSplits(x: string, ns: seq<Node>, ms: seq<Node>)
    requires UnusedList(x, ns + ms)
    ensures UnusedList(x, ns) && UnusedList(x, ms)
    decreases ns
  {
    if ns == [] {
      assert ns + ms == ms;
    } else {
      assert (ns + ms)[1..] == ns[1..] + ms;
      UnusedSplits(x, ns[1..], ms);
    }
  }

  /** Main result: a function body behaves the same after the repair, from every call with plain
      arguments, when the local is a name its scan found free. The receiver may be assigned
      ahead of the site, though not by a lambda that captured it, and behind the last
      collected read if none of those is in a lambda. */
  lemma FreshLocalKeepsMeaning(c: Chain, fuel: nat, w: World, before: seq<Node>, n: Node, shape: Shape, after: seq<Node>,
                               env: Env, st: State, names: seq<string>)
    requires Analyse(n) == Some(Candidate(c.receiver, c.property, shape))
    requires Repairable(c, InBlock, n, after, shape) && Stable(w, c.property)
    requires LeavesAlone(c.receiver, before) && Settled(c, InBlock, n, after, shape)
    requires c.local !in ScopeNamesOf(before + [n] + after)
    requires c.local == "it" ==> NoImplicitItIn(before + [n] + after)
    requires EnvTidy(env, names) && |st.store| == |names| && forall i :: 0 <= i < |st.store| ==> st.store[i].Plain?
    ensures SameBehaviour(EvalList(fuel, w, before + [n] + after, env, st),
                          EvalList(fuel, w, RepairBlock(c, InBlock, before, n, after, shape), env, st))
  {
    hide Eval, EvalList;
    FreeIsUnusedIn(c.local, before + [n] + after);
    assert before + [n] + after == before + ([n] + after);
    UnusedSplits(c.local, before, [n] + after);
    BlockKeepsMeaning(c, fuel, w, InBlock, before, n, shape, after, env, st, names);
  }

  // ----- the one name that is taken silently -----

  function ItWorld(): World {
    World((g, property, log) => Some(Num(0)), (g, ty) => true)
  }

  function ItChain(): Chain {
    Chain("h", "it", "it")
  }

  /** A condition and a lambda called at once with 7; the lambda logs `shown`. */
  function ItSite(test: Node, shown: Node): Node {
    If(Is(test, "T", false), Call(Lambda(None, [Log(shown)]), Lit(Num(7))), None)
  }

  /** A property called `it` gets a local called `it`, free by the scan, and the lambda's silent
      parameter captures the read: it logs its argument, not the property. */
  lemma SilentItCaptures(fuel: nat)
    requires fuel > 0
    ensures var c, n := ItChain(), ItSite(ItChain().Read(), ItChain().Read());
      var env, st := map["h" := 0], State([Plain(Ref(0))], []);
      && Analyse(n) == Some(Candidate("h", "it", IfIs)) && "it" !in ScopeNamesOf([n])
      && Repairable(c, InBlock, n, [], IfIs)
      && EvalList(fuel, ItWorld(), [n], env, st).st.log == [Num(0)]
      && EvalList(fuel, ItWorld(), RepairBlock(c, InBlock, [], n, [], IfIs), env, st).st.log == [Num(7)]
  {
    hide *;
    ItShape();
    OuterLogs(fuel);
    InnerLogs(fuel);
  }

  lemma OuterLogs(fuel: nat)
    requires fuel > 0
    ensures EvalList(fuel, ItWorld(), [ItSite(ItChain().Read(), ItChain().Read())], map["h" := 0], State([Plain(Ref(0))], [])).st.log == [Num(0)]
  {
    hide Eval;
    var read, env, st := ItChain().Read(), map["h" := 0], State([Plain(Ref(0))], []);
    Unfold(fuel, ItWorld(), read, env, st);
    Unfold(fuel, ItWorld(), Name("h"), env, st);
    ItRuns(fuel, read, read, env, st, Num(0));
  }

  lemma InnerLogs(fuel: nat)
    requires fuel > 0
    ensures var fixed := [Val("it", ItChain().Read()), ItSite(Name("it"), Name("it"))];
      EvalList(fuel, ItWorld(), fixed, map["h" := 0], State([Plain(Ref(0))], [])).st.log == [Num(7)]
  {
    hide Eval;
    var read, env, st := ItChain().Read(), map["h" := 0], State([Plain(Ref(0))], []);
    var env', st' := env["it" := 1], Alloc(st, Plain(Num(0)));
    Unfold(fuel, ItWorld(), Val("it", read), env, st);
    Unfold(fuel, ItWorld(), read, env, st);
    Unfold(fuel, ItWorld(), Name("h"), env, st);
    Unfold(fuel, ItWorld(), Name("it"), env', st');
    ItRuns(fuel, Name("it"), Name("it"), env', st', Num(7));
    var site := ItSite(Name("it"), Name("it"));
    assert [Val("it", read), site][1..] == [site];
    assert EvalList(fuel, ItWorld(), [site], env', st').st.log == [Num(7)];
  }

  lemma ItShape()
    ensures var c, n := ItChain(), ItSite(ItChain().Read(), ItChain().Read());
      && Analyse(n) == Some(Candidate("h", "it", IfIs)) && "it" !in ScopeNamesOf([n])
      && Repairable(c, InBlock, n, [], IfIs)
      && RepairBlock(c, InBlock, [], n, [], IfIs) == [Val("it", c.Read()), ItSite(Name("it"), Name("it"))]
  {
    var c, n := ItChain(), ItSite(ItChain().Read(), ItChain().Read());
    var shown := [Log(c.Read())];
    assert shown[1..] == [] && [n][1..] == [];
    assert HarmlessEach(c, shown);
    assert RepairEach(c, shown) == [Log(Name("it"))];
    assert ScopeNamesOf(shown) == {"h"};
    assert ScopeNames(n.thn) == {"h"} + {};
    assert ScopeNames(n) == {"h", "T"};
  }

  /** Both forms log what `shown` is below the lambda's own `it`. */
  lemma ItRuns(fuel: nat, test: Node, shown: Node, env: Env, st: State, logged: Ground)
    requires fuel > 0 && st.log == []
    requires var r := Eval(fuel, ItWorld(), test, env, st); r.c.Normal? && r.st == st
    requires shown == ItChain().Read() || shown == Name("it")
    requires shown.Nav? ==> "h" in env && env["h"] < |st.store| && logged == Num(0)
    requires shown.Name? ==> logged == Num(7)
    ensures var r := Eval(fuel, ItWorld(), ItSite(test, shown), env, st); r.c.Normal? && r.st.log == [logged]
  {
    hide Eval;
    var w := ItWorld();
    var n := ItSite(test, shown);
    Unfold(fuel, w, n, env, st);
    Unfold(fuel, w, n.cond, env, st);
    Unfold(fuel, w, n.thn, env, st);
    Unfold(fuel, w, n.thn.callee, env, st);
    Unfold(fuel, w, Lit(Num(7)), env, st);
    var inner, entered := env["it" := |st.store|], Alloc(st, Plain(Num(7)));
    Unfold(fuel - 1, w, Log(shown), inner, entered);
    Unfold(fuel - 1, w, shown, inner, entered);
    if shown.Nav? { Unfold(fuel - 1, w, Name("h"), inner, entered); }
    assert EvalList(fuel - 1, w, [Log(shown)], inner, entered) == Eval(fuel - 1, w, Log(shown), inner, entered);
  }
}
