/** The repair keeps the meaning of the block it rewrites, and what it narrows is narrowed. */
module SmartCastMeaning {
  import opened Options
  import opened Kotlin
  import opened SmartCastSimulation
  import opened SmartCastReachable
  import opened SmartCast
  import opened SmartCastSteady
  import opened SmartCastSpent

  /** What can be told apart from outside: how a run ended, with what, after doing what. */
  ghost predicate SameBehaviour(r: Outcome, r': Outcome) {
    && r.st.log == r'.st.log
    && match r.c
       case Normal(v) => r'.c.Normal? && Observe(v) == Observe(r'.c.v)
       case Returned(v) => r'.c.Returned? && Observe(v) == Observe(r'.c.v)
       case Threw(v) => r'.c.Threw? && Observe(v) == Observe(r'.c.v)
       case _ => r'.c == r.c
  }

  /** Kotlin smart casts a property only when reading it again gives the same value. */
  ghost predicate Stable(w: World, property: string) {
    forall g, log, log' :: w.read(g, property, log) == w.read(g, property, log')
  }

  /** What the repair needs beyond what its scan checks. */
  predicate Repairable(c: Chain, parent: Parent, n: Node, after: seq<Node>, shape: Shape) {
    && c.receiver != "" && c.local != c.receiver
    && HarmlessSite(c, n, shape)
    && (SearchesRest(parent, n) ==> HarmlessEach(c, after))
  }

  lemma RelatedIsSame(k: Link, r: Outcome, r': Outcome, size: nat)
    requires OutcomeRel(k, r, r', size)
    ensures SameBehaviour(r, r')
  {
  }

  // ----- the rewritten site replaces reads only -----

  /** In each of the five shapes the rewritten statement differs in replaced reads only, exactly
      if the searched parts are harmless. */
  lemma SiteReplaces(c: Chain, n: Node, shape: Shape)
    requires c.receiver != ""
    requires Analyse(n) == Some(Candidate(c.receiver, c.property, shape))
    ensures Replaced(c, n, RepairSite(c, n, shape)) <==> HarmlessSite(c, n, shape)
    ensures n != RepairSite(c, n, shape)
  {
    match n {
      case If(_, _, _) => IfReplaces(c, n, shape);
      case When(Some(_), _) => SubjectReplaces(c, n);
      case When(None, _) => ConditionReplaces(c, n);
      case _ =>
    }
  }

  lemma IfReplaces(c: Chain, n: Node, shape: Shape)
    requires c.receiver != "" && n.If?
    requires Analyse(n) == Some(Candidate(c.receiver, c.property, shape))
    ensures Replaced(c, n, RepairSite(c, n, shape)) <==> HarmlessSite(c, n, shape)
    ensures n != RepairSite(c, n, shape)
  {
    hide ReplacedList, ReplacedEntries, Repair, Harmless;
    RepairReplaces(c, n.thn);
    if n.els.Some? { RepairReplaces(c, n.els.value); ReplacedSame(c, n.els.value); }
    if shape == Conjunction {
      RepairReplaces(c, n.cond);
      FoundIsRepaired(c, n.cond);
      FoundFirst(c, n.cond);
    } else {
      assert Replaced(c, n.cond.operand, Name(c.local));
    }
  }

  /** The test of a conjunction is itself among what is found in it. */
  lemma {:induction false} FoundFirst(c: Chain, n: Node)
    requires Operands(n)[0].Is? && Operands(n)[0].operand == c.Read()
    ensures Found(c, n)
    decreases n
  {
    if n.And? {
      FoundFirst(c, n.left);
    } else {
      assert Found(c, n.operand);
    }
  }

  lemma SubjectReplaces(c: Chain, n: Node)
    requires c.receiver != "" && n.When? && n.subject.Some?
    requires Analyse(n) == Some(Candidate(c.receiver, c.property, WhenSubject))
    ensures Replaced(c, n, RepairSite(c, n, WhenSubject)) <==> HarmlessSite(c, n, WhenSubject)
    ensures n != RepairSite(c, n, WhenSubject)
  {
    RepairIsBodiesReplaces(c, n.entries);
    assert Replaced(c, c.Read(), Name(c.local));
  }

  lemma ConditionReplaces(c: Chain, n: Node)
    requires c.receiver != "" && n.When? && n.subject.None?
    requires Analyse(n) == Some(Candidate(c.receiver, c.property, WhenCondition))
    ensures Replaced(c, n, RepairSite(c, n, WhenCondition)) <==> HarmlessSite(c, n, WhenCondition)
    ensures n != RepairSite(c, n, WhenCondition)
  {
    var es := n.entries;
    var m := RepairSite(c, n, WhenCondition);
    assert es decreases to es[0];
    RepairReplaces(c, es[0].body);
    var test := es[0].test.node;
    assert Replaced(c, test.operand, Name(c.local));
    assert ReplacedTest(c, es[0].test, m.entries[0].test);
    assert m.entries[1..] == es[1..] && m.entries[0] != es[0];
    ReplacedEntriesSame(c, es[1..]);
  }

  /** The site and the statements after it. */
  lemma BlockReplaces(c: Chain, parent: Parent, n: Node, shape: Shape, after: seq<Node>)
    requires c.receiver != "" && c.local != c.receiver
    requires Analyse(n) == Some(Candidate(c.receiver, c.property, shape))
    ensures ReplacedList(c, [n] + after, [RepairSite(c, n, shape)] + RepairRest(c, parent, n, after))
       <==> Repairable(c, parent, n, after, shape)
  {
    hide Replaced, Analyse, RepairSite, HarmlessSite;
    var rest, site := RepairRest(c, parent, n, after), RepairSite(c, n, shape);
    SiteReplaces(c, n, shape);
    RepairEachReplaces(c, after);
    ReplacedListSame(c, after);
    assert ([n] + after)[1..] == after && ([site] + rest)[1..] == rest;
    assert ([n] + after)[0] == n && ([site] + rest)[0] == site;
    SiteIsNoVal(c, n, shape);
  }

  lemma SiteIsNoVal(c: Chain, n: Node, shape: Shape)
    requires Analyse(n) == Some(Candidate(c.receiver, c.property, shape))
    ensures !n.Val?
  {
  }

  // ----- the hoisted read comes first in the original, too -----

  lemma {:induction false} FirstOperand(c: Chain, fuel: nat, w: World, n: Node, env: Env, st: State)
    requires Operands(n)[0].Is? && Operands(n)[0].operand == c.Read()
    requires !Eval(fuel, w, c.Read(), env, st).c.Normal?
    ensures Eval(fuel, w, n, env, st) == Eval(fuel, w, c.Read(), env, st)
    decreases n
  {
    if n.And? {
      FirstOperand(c, fuel, w, n.left, env, st);
    }
  }

  lemma FirstRead(c: Chain, fuel: nat, w: World, n: Node, shape: Shape, env: Env, st: State)
    requires Analyse(n) == Some(Candidate(c.receiver, c.property, shape))
    requires !Eval(fuel, w, c.Read(), env, st).c.Normal?
    ensures Eval(fuel, w, n, env, st) == Eval(fuel, w, c.Read(), env, st)
  {
    hide Eval;
    Unfold(fuel, w, n, env, st);
    match n {
      case If(cond, _, _) => FirstOperand(c, fuel, w, cond, env, st);
      case When(Some(subject), _) =>
      case When(None, entries) => FirstOperand(c, fuel, w, entries[0].test.node, env, st);
      case _ =>
    }
  }

  /** Reading the chain changes nothing; it needs the receiver to be a variable in scope. */
  lemma ChainRead(c: Chain, fuel: nat, w: World, env: Env, st: State)
    ensures var r := Eval(fuel, w, c.Read(), env, st);
      && r.st == st
      && (r.c.Normal? || r.c == Stuck)
      && (r.c.Normal? ==>
            && c.receiver in env && env[c.receiver] < |st.store| && r.c.v.Plain?
            && w.read(Observe(st.store[env[c.receiver]]), c.property, st.log) == Some(r.c.v.g))
  {
    Unfold(fuel, w, c.Read(), env, st);
    Unfold(fuel, w, Name(c.receiver), env, st);
  }

  /** The watch on the receiver's variable, where it is in scope and not declared again among
      the statements to come. */
  function WatchOn(c: Chain, coming: seq<Node>, env: Env): Watch {
    Watch(c, if c.receiver in env && !Redeclares(c.receiver, coming) then Some(env[c.receiver]) else None)
  }

  predicate Redeclares(x: string, ns: seq<Node>) {
    ns != [] && ((ns[0].Val? && ns[0].name == x) || Redeclares(x, ns[1..]))
  }

  /** Statements ahead of a site may assign the receiver; what they leave behind, lambdas that
      captured its variable, may not. */
  ghost predicate LeavesAlone(x: string, ns: seq<Node>) {
    ns != [] ==> (Redeclares(x, ns) || LambdasKeep(x, ns[0])) && LeavesAlone(x, ns[1..])
  }

  /** The two runs right after the new local is bound. */
  lemma StartRel(k: Link, env: Env, st: State, names: seq<string>)
    requires k.Valid() && EnvTidy(env, names) && StateTidy(Watch(k.c, Some(k.cell)), st, names)
    requires k.extra == |st.store| && SeesReceiver(k, env) && Observe(st.store[k.cell]) == k.target
    ensures var st', env' := Alloc(st, Plain(k.value)), env[k.c.local := |st.store|];
      StateRel(k, st, st') && EnvRel(k, env, env', |st.store|) && Region(k, env, env')
  {
    var st' := Alloc(st, Plain(k.value));
    forall i | 0 <= i < |st.store|
      ensures ValueRel(k, st.store[i], st'.store[k.Shift(i)], |st.store|)
    {
      assert ValueTidy(Watch(k.c, Some(k.cell)), st.store[i], names);
    }
  }

  /** Main result. From every state a function can reach in which no closure left behind assigns
      the receiver's variable, a recognised site in statement position and the statements after
      it behave as their repaired form does. The receiver may be assigned when no collected read
      is left to run. */
  lemma SiteKeepsMeaning(c: Chain, fuel: nat, w: World, parent: Parent, n: Node, shape: Shape, after: seq<Node>,
                         env: Env, st: State, names: seq<string>)
    requires Analyse(n) == Some(Candidate(c.receiver, c.property, shape))
    requires Repairable(c, parent, n, after, shape) && Stable(w, c.property)
    requires UnusedList(c.local, [n] + after) && Settled(c, parent, n, after, shape)
    requires EnvTidy(env, names) && StateTidy(WatchOn(c, [], env), st, names)
    ensures SameBehaviour(EvalList(fuel, w, [n] + after, env, st),
                          EvalList(fuel, w, RepairBlock(c, parent, [], n, after, shape), env, st))
  {
    hide Replaced, ReplacedList, RepairRest, HarmlessEach, HarmlessSite, Analyse, RepairSite, Eval, EvalList, UnusedList, KeepsList, StateTidy, EnvTidy, Settled;
    var ms := [RepairSite(c, n, shape)] + RepairRest(c, parent, n, after);
    assert RepairBlock(c, parent, [], n, after, shape) == [Val(c.local, c.Read())] + ms;
    ChainRead(c, fuel, w, env, st);
    HoistRuns(c, fuel, w, ms, env, st);
    var read := Eval(fuel, w, c.Read(), env, st);
    if read.c.Normal? {
      var cell := env[c.receiver];
      var k := Link(c, w, cell, |st.store|, Observe(st.store[cell]), read.c.v.g, true);
      StartsTidy(k, env, st, names);
      RepairedRuns(k, fuel, parent, n, shape, after, env, st, names);
    } else {
      FirstRead(c, fuel, w, n, shape, env, st);
      FirstFails(fuel, w, n, after, env, st);
    }
  }

  /** Behind the binding line, with the receiver kept or spent. */
  lemma RepairedRuns(k: Link, fuel: nat, parent: Parent, n: Node, shape: Shape, after: seq<Node>, env: Env, st: State, names: seq<string>)
    requires Analyse(n) == Some(Candidate(k.c.receiver, k.c.property, shape))
    requires Repairable(k.c, parent, n, after, shape)
    requires UnusedList(k.c.local, [n] + after) && Settled(k.c, parent, n, after, shape)
    requires k.Valid() && EnvTidy(env, names) && StateTidy(Watch(k.c, Some(k.cell)), st, names)
    requires k.extra == |st.store| && SeesReceiver(k, env) && Observe(st.store[k.cell]) == k.target
    ensures SameBehaviour(EvalList(fuel, k.w, [n] + after, env, st),
                          EvalList(fuel, k.w, [RepairSite(k.c, n, shape)] + RepairRest(k.c, parent, n, after),
                                   env[k.c.local := |st.store|], Alloc(st, Plain(k.value))))
  {
    hide Replaced, ReplacedList, RepairRest, HarmlessEach, HarmlessSite, Analyse, RepairSite, Eval, EvalList, UnusedList, KeepsList, StateTidy, EnvTidy, Settled;
    var ms := [RepairSite(k.c, n, shape)] + RepairRest(k.c, parent, n, after);
    var env', st' := env[k.c.local := |st.store|], Alloc(st, Plain(k.value));
    StartRel(k, env, st, names);
    if KeepsList(k.c.receiver, [n] + after) {
      BlockReplaces(k.c, parent, n, shape, after);
      SimulatesList(k, fuel, [n] + after, ms, env, env', st, st');
      RelatedIsSame(k, EvalList(fuel, k.w, [n] + after, env, st), EvalList(fuel, k.w, ms, env', st'), |st.store|);
    } else {
      SiteIsNoVal(k.c, n, shape);
      SiteReplaces(k.c, n, shape);
      RepairedIsNoVal(k.c, n, shape);
      BlockIsSteady(k.c, parent, n, shape, after);
      StartReady(k, env, st, names);
      SteadySimulatesList(k, fuel, [n] + after, ms, env, env', st, st', names + [k.c.local]);
      RelatedIsSame(Dead(k), EvalList(fuel, k.w, [n] + after, env, st), EvalList(fuel, k.w, ms, env', st'), |st.store|);
    }
  }

  lemma RepairedIsNoVal(c: Chain, n: Node, shape: Shape)
    requires !n.Val?
    ensures !RepairSite(c, n, shape).Val?
  {
  }

  /** No closure uses the local when it is bound. */
  lemma StartReady(k: Link, env: Env, st: State, names: seq<string>)
    requires EnvTidy(env, names) && StateTidy(Watch(k.c, Some(k.cell)), st, names) && k.extra == |st.store|
    requires var st', env' := Alloc(st, Plain(k.value)), env[k.c.local := |st.store|];
      k.Valid() && StateRel(k, st, st') && EnvRel(k, env, env', |st.store|) && Region(k, env, env')
    ensures Ready(k, env, env[k.c.local := |st.store|], st, Alloc(st, Plain(k.value)), names + [k.c.local])
  {
    hide StateRel, EnvRel;
    assert StateTidy(Watch(k.c, None), st, names);
    BindTidy(Watch(k.c, None), env, st, names, k.c.local, Plain(k.value));
  }

  /** The binding line: the read, and then the rest with the local. */
  lemma HoistRuns(c: Chain, fuel: nat, w: World, ms: seq<Node>, env: Env, st: State)
    requires Eval(fuel, w, c.Read(), env, st).st == st
    ensures var read := Eval(fuel, w, c.Read(), env, st);
      EvalList(fuel, w, [Val(c.local, c.Read())] + ms, env, st) ==
        if read.c.Normal? then EvalList(fuel, w, ms, env[c.local := |st.store|], Alloc(st, read.c.v)) else read
  {
    hide Eval;
    Unfold(fuel, w, Val(c.local, c.Read()), env, st);
    assert ([Val(c.local, c.Read())] + ms)[1..] == ms;
  }

  lemma FirstFails(fuel: nat, w: World, n: Node, after: seq<Node>, env: Env, st: State)
    requires !Eval(fuel, w, n, env, st).c.Normal?
    ensures EvalList(fuel, w, [n] + after, env, st) == Eval(fuel, w, n, env, st)
  {
    hide Eval;
  }

  lemma StartsTidy(k: Link, env: Env, st: State, names: seq<string>)
    requires StateTidy(WatchOn(k.c, [], env), st, names) && SeesReceiver(k, env) && k.cell < |st.store| == k.extra
    requires k.target == Observe(st.store[k.cell]) && Stable(k.w, k.c.property) && k.c.local != k.c.receiver
    requires k.w.read(k.target, k.c.property, st.log) == Some(k.value)
    ensures StateTidy(Watch(k.c, Some(k.cell)), st, names) && k.Valid()
  {
    hide StateTidy;
    assert WatchOn(k.c, [], env) == Watch(k.c, Some(k.cell));
  }

  /** A statement ahead of a site leads to such a state again, with the watch for what follows. */
  lemma StepTidy(c: Chain, fuel: nat, w: World, ns: seq<Node>, env: Env, st: State, names: seq<string>)
    returns (env': Env, st': State, out: seq<string>)
    requires ns != [] && UnusedList(c.local, ns) && LeavesAlone(c.receiver, ns)
    requires EnvTidy(env, names) && StateTidy(WatchOn(c, ns, env), st, names)
    ensures var r := Eval(fuel, w, ns[0], env, st);
      r.c.Normal? ==>
        && env' == (if ns[0].Val? then env[ns[0].name := |r.st.store|] else env)
        && st' == (if ns[0].Val? then Alloc(r.st, r.c.v) else r.st)
        && EnvTidy(env', out) && StateTidy(WatchOn(c, ns[1..], env'), st', out)
  {
    hide Eval, Unused, LambdasKeep;
    var k := WatchOn(c, ns, env);
    UnusedLambdas(c.local, ns[0]);
    out := EvalTidy(k, fuel, w, ns[0], env, st, names);
    var r := Eval(fuel, w, ns[0], env, st);
    env', st' := env, r.st;
    if r.c.Normal? {
      TidyGrows(k, env, r.c.v, names, out);
      if ns[0].Val? {
        BindTidy(k, env, r.st, out, ns[0].name, r.c.v);
        env', st', out := env[ns[0].name := |r.st.store|], Alloc(r.st, r.c.v), out + [ns[0].name];
        if k != WatchOn(c, ns[1..], env') {
          NewWatch(c, env', st', out);
        }
      }
    }
  }

  /** Nothing has captured a cell that was made just now. */
  lemma NewWatch(c: Chain, env: Env, st: State, names: seq<string>)
    requires names != [] && StateTidy(Watch(c, None), st, names)
    requires forall i :: 0 <= i < |st.store| && st.store[i].Closure? ==> EnvTidy(st.store[i].env, names[..|names| - 1])
    ensures StateTidy(Watch(c, Some(|names| - 1)), st, names)
  {
  }

  /** The same for all the statements the site stands among. */
  lemma {:induction false} BlockKeepsMeaning(c: Chain, fuel: nat, w: World, parent: Parent, before: seq<Node>, n: Node, shape: Shape, after: seq<Node>,
                                             env: Env, st: State, names: seq<string>)
    requires Analyse(n) == Some(Candidate(c.receiver, c.property, shape))
    requires Repairable(c, parent, n, after, shape) && Stable(w, c.property)
    requires UnusedList(c.local, before) && LeavesAlone(c.receiver, before)
    requires UnusedList(c.local, [n] + after) && Settled(c, parent, n, after, shape)
    requires EnvTidy(env, names) && StateTidy(WatchOn(c, before, env), st, names)
    ensures SameBehaviour(EvalList(fuel, w, before + [n] + after, env, st),
                          EvalList(fuel, w, RepairBlock(c, parent, before, n, after, shape), env, st))
    decreases before
  {
    hide Analyse, Repairable, Settled, RepairSite, RepairRest, StateTidy, EnvTidy, WatchOn, Eval;
    var orig, fixed := before + [n] + after, RepairBlock(c, parent, before, n, after, shape);
    if before == [] {
      assert orig == [n] + after;
      SiteKeepsMeaning(c, fuel, w, parent, n, shape, after, env, st, names);
    } else {
      assert orig[1..] == before[1..] + [n] + after;
      assert fixed[1..] == RepairBlock(c, parent, before[1..], n, after, shape);
      var env', st', out := StepTidy(c, fuel, w, before, env, st, names);
      if Eval(fuel, w, before[0], env, st).c.Normal? {
        BlockKeepsMeaning(c, fuel, w, parent, before[1..], n, shape, after, env', st', out);
      }
    }
  }
}
