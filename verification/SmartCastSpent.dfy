/** When the receiver of a site may be assigned after all: no collected read is left to run by
    then, not even in a lambda. */
module SmartCastSpent {
  import opened Options
  import opened Kotlin
  import opened SmartCastSimulation
  import opened SmartCastReachable
  import opened SmartCastSteady
  import opened SmartCast

  // ----- nothing collected in lambdas -----

  /** The descent finds nothing in a lambda of `n`. */
  predicate NoneInLambdas(c: Chain, n: Node)
    decreases n, 0
  {
    match n
    case Nav(t, _) => NoneInLambdas(c, t)
    case Is(e, _, _) => NoneInLambdas(c, e)
    case And(a, b) => NoneInLambdas(c, a) && NoneInLambdas(c, b)
    case Call(f, a) => NoneInLambdas(c, f) && NoneInLambdas(c, a)
    case Log(a) => NoneInLambdas(c, a)
    case Lambda(_, ss) => Declares(n, c.receiver) || !FoundEach(c, ss)
    case Block(ss) => NoneInLambdasIn(c, ss)
    case Val(_, e) => NoneInLambdas(c, e)
    case Assign(_, e) => NoneInLambdas(c, e)
    case If(e, t, f) => NoneInLambdas(c, e) && NoneInLambdas(c, t) && (f.Some? ==> NoneInLambdas(c, f.value))
    case When(s, es) => (s.Some? ==> NoneInLambdas(c, s.value)) && NoneInLambdasAt(c, es)
    case For(_, e, b) => NoneInLambdas(c, e) && NoneInLambdas(c, b)
    case Try(b, _, h) => NoneInLambdas(c, b) && NoneInLambdas(c, h)
    case Return(e) => NoneInLambdas(c, e)
    case Throw(e) => NoneInLambdas(c, e)
    case _ => true
  }

  predicate NoneInLambdasIn(c: Chain, ns: seq<Node>)
    decreases ns, 0
  {
    ns == [] || (NoneInLambdas(c, ns[0]) && NoneInLambdasIn(c, ns[1..]))
  }

  predicate NoneInLambdasAt(c: Chain, es: seq<Entry>)
    decreases es, 0
  {
    es == []
    || assert es decreases to es[0];
       (&& (es[0].test.Cond? ==> NoneInLambdas(c, es[0].test.node))
        && NoneInLambdas(c, es[0].body)
        && NoneInLambdasAt(c, es[1..]))
  }

  /** Then no lambda uses the local after the repair. */
  lemma {:induction false} LambdasStay(c: Chain, n: Node)
    requires NoneInLambdas(c, n) && Unused(c.local, n)
    ensures LambdasUnused(c.local, Repair(c, n))
    decreases n, 1
  {
    if Declares(n, c.receiver) {
      UnusedLambdas(c.local, n);
    } else if n != c.Read() {
      if n.Lambda? || n.Block? || n.When? {
        LambdasStayListed(c, n);
      } else if n.Nav? || n.Is? || n.And? || n.Call? || n.Log? {
        LambdasStayOperands(c, n);
      } else {
        LambdasStayBelow(c, n);
      }
    }
  }

  lemma {:induction false} LambdasStayListed(c: Chain, n: Node)
    requires NoneInLambdas(c, n) && Unused(c.local, n) && !Declares(n, c.receiver) && (n.Lambda? || n.Block? || n.When?)
    ensures LambdasUnused(c.local, Repair(c, n))
    decreases n, 0
  {
    hide FoundEach, RepairEach, RepairUntil, RepairEntries, NoneInLambdasIn, NoneInLambdasAt, UnusedList, UnusedEntries, LambdasUnusedIn, LambdasUnusedAt;
    match n {
      case Lambda(_, ss) => FoundEachIsRepaired(c, ss);
      case Block(ss) => LambdasStayUntil(c, ss);
      case When(s, es) =>
        if s.Some? { LambdasStay(c, s.value); }
        LambdasStayAt(c, es);
    }
  }

  lemma {:induction false} LambdasStayOperands(c: Chain, n: Node)
    requires NoneInLambdas(c, n) && Unused(c.local, n) && n != c.Read() && (n.Nav? || n.Is? || n.And? || n.Call? || n.Log?)
    ensures LambdasUnused(c.local, Repair(c, n))
    decreases n, 0
  {
    match n {
      case Nav(t, _) => LambdasStay(c, t);
      case Is(e, _, _) => LambdasStay(c, e);
      case And(a, b) => LambdasStay(c, a); LambdasStay(c, b);
      case Call(f, a) => LambdasStay(c, f); LambdasStay(c, a);
      case Log(a) => LambdasStay(c, a);
    }
  }

  lemma {:induction false} LambdasStayBelow(c: Chain, n: Node)
    requires NoneInLambdas(c, n) && Unused(c.local, n) && !Declares(n, c.receiver)
    requires !(n.Lambda? || n.Block? || n.When? || n.Nav? || n.Is? || n.And? || n.Call? || n.Log?)
    ensures LambdasUnused(c.local, Repair(c, n))
    decreases n, 0
  {
    hide Declares;
    match n {
      case Val(_, e) => LambdasStay(c, e);
      case Assign(_, e) => LambdasStay(c, e);
      case If(e, t, f) =>
        LambdasStay(c, e); LambdasStay(c, t);
        if f.Some? { LambdasStay(c, f.value); }
      case For(_, e, b) => LambdasStay(c, e); LambdasStay(c, b);
      case Try(b, _, h) => LambdasStay(c, b); LambdasStay(c, h);
      case Return(e) => LambdasStay(c, e);
      case Throw(e) => LambdasStay(c, e);
      case _ =>
    }
  }

  lemma {:induction false} LambdasStayUntil(c: Chain, ns: seq<Node>)
    requires NoneInLambdasIn(c, ns) && UnusedList(c.local, ns)
    ensures LambdasUnusedIn(c.local, RepairUntil(c, ns))
    decreases ns, 0
  {
    if ns == [] || Declares(ns[0], c.receiver) {
      UnusedLambdasIn(c.local, ns);
    } else {
      hide Repair, LambdasUnused;
      LambdasStay(c, ns[0]);
      LambdasStayUntil(c, ns[1..]);
      assert RepairUntil(c, ns)[1..] == RepairUntil(c, ns[1..]);
    }
  }

  lemma {:induction false} LambdasStayEach(c: Chain, ns: seq<Node>)
    requires NoneInLambdasIn(c, ns) && UnusedList(c.local, ns)
    ensures LambdasUnusedIn(c.local, RepairEach(c, ns))
    decreases ns, 0
  {
    if ns != [] {
      hide Repair, LambdasUnused;
      LambdasStay(c, ns[0]);
      LambdasStayEach(c, ns[1..]);
      assert RepairEach(c, ns)[1..] == RepairEach(c, ns[1..]);
    }
  }

  lemma {:induction false} LambdasStayAt(c: Chain, es: seq<Entry>)
    requires NoneInLambdasAt(c, es) && UnusedEntries(c.local, es)
    ensures LambdasUnusedAt(c.local, RepairEntries(c, es))
    decreases es, 0
  {
    if es != [] {
      hide Repair, LambdasUnused;
      assert es decreases to es[0];
      if es[0].test.Cond? { LambdasStay(c, es[0].test.node); }
      LambdasStay(c, es[0].body);
      LambdasStayAt(c, es[1..]);
      assert RepairEntries(c, es)[1..] == RepairEntries(c, es[1..]);
    }
  }

  // ----- reads first, assignments after -----

  /** Where the receiver is assigned in `n`, nothing found comes behind. */
  ghost predicate Spends(c: Chain, n: Node)
    decreases n, 0
  {
    || !Found(c, n)
    || Keeps(c.receiver, n)
    || match n
       case Block(ss) => SpendsUntil(c, ss)
       case If(e, t, f) => Keeps(c.receiver, e) && Spends(c, t) && (f.Some? ==> Spends(c, f.value))
       case When(s, es) => (s.Some? ==> Keeps(c.receiver, s.value)) && SpendsAt(c, es)
       case _ => false
  }

  ghost predicate SpendsUntil(c: Chain, ns: seq<Node>)
    decreases ns, 0
  {
    FoundUntil(c, ns) ==>
      if !FoundUntil(c, ns[1..]) then Spends(c, ns[0]) else Keeps(c.receiver, ns[0]) && SpendsUntil(c, ns[1..])
  }

  ghost predicate SpendsEach(c: Chain, ns: seq<Node>)
    decreases ns, 0
  {
    FoundEach(c, ns) ==>
      if !FoundEach(c, ns[1..]) then Spends(c, ns[0]) else Keeps(c.receiver, ns[0]) && SpendsEach(c, ns[1..])
  }

  ghost predicate SpendsAt(c: Chain, es: seq<Entry>)
    decreases es, 0
  {
    FoundAt(c, es) ==>
      assert es decreases to es[0];
      (es[0].test.Cond? ==> Keeps(c.receiver, es[0].test.node)) && Spends(c, es[0].body) && SpendsAt(c, es[1..])
  }

  lemma {:induction false} SpendsIsSteady(c: Chain, n: Node)
    requires c.receiver != "" && Harmless(c, n) && Spends(c, n)
    ensures Steady(c, n, Repair(c, n))
    decreases n, 1
  {
    hide Keeps, Replaced, SpendsUntil, SpendsAt, SteadyList, SteadyEntries;
    FoundIsRepaired(c, n);
    if Found(c, n) {
      RepairReplaces(c, n);
      if !Keeps(c.receiver, n) {
        hide Found, RepairUntil, RepairEntries, HarmlessUntil, HarmlessAt;
        assert !Declares(n, c.receiver) && n != c.Read();
        match n {
          case Block(ss) => SpendsUntilIsSteady(c, ss);
          case If(_, _, _) => SpendsIfIsSteady(c, n);
          case When(s, es) =>
            if s.Some? { RepairReplaces(c, s.value); }
            SpendsAtIsSteady(c, es);
        }
      }
    }
  }

  lemma {:induction false} SpendsIfIsSteady(c: Chain, n: Node)
    requires c.receiver != "" && n.If? && Harmless(c, n) && Keeps(c.receiver, n.cond) && Spends(c, n.thn)
    requires n.els.Some? ==> Spends(c, n.els.value)
    ensures Steady(c, n, Repair(c, n))
    decreases n, 0
  {
    hide Keeps, Replaced, Spends;
    RepairReplaces(c, n.cond);
    SpendsIsSteady(c, n.thn);
    if n.els.Some? { SpendsIsSteady(c, n.els.value); }
  }

  lemma {:induction false} SpendsUntilIsSteady(c: Chain, ns: seq<Node>)
    requires c.receiver != "" && HarmlessUntil(c, ns) && SpendsUntil(c, ns)
    ensures SteadyList(c, ns, RepairUntil(c, ns))
    decreases ns, 0
  {
    hide Keeps, Replaced, Spends, Steady, Repair, Found, Harmless;
    FoundUntilIsRepaired(c, ns);
    if FoundUntil(c, ns) {
      FoundUntilIsRepaired(c, ns[1..]);
      assert RepairUntil(c, ns)[1..] == RepairUntil(c, ns[1..]);
      RepairReplaces(c, ns[0]);
      ValAgrees(c, ns[0], Repair(c, ns[0]));
      if !FoundUntil(c, ns[1..]) {
        SpendsIsSteady(c, ns[0]);
      } else {
        SpendsUntilIsSteady(c, ns[1..]);
      }
    }
  }

  lemma {:induction false} SpendsEachIsSteady(c: Chain, ns: seq<Node>)
    requires c.receiver != "" && HarmlessEach(c, ns) && SpendsEach(c, ns)
    ensures SteadyList(c, ns, RepairEach(c, ns))
    decreases ns, 0
  {
    hide Keeps, Replaced, Spends, Steady, Repair, Found, Harmless;
    FoundEachIsRepaired(c, ns);
    if FoundEach(c, ns) {
      FoundEachIsRepaired(c, ns[1..]);
      assert RepairEach(c, ns)[1..] == RepairEach(c, ns[1..]);
      RepairReplaces(c, ns[0]);
      ValAgrees(c, ns[0], Repair(c, ns[0]));
      if !FoundEach(c, ns[1..]) {
        SpendsIsSteady(c, ns[0]);
      } else {
        SpendsEachIsSteady(c, ns[1..]);
      }
    }
  }

  lemma {:induction false} SpendsAtIsSteady(c: Chain, es: seq<Entry>)
    requires c.receiver != "" && HarmlessAt(c, es) && SpendsAt(c, es)
    ensures SteadyEntries(c, es, RepairEntries(c, es))
    decreases es, 0
  {
    hide Keeps, Replaced, Spends, Steady, Repair, Found, Harmless;
    FoundAtIsRepaired(c, es);
    if FoundAt(c, es) {
      assert es decreases to es[0];
      if es[0].test.Cond? { RepairReplaces(c, es[0].test.node); }
      SpendsIsSteady(c, es[0].body);
      SpendsAtIsSteady(c, es[1..]);
      assert RepairEntries(c, es)[1..] == RepairEntries(c, es[1..]);
    }
  }

  // ----- the five shapes -----

  predicate FoundIsBodies(c: Chain, es: seq<Entry>) {
    es != [] && ((es[0].test.IsType? && Found(c, es[0].body)) || FoundIsBodies(c, es[1..]))
  }

  ghost predicate SpendsIsBodies(c: Chain, es: seq<Entry>) {
    FoundIsBodies(c, es) ==>
      && (es[0].test.Cond? ==> Keeps(c.receiver, es[0].test.node))
      && (es[0].test.IsType? ==> Spends(c, es[0].body))
      && SpendsIsBodies(c, es[1..])
  }

  predicate NoneInIsBodies(c: Chain, es: seq<Entry>) {
    es != [] ==> (es[0].test.IsType? ==> NoneInLambdas(c, es[0].body)) && NoneInIsBodies(c, es[1..])
  }

  /** The searched parts of a site, one by one. */
  ghost predicate SpendsSite(c: Chain, n: Node, shape: Shape) {
    match (n, shape)
    case (If(_, thn, _), IfIs) => Spends(c, thn)
    case (If(_, thn, els), IfNotIs) => Spends(c, thn) && (els.Some? ==> Spends(c, els.value))
    case (If(cond, thn, _), Conjunction) => Keeps(c.receiver, cond) && Spends(c, thn)
    case (When(Some(_), es), WhenSubject) => SpendsIsBodies(c, es)
    case (When(None, es), WhenCondition) => es != [] ==> Spends(c, es[0].body)
    case _ => true
  }

  predicate NoneInSite(c: Chain, n: Node, shape: Shape) {
    match (n, shape)
    case (If(_, thn, _), IfIs) => NoneInLambdas(c, thn)
    case (If(_, thn, els), IfNotIs) => NoneInLambdas(c, thn) && (els.Some? ==> NoneInLambdas(c, els.value))
    case (If(cond, thn, _), Conjunction) => NoneInLambdas(c, cond) && NoneInLambdas(c, thn)
    case (When(Some(_), es), WhenSubject) => NoneInIsBodies(c, es)
    case (When(None, es), WhenCondition) => es != [] ==> NoneInLambdas(c, es[0].body)
    case _ => true
  }

  /** What a site asks of assignments to its receiver: there are none from the site on; or none
      before the last collected read, and no such read is in a lambda. */
  ghost predicate Settled(c: Chain, parent: Parent, n: Node, after: seq<Node>, shape: Shape) {
    || KeepsList(c.receiver, [n] + after)
    || (&& NoneInSite(c, n, shape) && (SearchesRest(parent, n) ==> NoneInLambdasIn(c, after))
        && if SearchesRest(parent, n) && FoundEach(c, after) then Keeps(c.receiver, n) && SpendsEach(c, after)
           else SpendsSite(c, n, shape))
  }

  lemma {:induction false} IsBodiesSteady(c: Chain, es: seq<Entry>)
    requires c.receiver != "" && HarmlessIsBodies(c, es) && SpendsIsBodies(c, es)
    ensures SteadyEntries(c, es, RepairIsBodies(c, es))
  {
    hide Keeps, Replaced, Spends, Steady, Repair, Found, Harmless;
    if FoundIsBodies(c, es) {
      ReplacedTestSame(c, es[0].test);
      if es[0].test.IsType? { SpendsIsSteady(c, es[0].body); }
      SteadySame(c, es[0].body);
      IsBodiesSteady(c, es[1..]);
      assert RepairIsBodies(c, es)[1..] == RepairIsBodies(c, es[1..]);
    } else {
      IsBodiesStay(c, es);
    }
  }

  lemma SteadySame(c: Chain, n: Node)
    ensures Steady(c, n, n)
  {
  }

  lemma {:induction false} IsBodiesStay(c: Chain, es: seq<Entry>)
    requires !FoundIsBodies(c, es)
    ensures RepairIsBodies(c, es) == es
  {
    hide Repair, Found;
    if es != [] {
      FoundIsRepaired(c, es[0].body);
      IsBodiesStay(c, es[1..]);
    }
  }

  lemma {:induction false} IsBodiesLambdas(c: Chain, es: seq<Entry>)
    requires NoneInIsBodies(c, es) && UnusedEntries(c.local, es)
    ensures LambdasUnusedAt(c.local, RepairIsBodies(c, es))
    decreases es
  {
    hide Repair, LambdasUnused, NoneInLambdas, Unused;
    if es != [] {
      assert es decreases to es[0];
      if es[0].test.Cond? { UnusedLambdas(c.local, es[0].test.node); }
      if es[0].test.IsType? { LambdasStay(c, es[0].body); }
      UnusedLambdas(c.local, es[0].body);
      IsBodiesLambdas(c, es[1..]);
      assert RepairIsBodies(c, es)[1..] == RepairIsBodies(c, es[1..]);
    }
  }

  /** The rewritten site is steady. */
  lemma SiteIsSteady(c: Chain, n: Node, shape: Shape)
    requires c.receiver != "" && Analyse(n) == Some(Candidate(c.receiver, c.property, shape))
    requires HarmlessSite(c, n, shape) && SpendsSite(c, n, shape)
    ensures Steady(c, n, RepairSite(c, n, shape))
  {
    match n {
      case If(_, _, _) => IfIsSteady(c, n, shape);
      case When(Some(_), es) => SubjectIsSteady(c, n);
      case When(None, es) => ConditionIsSteady(c, n);
      case _ =>
    }
  }

  lemma IfIsSteady(c: Chain, n: Node, shape: Shape)
    requires c.receiver != "" && n.If? && Analyse(n) == Some(Candidate(c.receiver, c.property, shape))
    requires HarmlessSite(c, n, shape) && SpendsSite(c, n, shape)
    ensures Steady(c, n, RepairSite(c, n, shape))
  {
    hide Spends, Repair, Harmless, SteadyList, SteadyEntries, ReplacedList, ReplacedEntries, KeepsList, KeepsEntries;
    SpendsIsSteady(c, n.thn);
    if shape == Conjunction {
      RepairReplaces(c, n.cond);
    } else {
      assert Replaced(c, n.cond.operand, Name(c.local));
      ReadKeeps(c, n.cond);
      if n.els.Some? && shape == IfNotIs { SpendsIsSteady(c, n.els.value); }
    }
    if n.els.Some? { SteadySame(c, n.els.value); }
  }

  lemma ReadKeeps(c: Chain, test: Node)
    requires test.Is? && test.operand == c.Read()
    ensures Keeps(c.receiver, test)
  {
    assert Keeps(c.receiver, c.Read().target) && Keeps(c.receiver, c.Read());
  }

  lemma SubjectIsSteady(c: Chain, n: Node)
    requires c.receiver != "" && n.When? && n.subject.Some?
    requires Analyse(n) == Some(Candidate(c.receiver, c.property, WhenSubject))
    requires HarmlessIsBodies(c, n.entries) && SpendsIsBodies(c, n.entries)
    ensures Steady(c, n, RepairSite(c, n, WhenSubject))
  {
    hide SpendsIsBodies, HarmlessIsBodies, RepairIsBodies, SteadyEntries, ReplacedEntries, KeepsEntries;
    IsBodiesSteady(c, n.entries);
    assert Replaced(c, c.Read(), Name(c.local));
    assert Keeps(c.receiver, c.Read().target) && Keeps(c.receiver, c.Read());
  }

  lemma ConditionIsSteady(c: Chain, n: Node)
    requires c.receiver != "" && n.When? && n.subject.None?
    requires Analyse(n) == Some(Candidate(c.receiver, c.property, WhenCondition))
    requires HarmlessSite(c, n, WhenCondition) && SpendsSite(c, n, WhenCondition)
    ensures Steady(c, n, RepairSite(c, n, WhenCondition))
  {
    hide Spends, Repair, Harmless, SteadyList;
    var es, m := n.entries, RepairSite(c, n, WhenCondition);
    SpendsIsSteady(c, es[0].body);
    var test := es[0].test.node;
    assert Replaced(c, test.operand, Name(c.local));
    ReadKeeps(c, test);
    assert ReplacedTest(c, es[0].test, m.entries[0].test);
    assert m.entries[1..] == es[1..];
    assert SteadyEntries(c, es[1..], es[1..]);
  }

  /** And its lambdas do not use the local. */
  lemma SiteLambdas(c: Chain, n: Node, shape: Shape)
    requires Analyse(n) == Some(Candidate(c.receiver, c.property, shape))
    requires NoneInSite(c, n, shape) && Unused(c.local, n)
    ensures LambdasUnused(c.local, RepairSite(c, n, shape))
  {
    hide NoneInLambdas, Repair;
    UnusedLambdas(c.local, n);
    match n {
      case If(cond, thn, els) =>
        LambdasStay(c, thn);
        if shape == Conjunction { LambdasStay(c, cond); } else { assert LambdasUnused(c.local, Name(c.local)); }
        if shape == IfNotIs && els.Some? { LambdasStay(c, els.value); }
      case When(Some(_), es) => IsBodiesLambdas(c, es);
      case When(None, es) =>
        var m := RepairSite(c, n, shape);
        LambdasStay(c, es[0].body);
        assert m.entries[1..] == es[1..] && LambdasUnusedAt(c.local, es);
        assert LambdasUnused(c.local, Name(c.local)) && LambdasUnused(c.local, m.entries[0].test.node);
      case _ =>
    }
  }

  /** The site and the statements after it. */
  lemma BlockIsSteady(c: Chain, parent: Parent, n: Node, shape: Shape, after: seq<Node>)
    requires c.receiver != "" && Analyse(n) == Some(Candidate(c.receiver, c.property, shape))
    requires HarmlessSite(c, n, shape) && (SearchesRest(parent, n) ==> HarmlessEach(c, after))
    requires Settled(c, parent, n, after, shape) && !KeepsList(c.receiver, [n] + after)
    requires UnusedList(c.local, [n] + after) && !n.Val?
    requires Replaced(c, n, RepairSite(c, n, shape)) && !RepairSite(c, n, shape).Val?
    ensures var ms := [RepairSite(c, n, shape)] + RepairRest(c, parent, n, after);
      SteadyList(c, [n] + after, ms) && LambdasUnusedIn(c.local, ms)
  {
    hide Replaced, Analyse, RepairSite, HarmlessSite, NoneInSite, SpendsSite, Steady, Keeps, KeepsList, Unused, LambdasUnused;
    var site, rest := RepairSite(c, n, shape), RepairRest(c, parent, n, after);
    var ns, ms := [n] + after, [site] + rest;
    assert ns[1..] == after && ms[1..] == rest;
    SiteLambdas(c, n, shape);
    RestLambdas(c, parent, n, after);
    FoundEachIsRepaired(c, after);
    if SearchesRest(parent, n) && FoundEach(c, after) {
      SpendsEachIsSteady(c, after);
    } else {
      SiteIsSteady(c, n, shape);
    }
  }

  lemma RestLambdas(c: Chain, parent: Parent, n: Node, after: seq<Node>)
    requires UnusedList(c.local, after) && (SearchesRest(parent, n) ==> NoneInLambdasIn(c, after))
    ensures LambdasUnusedIn(c.local, RepairRest(c, parent, n, after))
  {
    hide UnusedList, NoneInLambdasIn, LambdasUnusedIn;
    if SearchesRest(parent, n) { LambdasStayEach(c, after); } else { UnusedLambdasIn(c.local, after); }
  }
}
