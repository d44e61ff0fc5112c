/** Which code a repaired test guards, and the shapes where the scan takes another variable, or
    another value, for the receiver. */
module SmartCastNarrowing {
  import opened Options
  import opened Kotlin
  import opened SmartCastSimulation
  import opened SmartCast
  import opened SmartCastSpent

  // ----- early exits -----

  /** A branch that always exits never completes normally. */
  lemma {:induction false} ExitsNeverFallThrough(fuel: nat, w: World, n: Node, env: Env, st: State)
    requires AlwaysExits(n)
    ensures !Eval(fuel, w, n, env, st).c.Normal?
    decreases n, 1
  {
    hide Eval;
    Unfold(fuel, w, n, env, st);
    if n.Block? {
      ListNeverFallsThrough(fuel, w, n.stmts, env, st);
    }
  }

  lemma {:induction false} ListNeverFallsThrough(fuel: nat, w: World, ns: seq<Node>, env: Env, st: State)
    requires ns != [] && AlwaysExits(ns[|ns| - 1])
    ensures !EvalList(fuel, w, ns, env, st).c.Normal?
    decreases ns, 0
  {
    hide Eval;
    var r := Eval(fuel, w, ns[0], env, st);
    if |ns| == 1 {
      ExitsNeverFallThrough(fuel, w, ns[0], env, st);
    } else if r.c.Normal? {
      if ns[0].Val? {
        ListNeverFallsThrough(fuel, w, ns[1..], env[ns[0].name := |r.st.store|], Alloc(r.st, r.c.v));
      } else {
        ListNeverFallsThrough(fuel, w, ns[1..], env, r.st);
      }
    }
  }

  /** Main result: behind a repaired early exit the local is an instance of the tested type, so
      the reads that now name it are smart cast. */
  lemma EarlyExitNarrows(c: Chain, fuel: nat, w: World, n: Node, env: Env, st: State)
    requires NarrowsRest(n) && Analyse(n) == Some(Candidate(c.receiver, c.property, IfNotIs))
    requires c.local in env && env[c.local] < |st.store|
    requires Eval(fuel, w, RepairSite(c, n, IfNotIs), env, st).c.Normal?
    ensures w.instance(Observe(st.store[env[c.local]]), n.cond.ty)
    ensures Eval(fuel, w, RepairSite(c, n, IfNotIs), env, st).st == st
  {
    hide Eval;
    var site := RepairSite(c, n, IfNotIs);
    Unfold(fuel, w, site, env, st);
    Unfold(fuel, w, site.cond, env, st);
    Unfold(fuel, w, Name(c.local), env, st);
    RepairExits(c, n.thn);
    ExitsNeverFallThrough(fuel, w, site.thn, env, st);
  }

  /** The scan keeps a branch's exit. */
  lemma {:induction false} RepairExits(c: Chain, n: Node)
    requires AlwaysExits(n)
    ensures AlwaysExits(Repair(c, n))
    decreases n
  {
    if n.Block? {
      RepairKeepsLast(c, n.stmts);
      var last := n.stmts[|n.stmts| - 1];
      if RepairUntil(c, n.stmts)[|n.stmts| - 1] != last {
        RepairExits(c, last);
      }
    }
  }

  lemma {:induction false} RepairKeepsLast(c: Chain, ns: seq<Node>)
    requires ns != []
    ensures |RepairUntil(c, ns)| == |ns|
    ensures var last := RepairUntil(c, ns)[|ns| - 1]; last == ns[|ns| - 1] || last == Repair(c, ns[|ns| - 1])
    decreases ns
  {
    if !Declares(ns[0], c.receiver) && |ns| > 1 {
      RepairKeepsLast(c, ns[1..]);
    }
  }

  // ----- another variable taken for the receiver -----

  function HP(): Chain {
    Chain("h", "p", "p")
  }

  /** Two objects with different properties. */
  function TwoObjects(): World {
    World((g, property, log) => if g == Ref(0) then Some(Num(0)) else Some(Num(1)), (g, ty) => true)
  }

  function LogRead(): Node {
    Log(Nav(Name("h"), "p"))
  }

  /** Reading the chain in a scope and logging it. */
  lemma LogReadRuns(fuel: nat, w: World, env: Env, st: State, g: Ground, v: Ground)
    requires "h" in env && env["h"] < |st.store| && st.store[env["h"]] == Plain(g)
    requires w.read(g, "p", st.log) == Some(v)
    ensures Eval(fuel, w, LogRead(), env, st) == Outcome(Normal(UnitValue()), State(st.store, st.log + [v]))
  {
    hide Eval;
    Unfold(fuel, w, LogRead(), env, st);
    Unfold(fuel, w, Nav(Name("h"), "p"), env, st);
    Unfold(fuel, w, Name("h"), env, st);
  }

  lemma LogLocalRuns(fuel: nat, w: World, env: Env, st: State, g: Ground)
    requires "p" in env && env["p"] < |st.store| && st.store[env["p"]] == Plain(g)
    ensures Eval(fuel, w, Log(Name("p")), env, st) == Outcome(Normal(UnitValue()), State(st.store, st.log + [g]))
  {
    hide Eval;
    Unfold(fuel, w, Log(Name("p")), env, st);
    Unfold(fuel, w, Name("p"), env, st);
  }

  /** A sibling that declares the receiver anew does not stop the search after an early exit:
      a read of the new object is replaced by the old object's property. */
  lemma RedeclaringSiblingIsMissed(fuel: nat)
    ensures var n := If(Is(HP().Read(), "T", true), Return(Lit(Unit)), None);
      var after := [Val("h", Lit(Ref(1))), LogRead()];
      var env, st := map["h" := 0], State([Plain(Ref(0))], []);
      && Analyse(n) == Some(Candidate("h", "p", IfNotIs)) && SearchesRest(InBlock, n) && !HarmlessEach(HP(), after)
      && EvalList(fuel, TwoObjects(), [n] + after, env, st).st.log == [Num(1)]
      && EvalList(fuel, TwoObjects(), RepairBlock(HP(), InBlock, [], n, after, IfNotIs), env, st).st.log == [Num(0)]
  {
    hide Eval, EvalList;
    var c, n := HP(), If(Is(HP().Read(), "T", true), Return(Lit(Unit)), None);
    var env, st := map["h" := 0], State([Plain(Ref(0))], []);
    var after := [Val("h", Lit(Ref(1))), LogRead()];
    var site := If(Is(Name("p"), "T", true), Return(Lit(Unit)), None);
    OwnReceiverShape();
    ExitShape();
    OriginalRun(fuel, n, after, env, st);
    RepairedRun(fuel, site, env, st);
    hide RepairEach, HarmlessEach, Repair;
    assert RepairBlock(c, InBlock, [], n, after, IfNotIs) == [Val("p", c.Read()), site, after[0], Log(Name("p"))];
  }

  lemma ExitShape()
    ensures var n := If(Is(HP().Read(), "T", true), Return(Lit(Unit)), None);
      && Analyse(n) == Some(Candidate("h", "p", IfNotIs)) && SearchesRest(InBlock, n)
      && RepairSite(HP(), n, IfNotIs) == If(Is(Name("p"), "T", true), Return(Lit(Unit)), None)
  {
    assert Repair(HP(), Return(Lit(Unit))) == Return(Lit(Unit));
  }

  lemma OriginalRun(fuel: nat, n: Node, after: seq<Node>, env: Env, st: State)
    requires n == If(Is(HP().Read(), "T", true), Return(Lit(Unit)), None) && after == [Val("h", Lit(Ref(1))), LogRead()]
    requires env == map["h" := 0] && st == State([Plain(Ref(0))], [])
    ensures EvalList(fuel, TwoObjects(), [n] + after, env, st).st.log == [Num(1)]
  {
    hide Eval;
    var w := TwoObjects();
    Unfold(fuel, w, n, env, st);
    Unfold(fuel, w, n.cond, env, st);
    Unfold(fuel, w, HP().Read(), env, st);
    Unfold(fuel, w, Name("h"), env, st);
    assert Eval(fuel, w, n, env, st) == Outcome(Normal(UnitValue()), st);
    Unfold(fuel, w, after[0], env, st);
    Unfold(fuel, w, Lit(Ref(1)), env, st);
    var env', st' := env["h" := 1], Alloc(st, Plain(Ref(1)));
    LogReadRuns(fuel, w, env', st', Ref(1), Num(1));
    assert ([n] + after)[1..] == after && after[1..] == [LogRead()];
    assert EvalList(fuel, w, [LogRead()], env', st').st.log == [Num(1)];
    assert EvalList(fuel, w, after, env, st).st.log == [Num(1)];
  }

  lemma RepairedRun(fuel: nat, site: Node, env: Env, st: State)
    requires site == If(Is(Name("p"), "T", true), Return(Lit(Unit)), None)
    requires env == map["h" := 0] && st == State([Plain(Ref(0))], [])
    ensures EvalList(fuel, TwoObjects(), [Val("p", HP().Read()), site, Val("h", Lit(Ref(1))), Log(Name("p"))], env, st).st.log == [Num(0)]
  {
    hide Eval;
    var w := TwoObjects();
    var ns := [Val("p", HP().Read()), site, Val("h", Lit(Ref(1))), Log(Name("p"))];
    Unfold(fuel, w, ns[0], env, st);
    Unfold(fuel, w, HP().Read(), env, st);
    Unfold(fuel, w, Name("h"), env, st);
    var env1, st1 := env["p" := 1], Alloc(st, Plain(Num(0)));
    Unfold(fuel, w, site, env1, st1);
    Unfold(fuel, w, site.cond, env1, st1);
    Unfold(fuel, w, Name("p"), env1, st1);
    assert Eval(fuel, w, site, env1, st1) == Outcome(Normal(UnitValue()), st1);
    Unfold(fuel, w, ns[2], env1, st1);
    Unfold(fuel, w, Lit(Ref(1)), env1, st1);
    var env2, st2 := env1["h" := 2], Alloc(st1, Plain(Ref(1)));
    LogLocalRuns(fuel, w, env2, st2, Num(0));
    assert ns[1..][0] == site && ns[1..][1..] == ns[2..] && ns[2..][1..] == [Log(Name("p"))];
    assert EvalList(fuel, w, [Log(Name("p"))], env2, st2).st.log == [Num(0)];
    assert EvalList(fuel, w, ns[2..], env1, st1).st.log == [Num(0)];
    assert EvalList(fuel, w, ns[1..], env1, st1).st.log == [Num(0)];
  }

  /** A test and a loop of one round over a variable of the receiver's name. */
  function LoopSite(test: Node, shown: Node): Node {
    If(Is(test, "T", false), For("h", Lit(Num(1)), Log(shown)), None)
  }

  /** A loop variable of the receiver's name is looked through. */
  lemma LoopBinderIsMissed(fuel: nat)
    ensures var n := LoopSite(HP().Read(), HP().Read());
      var env, st := map["h" := 0], State([Plain(Ref(0))], []);
      && Analyse(n) == Some(Candidate("h", "p", IfIs)) && !HarmlessSite(HP(), n, IfIs)
      && EvalList(fuel, TwoObjects(), [n], env, st).st.log == [Num(1)]
      && EvalList(fuel, TwoObjects(), RepairBlock(HP(), InBlock, [], n, [], IfIs), env, st).st.log == [Num(0)]
  {
    hide *;
    LoopSiteShape();
    LoopLogsRound(fuel);
    LoopLogsOuter(fuel);
  }

  lemma LoopSiteShape()
    ensures var n := LoopSite(HP().Read(), HP().Read());
      && Analyse(n) == Some(Candidate("h", "p", IfIs)) && !HarmlessSite(HP(), n, IfIs)
      && RepairBlock(HP(), InBlock, [], n, [], IfIs) == [Val("p", HP().Read()), LoopSite(Name("p"), Name("p"))]
  {
    assert Repair(HP(), LogRead()) == Log(Name("p"));
    assert Found(HP(), HP().Read()) && Found(HP(), LogRead());
  }

  lemma LoopLogsRound(fuel: nat)
    ensures EvalList(fuel, TwoObjects(), [LoopSite(HP().Read(), HP().Read())], map["h" := 0], State([Plain(Ref(0))], [])).st.log == [Num(1)]
  {
    hide Eval;
    var w, env, st := TwoObjects(), map["h" := 0], State([Plain(Ref(0))], []);
    var n := LoopSite(HP().Read(), HP().Read());
    Unfold(fuel, w, n, env, st);
    Unfold(fuel, w, n.cond, env, st);
    Unfold(fuel, w, HP().Read(), env, st);
    Unfold(fuel, w, Name("h"), env, st);
    LogReadRuns(fuel, w, env["h" := 1], Alloc(st, Plain(Num(1))), Num(1), Num(1));
    OneRound(fuel, w, LogRead(), env, st, Num(1));
  }

  lemma LoopLogsOuter(fuel: nat)
    ensures EvalList(fuel, TwoObjects(), [Val("p", HP().Read()), LoopSite(Name("p"), Name("p"))], map["h" := 0], State([Plain(Ref(0))], [])).st.log == [Num(0)]
  {
    hide Eval;
    var w, env, st := TwoObjects(), map["h" := 0], State([Plain(Ref(0))], []);
    var env', st' := env["p" := 1], Alloc(st, Plain(Num(0)));
    var site := LoopSite(Name("p"), Name("p"));
    Unfold(fuel, w, Val("p", HP().Read()), env, st);
    Unfold(fuel, w, HP().Read(), env, st);
    Unfold(fuel, w, Name("h"), env, st);
    Unfold(fuel, w, site, env', st');
    Unfold(fuel, w, site.cond, env', st');
    Unfold(fuel, w, Name("p"), env', st');
    LogLocalRuns(fuel, w, env'["h" := 2], Alloc(st', Plain(Num(1))), Num(0));
    OneRound(fuel, w, Log(Name("p")), env', st', Num(0));
    assert [Val("p", HP().Read()), site][1..] == [site];
    assert EvalList(fuel, w, [site], env', st').st.log == [Num(0)];
  }

  /** A loop of one round over a body that logs `g`. */
  lemma OneRound(fuel: nat, w: World, body: Node, env: Env, st: State, g: Ground)
    requires st.log == []
    requires Eval(fuel, w, body, env["h" := |st.store|], Alloc(st, Plain(Num(1)))).c.Normal?
    requires Eval(fuel, w, body, env["h" := |st.store|], Alloc(st, Plain(Num(1)))).st.log == [g]
    ensures var r := Eval(fuel, w, For("h", Lit(Num(1)), body), env, st); r.c.Normal? && r.st.log == [g]
  {
    hide Eval;
    Unfold(fuel, w, For("h", Lit(Num(1)), body), env, st);
    Unfold(fuel, w, Lit(Num(1)), env, st);
    var round := Eval(fuel, w, body, env["h" := |st.store|], Alloc(st, Plain(Num(1))));
    assert EvalFor(fuel, w, "h", body, 0, env, round.st) == Outcome(Normal(UnitValue()), round.st);
    assert EvalFor(fuel, w, "h", body, 1, env, st) == Outcome(Normal(UnitValue()), round.st);
  }

  /** A test and a lambda called at once: it makes a receiver of its own and logs `shown`. */
  function LambdaSite(test: Node, shown: Node): Node {
    If(Is(test, "T", false), Call(Lambda(None, [Val("h", Lit(Ref(1))), Log(shown)]), Lit(Unit)), None)
  }

  /** The statements of a lambda are searched one by one, so a receiver declared among them does
      not stop the search either. */
  lemma LambdaRedeclarationIsMissed(fuel: nat)
    requires fuel > 0
    ensures var n := LambdaSite(HP().Read(), HP().Read());
      var env, st := map["h" := 0], State([Plain(Ref(0))], []);
      && Analyse(n) == Some(Candidate("h", "p", IfIs)) && !HarmlessSite(HP(), n, IfIs)
      && EvalList(fuel, TwoObjects(), [n], env, st).st.log == [Num(1)]
      && EvalList(fuel, TwoObjects(), RepairBlock(HP(), InBlock, [], n, [], IfIs), env, st).st.log == [Num(0)]
  {
    hide *;
    LambdaSiteShape();
    LambdaLogsOwn(fuel);
    LambdaLogsOuter(fuel);
  }

  lemma LambdaSiteShape()
    ensures var n := LambdaSite(HP().Read(), HP().Read());
      && Analyse(n) == Some(Candidate("h", "p", IfIs)) && !HarmlessSite(HP(), n, IfIs)
      && RepairBlock(HP(), InBlock, [], n, [], IfIs) == [Val("p", HP().Read()), LambdaSite(Name("p"), Name("p"))]
  {
    hide RepairEach, HarmlessEach, Repair, Harmless;
    CalledShape();
  }

  lemma CalledShape()
    ensures var thn := LambdaSite(HP().Read(), HP().Read()).thn;
      Repair(HP(), thn) == LambdaSite(Name("p"), Name("p")).thn && !Harmless(HP(), thn)
  {
    var ss := [Val("h", Lit(Ref(1))), LogRead()];
    var lambda := Lambda(None, ss);
    assert RepairEach(HP(), ss) == [ss[0], Log(Name("p"))] && !HarmlessEach(HP(), ss) by { OwnReceiverShape(); }
    hide RepairEach, HarmlessEach;
    assert Repair(HP(), lambda) == Lambda(None, [ss[0], Log(Name("p"))]) && !Harmless(HP(), lambda);
  }

  lemma LogReadShape()
    ensures Repair(HP(), LogRead()) == Log(Name("p")) && Found(HP(), LogRead())
  {
    assert Found(HP(), HP().Read());
  }

  lemma OwnReceiverShape()
    ensures var ss := [Val("h", Lit(Ref(1))), LogRead()];
      RepairEach(HP(), ss) == [ss[0], Log(Name("p"))] && !HarmlessEach(HP(), ss)
  {
    LogReadShape();
    var c, ss := HP(), [Val("h", Lit(Ref(1))), LogRead()];
    hide Harmless;
    assert ss[1..] == [LogRead()] && [LogRead()][1..] == [];
    assert Repair(c, ss[0]) == ss[0];
    assert RepairEach(c, [LogRead()]) == [Log(Name("p"))];
    assert RepairEach(c, ss) == [ss[0], Log(Name("p"))];
    assert FoundEach(c, [LogRead()]);
  }

  lemma LambdaLogsOwn(fuel: nat)
    requires fuel > 0
    ensures EvalList(fuel, TwoObjects(), [LambdaSite(HP().Read(), HP().Read())], map["h" := 0], State([Plain(Ref(0))], [])).st.log == [Num(1)]
  {
    hide Eval;
    var w, env, st := TwoObjects(), map["h" := 0], State([Plain(Ref(0))], []);
    Unfold(fuel, w, HP().Read(), env, st);
    Unfold(fuel, w, Name("h"), env, st);
    var inner, entered := env["it" := 1]["h" := 2], Alloc(Alloc(st, Plain(Unit)), Plain(Ref(1)));
    LogReadRuns(fuel - 1, w, inner, entered, Ref(1), Num(1));
    LambdaSiteRuns(fuel, HP().Read(), HP().Read(), env, st, Num(1));
  }

  lemma LambdaLogsOuter(fuel: nat)
    requires fuel > 0
    ensures EvalList(fuel, TwoObjects(), [Val("p", HP().Read()), LambdaSite(Name("p"), Name("p"))], map["h" := 0], State([Plain(Ref(0))], [])).st.log == [Num(0)]
  {
    hide Eval;
    var w, env, st := TwoObjects(), map["h" := 0], State([Plain(Ref(0))], []);
    var env', st' := env["p" := 1], Alloc(st, Plain(Num(0)));
    Unfold(fuel, w, Val("p", HP().Read()), env, st);
    Unfold(fuel, w, HP().Read(), env, st);
    Unfold(fuel, w, Name("h"), env, st);
    Unfold(fuel, w, Name("p"), env', st');
    var inner, entered := env'["it" := 2]["h" := 3], Alloc(Alloc(st', Plain(Unit)), Plain(Ref(1)));
    LogLocalRuns(fuel - 1, w, inner, entered, Num(0));
    LambdaSiteRuns(fuel, Name("p"), Name("p"), env', st', Num(0));
    var site := LambdaSite(Name("p"), Name("p"));
    assert [Val("p", HP().Read()), site][1..] == [site];
    assert EvalList(fuel, w, [site], env', st').st.log == [Num(0)];
  }

  /** The lambda's own receiver lives two cells on. */
  lemma LambdaSiteRuns(fuel: nat, test: Node, shown: Node, env: Env, st: State, logged: Ground)
    requires fuel > 0 && st.log == []
    requires var r := Eval(fuel, TwoObjects(), test, env, st); r.c.Normal? && r.st == st
    requires var entered := Alloc(Alloc(st, Plain(Unit)), Plain(Ref(1)));
      var r := Eval(fuel - 1, TwoObjects(), Log(shown), env["it" := |st.store|]["h" := |st.store| + 1], entered);
      r.c.Normal? && r.st.log == [logged]
    ensures var r := Eval(fuel, TwoObjects(), LambdaSite(test, shown), env, st); r.c.Normal? && r.st.log == [logged]
  {
    hide Eval;
    var w, n := TwoObjects(), LambdaSite(test, shown);
    Unfold(fuel, w, n, env, st);
    Unfold(fuel, w, n.cond, env, st);
    Unfold(fuel, w, n.thn, env, st);
    Unfold(fuel, w, n.thn.callee, env, st);
    Unfold(fuel, w, Lit(Unit), env, st);
    var ss := [Val("h", Lit(Ref(1))), Log(shown)];
    var inner, entered := env["it" := |st.store|], Alloc(st, Plain(Unit));
    Unfold(fuel - 1, w, ss[0], inner, entered);
    Unfold(fuel - 1, w, Lit(Ref(1)), inner, entered);
    var deep, own := inner["h" := |st.store| + 1], Alloc(entered, Plain(Ref(1)));
    assert ss[1..] == [Log(shown)];
    assert EvalList(fuel - 1, w, [Log(shown)], deep, own) == Eval(fuel - 1, w, Log(shown), deep, own);
    assert EvalList(fuel - 1, w, ss, inner, entered) == Eval(fuel - 1, w, Log(shown), deep, own);
  }

  // ----- a receiver that has moved on -----

  /** A branch that assigns the receiver before it logs `shown`. */
  function MovedSite(test: Node, shown: Node): Node {
    If(Is(test, "T", false), Block([Assign("h", Lit(Ref(1))), Log(shown)]), None)
  }

  /** An assignment does not stop the search: what is read behind it is the new object's property,
      and what the local holds the old one's. */
  lemma AssignedReceiverIsMissed(fuel: nat)
    ensures var n := MovedSite(HP().Read(), HP().Read());
      var env, st := map["h" := 0], State([Plain(Ref(0))], []);
      && Analyse(n) == Some(Candidate("h", "p", IfIs)) && HarmlessSite(HP(), n, IfIs) && !Settled(HP(), InBlock, n, [], IfIs)
      && EvalList(fuel, TwoObjects(), [n], env, st).st.log == [Num(1)]
      && EvalList(fuel, TwoObjects(), RepairBlock(HP(), InBlock, [], n, [], IfIs), env, st).st.log == [Num(0)]
  {
    hide *;
    MovedShape();
    MovedUnsettled();
    MovedLogsNew(fuel);
    MovedLogsOld(fuel);
  }

  lemma MovedShape()
    ensures var n := MovedSite(HP().Read(), HP().Read());
      && Analyse(n) == Some(Candidate("h", "p", IfIs)) && HarmlessSite(HP(), n, IfIs)
      && RepairBlock(HP(), InBlock, [], n, [], IfIs) == [Val("p", HP().Read()), MovedSite(Name("p"), Name("p"))]
  {
    hide RepairUntil, HarmlessUntil, Identifiers;
    MovedBody();
  }

  lemma MovedBody()
    ensures var ss := [Assign("h", Lit(Ref(1))), LogRead()];
      RepairUntil(HP(), ss) == [ss[0], Log(Name("p"))] && HarmlessUntil(HP(), ss)
  {
    LogReadShape();
    MovedHead();
    hide Repair, Harmless, Declares;
    var ss := [Assign("h", Lit(Ref(1))), LogRead()];
    assert ss[1..] == [LogRead()] && [LogRead()][1..] == [];
    assert RepairUntil(HP(), [LogRead()]) == [Log(Name("p"))] && HarmlessUntil(HP(), [LogRead()]);
  }

  lemma MovedHead()
    ensures var head := Assign("h", Lit(Ref(1)));
      !Declares(head, "h") && Repair(HP(), head) == head && Harmless(HP(), head)
    ensures !Declares(LogRead(), "h") && Harmless(HP(), LogRead())
  {
  }

  lemma MovedUnsettled()
    ensures !Settled(HP(), InBlock, MovedSite(HP().Read(), HP().Read()), [], IfIs)
  {
    hide Found, Identifiers;
    var c, n := HP(), MovedSite(HP().Read(), HP().Read());
    MovedUnspent(n.thn.stmts);
    MovedFound(n.thn);
    assert [n] + [] == [n] && !Keeps("h", n) && !KeepsList("h", [n]);
    assert !Spends(c, n.thn);
  }

  lemma MovedUnspent(ss: seq<Node>)
    requires ss == [Assign("h", Lit(Ref(1))), LogRead()]
    ensures FoundUntil(HP(), ss) && !SpendsUntil(HP(), ss) && !Keeps("h", Block(ss))
  {
    LogReadShape();
    assert ss[1..] == [LogRead()] && [LogRead()][1..] == [];
    assert FoundUntil(HP(), [LogRead()]);
    assert !Keeps("h", ss[0]) && !KeepsList("h", ss);
  }

  lemma MovedFound(thn: Node)
    requires thn.Block? && FoundUntil(HP(), thn.stmts)
    ensures Found(HP(), thn)
  {
  }

  lemma MovedLogsNew(fuel: nat)
    ensures EvalList(fuel, TwoObjects(), [MovedSite(HP().Read(), HP().Read())], map["h" := 0], State([Plain(Ref(0))], [])).st.log == [Num(1)]
  {
    hide Eval;
    var w, env, st := TwoObjects(), map["h" := 0], State([Plain(Ref(0))], []);
    Unfold(fuel, w, HP().Read(), env, st);
    Unfold(fuel, w, Name("h"), env, st);
    assert st.store[0 := Plain(Ref(1))] == [Plain(Ref(1))];
    LogReadRuns(fuel, w, env, State([Plain(Ref(1))], []), Ref(1), Num(1));
    MovedSiteRuns(fuel, HP().Read(), HP().Read(), env, st, Num(1));
  }

  lemma MovedLogsOld(fuel: nat)
    ensures EvalList(fuel, TwoObjects(), [Val("p", HP().Read()), MovedSite(Name("p"), Name("p"))], map["h" := 0], State([Plain(Ref(0))], [])).st.log == [Num(0)]
  {
    hide Eval;
    var w, env, st := TwoObjects(), map["h" := 0], State([Plain(Ref(0))], []);
    var env', st' := env["p" := 1], Alloc(st, Plain(Num(0)));
    var site := MovedSite(Name("p"), Name("p"));
    Unfold(fuel, w, Val("p", HP().Read()), env, st);
    Unfold(fuel, w, HP().Read(), env, st);
    Unfold(fuel, w, Name("h"), env, st);
    Unfold(fuel, w, Name("p"), env', st');
    LogLocalRuns(fuel, w, env', State(st'.store[0 := Plain(Ref(1))], []), Num(0));
    MovedSiteRuns(fuel, Name("p"), Name("p"), env', st', Num(0));
    assert [Val("p", HP().Read()), site][1..] == [site];
    assert EvalList(fuel, w, [site], env', st').st.log == [Num(0)];
  }

  lemma MovedSiteRuns(fuel: nat, test: Node, shown: Node, env: Env, st: State, logged: Ground)
    requires "h" in env && env["h"] == 0 < |st.store| && st.log == []
    requires var r := Eval(fuel, TwoObjects(), test, env, st); r.c.Normal? && r.st == st
    requires var r := Eval(fuel, TwoObjects(), Log(shown), env, State(st.store[0 := Plain(Ref(1))], [])); r.c.Normal? && r.st.log == [logged]
    ensures var r := Eval(fuel, TwoObjects(), MovedSite(test, shown), env, st); r.c.Normal? && r.st.log == [logged]
  {
    hide Eval;
    var w, n := TwoObjects(), MovedSite(test, shown);
    var ss, moved := n.thn.stmts, State(st.store[0 := Plain(Ref(1))], []);
    Unfold(fuel, w, n, env, st);
    Unfold(fuel, w, n.cond, env, st);
    Unfold(fuel, w, n.thn, env, st);
    Unfold(fuel, w, ss[0], env, st);
    Unfold(fuel, w, Lit(Ref(1)), env, st);
    assert ss[1..] == [Log(shown)];
    assert EvalList(fuel, w, [Log(shown)], env, moved) == Eval(fuel, w, Log(shown), env, moved);
    assert EvalList(fuel, w, ss, env, st) == Eval(fuel, w, Log(shown), env, moved);
  }

  /** A branch that leaves a lambda in `f`, to log `shown` later. */
  function KeptSite(test: Node, shown: Node): Node {
    If(Is(test, "T", false), Assign("f", Lambda(None, [Log(shown)])), None)
  }

  function MoveThenCall(): seq<Node> {
    [Assign("h", Lit(Ref(1))), Call(Name("f"), Lit(Unit))]
  }

  /** Nor need the assignment be searched: a lambda that took a collected read along is called
      once the receiver has been assigned. */
  lemma EscapedReadIsStale(fuel: nat)
    requires fuel > 0
    ensures var n, after := KeptSite(HP().Read(), HP().Read()), MoveThenCall();
      var env, st := map["h" := 0, "f" := 1], State([Plain(Ref(0)), Plain(Unit)], []);
      && Analyse(n) == Some(Candidate("h", "p", IfIs)) && HarmlessSite(HP(), n, IfIs) && !Settled(HP(), InBlock, n, after, IfIs)
      && EvalList(fuel, TwoObjects(), [n] + after, env, st).st.log == [Num(1)]
      && EvalList(fuel, TwoObjects(), RepairBlock(HP(), InBlock, [], n, after, IfIs), env, st).st.log == [Num(0)]
  {
    hide *;
    KeptShape();
    KeptUnsettled();
    KeptLogsNew(fuel);
    KeptLogsOld(fuel);
  }

  lemma KeptShape()
    ensures var n, after := KeptSite(HP().Read(), HP().Read()), MoveThenCall();
      && Analyse(n) == Some(Candidate("h", "p", IfIs)) && HarmlessSite(HP(), n, IfIs)
      && RepairBlock(HP(), InBlock, [], n, after, IfIs) == [Val("p", HP().Read()), KeptSite(Name("p"), Name("p"))] + after
  {
    LogReadShape();
    var lambda := Lambda(None, [LogRead()]);
    assert [LogRead()][1..] == [];
    assert RepairEach(HP(), [LogRead()]) == [Log(Name("p"))] && HarmlessEach(HP(), [LogRead()]);
    assert Repair(HP(), lambda) == Lambda(None, [Log(Name("p"))]) && Harmless(HP(), lambda);
  }

  lemma KeptUnsettled()
    ensures !Settled(HP(), InBlock, KeptSite(HP().Read(), HP().Read()), MoveThenCall(), IfIs)
  {
    hide Found, Identifiers, SpendsSite;
    var n, after := KeptSite(HP().Read(), HP().Read()), MoveThenCall();
    LogReadShape();
    assert FoundEach(HP(), [LogRead()]) && !NoneInLambdas(HP(), n.thn.rhs);
    hide FoundEach;
    assert ([n] + after)[1..] == after && !Keeps("h", after[0]) && !KeepsList("h", after);
  }

  lemma KeptLogsNew(fuel: nat)
    requires fuel > 0
    ensures EvalList(fuel, TwoObjects(), [KeptSite(HP().Read(), HP().Read())] + MoveThenCall(),
                     map["h" := 0, "f" := 1], State([Plain(Ref(0)), Plain(Unit)], [])).st.log == [Num(1)]
  {
    hide Eval, EvalList;
    var w, env, st := TwoObjects(), map["h" := 0, "f" := 1], State([Plain(Ref(0)), Plain(Unit)], []);
    Unfold(fuel, w, HP().Read(), env, st);
    Unfold(fuel, w, Name("h"), env, st);
    var kept := Closure(None, [LogRead()], env);
    var called := Alloc(State([Plain(Ref(1)), kept], []), Plain(Unit));
    assert st.store[1 := kept][0 := Plain(Ref(1))] == [Plain(Ref(1)), kept];
    LogReadRuns(fuel - 1, w, env["it" := 2], called, Ref(1), Num(1));
    KeptSiteRuns(fuel, HP().Read(), HP().Read(), env, st, Num(1));
  }

  lemma KeptLogsOld(fuel: nat)
    requires fuel > 0
    ensures EvalList(fuel, TwoObjects(), [Val("p", HP().Read()), KeptSite(Name("p"), Name("p"))] + MoveThenCall(),
                     map["h" := 0, "f" := 1], State([Plain(Ref(0)), Plain(Unit)], [])).st.log == [Num(0)]
  {
    hide Eval;
    var w, env, st := TwoObjects(), map["h" := 0, "f" := 1], State([Plain(Ref(0)), Plain(Unit)], []);
    var env', st' := env["p" := 2], Alloc(st, Plain(Num(0)));
    Unfold(fuel, w, Val("p", HP().Read()), env, st);
    Unfold(fuel, w, HP().Read(), env, st);
    Unfold(fuel, w, Name("h"), env, st);
    Unfold(fuel, w, Name("p"), env', st');
    var kept := Closure(None, [Log(Name("p"))], env');
    var called := Alloc(State([Plain(Ref(1)), kept, Plain(Num(0))], []), Plain(Unit));
    assert st'.store[1 := kept][0 := Plain(Ref(1))] == [Plain(Ref(1)), kept, Plain(Num(0))];
    LogLocalRuns(fuel - 1, w, env'["it" := 3], called, Num(0));
    KeptSiteRuns(fuel, Name("p"), Name("p"), env', st', Num(0));
    var ns := [Val("p", HP().Read()), KeptSite(Name("p"), Name("p"))] + MoveThenCall();
    assert ns[1..] == [KeptSite(Name("p"), Name("p"))] + MoveThenCall();
    hide EvalList;
    ValThenRest(fuel, w, ns, env, st);
  }

  lemma ValThenRest(fuel: nat, w: World, ns: seq<Node>, env: Env, st: State)
    requires ns != [] && ns[0].Val?
    ensures var r := Eval(fuel, w, ns[0], env, st);
      r.c.Normal? ==> EvalList(fuel, w, ns, env, st) == EvalList(fuel, w, ns[1..], env[ns[0].name := |r.st.store|], Alloc(r.st, r.c.v))
  {
    hide Eval;
  }

  /** The lambda is left in cell 1, the receiver assigned, and the lambda called. */
  lemma KeptSiteRuns(fuel: nat, test: Node, shown: Node, env: Env, st: State, logged: Ground)
    requires fuel > 0 && st.log == [] && |st.store| >= 2
    requires "h" in env && env["h"] == 0 && "f" in env && env["f"] == 1
    requires var r := Eval(fuel, TwoObjects(), test, env, st); r.c.Normal? && r.st == st
    requires var called := Alloc(State(st.store[1 := Closure(None, [Log(shown)], env)][0 := Plain(Ref(1))], []), Plain(Unit));
      var r := Eval(fuel - 1, TwoObjects(), Log(shown), env["it" := |st.store|], called); r.c.Normal? && r.st.log == [logged]
    ensures EvalList(fuel, TwoObjects(), [KeptSite(test, shown)] + MoveThenCall(), env, st).st.log == [logged]
  {
    hide Eval;
    var w, n, after := TwoObjects(), KeptSite(test, shown), MoveThenCall();
    var kept := Closure(None, [Log(shown)], env);
    var st1 := State(st.store[1 := kept], []);
    var st2 := State(st1.store[0 := Plain(Ref(1))], []);
    Unfold(fuel, w, n, env, st);
    Unfold(fuel, w, n.cond, env, st);
    Unfold(fuel, w, n.thn, env, st);
    Unfold(fuel, w, n.thn.rhs, env, st);
    assert Eval(fuel, w, n, env, st) == Outcome(Normal(UnitValue()), st1);
    Unfold(fuel, w, after[0], env, st1);
    Unfold(fuel, w, Lit(Ref(1)), env, st1);
    assert Eval(fuel, w, after[0], env, st1) == Outcome(Normal(UnitValue()), st2);
    Unfold(fuel, w, after[1], env, st2);
    Unfold(fuel, w, Name("f"), env, st2);
    Unfold(fuel, w, Lit(Unit), env, st2);
    var called := Alloc(st2, Plain(Unit));
    assert EvalList(fuel - 1, w, [Log(shown)], env["it" := |st.store|], called)
        == Eval(fuel - 1, w, Log(shown), env["it" := |st.store|], called);
    assert Eval(fuel, w, after[1], env, st2).st.log == [logged];
    assert ([n] + after)[1..] == after && after[1..] == [after[1]];
    assert EvalList(fuel, w, [after[1]], env, st2) == Eval(fuel, w, after[1], env, st2);
    assert EvalList(fuel, w, after, env, st1) == Eval(fuel, w, after[1], env, st2);
  }
}
