/** The retained-Kotlin smart-cast repair: which shapes are recognised, which reads are
    collected, and the rewritten statements. */
module SmartCast {
  import opened Options
  import opened Kotlin
  import opened SmartCastSimulation

  datatype Shape = IfIs | IfNotIs | WhenSubject | WhenCondition | Conjunction

  /** A site is recognised even where the writer cannot repair it: the owner must then stay. */
  datatype Site = Candidate(receiver: string, property: string, shape: Shape) | Unrepairable(shape: Shape)

  // ----- what the analyser reads off a node -----

  /** A plain two-name navigation. */
  predicate IsChain(n: Node) {
    n.Nav? && n.target.Name?
  }

  /** Every identifier in the subtree, whatever it names. */
  function Identifiers(n: Node): set<string>
    decreases n, 0
  {
    match n
    case Name(x) => {x}
    case Nav(t, p) => Identifiers(t) + {p}
    case Is(e, ty, _) => Identifiers(e) + {ty}
    case And(a, b) => Identifiers(a) + Identifiers(b)
    case Call(f, a) => Identifiers(f) + Identifiers(a)
    case Log(a) => Identifiers(a)
    case Lambda(p, ss) => (if p.Some? then {p.value} else {}) + IdentifiersOf(ss)
    case Block(ss) => IdentifiersOf(ss)
    case Val(x, e) => {x} + Identifiers(e)
    case Assign(x, e) => {x} + Identifiers(e)
    case If(e, t, f) => Identifiers(e) + Identifiers(t) + (if f.Some? then Identifiers(f.value) else {})
    case When(s, es) => (if s.Some? then Identifiers(s.value) else {}) + EntryIdentifiers(es)
    case For(x, e, b) => {x} + Identifiers(e) + Identifiers(b)
    case Try(b, x, h) => Identifiers(b) + {x} + Identifiers(h)
    case Return(e) => Identifiers(e)
    case Throw(e) => Identifiers(e)
    case _ => {}
  }

  function IdentifiersOf(ns: seq<Node>): set<string>
    decreases ns, 0
  {
    if ns == [] then {} else Identifiers(ns[0]) + IdentifiersOf(ns[1..])
  }

  function EntryIdentifiers(es: seq<Entry>): set<string>
    decreases es, 0
  {
    if es == [] then {} else
    assert es decreases to es[0];
    (if es[0].test.Cond? then Identifiers(es[0].test.node) else if es[0].test.IsType? then {es[0].test.ty} else {})
    + Identifiers(es[0].body) + EntryIdentifiers(es[1..])
  }

  /** The test for "declares the receiver": a declaration is searched with its initializer,
      a lambda by its written parameters only, and no other binder counts. */
  predicate Declares(n: Node, name: string) {
    match n
    case Val(x, e) => name != "" && (name == x || name in Identifiers(e))
    case Lambda(p, _) => name != "" && p == Some(name)
    case _ => false
  }

  /** A branch that leaves the enclosing function or loop by its last statement. */
  predicate AlwaysExits(n: Node)
    decreases n
  {
    match n
    case Return(_) => true
    case Throw(_) => true
    case Break => true
    case Continue => true
    case Block(ss) => ss != [] && AlwaysExits(ss[|ss| - 1])
    case _ => false
  }

  /** The operands of a conjunction, left to right. */
  function Operands(n: Node): (r: seq<Node>)
    ensures r != []
  {
    if n.And? then Operands(n.left) + Operands(n.right) else [n]
  }

  predicate NarrowingTest(n: Node) {
    n.Is? && !n.negated && IsChain(n.operand)
  }

  function FirstTest(ops: seq<Node>): (r: Option<nat>)
    ensures r.Some? ==> r.value < |ops| && NarrowingTest(ops[r.value]) && forall j :: 0 <= j < r.value ==> !NarrowingTest(ops[j])
  {
    if ops == [] then None
    else if NarrowingTest(ops[0]) then Some(0)
    else var i := FirstTest(ops[1..]); if i.None? then None else Some(i.value + 1)
  }

  function SiteOf(chain: Node, shape: Shape, supported: bool): Site {
    if IsChain(chain) && supported then Candidate(chain.target.name, chain.property, shape)
    else Unrepairable(shape)
  }

  /** A positive `is` anywhere in a condition. */
  predicate Tests(n: Node)
    decreases n, 0
  {
    match n
    case Is(e, _, neg) => !neg || Tests(e)
    case Nav(t, _) => Tests(t)
    case And(a, b) => Tests(a) || Tests(b)
    case Call(f, a) => Tests(f) || Tests(a)
    case Log(a) => Tests(a)
    case Lambda(_, ss) => TestsIn(ss)
    case Block(ss) => TestsIn(ss)
    case Val(_, e) => Tests(e)
    case Assign(_, e) => Tests(e)
    case If(e, t, f) => Tests(e) || Tests(t) || (f.Some? && Tests(f.value))
    case When(s, es) => (s.Some? && Tests(s.value)) || TestsAt(es)
    case For(_, e, b) => Tests(e) || Tests(b)
    case Try(b, _, h) => Tests(b) || Tests(h)
    case Return(e) => Tests(e)
    case Throw(e) => Tests(e)
    case _ => false
  }

  predicate TestsIn(ns: seq<Node>)
    decreases ns, 0
  {
    ns != [] && (Tests(ns[0]) || TestsIn(ns[1..]))
  }

  predicate TestsAt(es: seq<Entry>)
    decreases es, 0
  {
    es != [] &&
      assert es decreases to es[0];
      ((es[0].test.Cond? && Tests(es[0].test.node)) || Tests(es[0].body) || TestsAt(es[1..]))
  }

  /** The smart-cast site a control-flow node is, if it is one. */
  function Analyse(n: Node): Option<Site> {
    match n
    case If(cond, thn, els) =>
      if cond.Is? then
        Some(SiteOf(cond.operand, if cond.negated then IfNotIs else IfIs,
                    !cond.negated || els.Some? || AlwaysExits(thn)))
      else if cond.And? then
        var ops := Operands(cond);
        var i := FirstTest(ops);
        if i.None? then None else Some(SiteOf(ops[i.value].operand, Conjunction, i.value == 0))
      else None
    case When(Some(subject), entries) =>
      if exists i :: 0 <= i < |entries| && entries[i].test.IsType? then Some(SiteOf(subject, WhenSubject, true))
      else None
    case When(None, entries) =>
      if entries == [] then None
      else
        var first := entries[0].test;
        if first.Cond? && first.node.Is? && !first.node.negated then
          Some(SiteOf(first.node.operand, WhenCondition, true))
        else if exists i :: 1 <= i < |entries| && entries[i].test.Cond? && Tests(entries[i].test.node) then
          Some(Unrepairable(WhenCondition))
        else None
    case _ => None
  }

  // ----- which reads are collected -----

  /** `n` with every collected read of the chain written as the local. */
  function Repair(c: Chain, n: Node): Node
    decreases n, 0
  {
    if Declares(n, c.receiver) then n
    else if n == c.Read() then Name(c.local)
    else match n
      case Nav(t, p) => Nav(Repair(c, t), p)
      case Is(e, ty, neg) => Is(Repair(c, e), ty, neg)
      case And(a, b) => And(Repair(c, a), Repair(c, b))
      case Call(f, a) => Call(Repair(c, f), Repair(c, a))
      case Log(a) => Log(Repair(c, a))
      case Lambda(p, ss) => Lambda(p, RepairEach(c, ss))
      case Block(ss) => Block(RepairUntil(c, ss))
      case Val(x, e) => Val(x, Repair(c, e))
      case Assign(x, e) => Assign(x, Repair(c, e))
      case If(e, t, f) => If(Repair(c, e), Repair(c, t), if f.Some? then Some(Repair(c, f.value)) else None)
      case When(s, es) => When(if s.Some? then Some(Repair(c, s.value)) else None, RepairEntries(c, es))
      case For(x, e, b) => For(x, Repair(c, e), Repair(c, b))
      case Try(b, x, h) => Try(Repair(c, b), x, Repair(c, h))
      case Return(e) => Return(Repair(c, e))
      case Throw(e) => Throw(Repair(c, e))
      case _ => n
  }

  /** Inside a block a declaration of the receiver ends the region. */
  function RepairUntil(c: Chain, ns: seq<Node>): seq<Node>
    decreases ns, 0
  {
    if ns == [] || Declares(ns[0], c.receiver) then ns
    else [Repair(c, ns[0])] + RepairUntil(c, ns[1..])
  }

  function RepairEntries(c: Chain, es: seq<Entry>): seq<Entry>
    decreases es, 0
  {
    if es == [] then [] else
    assert es decreases to es[0];
    var test := if es[0].test.Cond? then Cond(Repair(c, es[0].test.node)) else es[0].test;
    [Entry(test, Repair(c, es[0].body))] + RepairEntries(c, es[1..])
  }

  /** The statements of a lambda, and the siblings after an early exit, are searched one by
      one: a declaration among them hides itself only. */
  function RepairEach(c: Chain, ns: seq<Node>): seq<Node>
    decreases ns, 0
  {
    if ns == [] then [] else [Repair(c, ns[0])] + RepairEach(c, ns[1..])
  }

  /** A `when` subject narrows the bodies of its `is` entries only. */
  function RepairIsBodies(c: Chain, es: seq<Entry>): seq<Entry> {
    if es == [] then []
    else [if es[0].test.IsType? then Entry(es[0].test, Repair(c, es[0].body)) else es[0]] + RepairIsBodies(c, es[1..])
  }

  /** The control-flow statement with its test and its dominated reads on the local. */
  function RepairSite(c: Chain, n: Node, shape: Shape): Node {
    match (n, shape)
    case (If(Is(_, ty, neg), thn, els), IfIs) => If(Is(Name(c.local), ty, neg), Repair(c, thn), els)
    case (If(Is(_, ty, neg), thn, els), IfNotIs) =>
      If(Is(Name(c.local), ty, neg), Repair(c, thn), if els.Some? then Some(Repair(c, els.value)) else None)
    case (If(cond, thn, els), Conjunction) => If(Repair(c, cond), Repair(c, thn), els)
    case (When(Some(_), es), WhenSubject) => When(Some(Name(c.local)), RepairIsBodies(c, es))
    case (When(None, es), WhenCondition) =>
      if es != [] && es[0].test.Cond? && es[0].test.node.Is? then
        var test := es[0].test.node;
        When(None, [Entry(Cond(Is(Name(c.local), test.ty, test.negated)), Repair(c, es[0].body))] + es[1..])
      else n
    case _ => n
  }

  /** An early exit is a `!is` test without an `else`. */
  predicate NarrowsRest(n: Node) {
    n.If? && n.cond.Is? && n.cond.negated && n.els.None?
  }

  /** What the site is a statement of. */
  datatype Parent = InBlock | InLambda

  /** The statements after a site are searched after an early exit, but only in a block. */
  predicate SearchesRest(parent: Parent, n: Node) {
    parent.InBlock? && NarrowsRest(n)
  }

  function RepairRest(c: Chain, parent: Parent, n: Node, after: seq<Node>): seq<Node> {
    if SearchesRest(parent, n) then RepairEach(c, after) else after
  }

  /** The statements around a site after the repair. */
  function RepairBlock(c: Chain, parent: Parent, before: seq<Node>, n: Node, after: seq<Node>, shape: Shape): seq<Node> {
    before + [Val(c.local, c.Read()), RepairSite(c, n, shape)] + RepairRest(c, parent, n, after)
  }

  // ----- what the scan finds -----

  /** The descent comes upon a read of the chain. */
  predicate Found(c: Chain, n: Node)
    decreases n, 0
  {
    !Declares(n, c.receiver) && (
      n == c.Read()
      || match n
         case Nav(t, _) => Found(c, t)
         case Is(e, _, _) => Found(c, e)
         case And(a, b) => Found(c, a) || Found(c, b)
         case Call(f, a) => Found(c, f) || Found(c, a)
         case Log(a) => Found(c, a)
         case Lambda(_, ss) => FoundEach(c, ss)
         case Block(ss) => FoundUntil(c, ss)
         case Val(_, e) => Found(c, e)
         case Assign(_, e) => Found(c, e)
         case If(e, t, f) => Found(c, e) || Found(c, t) || (f.Some? && Found(c, f.value))
         case When(s, es) => (s.Some? && Found(c, s.value)) || FoundAt(c, es)
         case For(_, e, b) => Found(c, e) || Found(c, b)
         case Try(b, _, h) => Found(c, b) || Found(c, h)
         case Return(e) => Found(c, e)
         case Throw(e) => Found(c, e)
         case _ => false)
  }

  predicate FoundUntil(c: Chain, ns: seq<Node>)
    decreases ns, 0
  {
    ns != [] && !Declares(ns[0], c.receiver) && (Found(c, ns[0]) || FoundUntil(c, ns[1..]))
  }

  predicate FoundEach(c: Chain, ns: seq<Node>)
    decreases ns, 0
  {
    ns != [] && (Found(c, ns[0]) || FoundEach(c, ns[1..]))
  }

  predicate FoundAt(c: Chain, es: seq<Entry>)
    decreases es, 0
  {
    es != [] &&
      assert es decreases to es[0];
      ((es[0].test.Cond? && Found(c, es[0].test.node)) || Found(c, es[0].body) || FoundAt(c, es[1..]))
  }

  lemma {:induction false} FoundIsRepaired(c: Chain, n: Node)
    ensures Found(c, n) <==> Repair(c, n) != n
    decreases n, 1
  {
    if !Declares(n, c.receiver) && n != c.Read() {
      match n {
        case Nav(t, _) => FoundIsRepaired(c, t);
        case Is(e, _, _) => FoundIsRepaired(c, e);
        case And(a, b) => FoundIsRepaired(c, a); FoundIsRepaired(c, b);
        case Call(f, a) => FoundIsRepaired(c, f); FoundIsRepaired(c, a);
        case Log(a) => FoundIsRepaired(c, a);
        case Val(_, e) => FoundIsRepaired(c, e);
        case Assign(_, e) => FoundIsRepaired(c, e);
        case Return(e) => FoundIsRepaired(c, e);
        case Throw(e) => FoundIsRepaired(c, e);
        case Lambda(_, _) => FoundIsRepairedBelow(c, n);
        case Block(_) => FoundIsRepairedBelow(c, n);
        case If(_, _, _) => FoundIsRepairedBelow(c, n);
        case When(_, _) => FoundIsRepairedBelow(c, n);
        case For(_, _, _) => FoundIsRepairedBelow(c, n);
        case Try(_, _, _) => FoundIsRepairedBelow(c, n);
        case _ =>
      }
    }
  }

  lemma {:induction false} FoundIsRepairedBelow(c: Chain, n: Node)
    requires n.Lambda? || n.Block? || n.If? || n.When? || n.For? || n.Try?
    requires !Declares(n, c.receiver)
    ensures Found(c, n) <==> Repair(c, n) != n
    decreases n, 0
  {
    hide FoundEach, FoundUntil, FoundAt, RepairEach, RepairUntil, RepairEntries;
    match n {
      case Lambda(_, ss) => FoundEachIsRepaired(c, ss);
      case Block(ss) => FoundUntilIsRepaired(c, ss);
      case If(e, t, f) =>
        FoundIsRepaired(c, e); FoundIsRepaired(c, t);
        if f.Some? { FoundIsRepaired(c, f.value); }
      case When(s, es) =>
        if s.Some? { FoundIsRepaired(c, s.value); }
        FoundAtIsRepaired(c, es);
      case For(_, e, b) => FoundIsRepaired(c, e); FoundIsRepaired(c, b);
      case Try(b, _, h) => FoundIsRepaired(c, b); FoundIsRepaired(c, h);
    }
  }

  lemma {:induction false} FoundUntilIsRepaired(c: Chain, ns: seq<Node>)
    ensures FoundUntil(c, ns) <==> RepairUntil(c, ns) != ns
    decreases ns, 0
  {
    if ns != [] && !Declares(ns[0], c.receiver) {
      FoundIsRepaired(c, ns[0]);
      FoundUntilIsRepaired(c, ns[1..]);
      SameSplit(ns, RepairUntil(c, ns));
    }
  }

  lemma {:induction false} FoundEachIsRepaired(c: Chain, ns: seq<Node>)
    ensures FoundEach(c, ns) <==> RepairEach(c, ns) != ns
    decreases ns, 0
  {
    if ns != [] {
      FoundIsRepaired(c, ns[0]);
      FoundEachIsRepaired(c, ns[1..]);
      SameSplit(ns, RepairEach(c, ns));
    }
  }

  lemma {:induction false} FoundAtIsRepaired(c: Chain, es: seq<Entry>)
    ensures FoundAt(c, es) <==> RepairEntries(c, es) != es
    decreases es, 0
  {
    if es != [] {
      assert es decreases to es[0];
      if es[0].test.Cond? { FoundIsRepaired(c, es[0].test.node); }
      FoundIsRepaired(c, es[0].body);
      FoundAtIsRepaired(c, es[1..]);
      SameSplit(es, RepairEntries(c, es));
    }
  }

  /** Lists are equal where their heads and tails are. */
  lemma SameSplit<T>(xs: seq<T>, ys: seq<T>)
    requires xs != [] && ys != []
    ensures xs == ys <==> xs[0] == ys[0] && xs[1..] == ys[1..]
  {
    assert xs == [xs[0]] + xs[1..] && ys == [ys[0]] + ys[1..];
  }

  // ----- when all that is found may be replaced -----

  /** Below the binders the scan looks through, a loop variable, a caught error or a silent
      `it` of the receiver's name, nothing is found; nor is it behind a redeclaration among
      statements searched one by one. The condition ends where the search does. */
  predicate Harmless(c: Chain, n: Node)
    decreases n, 0
  {
    Declares(n, c.receiver) || n == c.Read()
    || match n
       case Nav(t, _) => Harmless(c, t)
       case Is(e, _, _) => Harmless(c, e)
       case And(a, b) => Harmless(c, a) && Harmless(c, b)
       case Call(f, a) => Harmless(c, f) && Harmless(c, a)
       case Log(a) => Harmless(c, a)
       case Lambda(p, ss) => if ParamName(p) == c.receiver then !FoundEach(c, ss) else HarmlessEach(c, ss)
       case Block(ss) => HarmlessUntil(c, ss)
       case Val(_, e) => Harmless(c, e)
       case Assign(_, e) => Harmless(c, e)
       case If(e, t, f) => Harmless(c, e) && Harmless(c, t) && (f.Some? ==> Harmless(c, f.value))
       case When(s, es) => (s.Some? ==> Harmless(c, s.value)) && HarmlessAt(c, es)
       case For(x, e, b) => Harmless(c, e) && if x == c.receiver then !Found(c, b) else Harmless(c, b)
       case Try(b, x, h) => Harmless(c, b) && if x == c.receiver then !Found(c, h) else Harmless(c, h)
       case Return(e) => Harmless(c, e)
       case Throw(e) => Harmless(c, e)
       case _ => true
  }

  predicate HarmlessUntil(c: Chain, ns: seq<Node>)
    decreases ns, 0
  {
    ns == [] || Declares(ns[0], c.receiver) || (Harmless(c, ns[0]) && HarmlessUntil(c, ns[1..]))
  }

  predicate HarmlessEach(c: Chain, ns: seq<Node>)
    decreases ns, 0
  {
    ns == []
    || (&& Harmless(c, ns[0])
        && if ns[0].Val? && ns[0].name == c.receiver then !FoundEach(c, ns[1..]) else HarmlessEach(c, ns[1..]))
  }

  predicate HarmlessAt(c: Chain, es: seq<Entry>)
    decreases es, 0
  {
    es == []
    || assert es decreases to es[0];
       (&& (es[0].test.Cond? ==> Harmless(c, es[0].test.node))
        && Harmless(c, es[0].body)
        && HarmlessAt(c, es[1..]))
  }

  predicate HarmlessIsBodies(c: Chain, es: seq<Entry>) {
    es != [] ==> (es[0].test.IsType? ==> Harmless(c, es[0].body)) && HarmlessIsBodies(c, es[1..])
  }

  /** The parts of a site that are searched. */
  predicate HarmlessSite(c: Chain, n: Node, shape: Shape) {
    match (n, shape)
    case (If(_, thn, _), IfIs) => Harmless(c, thn)
    case (If(_, thn, els), IfNotIs) => Harmless(c, thn) && (els.Some? ==> Harmless(c, els.value))
    case (If(cond, thn, _), Conjunction) => Harmless(c, cond) && Harmless(c, thn)
    case (When(Some(_), es), WhenSubject) => HarmlessIsBodies(c, es)
    case (When(None, es), WhenCondition) => es != [] ==> Harmless(c, es[0].body)
    case _ => true
  }

  lemma {:induction false} UnfoundIsHarmless(c: Chain, n: Node)
    requires !Found(c, n)
    ensures Harmless(c, n)
    decreases n, 0
  {
    if !Declares(n, c.receiver) {
      match n {
        case Nav(t, _) => UnfoundIsHarmless(c, t);
        case Is(e, _, _) => UnfoundIsHarmless(c, e);
        case And(a, b) => UnfoundIsHarmless(c, a); UnfoundIsHarmless(c, b);
        case Call(f, a) => UnfoundIsHarmless(c, f); UnfoundIsHarmless(c, a);
        case Log(a) => UnfoundIsHarmless(c, a);
        case Lambda(_, ss) => UnfoundEachIsHarmless(c, ss);
        case Block(ss) => UnfoundUntilIsHarmless(c, ss);
        case Val(_, e) => UnfoundIsHarmless(c, e);
        case Assign(_, e) => UnfoundIsHarmless(c, e);
        case If(e, t, f) =>
          UnfoundIsHarmless(c, e); UnfoundIsHarmless(c, t);
          if f.Some? { UnfoundIsHarmless(c, f.value); }
        case When(s, es) =>
          if s.Some? { UnfoundIsHarmless(c, s.value); }
          UnfoundAtIsHarmless(c, es);
        case For(_, e, b) => UnfoundIsHarmless(c, e); UnfoundIsHarmless(c, b);
        case Try(b, _, h) => UnfoundIsHarmless(c, b); UnfoundIsHarmless(c, h);
        case Return(e) => UnfoundIsHarmless(c, e);
        case Throw(e) => UnfoundIsHarmless(c, e);
        case _ =>
      }
    }
  }

  lemma {:induction false} UnfoundUntilIsHarmless(c: Chain, ns: seq<Node>)
    requires !FoundUntil(c, ns)
    ensures HarmlessUntil(c, ns)
    decreases ns, 0
  {
    if ns != [] && !Declares(ns[0], c.receiver) {
      UnfoundIsHarmless(c, ns[0]);
      UnfoundUntilIsHarmless(c, ns[1..]);
    }
  }

  lemma {:induction false} UnfoundEachIsHarmless(c: Chain, ns: seq<Node>)
    requires !FoundEach(c, ns)
    ensures HarmlessEach(c, ns)
    decreases ns, 0
  {
    if ns != [] {
      UnfoundIsHarmless(c, ns[0]);
      UnfoundEachIsHarmless(c, ns[1..]);
    }
  }

  lemma {:induction false} UnfoundAtIsHarmless(c: Chain, es: seq<Entry>)
    requires !FoundAt(c, es)
    ensures HarmlessAt(c, es)
    decreases es, 0
  {
    if es != [] {
      assert es decreases to es[0];
      if es[0].test.Cond? { UnfoundIsHarmless(c, es[0].test.node); }
      UnfoundIsHarmless(c, es[0].body);
      UnfoundAtIsHarmless(c, es[1..]);
    }
  }

  // ----- the scan makes allowed replacements exactly then -----

  /** Main result: whatever the descent collects is a read of the chain whose receiver still
      means the same variable, exactly if the code is harmless. */
  lemma {:induction false} RepairReplaces(c: Chain, n: Node)
    requires c.receiver != ""
    ensures Replaced(c, n, Repair(c, n)) <==> Harmless(c, n)
    decreases n, 1
  {
    FoundIsRepaired(c, n);
    if !Found(c, n) {
      UnfoundIsHarmless(c, n);
    } else if n != c.Read() {
      hide ReplacedList, ReplacedEntries;
      match n {
        case Nav(t, _) => RepairReplaces(c, t);
        case Is(e, _, _) => RepairReplaces(c, e);
        case And(a, b) => RepairReplaces(c, a); RepairReplaces(c, b);
        case Call(f, a) => RepairReplaces(c, f); RepairReplaces(c, a);
        case Log(a) => RepairReplaces(c, a);
        case Val(_, e) => RepairReplaces(c, e);
        case Assign(_, e) => RepairReplaces(c, e);
        case Return(e) => RepairReplaces(c, e);
        case Throw(e) => RepairReplaces(c, e);
        case Lambda(_, _) => RepairReplacesBelow(c, n);
        case Block(_) => RepairReplacesBelow(c, n);
        case If(_, _, _) => RepairReplacesBelow(c, n);
        case When(_, _) => RepairReplacesBelow(c, n);
        case For(_, _, _) => RepairReplacesBelow(c, n);
        case Try(_, _, _) => RepairReplacesBelow(c, n);
        case _ =>
      }
    }
  }

  lemma {:induction false} RepairReplacesBelow(c: Chain, n: Node)
    requires c.receiver != ""
    requires n.Lambda? || n.Block? || n.If? || n.When? || n.For? || n.Try?
    requires Found(c, n)
    ensures Replaced(c, n, Repair(c, n)) <==> Harmless(c, n)
    decreases n, 0
  {
    hide ReplacedList, ReplacedEntries;
    FoundIsRepaired(c, n);
    hide FoundEach, FoundUntil, FoundAt, RepairEach, RepairUntil, RepairEntries, HarmlessEach, HarmlessUntil, HarmlessAt;
    match n {
      case Lambda(_, ss) => FoundEachIsRepaired(c, ss); RepairEachReplaces(c, ss);
      case Block(ss) => RepairUntilReplaces(c, ss);
      case If(e, t, f) =>
        RepairReplaces(c, e); RepairReplaces(c, t);
        if f.Some? { RepairReplaces(c, f.value); }
      case When(s, es) =>
        if s.Some? { RepairReplaces(c, s.value); }
        RepairEntriesReplaces(c, es);
      case For(_, e, b) => RepairReplaces(c, e); RepairReplaces(c, b); FoundIsRepaired(c, b);
      case Try(b, _, h) => RepairReplaces(c, b); RepairReplaces(c, h); FoundIsRepaired(c, h);
    }
  }

  lemma {:induction false} RepairUntilReplaces(c: Chain, ns: seq<Node>)
    requires c.receiver != ""
    ensures ReplacedList(c, ns, RepairUntil(c, ns)) <==> HarmlessUntil(c, ns)
    decreases ns, 0
  {
    FoundUntilIsRepaired(c, ns);
    if !FoundUntil(c, ns) {
      UnfoundUntilIsHarmless(c, ns);
    } else {
      hide Replaced;
      RepairReplaces(c, ns[0]);
      RepairUntilReplaces(c, ns[1..]);
    }
  }

  /** The same for statements searched one by one. */
  lemma {:induction false} RepairEachReplaces(c: Chain, ns: seq<Node>)
    requires c.receiver != ""
    ensures ReplacedList(c, ns, RepairEach(c, ns)) <==> HarmlessEach(c, ns)
    decreases ns, 0
  {
    FoundEachIsRepaired(c, ns);
    if !FoundEach(c, ns) {
      UnfoundEachIsHarmless(c, ns);
    } else {
      hide Replaced;
      RepairReplaces(c, ns[0]);
      RepairEachReplaces(c, ns[1..]);
      FoundEachIsRepaired(c, ns[1..]);
    }
  }

  lemma {:induction false} RepairEntriesReplaces(c: Chain, es: seq<Entry>)
    requires c.receiver != ""
    ensures ReplacedEntries(c, es, RepairEntries(c, es)) <==> HarmlessAt(c, es)
    decreases es, 0
  {
    FoundAtIsRepaired(c, es);
    if !FoundAt(c, es) {
      UnfoundAtIsHarmless(c, es);
    } else {
      hide Replaced;
      assert es decreases to es[0];
      if es[0].test.Cond? { RepairReplaces(c, es[0].test.node); }
      RepairReplaces(c, es[0].body);
      RepairEntriesReplaces(c, es[1..]);
    }
  }

  lemma {:induction false} RepairIsBodiesReplaces(c: Chain, es: seq<Entry>)
    requires c.receiver != ""
    ensures ReplacedEntries(c, es, RepairIsBodies(c, es)) <==> HarmlessIsBodies(c, es)
  {
    if es != [] {
      hide Replaced;
      RepairReplaces(c, es[0].body);
      RepairIsBodiesReplaces(c, es[1..]);
      var fs := RepairIsBodies(c, es);
      SameSplit(es, fs);
      ReplacedTestSame(c, es[0].test);
      ReplacedSame(c, es[0].body);
      ReplacedEntriesSame(c, es[1..]);
    }
  }

  lemma ReplacedTestSame(c: Chain, t: Test)
    ensures ReplacedTest(c, t, t)
  {
    if t.Cond? { ReplacedSame(c, t.node); }
  }
}
