/** Which of the reads that may be replaced the scan finds. */
module SmartCastCoverage {
  import opened Options
  import opened Kotlin
  import opened SmartCastSimulation
  import opened SmartCast

  // ----- all the reads that may be replaced -----

  /** `n` with every read of the chain replaced whose receiver means what it means outside `n`. */
  function Full(c: Chain, n: Node): Node
    decreases n, 0
  {
    if n == c.Read() then Name(c.local)
    else match n
      case Nav(t, p) => Nav(Full(c, t), p)
      case Is(e, ty, neg) => Is(Full(c, e), ty, neg)
      case And(a, b) => And(Full(c, a), Full(c, b))
      case Call(f, a) => Call(Full(c, f), Full(c, a))
      case Log(a) => Log(Full(c, a))
      case Lambda(p, ss) => if ParamName(p) == c.receiver then n else Lambda(p, FullIn(c, ss))
      case Block(ss) => Block(FullIn(c, ss))
      case Val(x, e) => Val(x, Full(c, e))
      case Assign(x, e) => Assign(x, Full(c, e))
      case If(e, t, f) => If(Full(c, e), Full(c, t), if f.Some? then Some(Full(c, f.value)) else None)
      case When(s, es) => When(if s.Some? then Some(Full(c, s.value)) else None, FullAt(c, es))
      case For(x, e, b) => For(x, Full(c, e), if x == c.receiver then b else Full(c, b))
      case Try(b, x, h) => Try(Full(c, b), x, if x == c.receiver then h else Full(c, h))
      case Return(e) => Return(Full(c, e))
      case Throw(e) => Throw(Full(c, e))
      case _ => n
  }

  function FullIn(c: Chain, ns: seq<Node>): seq<Node>
    decreases ns, 0
  {
    if ns == [] then []
    else [Full(c, ns[0])] + if ns[0].Val? && ns[0].name == c.receiver then ns[1..] else FullIn(c, ns[1..])
  }

  function FullAt(c: Chain, es: seq<Entry>): seq<Entry>
    decreases es, 0
  {
    if es == [] then [] else
    assert es decreases to es[0];
    var test := if es[0].test.Cond? then Cond(Full(c, es[0].test.node)) else es[0].test;
    [Entry(test, Full(c, es[0].body))] + FullAt(c, es[1..])
  }

  /** It is an allowed replacement, and every other one is on the way to it. */
  lemma {:induction false} FullIsLargest(c: Chain, n: Node, m: Node)
    requires Replaced(c, n, m)
    ensures Replaced(c, m, Full(c, n))
    decreases n, 1
  {
    if n != c.Read() {
      if n.Nav? || n.Is? || n.Log? {
        FullIsLargestOne(c, n, m);
      } else if n.Val? || n.Assign? || n.Return? || n.Throw? {
        FullIsLargestStatement(c, n, m);
      } else if n.And? || n.Call? || n.If? {
        FullIsLargestMany(c, n, m);
      } else if n.For? || n.Try? {
        FullIsLargestBound(c, n, m);
      } else if n.Lambda? || n.Block? || n.When? {
        FullIsLargestListed(c, n, m);
      }
    }
  }

  lemma {:induction false} FullIsLargestOne(c: Chain, n: Node, m: Node)
    requires Replaced(c, n, m) && n != c.Read()
    requires n.Nav? || n.Is? || n.Log?
    ensures Replaced(c, m, Full(c, n))
    decreases n, 0
  {
    match n {
      case Nav(t, _) => ReplacedSame(c, t); FullIsLargest(c, t, m.target);
      case Is(e, _, _) => ReplacedSame(c, e); FullIsLargest(c, e, m.operand);
      case Log(a) => ReplacedSame(c, a); FullIsLargest(c, a, m.arg);
    }
  }

  lemma {:induction false} FullIsLargestStatement(c: Chain, n: Node, m: Node)
    requires Replaced(c, n, m)
    requires n.Val? || n.Assign? || n.Return? || n.Throw?
    ensures Replaced(c, m, Full(c, n))
    decreases n, 0
  {
    match n {
      case Val(_, e) => ReplacedSame(c, e); FullIsLargest(c, e, m.init);
      case Assign(_, e) => ReplacedSame(c, e); FullIsLargest(c, e, m.rhs);
      case Return(e) => ReplacedSame(c, e); FullIsLargest(c, e, m.result);
      case Throw(e) => ReplacedSame(c, e); FullIsLargest(c, e, m.error);
    }
  }

  lemma {:induction false} FullIsLargestMany(c: Chain, n: Node, m: Node)
    requires Replaced(c, n, m) && (n.And? || n.Call? || n.If?)
    ensures Replaced(c, m, Full(c, n))
    decreases n, 0
  {
    match n {
      case And(a, b) =>
        ReplacedSame(c, a); ReplacedSame(c, b);
        FullIsLargest(c, a, m.left); FullIsLargest(c, b, m.right);
      case Call(f, a) =>
        ReplacedSame(c, f); ReplacedSame(c, a);
        FullIsLargest(c, f, m.callee); FullIsLargest(c, a, m.arg);
      case If(e, t, f) =>
        ReplacedSame(c, e); ReplacedSame(c, t);
        FullIsLargest(c, e, m.cond); FullIsLargest(c, t, m.thn);
        if f.Some? { ReplacedSame(c, f.value); FullIsLargest(c, f.value, m.els.value); }
    }
  }

  lemma {:induction false} FullIsLargestBound(c: Chain, n: Node, m: Node)
    requires Replaced(c, n, m) && (n.For? || n.Try?)
    ensures Replaced(c, m, Full(c, n))
    decreases n, 0
  {
    match n {
      case For(x, e, b) =>
        ReplacedSame(c, e); ReplacedSame(c, b);
        FullIsLargest(c, e, m.count);
        if x != c.receiver { FullIsLargest(c, b, m.body); }
      case Try(b, x, h) =>
        ReplacedSame(c, b); ReplacedSame(c, h);
        FullIsLargest(c, b, m.body);
        if x != c.receiver { FullIsLargest(c, h, m.handler); }
    }
  }

  lemma {:induction false} FullIsLargestListed(c: Chain, n: Node, m: Node)
    requires Replaced(c, n, m) && (n.Lambda? || n.Block? || n.When?)
    ensures Replaced(c, m, Full(c, n))
    decreases n, 0
  {
    hide ReplacedList, ReplacedEntries;
    match n {
      case Lambda(p, ss) =>
        if ParamName(p) != c.receiver {
          ReplacedListSame(c, ss);
          FullInIsLargest(c, ss, m.stmts);
        }
      case Block(ss) =>
        ReplacedListSame(c, ss);
        FullInIsLargest(c, ss, m.stmts);
      case When(s, es) =>
        if s.Some? { ReplacedSame(c, s.value); FullIsLargest(c, s.value, m.subject.value); }
        ReplacedEntriesSame(c, es);
        FullAtIsLargest(c, es, m.entries);
    }
  }

  lemma {:induction false} FullInIsLargest(c: Chain, ns: seq<Node>, ms: seq<Node>)
    requires ReplacedList(c, ns, ms)
    ensures ReplacedList(c, ms, FullIn(c, ns))
    decreases ns, 0
  {
    if ns != [] {
      hide Replaced, Full;
      assert Replaced(c, ns[0], ms[0]) by { ReplacedSame(c, ns[0]); }
      KeepsValName(c, ns[0], ms[0]);
      FullIsLargest(c, ns[0], ms[0]);
      if ns[0].Val? && ns[0].name == c.receiver {
        assert ms[1..] == ns[1..];
      } else {
        assert ReplacedList(c, ns[1..], ms[1..]) by { ReplacedListSame(c, ns[1..]); }
        FullInIsLargest(c, ns[1..], ms[1..]);
      }
      assert FullIn(c, ns)[1..] == if ns[0].Val? && ns[0].name == c.receiver then ns[1..] else FullIn(c, ns[1..]);
    }
  }

  lemma KeepsValName(c: Chain, n: Node, m: Node)
    requires Replaced(c, n, m)
    ensures n.Val? <==> m.Val?
    ensures n.Val? ==> m.name == n.name
  {
  }

  lemma {:induction false} FullAtIsLargest(c: Chain, es: seq<Entry>, fs: seq<Entry>)
    requires ReplacedEntries(c, es, fs)
    ensures ReplacedEntries(c, fs, FullAt(c, es))
    decreases es, 0
  {
    if es != [] {
      hide Replaced, Full;
      assert es decreases to es[0];
      ReplacedTestSame(c, es[0].test);
      ReplacedSame(c, es[0].body);
      ReplacedEntriesSame(c, es[1..]);
      if es[0].test.Cond? { FullIsLargest(c, es[0].test.node, fs[0].test.node); }
      FullIsLargest(c, es[0].body, fs[0].body);
      FullAtIsLargest(c, es[1..], fs[1..]);
    }
  }

  // ----- when the scan finds them all -----

  /** Some read of the chain in `n` may be replaced. */
  predicate Readable(c: Chain, n: Node)
    decreases n, 0
  {
    n == c.Read()
    || match n
       case Nav(t, _) => Readable(c, t)
       case Is(e, _, _) => Readable(c, e)
       case And(a, b) => Readable(c, a) || Readable(c, b)
       case Call(f, a) => Readable(c, f) || Readable(c, a)
       case Log(a) => Readable(c, a)
       case Lambda(p, ss) => ParamName(p) != c.receiver && ReadableIn(c, ss)
       case Block(ss) => ReadableIn(c, ss)
       case Val(_, e) => Readable(c, e)
       case Assign(_, e) => Readable(c, e)
       case If(e, t, f) => Readable(c, e) || Readable(c, t) || (f.Some? && Readable(c, f.value))
       case When(s, es) => (s.Some? && Readable(c, s.value)) || ReadableAt(c, es)
       case For(x, e, b) => Readable(c, e) || (x != c.receiver && Readable(c, b))
       case Try(b, x, h) => Readable(c, b) || (x != c.receiver && Readable(c, h))
       case Return(e) => Readable(c, e)
       case Throw(e) => Readable(c, e)
       case _ => false
  }

  predicate ReadableIn(c: Chain, ns: seq<Node>)
    decreases ns, 0
  {
    ns != [] && (Readable(c, ns[0]) || (!(ns[0].Val? && ns[0].name == c.receiver) && ReadableIn(c, ns[1..])))
  }

  predicate ReadableAt(c: Chain, es: seq<Entry>)
    decreases es, 0
  {
    es != [] &&
      assert es decreases to es[0];
      ((es[0].test.Cond? && Readable(c, es[0].test.node)) || Readable(c, es[0].body) || ReadableAt(c, es[1..]))
  }

  /** No read that may be replaced stands in an initializer that mentions the receiver, nor in a
      block behind a `val` with such an initializer, or behind a lambda statement with a
      parameter of the receiver's name. */
  predicate InSight(c: Chain, n: Node)
    decreases n, 0
  {
    match n
    case Nav(t, _) => InSight(c, t)
    case Is(e, _, _) => InSight(c, e)
    case And(a, b) => InSight(c, a) && InSight(c, b)
    case Call(f, a) => InSight(c, f) && InSight(c, a)
    case Log(a) => InSight(c, a)
    case Lambda(p, ss) => ParamName(p) == c.receiver || InSightEach(c, ss)
    case Block(ss) => InSightUntil(c, ss)
    case Val(_, e) => if Declares(n, c.receiver) then !Readable(c, e) else InSight(c, e)
    case Assign(_, e) => InSight(c, e)
    case If(e, t, f) => InSight(c, e) && InSight(c, t) && (f.Some? ==> InSight(c, f.value))
    case When(s, es) => (s.Some? ==> InSight(c, s.value)) && InSightAt(c, es)
    case For(x, e, b) => InSight(c, e) && (x == c.receiver || InSight(c, b))
    case Try(b, x, h) => InSight(c, b) && (x == c.receiver || InSight(c, h))
    case Return(e) => InSight(c, e)
    case Throw(e) => InSight(c, e)
    case _ => true
  }

  predicate InSightUntil(c: Chain, ns: seq<Node>)
    decreases ns, 0
  {
    ns == []
    || if Declares(ns[0], c.receiver) then !ReadableIn(c, ns)
       else InSight(c, ns[0]) && InSightUntil(c, ns[1..])
  }

  predicate InSightEach(c: Chain, ns: seq<Node>)
    decreases ns, 0
  {
    ns == []
    || (InSight(c, ns[0]) && ((ns[0].Val? && ns[0].name == c.receiver) || InSightEach(c, ns[1..])))
  }

  predicate InSightAt(c: Chain, es: seq<Entry>)
    decreases es, 0
  {
    es == []
    || assert es decreases to es[0];
       (&& (es[0].test.Cond? ==> InSight(c, es[0].test.node))
        && InSight(c, es[0].body)
        && InSightAt(c, es[1..]))
  }

  lemma {:induction false} ReadableIsReplaced(c: Chain, n: Node)
    ensures Readable(c, n) <==> Full(c, n) != n
    decreases n, 1
  {
    if n != c.Read() {
      match n {
        case Nav(t, _) => ReadableIsReplaced(c, t);
        case Is(e, _, _) => ReadableIsReplaced(c, e);
        case And(a, b) => ReadableIsReplaced(c, a); ReadableIsReplaced(c, b);
        case Call(f, a) => ReadableIsReplaced(c, f); ReadableIsReplaced(c, a);
        case Log(a) => ReadableIsReplaced(c, a);
        case Val(_, e) => ReadableIsReplaced(c, e);
        case Assign(_, e) => ReadableIsReplaced(c, e);
        case Return(e) => ReadableIsReplaced(c, e);
        case Throw(e) => ReadableIsReplaced(c, e);
        case Lambda(_, _) => ReadableIsReplacedBelow(c, n);
        case Block(_) => ReadableIsReplacedBelow(c, n);
        case If(_, _, _) => ReadableIsReplacedBelow(c, n);
        case When(_, _) => ReadableIsReplacedBelow(c, n);
        case For(_, _, _) => ReadableIsReplacedBelow(c, n);
        case Try(_, _, _) => ReadableIsReplacedBelow(c, n);
        case _ =>
      }
    }
  }

  lemma {:induction false} ReadableIsReplacedBelow(c: Chain, n: Node)
    requires n.Lambda? || n.Block? || n.If? || n.When? || n.For? || n.Try?
    ensures Readable(c, n) <==> Full(c, n) != n
    decreases n, 0
  {
    hide FullIn, FullAt, ReadableIn, ReadableAt;
    match n {
      case Lambda(_, ss) => ReadableInIsReplaced(c, ss);
      case Block(ss) => ReadableInIsReplaced(c, ss);
      case If(e, t, f) =>
        ReadableIsReplaced(c, e); ReadableIsReplaced(c, t);
        if f.Some? { ReadableIsReplaced(c, f.value); }
      case When(s, es) =>
        if s.Some? { ReadableIsReplaced(c, s.value); }
        ReadableAtIsReplaced(c, es);
      case For(_, e, b) => ReadableIsReplaced(c, e); ReadableIsReplaced(c, b);
      case Try(b, _, h) => ReadableIsReplaced(c, b); ReadableIsReplaced(c, h);
    }
  }

  lemma {:induction false} ReadableInIsReplaced(c: Chain, ns: seq<Node>)
    ensures ReadableIn(c, ns) <==> FullIn(c, ns) != ns
    decreases ns, 0
  {
    if ns != [] {
      ReadableIsReplaced(c, ns[0]);
      ReadableInIsReplaced(c, ns[1..]);
      SameSplit(ns, FullIn(c, ns));
      assert FullIn(c, ns)[1..] == if ns[0].Val? && ns[0].name == c.receiver then ns[1..] else FullIn(c, ns[1..]);
    }
  }

  lemma {:induction false} ReadableAtIsReplaced(c: Chain, es: seq<Entry>)
    ensures ReadableAt(c, es) <==> FullAt(c, es) != es
    decreases es, 0
  {
    if es != [] {
      assert es decreases to es[0];
      if es[0].test.Cond? { ReadableIsReplaced(c, es[0].test.node); }
      ReadableIsReplaced(c, es[0].body);
      ReadableAtIsReplaced(c, es[1..]);
      SameSplit(es, FullAt(c, es));
      assert FullAt(c, es)[1..] == FullAt(c, es[1..]);
    }
  }

  /** Main result: the reads collected are all those that may be replaced and no others, exactly
      if the code is harmless and all of them are in sight. */
  lemma {:induction false} CollectsAll(c: Chain, n: Node)
    requires c.receiver != ""
    ensures Repair(c, n) == Full(c, n) <==> Harmless(c, n) && InSight(c, n)
    decreases n, 1
  {
    if Declares(n, c.receiver) {
      ReadableIsReplaced(c, n);
    } else if n != c.Read() {
      if n.Nav? || n.Is? || n.Log? || n.And? || n.Call? {
        CollectsAllOperands(c, n);
      } else if n.Val? || n.Assign? || n.Return? || n.Throw? {
        CollectsAllStatement(c, n);
      } else if n.If? {
        CollectsAllIf(c, n);
      } else if n.For? {
        CollectsAllFor(c, n);
      } else if n.Try? {
        CollectsAllTry(c, n);
      } else if n.Lambda? || n.Block? || n.When? {
        CollectsAllListed(c, n);
      }
    }
  }

  lemma {:induction false} CollectsAllOperands(c: Chain, n: Node)
    requires c.receiver != "" && n != c.Read()
    requires n.Nav? || n.Is? || n.Log? || n.And? || n.Call?
    ensures Repair(c, n) == Full(c, n) <==> Harmless(c, n) && InSight(c, n)
    decreases n, 0
  {
    hide FullIn, FullAt, RepairEach, RepairUntil, RepairEntries, HarmlessEach, HarmlessUntil, HarmlessAt, InSightEach, InSightUntil, InSightAt;
    if n.And? {
      CollectsAll(c, n.left); CollectsAll(c, n.right);
    } else if n.Call? {
      CollectsAll(c, n.callee); CollectsAll(c, n.arg);
    } else {
      CollectsAll(c, if n.Nav? then n.target else if n.Is? then n.operand else n.arg);
    }
  }

  lemma {:induction false} CollectsAllStatement(c: Chain, n: Node)
    requires c.receiver != "" && !Declares(n, c.receiver) && (n.Val? || n.Assign? || n.Return? || n.Throw?)
    ensures Repair(c, n) == Full(c, n) <==> Harmless(c, n) && InSight(c, n)
    decreases n, 0
  {
    hide *;
    StatementParts(c, n);
    if n.Val? {
      CollectsAll(c, n.init);
    } else if n.Assign? {
      CollectsAll(c, n.rhs);
    } else if n.Return? {
      CollectsAll(c, n.result);
    } else {
      CollectsAll(c, n.error);
    }
  }

  lemma StatementParts(c: Chain, n: Node)
    requires !Declares(n, c.receiver)
    ensures n.Val? ==>
      && Repair(c, n) == Val(n.name, Repair(c, n.init)) && Full(c, n) == Val(n.name, Full(c, n.init))
      && (Harmless(c, n) <==> Harmless(c, n.init)) && (InSight(c, n) <==> InSight(c, n.init))
    ensures n.Assign? ==>
      && Repair(c, n) == Assign(n.name, Repair(c, n.rhs)) && Full(c, n) == Assign(n.name, Full(c, n.rhs))
      && (Harmless(c, n) <==> Harmless(c, n.rhs)) && (InSight(c, n) <==> InSight(c, n.rhs))
    ensures n.Return? ==>
      && Repair(c, n) == Return(Repair(c, n.result)) && Full(c, n) == Return(Full(c, n.result))
      && (Harmless(c, n) <==> Harmless(c, n.result)) && (InSight(c, n) <==> InSight(c, n.result))
    ensures n.Throw? ==>
      && Repair(c, n) == Throw(Repair(c, n.error)) && Full(c, n) == Throw(Full(c, n.error))
      && (Harmless(c, n) <==> Harmless(c, n.error)) && (InSight(c, n) <==> InSight(c, n.error))
  {
    hide Declares;
  }

  lemma {:induction false} CollectsAllIf(c: Chain, n: Node)
    requires c.receiver != "" && n.If?
    ensures Repair(c, n) == Full(c, n) <==> Harmless(c, n) && InSight(c, n)
    decreases n, 0
  {
    hide *;
    IfParts(c, n);
    CollectsAll(c, n.cond);
    CollectsAll(c, n.thn);
    if n.els.Some? { CollectsAll(c, n.els.value); }
  }

  lemma IfParts(c: Chain, n: Node)
    requires n.If?
    ensures Repair(c, n) == If(Repair(c, n.cond), Repair(c, n.thn), if n.els.Some? then Some(Repair(c, n.els.value)) else None)
    ensures Full(c, n) == If(Full(c, n.cond), Full(c, n.thn), if n.els.Some? then Some(Full(c, n.els.value)) else None)
    ensures Harmless(c, n) <==> Harmless(c, n.cond) && Harmless(c, n.thn) && (n.els.Some? ==> Harmless(c, n.els.value))
    ensures InSight(c, n) <==> InSight(c, n.cond) && InSight(c, n.thn) && (n.els.Some? ==> InSight(c, n.els.value))
  {
  }

  lemma {:induction false} CollectsAllFor(c: Chain, n: Node)
    requires c.receiver != "" && n.For?
    ensures Repair(c, n) == Full(c, n) <==> Harmless(c, n) && InSight(c, n)
    decreases n, 0
  {
    hide *;
    ForParts(c, n);
    CollectsAll(c, n.count);
    CollectsAll(c, n.body);
    FoundIsRepaired(c, n.body);
  }

  lemma ForParts(c: Chain, n: Node)
    requires n.For?
    ensures Repair(c, n) == For(n.binder, Repair(c, n.count), Repair(c, n.body))
    ensures Full(c, n) == For(n.binder, Full(c, n.count), if n.binder == c.receiver then n.body else Full(c, n.body))
    ensures Harmless(c, n) <==> Harmless(c, n.count) && if n.binder == c.receiver then !Found(c, n.body) else Harmless(c, n.body)
    ensures InSight(c, n) <==> InSight(c, n.count) && (n.binder == c.receiver || InSight(c, n.body))
  {
  }

  lemma {:induction false} CollectsAllTry(c: Chain, n: Node)
    requires c.receiver != "" && n.Try?
    ensures Repair(c, n) == Full(c, n) <==> Harmless(c, n) && InSight(c, n)
    decreases n, 0
  {
    hide *;
    TryParts(c, n);
    CollectsAll(c, n.body);
    CollectsAll(c, n.handler);
    FoundIsRepaired(c, n.handler);
  }

  lemma TryParts(c: Chain, n: Node)
    requires n.Try?
    ensures Repair(c, n) == Try(Repair(c, n.body), n.binder, Repair(c, n.handler))
    ensures Full(c, n) == Try(Full(c, n.body), n.binder, if n.binder == c.receiver then n.handler else Full(c, n.handler))
    ensures Harmless(c, n) <==> Harmless(c, n.body) && if n.binder == c.receiver then !Found(c, n.handler) else Harmless(c, n.handler)
    ensures InSight(c, n) <==> InSight(c, n.body) && (n.binder == c.receiver || InSight(c, n.handler))
  {
  }

  lemma {:induction false} CollectsAllListed(c: Chain, n: Node)
    requires c.receiver != "" && !Declares(n, c.receiver)
    requires n.Lambda? || n.Block? || n.When?
    ensures Repair(c, n) == Full(c, n) <==> Harmless(c, n) && InSight(c, n)
    decreases n, 0
  {
    hide FullIn, FullAt, FoundEach, RepairEach, RepairUntil, RepairEntries, HarmlessEach, HarmlessUntil, HarmlessAt, InSightEach, InSightUntil, InSightAt;
    match n {
      case Lambda(_, ss) => FoundEachIsRepaired(c, ss); CollectsAllEach(c, ss);
      case Block(ss) => CollectsAllUntil(c, ss);
      case When(s, es) =>
        if s.Some? { CollectsAll(c, s.value); }
        CollectsAllAt(c, es);
    }
  }

  lemma {:induction false} CollectsAllUntil(c: Chain, ns: seq<Node>)
    requires c.receiver != ""
    ensures RepairUntil(c, ns) == FullIn(c, ns) <==> HarmlessUntil(c, ns) && InSightUntil(c, ns)
    decreases ns, 0
  {
    if ns != [] {
      hide Repair, Full, Harmless, InSight;
      ReadableInIsReplaced(c, ns);
      if !Declares(ns[0], c.receiver) {
        CollectsAll(c, ns[0]);
        CollectsAllUntil(c, ns[1..]);
        FullInSplits(c, ns);
        SameSplit(RepairUntil(c, ns), FullIn(c, ns));
      }
    }
  }

  lemma FullInSplits(c: Chain, ns: seq<Node>)
    requires ns != []
    ensures FullIn(c, ns) != [] && FullIn(c, ns)[0] == Full(c, ns[0])
    ensures FullIn(c, ns)[1..] == if ns[0].Val? && ns[0].name == c.receiver then ns[1..] else FullIn(c, ns[1..])
  {
    hide Full;
  }

  /** The same for statements searched one by one. */
  lemma {:induction false} CollectsAllEach(c: Chain, ns: seq<Node>)
    requires c.receiver != ""
    ensures RepairEach(c, ns) == FullIn(c, ns) <==> HarmlessEach(c, ns) && InSightEach(c, ns)
    decreases ns, 0
  {
    if ns != [] {
      hide Repair, Full, Harmless, InSight;
      CollectsAll(c, ns[0]);
      CollectsAllEach(c, ns[1..]);
      FoundEachIsRepaired(c, ns[1..]);
      FullInSplits(c, ns);
      SameSplit(RepairEach(c, ns), FullIn(c, ns));
    }
  }

  lemma {:induction false} CollectsAllAt(c: Chain, es: seq<Entry>)
    requires c.receiver != ""
    ensures RepairEntries(c, es) == FullAt(c, es) <==> HarmlessAt(c, es) && InSightAt(c, es)
    decreases es, 0
  {
    if es != [] {
      hide Repair, Full, Harmless, InSight;
      assert es decreases to es[0];
      if es[0].test.Cond? { CollectsAll(c, es[0].test.node); }
      CollectsAll(c, es[0].body);
      CollectsAllAt(c, es[1..]);
      assert FullAt(c, es)[1..] == FullAt(c, es[1..]);
      SameSplit(RepairEntries(c, es), FullAt(c, es));
    }
  }

  /** A `val` ends the region as soon as its initializer mentions the receiver: the read behind
      it is not found, though the name still means the same variable. */
  lemma InitializerHidesReads()
    ensures var c, body := Chain("h", "p", "p"), Block([Val("a", Nav(Name("h"), "p")), Log(Nav(Name("h"), "p"))]);
      && Repair(c, body) == body && Harmless(c, body) && !InSight(c, body)
      && Full(c, body) == Block([Val("a", Name("p")), Log(Name("p"))])
  {
    var c := Chain("h", "p", "p");
    var ss := [Val("a", c.Read()), Log(c.Read())];
    assert "h" in Identifiers(c.Read());
    assert Declares(ss[0], "h") && Readable(c, ss[0]);
    assert ss[1..] == [Log(c.Read())] && [Log(c.Read())][1..] == [];
    assert FullIn(c, [Log(c.Read())]) == [Log(Name("p"))];
    assert FullIn(c, ss) == [Val("a", Name("p")), Log(Name("p"))];
  }
}
