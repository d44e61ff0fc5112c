/** Which control-flow statements are smart-cast sites: the answer of the analyser, told by what
    the statement looks like. */
module SmartCastSites {
  import opened Options
  import opened Kotlin
  import opened SmartCastSimulation
  import opened SmartCast

  // ----- what to look for -----

  /** A read of a property of a name. */
  predicate PlainRead(n: Node) {
    n.Nav? && n.target.Name?
  }

  predicate PositiveTest(n: Node) {
    n.Is? && !n.negated
  }

  /** `m` is an operand of the conjunction `n`, or `n` itself where that is none. */
  predicate HasOperand(n: Node, m: Node)
    decreases n
  {
    if n.And? then HasOperand(n.left, m) || HasOperand(n.right, m) else n == m
  }

  function Leftmost(n: Node): Node
    decreases n
  {
    if n.And? then Leftmost(n.left) else n
  }

  /** What a statement ends with: for a block, what its last statement does. */
  function Ending(n: Node): Node
    decreases n
  {
    if n.Block? && n.stmts != [] then Ending(n.stmts[|n.stmts| - 1]) else n
  }

  predicate Exits(n: Node) {
    var last := Ending(n);
    last.Return? || last.Throw? || last.Break? || last.Continue?
  }

  /** The parts of a node, in one step. */
  ghost predicate PartOf(m: Node, n: Node) {
    match n
    case Nav(t, _) => m == t
    case Is(e, _, _) => m == e
    case And(a, b) => m == a || m == b
    case Call(f, a) => m == f || m == a
    case Log(a) => m == a
    case Lambda(_, ss) => m in ss
    case Block(ss) => m in ss
    case Val(_, e) => m == e
    case Assign(_, e) => m == e
    case If(e, t, f) => m == e || m == t || f == Some(m)
    case When(s, es) => s == Some(m) || exists i :: 0 <= i < |es| && (es[i].test == Cond(m) || es[i].body == m)
    case For(_, e, b) => m == e || m == b
    case Try(b, _, h) => m == b || m == h
    case Return(e) => m == e
    case Throw(e) => m == e
    case _ => false
  }

  /** `m` stands in `n`, `depth` parts deep. */
  ghost predicate Within(m: Node, n: Node, depth: nat)
    decreases depth
  {
    if depth == 0 then m == n else exists part :: PartOf(part, n) && Within(m, part, depth - 1)
  }

  // ----- the five shapes -----

  /** The statement tests `receiver.property` in a way the writer can repair. */
  ghost predicate IsCandidate(n: Node, receiver: string, property: string, shape: Shape) {
    var read := Nav(Name(receiver), property);
    match shape
    case IfIs => n.If? && n.cond.Is? && n.cond.operand == read && !n.cond.negated
    case IfNotIs => n.If? && n.cond.Is? && n.cond.operand == read && n.cond.negated && (n.els.Some? || Exits(n.thn))
    case Conjunction => n.If? && n.cond.And? && PositiveTest(Leftmost(n.cond)) && Leftmost(n.cond).operand == read
    case WhenSubject => n.When? && n.subject == Some(read) && exists i :: 0 <= i < |n.entries| && n.entries[i].test.IsType?
    case WhenCondition =>
      && n.When? && n.subject.None? && n.entries != []
      && n.entries[0].test.Cond? && PositiveTest(n.entries[0].test.node) && n.entries[0].test.node.operand == read
  }

  /** The statement is a site of the shape, repairable or not. */
  ghost predicate IsSite(n: Node, shape: Shape) {
    match shape
    case IfIs => n.If? && n.cond.Is? && !n.cond.negated
    case IfNotIs => n.If? && n.cond.Is? && n.cond.negated
    case Conjunction =>
      n.If? && n.cond.And? && exists m :: HasOperand(n.cond, m) && PositiveTest(m) && PlainRead(m.operand)
    case WhenSubject => n.When? && n.subject.Some? && exists i :: 0 <= i < |n.entries| && n.entries[i].test.IsType?
    case WhenCondition =>
      && n.When? && n.subject.None? && n.entries != []
      && ((n.entries[0].test.Cond? && PositiveTest(n.entries[0].test.node)) || LaterTest(n.entries))
  }

  /** Some entry but the first has a positive test anywhere in its condition. */
  ghost predicate LaterTest(es: seq<Entry>) {
    exists i, m, depth: nat :: 1 <= i < |es| && es[i].test.Cond? && Within(m, es[i].test.node, depth) && PositiveTest(m)
  }

  // ----- the parts of the analyser -----

  lemma {:induction false} ExitsIs(n: Node)
    ensures AlwaysExits(n) <==> Exits(n)
    decreases n
  {
    if n.Block? && n.stmts != [] { ExitsIs(n.stmts[|n.stmts| - 1]); }
  }

  lemma {:induction false} OperandsAre(n: Node)
    ensures forall m :: m in Operands(n) <==> HasOperand(n, m)
    ensures Operands(n)[0] == Leftmost(n)
    decreases n
  {
    if n.And? {
      OperandsAre(n.left);
      OperandsAre(n.right);
    }
  }

  lemma {:induction false} FirstTestIs(ops: seq<Node>)
    ensures FirstTest(ops).Some? <==> exists m :: m in ops && PositiveTest(m) && PlainRead(m.operand)
    ensures ops != [] ==> (FirstTest(ops) == Some(0) <==> PositiveTest(ops[0]) && PlainRead(ops[0].operand))
  {
    if ops != [] {
      FirstTestIs(ops[1..]);
      assert forall m :: m in ops <==> m == ops[0] || m in ops[1..];
    }
  }

  lemma {:induction false} TestsFound(n: Node)
    requires Tests(n)
    ensures exists m, depth: nat :: Within(m, n, depth) && PositiveTest(m)
    decreases n, 1
  {
    if PositiveTest(n) {
      assert Within(n, n, 0);
    } else {
      var part := TestedPart(n);
      TestsFound(part);
      var m, depth: nat :| Within(m, part, depth) && PositiveTest(m);
      assert Within(m, n, depth + 1);
    }
  }

  lemma TestedPart(n: Node) returns (part: Node)
    requires Tests(n) && !PositiveTest(n)
    ensures PartOf(part, n) && Tests(part) && (n decreases to part)
    decreases n, 0
  {
    match n {
      case Nav(t, _) => part := t;
      case Is(e, _, _) => part := e;
      case And(a, b) => part := if Tests(a) then a else b;
      case Call(f, a) => part := if Tests(f) then f else a;
      case Log(a) => part := a;
      case Lambda(_, ss) => part := TestedStatement(ss);
      case Block(ss) => part := TestedStatement(ss);
      case Val(_, e) => part := e;
      case Assign(_, e) => part := e;
      case If(e, t, f) => part := if Tests(e) then e else if Tests(t) then t else f.value;
      case When(s, es) => if s.Some? && Tests(s.value) { part := s.value; } else { part := TestedEntry(es); }
      case For(_, e, b) => part := if Tests(e) then e else b;
      case Try(b, _, h) => part := if Tests(b) then b else h;
      case Return(e) => part := e;
      case Throw(e) => part := e;
    }
  }

  lemma {:induction false} TestedStatement(ns: seq<Node>) returns (part: Node)
    requires TestsIn(ns)
    ensures part in ns && Tests(part) && (ns decreases to part)
    decreases ns
  {
    if Tests(ns[0]) { part := ns[0]; } else { part := TestedStatement(ns[1..]); }
  }

  lemma {:induction false} TestedEntry(es: seq<Entry>) returns (part: Node)
    requires TestsAt(es)
    ensures Tests(part) && (es decreases to part)
    ensures exists i :: 0 <= i < |es| && (es[i].test == Cond(part) || es[i].body == part)
    decreases es
  {
    assert es decreases to es[0];
    if es[0].test.Cond? && Tests(es[0].test.node) {
      part := es[0].test.node;
      assert es[0].test == Cond(part);
    } else if Tests(es[0].body) {
      part := es[0].body;
    } else {
      part := TestedEntry(es[1..]);
      var i :| 0 <= i < |es[1..]| && (es[1..][i].test == Cond(part) || es[1..][i].body == part);
      assert es[i + 1] == es[1..][i];
    }
  }

  lemma {:induction false} FoundIsTested(m: Node, n: Node, depth: nat)
    requires Within(m, n, depth) && PositiveTest(m)
    ensures Tests(n)
    decreases depth
  {
    hide Tests;
    if depth > 0 {
      var part :| PartOf(part, n) && Within(m, part, depth - 1);
      FoundIsTested(m, part, depth - 1);
      PartTested(part, n);
    } else {
      ItselfTested(n);
    }
  }

  lemma ItselfTested(n: Node)
    requires PositiveTest(n)
    ensures Tests(n)
  {
  }

  lemma PartTested(part: Node, n: Node)
    requires PartOf(part, n) && Tests(part)
    ensures Tests(n)
  {
    match n {
      case Lambda(_, ss) => StatementTested(ss, part);
      case Block(ss) => StatementTested(ss, part);
      case When(s, es) => if s != Some(part) { EntryTested(es, part); }
      case _ =>
    }
  }

  lemma {:induction false} StatementTested(ns: seq<Node>, part: Node)
    requires part in ns && Tests(part)
    ensures TestsIn(ns)
    decreases |ns|
  {
    if ns[0] != part { StatementTested(ns[1..], part); }
  }

  lemma {:induction false} EntryTested(es: seq<Entry>, part: Node)
    requires Tests(part) && exists i :: 0 <= i < |es| && (es[i].test == Cond(part) || es[i].body == part)
    ensures TestsAt(es)
    decreases |es|
  {
    var i :| 0 <= i < |es| && (es[i].test == Cond(part) || es[i].body == part);
    if i > 0 {
      assert es[1..][i - 1] == es[i];
      EntryTested(es[1..], part);
    }
  }

  // ----- the names in a subtree -----

  /** The node itself, without its parts, spells the name. */
  ghost predicate Spells(m: Node, x: string) {
    match m
    case Name(y) => x == y
    case Nav(_, p) => x == p
    case Is(_, ty, _) => x == ty
    case Lambda(p, _) => p == Some(x)
    case Val(y, _) => x == y
    case Assign(y, _) => x == y
    case When(_, es) => exists i :: 0 <= i < |es| && es[i].test == IsType(x)
    case For(y, _, _) => x == y
    case Try(_, y, _) => x == y
    case _ => false
  }

  /** What the search for a declaration takes for a mention of the receiver: its name, spelled
      anywhere in the subtree. */
  lemma IdentifiersAre(n: Node, x: string)
    ensures x in Identifiers(n) <==> exists m, depth: nat :: Within(m, n, depth) && Spells(m, x)
  {
    hide Identifiers, Within, Spells;
    if x in Identifiers(n) { SpelledWithin(n, x); }
    if m, depth: nat :| Within(m, n, depth) && Spells(m, x) { WithinIsSpelled(m, n, depth, x); }
  }

  /** The search ends at a declaration whose name or initializer spells the receiver, and at a lambda
      with a written parameter of that name. */
  lemma DeclaresIs(n: Node, x: string)
    ensures var spelled := exists m, depth: nat :: Within(m, n, depth) && Spells(m, x);
      Declares(n, x) <==> x != "" && ((n.Val? && spelled) || (n.Lambda? && n.param == Some(x)))
  {
    hide Within, Spells;
    IdentifiersAre(n, x);
  }

  lemma {:induction false} SpelledWithin(n: Node, x: string)
    requires x in Identifiers(n)
    ensures exists m, depth: nat :: Within(m, n, depth) && Spells(m, x)
    decreases n, 1
  {
    if Spells(n, x) {
      assert Within(n, n, 0);
    } else {
      var part := SpelledPart(n, x);
      SpelledWithin(part, x);
      var m, depth: nat :| Within(m, part, depth) && Spells(m, x);
      assert Within(m, n, depth + 1);
    }
  }

  lemma SpelledPart(n: Node, x: string) returns (part: Node)
    requires x in Identifiers(n) && !Spells(n, x)
    ensures PartOf(part, n) && x in Identifiers(part) && (n decreases to part)
    decreases n, 0
  {
    match n {
      case Nav(t, _) => part := t;
      case Is(e, _, _) => part := e;
      case And(a, b) => part := if x in Identifiers(a) then a else b;
      case Call(f, a) => part := if x in Identifiers(f) then f else a;
      case Log(a) => part := a;
      case Lambda(_, ss) => part := SpelledStatement(ss, x);
      case Block(ss) => part := SpelledStatement(ss, x);
      case Val(_, e) => part := e;
      case Assign(_, e) => part := e;
      case If(e, t, f) => part := if x in Identifiers(e) then e else if x in Identifiers(t) then t else f.value;
      case When(s, es) => if s.Some? && x in Identifiers(s.value) { part := s.value; } else { part := SpelledEntry(es, x); }
      case For(_, e, b) => part := if x in Identifiers(e) then e else b;
      case Try(b, _, h) => part := if x in Identifiers(b) then b else h;
      case Return(e) => part := e;
      case Throw(e) => part := e;
    }
  }

  lemma {:induction false} SpelledStatement(ns: seq<Node>, x: string) returns (part: Node)
    requires x in IdentifiersOf(ns)
    ensures part in ns && x in Identifiers(part) && (ns decreases to part)
    decreases ns
  {
    if x in Identifiers(ns[0]) { part := ns[0]; } else { part := SpelledStatement(ns[1..], x); }
  }

  lemma {:induction false} SpelledEntry(es: seq<Entry>, x: string) returns (part: Node)
    requires x in EntryIdentifiers(es) && !exists i :: 0 <= i < |es| && es[i].test == IsType(x)
    ensures x in Identifiers(part) && (es decreases to part)
    ensures exists i :: 0 <= i < |es| && (es[i].test == Cond(part) || es[i].body == part)
    decreases es
  {
    assert es decreases to es[0];
    assert es[0].test != IsType(x);
    if es[0].test.Cond? && x in Identifiers(es[0].test.node) {
      part := es[0].test.node;
      assert es[0].test == Cond(part);
    } else if x in Identifiers(es[0].body) {
      part := es[0].body;
    } else {
      assert forall i :: 0 <= i < |es[1..]| ==> es[1..][i] == es[i + 1];
      part := SpelledEntry(es[1..], x);
      var i :| 0 <= i < |es[1..]| && (es[1..][i].test == Cond(part) || es[1..][i].body == part);
      assert es[i + 1] == es[1..][i];
    }
  }

  lemma {:induction false} WithinIsSpelled(m: Node, n: Node, depth: nat, x: string)
    requires Within(m, n, depth) && Spells(m, x)
    ensures x in Identifiers(n)
    decreases depth
  {
    hide Identifiers;
    if depth > 0 {
      var part :| PartOf(part, n) && Within(m, part, depth - 1);
      WithinIsSpelled(m, part, depth - 1, x);
      PartSpelled(part, n, x);
    } else {
      ItselfSpelled(n, x);
    }
  }

  lemma ItselfSpelled(n: Node, x: string)
    requires Spells(n, x)
    ensures x in Identifiers(n)
  {
    if n.When? { TypeSpelled(n.entries, x); }
  }

  lemma {:induction false} TypeSpelled(es: seq<Entry>, x: string)
    requires exists i :: 0 <= i < |es| && es[i].test == IsType(x)
    ensures x in EntryIdentifiers(es)
    decreases |es|
  {
    var i :| 0 <= i < |es| && es[i].test == IsType(x);
    if i > 0 {
      assert es[1..][i - 1] == es[i];
      TypeSpelled(es[1..], x);
    }
  }

  lemma PartSpelled(part: Node, n: Node, x: string)
    requires PartOf(part, n) && x in Identifiers(part)
    ensures x in Identifiers(n)
  {
    match n {
      case Lambda(_, ss) => StatementSpelled(ss, part, x);
      case Block(ss) => StatementSpelled(ss, part, x);
      case When(s, es) => if s != Some(part) { EntrySpelled(es, part, x); }
      case _ =>
    }
  }

  lemma {:induction false} StatementSpelled(ns: seq<Node>, part: Node, x: string)
    requires part in ns && x in Identifiers(part)
    ensures x in IdentifiersOf(ns)
    decreases |ns|
  {
    if ns[0] != part { StatementSpelled(ns[1..], part, x); }
  }

  lemma {:induction false} EntrySpelled(es: seq<Entry>, part: Node, x: string)
    requires x in Identifiers(part) && exists i :: 0 <= i < |es| && (es[i].test == Cond(part) || es[i].body == part)
    ensures x in EntryIdentifiers(es)
    decreases |es|
  {
    var i :| 0 <= i < |es| && (es[i].test == Cond(part) || es[i].body == part);
    if i > 0 {
      assert es[1..][i - 1] == es[i];
      EntrySpelled(es[1..], part, x);
    }
  }

  // ----- the answer -----

  /** Main result: a statement is a candidate for a chain and a shape exactly if it tests that
      chain in that shape; and it is a site at all exactly if it has the shape of one. */
  lemma SitesAre(n: Node, receiver: string, property: string, shape: Shape)
    ensures Analyse(n) == Some(Candidate(receiver, property, shape)) <==> IsCandidate(n, receiver, property, shape)
    ensures Analyse(n).Some? && Analyse(n).value.shape == shape <==> IsSite(n, shape)
  {
    hide AlwaysExits, Exits, Operands, Leftmost, HasOperand, FirstTest, Tests, Within;
    match n {
      case If(cond, thn, _) =>
        ExitsIs(thn);
        if cond.And? {
          OperandsAre(cond);
          FirstTestIs(Operands(cond));
        }
      case When(None, es) => LaterTestIs(es);
      case _ =>
    }
  }

  lemma LaterTestIs(es: seq<Entry>)
    ensures LaterTest(es) <==> exists i :: 1 <= i < |es| && es[i].test.Cond? && Tests(es[i].test.node)
  {
    hide Tests, Within;
    if LaterTest(es) {
      var i, m, depth: nat :| 1 <= i < |es| && es[i].test.Cond? && Within(m, es[i].test.node, depth) && PositiveTest(m);
      FoundIsTested(m, es[i].test.node, depth);
    }
    if i :| 1 <= i < |es| && es[i].test.Cond? && Tests(es[i].test.node) {
      TestsFound(es[i].test.node);
    }
  }

  /** So a `when` on a property is a candidate as soon as one type test's branch reads it. */
  lemma NarrowedReadIsCandidate(c: Chain, es: seq<Entry>, i: nat)
    requires i < |es| && es[i].test.IsType? && Found(c, es[i].body)
    ensures Analyse(When(Some(c.Read()), es)) == Some(Candidate(c.receiver, c.property, WhenSubject))
  {
    SitesAre(When(Some(c.Read()), es), c.receiver, c.property, WhenSubject);
  }

  // ----- where the repair goes -----

  /** The statements behind a site change exactly if the site is a `!is` test without an `else`,
      in a block, and the search finds something in one of them. */
  lemma RestChanges(c: Chain, parent: Parent, before: seq<Node>, n: Node, after: seq<Node>, shape: Shape)
    ensures var out := RepairBlock(c, parent, before, n, after, shape);
      && |out| == |before| + 2 + |after| && out[..|before|] == before && out[|before|] == Val(c.local, c.Read())
      && (out[|before| + 2..] != after <==>
            parent.InBlock? && n.If? && n.cond.Is? && n.cond.negated && n.els.None? && exists i :: 0 <= i < |after| && Found(c, after[i]))
  {
    hide Repair, Found, RepairSite;
    EachLength(c, after);
    FoundEachIsRepaired(c, after);
    FoundEachIs(c, after);
    var out, rest := RepairBlock(c, parent, before, n, after, shape), RepairRest(c, parent, n, after);
    assert out[|before| + 2..] == rest;
  }

  lemma {:induction false} EachLength(c: Chain, ns: seq<Node>)
    ensures |RepairEach(c, ns)| == |ns|
  {
    hide Repair;
    if ns != [] { EachLength(c, ns[1..]); }
  }

  lemma {:induction false} FoundEachIs(c: Chain, ns: seq<Node>)
    ensures FoundEach(c, ns) <==> exists i :: 0 <= i < |ns| && Found(c, ns[i])
  {
    hide Found;
    if ns != [] {
      FoundEachIs(c, ns[1..]);
      assert forall i :: 1 <= i < |ns| ==> ns[i] == ns[1..][i - 1];
      if FoundEach(c, ns[1..]) {
        var i :| 0 <= i < |ns[1..]| && Found(c, ns[1..][i]);
        assert Found(c, ns[i + 1]);
      }
    }
  }
}
