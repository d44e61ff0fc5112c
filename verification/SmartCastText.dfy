/** From the repaired tree to the edited text: replacing the collected byte ranges and
    inserting the binding line prints the repaired statements. */
module SmartCastText {
  import opened Options
  import opened Kotlin
  import opened Edits
  import opened EditEngines
  import opened SmartCastSimulation
  import opened SmartCast
  import opened SmartCastLocals

  // ----- source text -----

  function GroundText(g: Ground): string {
    match g
    case Truth(b) => if b then "true" else "false"
    case Num(n) => if n < 0 then "-" + Digits(-n) else Digits(n)
    case Unit => "Unit"
    case Ref(id) => "ref" + Digits(id)
    case Fun => "fun"
  }

  function IsText(ty: string, negated: bool): string {
    (if negated then " !is " else " is ") + ty
  }

  /** The Kotlin text of a node, each statement of a block on its own line. */
  function Show(n: Node): string
    decreases n, 0
  {
    match n
    case Lit(g) => GroundText(g)
    case Name(x) => x
    case Nav(t, p) => Show(t) + ("." + p)
    case Is(e, ty, neg) => Show(e) + IsText(ty, neg)
    case And(a, b) => Show(a) + (" && " + Show(b))
    case Call(f, a) => Show(f) + ("(" + (Show(a) + ")"))
    case Log(a) => "println(" + (Show(a) + ")")
    case Lambda(p, ss) => LambdaHead(p) + (ShowLines(ss) + "}")
    case Block(ss) => "{\n" + (ShowLines(ss) + "}")
    case Val(x, e) => ("val " + x + " = ") + Show(e)
    case Assign(x, e) => (x + " = ") + Show(e)
    case If(e, t, f) => "if (" + (Show(e) + (") " + (Show(t) + ShowElse(f))))
    case When(s, es) => (if s.Some? then "when (" + (Show(s.value) + ") ") else "when ") + ("{\n" + (ShowEntries(es) + "}"))
    case For(x, e, b) => ("for (" + x + " in 1..") + (Show(e) + (") " + Show(b)))
    case Try(b, x, h) => "try " + (Show(b) + ((" catch (" + x + ": Throwable) ") + Show(h)))
    case Return(e) => "return " + Show(e)
    case Throw(e) => "throw " + Show(e)
    case Break => "break"
    case Continue => "continue"
  }

  function ShowElse(f: Option<Node>): string
    decreases f, 1
  {
    if f.Some? then " else " + Show(f.value) else ""
  }

  function LambdaHead(p: Option<string>): string {
    if p.Some? then "{ " + p.value + " ->\n" else "{\n"
  }

  function ShowLines(ns: seq<Node>): string
    decreases ns, 0
  {
    if ns == [] then "" else Show(ns[0]) + ("\n" + ShowLines(ns[1..]))
  }

  function ShowEntries(es: seq<Entry>): string
    decreases es, 0
  {
    if es == [] then "" else
    assert es decreases to es[0];
    (match es[0].test case Cond(n) => Show(n) case IsType(ty) => "is " + ty case Otherwise => "else")
    + (" -> " + (Show(es[0].body) + ("\n" + ShowEntries(es[1..]))))
  }

  // ----- text with marked ranges -----

  /** A text in pieces, the collected ranges marked. */
  datatype Rope = Leaf(text: string) | Hit(text: string) | Cat(left: Rope, right: Rope)

  function Glued(r: Rope): string {
    match r
    case Leaf(text) => text
    case Hit(text) => text
    case Cat(a, b) => Glued(a) + Glued(b)
  }

  function Renamed(r: Rope, local: string): string {
    match r
    case Leaf(text) => text
    case Hit(_) => local
    case Cat(a, b) => Renamed(a, local) + Renamed(b, local)
  }

  function Cat3(a: Rope, b: Rope, c: Rope): (r: Rope)
    ensures Glued(r) == Glued(a) + (Glued(b) + Glued(c))
    ensures forall x :: Renamed(r, x) == Renamed(a, x) + (Renamed(b, x) + Renamed(c, x))
  {
    Cat(a, Cat(b, c))
  }

  function Cat4(a: Rope, b: Rope, c: Rope, d: Rope): (r: Rope)
    ensures Glued(r) == Glued(a) + (Glued(b) + (Glued(c) + Glued(d)))
    ensures forall x :: Renamed(r, x) == Renamed(a, x) + (Renamed(b, x) + (Renamed(c, x) + Renamed(d, x)))
  {
    Cat(a, Cat3(b, c, d))
  }

  function Cat5(a: Rope, b: Rope, c: Rope, d: Rope, e: Rope): (r: Rope)
    ensures Glued(r) == Glued(a) + (Glued(b) + (Glued(c) + (Glued(d) + Glued(e))))
    ensures forall x :: Renamed(r, x) == Renamed(a, x) + (Renamed(b, x) + (Renamed(c, x) + (Renamed(d, x) + Renamed(e, x))))
  {
    Cat(a, Cat4(b, c, d, e))
  }

  /** The edits that put the local at the marked ranges of a rope that starts at `at`. */
  function HitEdits(r: Rope, at: nat, local: string): seq<Edit> {
    match r
    case Leaf(_) => []
    case Hit(text) => [Edit(at, at + |text|, local)]
    case Cat(a, b) => HitEdits(a, at, local) + HitEdits(b, at + |Glued(a)|, local)
  }

  /** The ranges the collector visits below a node, in the text of that node. */
  function Ranges(c: Chain, n: Node): Rope
    decreases n, 0
  {
    if Declares(n, c.receiver) then Leaf(Show(n))
    else if n == c.Read() then Hit(Show(n))
    else match n
      case Nav(t, p) => Cat(Ranges(c, t), Leaf("." + p))
      case Is(e, ty, neg) => Cat(Ranges(c, e), Leaf(IsText(ty, neg)))
      case And(a, b) => Cat3(Ranges(c, a), Leaf(" && "), Ranges(c, b))
      case Call(f, a) => Cat4(Ranges(c, f), Leaf("("), Ranges(c, a), Leaf(")"))
      case Log(a) => Cat3(Leaf("println("), Ranges(c, a), Leaf(")"))
      case Lambda(p, ss) => Cat3(Leaf(LambdaHead(p)), RangesEach(c, ss), Leaf("}"))
      case Block(ss) => Cat3(Leaf("{\n"), RangesUntil(c, ss), Leaf("}"))
      case Val(x, e) => Cat(Leaf("val " + x + " = "), Ranges(c, e))
      case Assign(x, e) => Cat(Leaf(x + " = "), Ranges(c, e))
      case If(e, t, f) =>
        Cat5(Leaf("if ("), Ranges(c, e), Leaf(") "), Ranges(c, t),
             ElseRanges(c, f))
      case When(s, es) =>
        Cat4(if s.Some? then Cat3(Leaf("when ("), Ranges(c, s.value), Leaf(") ")) else Leaf("when "),
             Leaf("{\n"), RangesOfEntries(c, es), Leaf("}"))
      case For(x, e, b) => Cat4(Leaf("for (" + x + " in 1.."), Ranges(c, e), Leaf(") "), Ranges(c, b))
      case Try(b, x, h) => Cat4(Leaf("try "), Ranges(c, b), Leaf(" catch (" + x + ": Throwable) "), Ranges(c, h))
      case Return(e) => Cat(Leaf("return "), Ranges(c, e))
      case Throw(e) => Cat(Leaf("throw "), Ranges(c, e))
      case _ => Leaf(Show(n))
  }

  function ElseRanges(c: Chain, f: Option<Node>): Rope
    decreases f, 1
  {
    if f.Some? then Cat(Leaf(" else "), Ranges(c, f.value)) else Leaf("")
  }

  function RangesUntil(c: Chain, ns: seq<Node>): Rope
    decreases ns, 0
  {
    if ns == [] || Declares(ns[0], c.receiver) then Leaf(ShowLines(ns))
    else Cat3(Ranges(c, ns[0]), Leaf("\n"), RangesUntil(c, ns[1..]))
  }

  function RangesEach(c: Chain, ns: seq<Node>): Rope
    decreases ns, 0
  {
    if ns == [] then Leaf("") else Cat3(Ranges(c, ns[0]), Leaf("\n"), RangesEach(c, ns[1..]))
  }

  function TestRanges(c: Chain, t: Test): Rope
    decreases t, 1
  {
    match t
    case Cond(n) => Ranges(c, n)
    case IsType(ty) => Leaf("is " + ty)
    case Otherwise => Leaf("else")
  }

  function RangesOfEntries(c: Chain, es: seq<Entry>): Rope
    decreases es, 0
  {
    if es == [] then Leaf("") else
    assert es decreases to es[0];
    Cat5(TestRanges(c, es[0].test), Leaf(" -> "), Ranges(c, es[0].body), Leaf("\n"), RangesOfEntries(c, es[1..]))
  }

  // ----- the ranges are right -----

  lemma {:induction false} RangesGlue(c: Chain, n: Node)
    ensures Glued(Ranges(c, n)) == Show(n) && Renamed(Ranges(c, n), c.local) == Show(Repair(c, n))
    decreases n, 1
  {
    if !Declares(n, c.receiver) && n != c.Read() {
      match n {
        case Nav(t, _) => RangesGlue(c, t);
        case Is(e, _, _) => RangesGlue(c, e);
        case Log(a) => RangesGlue(c, a);
        case Lambda(_, _) => PairGlue(c, n);
        case Val(_, e) => RangesGlue(c, e);
        case Assign(_, e) => RangesGlue(c, e);
        case Return(e) => RangesGlue(c, e);
        case Throw(e) => RangesGlue(c, e);
        case And(_, _) => PairGlue(c, n);
        case Call(_, _) => PairGlue(c, n);
        case Block(_) => PairGlue(c, n);
        case If(_, _, _) => BranchGlue(c, n);
        case When(_, _) => BranchGlue(c, n);
        case For(_, _, _) => BinderGlue(c, n);
        case Try(_, _, _) => BinderGlue(c, n);
        case _ =>
      }
    }
  }

  lemma {:induction false} PairGlue(c: Chain, n: Node)
    requires n.And? || n.Call? || n.Block? || n.Lambda?
    ensures Glued(Ranges(c, n)) == Show(n) && Renamed(Ranges(c, n), c.local) == Show(Repair(c, n))
    decreases n, 0
  {
    match n {
      case And(a, b) => RangesGlue(c, a); RangesGlue(c, b);
      case Call(f, a) => RangesGlue(c, f); RangesGlue(c, a);
      case Block(ss) => RangesUntilGlue(c, ss);
      case Lambda(_, ss) => RangesEachGlue(c, ss);
    }
  }

  lemma {:induction false} BranchGlue(c: Chain, n: Node)
    requires n.If? || n.When?
    ensures Glued(Ranges(c, n)) == Show(n) && Renamed(Ranges(c, n), c.local) == Show(Repair(c, n))
    decreases n, 0
  {
    hide RangesUntil, RangesEach, RangesOfEntries, RepairUntil, RepairEach, RepairEntries, ShowLines, ShowEntries, ElseRanges, ShowElse;
    if n.If? {
      RangesGlue(c, n.cond);
      RangesGlue(c, n.thn);
      ElseGlue(c, n.els);
    } else {
      if n.subject.Some? { RangesGlue(c, n.subject.value); }
      RangesOfEntriesGlue(c, n.entries);
    }
  }

  lemma {:induction false} BinderGlue(c: Chain, n: Node)
    requires n.For? || n.Try?
    ensures Glued(Ranges(c, n)) == Show(n) && Renamed(Ranges(c, n), c.local) == Show(Repair(c, n))
    decreases n, 0
  {
    match n {
      case For(_, e, b) => RangesGlue(c, e); RangesGlue(c, b);
      case Try(b, _, h) => RangesGlue(c, b); RangesGlue(c, h);
    }
  }

  lemma {:induction false} ElseGlue(c: Chain, f: Option<Node>)
    ensures Glued(ElseRanges(c, f)) == ShowElse(f)
    ensures Renamed(ElseRanges(c, f), c.local) == ShowElse(if f.Some? then Some(Repair(c, f.value)) else None)
    decreases f, 2
  {
    if f.Some? {
      RangesGlue(c, f.value);
    }
  }

  lemma {:induction false} RangesUntilGlue(c: Chain, ns: seq<Node>)
    ensures Glued(RangesUntil(c, ns)) == ShowLines(ns) && Renamed(RangesUntil(c, ns), c.local) == ShowLines(RepairUntil(c, ns))
    decreases ns, 0
  {
    if ns != [] && !Declares(ns[0], c.receiver) {
      RangesGlue(c, ns[0]);
      RangesUntilGlue(c, ns[1..]);
    }
  }

  lemma {:induction false} RangesEachGlue(c: Chain, ns: seq<Node>)
    ensures Glued(RangesEach(c, ns)) == ShowLines(ns) && Renamed(RangesEach(c, ns), c.local) == ShowLines(RepairEach(c, ns))
    decreases ns, 0
  {
    if ns != [] {
      RangesGlue(c, ns[0]);
      RangesEachGlue(c, ns[1..]);
      assert RepairEach(c, ns)[1..] == RepairEach(c, ns[1..]);
    }
  }

  lemma {:induction false} RangesOfEntriesGlue(c: Chain, es: seq<Entry>)
    ensures Glued(RangesOfEntries(c, es)) == ShowEntries(es)
    ensures Renamed(RangesOfEntries(c, es), c.local) == ShowEntries(RepairEntries(c, es))
    decreases es, 0
  {
    if es != [] {
      assert es decreases to es[0];
      if es[0].test.Cond? { RangesGlue(c, es[0].test.node); }
      RangesGlue(c, es[0].body);
      RangesOfEntriesGlue(c, es[1..]);
    }
  }

  // ----- the edits are right -----

  /** Editing the marked ranges of a rope inside a text renames that stretch of it. */
  lemma {:induction false} HitsRename(source: string, r: Rope, at: nat, local: string)
    requires at + |Glued(r)| <= |source| && source[at..at + |Glued(r)|] == Glued(r)
    ensures var end := at + |Glued(r)|;
      && Orderly(HitEdits(r, at, local), at, end)
      && Splice(source[..end], HitEdits(r, at, local), at) == Renamed(r, local)
    decreases r
  {
    var end := at + |Glued(r)|;
    match r {
      case Leaf(text) => assert source[..end][at..] == text;
      case Hit(text) =>
        SpliceEdit(source[..end], Edit(at, end, local), [], at);
        assert [Edit(at, end, local)] + [] == HitEdits(r, at, local);
        assert source[..end][end..] == "" && source[..end][at..at] == "";
      case Cat(a, b) =>
        hide Splice, Orderly;
        var mid := at + |Glued(a)|;
        assert source[at..mid] == source[at..end][..|Glued(a)|] && source[mid..end] == source[at..end][|Glued(a)|..];
        HitsRename(source, a, at, local);
        HitsRename(source, b, mid, local);
        HitsJoin(source, HitEdits(a, at, local), HitEdits(b, mid, local), at, mid, end);
    }
  }

  lemma HitsJoin(source: string, a: seq<Edit>, b: seq<Edit>, at: nat, mid: nat, end: nat)
    requires at <= mid <= end <= |source| && Orderly(a, at, mid) && Orderly(b, mid, end)
    ensures Orderly(a + b, at, end)
    ensures Splice(source[..end], a + b, at) == Splice(source[..mid], a, at) + Splice(source[..end], b, mid)
  {
    hide Splice, Orderly;
    OrderlyJoins(a, b, at, mid, end);
    SpliceJoins(source[..end], a, b, at, mid);
    assert source[..end][..mid] == source[..mid];
  }

  // ----- a whole site -----

  /** The test of a site, its operand marked. */
  function TestedRange(operand: Node, ty: string, negated: bool): (r: Rope)
    ensures Glued(r) == Show(operand) + IsText(ty, negated)
    ensures forall x :: Renamed(r, x) == x + IsText(ty, negated)
  {
    Cat(Hit(Show(operand)), Leaf(IsText(ty, negated)))
  }

  /** The ranges of a site: the tested chain and what each shape narrows. */
  function SiteRanges(c: Chain, n: Node, shape: Shape): Rope {
    match (n, shape)
    case (If(Is(e, ty, neg), thn, els), IfIs) =>
      Cat5(Leaf("if ("), TestedRange(e, ty, neg), Leaf(") "), Ranges(c, thn),
           Leaf(ShowElse(els)))
    case (If(Is(e, ty, neg), thn, els), IfNotIs) =>
      Cat5(Leaf("if ("), TestedRange(e, ty, neg), Leaf(") "), Ranges(c, thn),
           ElseRanges(c, els))
    case (If(cond, thn, els), Conjunction) =>
      Cat5(Leaf("if ("), Ranges(c, cond), Leaf(") "), Ranges(c, thn),
           Leaf(ShowElse(els)))
    case (When(Some(subject), es), WhenSubject) =>
      Cat4(Cat3(Leaf("when ("), Hit(Show(subject)), Leaf(") ")), Leaf("{\n"), IsBodyRanges(c, es), Leaf("}"))
    case (When(None, es), WhenCondition) =>
      if es != [] && es[0].test.Cond? && es[0].test.node.Is? then
        Cat4(Leaf("when "), Leaf("{\n"), FirstEntryRanges(c, es), Leaf("}"))
      else Leaf(Show(n))
    case _ => Leaf(Show(n))
  }

  function FirstEntryRanges(c: Chain, es: seq<Entry>): Rope
    requires es != [] && es[0].test.Cond? && es[0].test.node.Is?
  {
    var test := es[0].test.node;
    Cat5(TestedRange(test.operand, test.ty, test.negated),
         Leaf(" -> "), Ranges(c, es[0].body), Leaf("\n"), Leaf(ShowEntries(es[1..])))
  }

  function TestText(t: Test): string {
    match t case Cond(n) => Show(n) case IsType(ty) => "is " + ty case Otherwise => "else"
  }

  function IsBodyRanges(c: Chain, es: seq<Entry>): Rope {
    if es == [] then Leaf("")
    else
      Cat5(Leaf(TestText(es[0].test)), Leaf(" -> "),
           if es[0].test.IsType? then Ranges(c, es[0].body) else Leaf(Show(es[0].body)), Leaf("\n"), IsBodyRanges(c, es[1..]))
  }

  lemma {:induction false} IsBodyRangesGlue(c: Chain, es: seq<Entry>)
    ensures Glued(IsBodyRanges(c, es)) == ShowEntries(es)
    ensures Renamed(IsBodyRanges(c, es), c.local) == ShowEntries(RepairIsBodies(c, es))
  {
    if es != [] {
      hide Ranges, Repair, Show;
      RangesGlue(c, es[0].body);
      IsBodyRangesGlue(c, es[1..]);
      assert RepairIsBodies(c, es)[1..] == RepairIsBodies(c, es[1..]);
    }
  }

  lemma SiteRangesGlue(c: Chain, n: Node, shape: Shape)
    ensures Glued(SiteRanges(c, n, shape)) == Show(n)
    ensures Renamed(SiteRanges(c, n, shape), c.local) == Show(RepairSite(c, n, shape))
  {
    hide Ranges, Repair, ElseRanges, ShowElse;
    if n.If? {
      IfGlue(c, n, shape);
    } else if n.When? && n.subject.Some? && shape == WhenSubject {
      SubjectGlue(c, n);
    } else if n.When? && n.subject.None? && shape == WhenCondition {
      ConditionGlue(c, n);
    }
  }

  lemma SubjectGlue(c: Chain, n: Node)
    requires n.When? && n.subject.Some?
    ensures Glued(SiteRanges(c, n, WhenSubject)) == Show(n)
    ensures Renamed(SiteRanges(c, n, WhenSubject), c.local) == Show(RepairSite(c, n, WhenSubject))
  {
    hide Ranges, Repair, IsBodyRanges, RepairIsBodies;
    IsBodyRangesGlue(c, n.entries);
  }

  lemma IfGlue(c: Chain, n: Node, shape: Shape)
    requires n.If?
    ensures Glued(SiteRanges(c, n, shape)) == Show(n)
    ensures Renamed(SiteRanges(c, n, shape), c.local) == Show(RepairSite(c, n, shape))
  {
    hide Ranges, Repair, ElseRanges, ShowElse, Show;
    RangesGlue(c, n.thn);
    ElseGlue(c, n.els);
    var site := RepairSite(c, n, shape);
    IfShown(n);
    IfShown(site);
    if n.cond.Is? { IsShown(n.cond); }
    if site.cond.Is? { IsShown(site.cond); }
    if shape == Conjunction {
      RangesGlue(c, n.cond);
    }
  }

  lemma IfShown(n: Node)
    requires n.If?
    ensures Show(n) == "if (" + (Show(n.cond) + (") " + (Show(n.thn) + ShowElse(n.els))))
  {
  }

  lemma WhenShown(n: Node)
    requires n.When? && n.subject.None?
    ensures Show(n) == "when " + ("{\n" + (ShowEntries(n.entries) + "}"))
  {
  }

  lemma ConditionGlue(c: Chain, n: Node)
    requires n.When? && n.subject.None?
    ensures Glued(SiteRanges(c, n, WhenCondition)) == Show(n)
    ensures Renamed(SiteRanges(c, n, WhenCondition), c.local) == Show(RepairSite(c, n, WhenCondition))
  {
    var es := n.entries;
    if es != [] && es[0].test.Cond? && es[0].test.node.Is? {
      hide Ranges, Repair, Show, ShowEntries, FirstEntryRanges;
      FirstEntryGlue(c, es);
      var fixed := RepairSite(c, n, WhenCondition);
      WhenShown(n);
      WhenShown(fixed);
    }
  }

  lemma FirstEntryGlue(c: Chain, es: seq<Entry>)
    requires es != [] && es[0].test.Cond? && es[0].test.node.Is?
    ensures Glued(FirstEntryRanges(c, es)) == ShowEntries(es)
    ensures var test := es[0].test.node;
      Renamed(FirstEntryRanges(c, es), c.local)
      == ShowEntries([Entry(Cond(Is(Name(c.local), test.ty, test.negated)), Repair(c, es[0].body))] + es[1..])
  {
    hide Ranges, Repair, Show, ShowEntries;
    var test := es[0].test.node;
    var fixed := [Entry(Cond(Is(Name(c.local), test.ty, test.negated)), Repair(c, es[0].body))] + es[1..];
    assert fixed[1..] == es[1..];
    RangesGlue(c, es[0].body);
    EntriesUnfold(es);
    EntriesUnfold(fixed);
    IsShown(test);
    IsShown(fixed[0].test.node);
  }

  lemma EntriesUnfold(es: seq<Entry>)
    requires es != [] && es[0].test.Cond?
    ensures ShowEntries(es) == Show(es[0].test.node) + (" -> " + (Show(es[0].body) + ("\n" + ShowEntries(es[1..]))))
  {
    hide Show;
  }

  lemma IsShown(n: Node)
    requires n.Is?
    ensures Show(n) == Show(n.operand) + IsText(n.ty, n.negated) && (n.operand.Name? ==> Show(n.operand) == n.operand.name)
  {
  }

  /** The site's line and the lines behind it. */
  function BlockRanges(c: Chain, parent: Parent, n: Node, shape: Shape, after: seq<Node>): Rope {
    Cat3(SiteRanges(c, n, shape), Leaf("\n"), if SearchesRest(parent, n) then RangesEach(c, after) else Leaf(ShowLines(after)))
  }

  /** The edits of a repair: the binding on a line of its own above the site, and the local at
      every collected range. */
  function RepairEdits(c: Chain, parent: Parent, before: seq<Node>, n: Node, shape: Shape, after: seq<Node>): seq<Edit> {
    var at := |ShowLines(before)|;
    [Edit(at, at, Show(Val(c.local, c.Read())) + "\n")] + HitEdits(BlockRanges(c, parent, n, shape, after), at, c.local)
  }

  lemma {:induction false} LinesJoin(ns: seq<Node>, ms: seq<Node>)
    ensures ShowLines(ns + ms) == ShowLines(ns) + ShowLines(ms)
    decreases ns
  {
    if ns == [] {
      assert ns + ms == ms;
    } else {
      hide Show;
      LinesJoin(ns[1..], ms);
      assert (ns + ms)[1..] == ns[1..] + ms;
      var first, rest, more := Show(ns[0]), ShowLines(ns[1..]), ShowLines(ms);
      assert first + ("\n" + (rest + more)) == (first + ("\n" + rest)) + more;
    }
  }

  /** Main result: the edits are in order, and made on the text of the block they print the
      repaired block, with either edit engine. */
  lemma RepairPrints(c: Chain, parent: Parent, before: seq<Node>, n: Node, shape: Shape, after: seq<Node>)
    ensures var source, edits := ShowLines(before + [n] + after), RepairEdits(c, parent, before, n, shape, after);
      && Orderly(edits, 0, |source|)
      && Simultaneous(source, edits) == ShowLines(RepairBlock(c, parent, before, n, after, shape))
      && Simultaneous(source, Chosen(Sort(edits), 0, |source|)) == ShowLines(RepairBlock(c, parent, before, n, after, shape))
  {
    hide Show, Ranges, RangesEach, SiteRanges, Repair, RepairSite, RepairEach, Simultaneous, Splice, Orderly, HitEdits;
    var source, edits := ShowLines(before + [n] + after), RepairEdits(c, parent, before, n, shape, after);
    var rope, at := BlockRanges(c, parent, n, shape, after), |ShowLines(before)|;
    BlockGlue(c, parent, before, n, shape, after);
    assert source[at..at + |Glued(rope)|] == Glued(rope) && source[..|source|] == source;
    HitsRename(source, rope, at, c.local);
    var hits, line := HitEdits(rope, at, c.local), Show(Val(c.local, c.Read())) + "\n";
    SpliceEdit(source, Edit(at, at, line), hits, 0);
    assert source[0..at] == ShowLines(before);
    SimultaneousIsSplice(source, edits);
    EnginesAgree(source, edits);
    BlockPrints(c, parent, before, n, shape, after);
  }

  lemma BlockGlue(c: Chain, parent: Parent, before: seq<Node>, n: Node, shape: Shape, after: seq<Node>)
    ensures ShowLines(before + [n] + after) == ShowLines(before) + Glued(BlockRanges(c, parent, n, shape, after))
  {
    hide Show, Ranges, RangesEach, SiteRanges;
    SiteRangesGlue(c, n, shape);
    RangesEachGlue(c, after);
    LinesJoin(before, [n] + after);
    assert before + [n] + after == before + ([n] + after) && ([n] + after)[1..] == after;
  }

  lemma BlockPrints(c: Chain, parent: Parent, before: seq<Node>, n: Node, shape: Shape, after: seq<Node>)
    ensures ShowLines(RepairBlock(c, parent, before, n, after, shape))
         == ShowLines(before) + (Show(Val(c.local, c.Read())) + "\n") + Renamed(BlockRanges(c, parent, n, shape, after), c.local)
  {
    hide Show, Ranges, RangesEach, SiteRanges, Repair, RepairSite, RepairEach, SearchesRest, ShowLines;
    SiteRangesGlue(c, n, shape);
    RangesEachGlue(c, after);
    var rest := RepairRest(c, parent, n, after);
    var binding, site := Val(c.local, c.Read()), RepairSite(c, n, shape);
    assert RepairBlock(c, parent, before, n, after, shape) == before + ([binding] + ([site] + rest));
    LinesJoin(before, [binding] + ([site] + rest));
    LinesSplit(binding, [site] + rest);
    LinesSplit(site, rest);
  }

  lemma LinesSplit(n: Node, ns: seq<Node>)
    ensures ShowLines([n] + ns) == (Show(n) + "\n") + ShowLines(ns)
  {
    hide Show;
    assert ([n] + ns)[1..] == ns;
  }
}
