/** A parser for Java expressions, one level of the grammar after the other, as sections 15.15 to
    15.26 of the Java Language Specification have them. */
module JavaGrammar {
  import opened Options
  import opened JavaExpressions

  // ----- the operators of the grammar -----

  /** The operators of each level, from sections 15.26 (2) and 15.24 down to 15.17 (4 to 13) of the
      Java Language Specification. */
  function BinaryOperators(level: nat): set<string> {
    match level
    case 2 => {"=", "*=", "/=", "%=", "+=", "-=", "<<=", ">>=", ">>>=", "&=", "^=", "|="}
    case 4 => {"||"}
    case 5 => {"&&"}
    case 6 => {"|"}
    case 7 => {"^"}
    case 8 => {"&"}
    case 9 => {"==", "!="}
    case 10 => {"<", ">", "<=", ">=", "instanceof"}
    case 11 => {"<<", ">>", ">>>"}
    case 12 => {"+", "-"}
    case 13 => {"*", "/", "%"}
    case _ => {}
  }

  /** Section 15.15. */
  function PrefixOperators(): set<string> {
    {"+", "-", "~", "!"}
  }

  predicate IsBinary(op: string) {
    exists level :: 2 <= level <= 13 && op in BinaryOperators(level)
  }

  // ----- trees it covers -----

  /** Names, literals and operators of the grammar. */
  predicate Listed(t: Tree)
    decreases t, 0
  {
    match t
    case Name(n) => n != ""
    case Constant(s) => s != ""
    case Binary(op, l, r) => IsBinary(op) && Listed(l) && Listed(r)
    case Unary(op, e) => op in PrefixOperators() && Listed(e)
    case Member(r, m) => m != "" && Listed(r)
    case Call(c, args) => Listed(c) && ListedAll(args)
  }

  predicate ListedAll(ts: seq<Tree>)
    decreases ts, 0
  {
    ts == [] || (Listed(ts[0]) && ListedAll(ts[1..]))
  }

  /** What may stand left of an assignment, and in front of an argument list: a name or a field. */
  predicate Place(t: Tree) {
    t.Name? || t.Member?
  }

  /** Every assignment has a place to assign to, every call a method name. */
  predicate WellPlaced(t: Tree)
    decreases t, 0
  {
    match t
    case Name(_) => true
    case Constant(_) => true
    case Binary(op, l, r) => (op in BinaryOperators(2) ==> Place(l)) && WellPlaced(l) && WellPlaced(r)
    case Unary(_, e) => WellPlaced(e)
    case Member(r, _) => WellPlaced(r)
    case Call(c, args) => Place(c) && WellPlaced(c) && WellPlacedAll(args)
  }

  predicate WellPlacedAll(ts: seq<Tree>)
    decreases ts, 0
  {
    ts == [] || (WellPlaced(ts[0]) && WellPlacedAll(ts[1..]))
  }

  // ----- the parser -----

  type Parsed = Option<(Tree, seq<Element>)>

  predicate At(ts: seq<Element>, text: string) {
    ts != [] && ts[0].Token? && ts[0].class_ == Operator && ts[0].text == text
  }

  predicate OperatorAt(ts: seq<Element>, level: nat) {
    ts != [] && ts[0].Token? && ts[0].class_ == Operator && ts[0].text in BinaryOperators(level)
  }

  predicate WordAt(ts: seq<Element>) {
    ts != [] && ts[0].Token? && ts[0].class_ == Identifier
  }

  /** Expressions binding at least as tightly as `level`: 2 assignment, 4 to 13 the binary
      operators, 14 the prefix operators, 16 what follows a primary. */
  function Parse(level: nat, ts: seq<Element>): (r: Parsed)
    ensures r.Some? ==> |r.value.1| < |ts|
    decreases |ts|, 20 - level, 1
  {
    if level <= 3 then
      match Parse(4, ts)
      case None => None
      case Some((left, rest)) =>
        if OperatorAt(rest, 2) then
          if !Place(left) then None
          else match Parse(2, rest[1..])
            case None => None
            case Some((right, end)) => Some((Binary(rest[0].text, left, right), end))
        else Some((left, rest))
    else if level <= 13 then
      match Parse(level + 1, ts)
      case None => None
      case Some((left, rest)) => Continue(level, left, rest)
    else if level == 14 then
      if ts != [] && ts[0].Token? && ts[0].class_ == Operator && ts[0].text in PrefixOperators() then
        match Parse(14, ts[1..])
        case None => None
        case Some((e, rest)) => Some((Unary(ts[0].text, e), rest))
      else Parse(16, ts)
    else if level <= 16 then
      match Primary(ts)
      case None => None
      case Some((t, rest)) => Suffixes(t, rest)
    else None
  }

  /** Left-associative: more operators of the same level, each with a tighter right operand. */
  function Continue(level: nat, left: Tree, ts: seq<Element>): (r: Parsed)
    requires 4 <= level <= 13
    ensures r.Some? ==> |r.value.1| <= |ts|
    decreases |ts|, 0, 0
  {
    if OperatorAt(ts, level) then
      match Parse(level + 1, ts[1..])
      case None => None
      case Some((right, rest)) => Continue(level, Binary(ts[0].text, left, right), rest)
    else Some((left, ts))
  }

  function Primary(ts: seq<Element>): (r: Parsed)
    ensures r.Some? ==> |r.value.1| < |ts|
    decreases |ts|, 0, 0
  {
    if WordAt(ts) then Some((Name(ts[0].text), ts[1..]))
    else if ts != [] && ts[0].Token? && ts[0].class_ == Literal then Some((Constant(ts[0].text), ts[1..]))
    else if At(ts, "(") then
      match Parse(2, ts[1..])
      case None => None
      case Some((t, rest)) => if At(rest, ")") then Some((t, rest[1..])) else None
    else None
  }

  function Suffixes(t: Tree, ts: seq<Element>): (r: Parsed)
    ensures r.Some? ==> |r.value.1| <= |ts|
    decreases |ts|, 0, 0
  {
    if At(ts, ".") then
      if WordAt(ts[1..]) then Suffixes(Member(t, ts[1].text), ts[2..]) else None
    else if At(ts, "(") then
      if !Place(t) then None
      else match Arguments(ts[1..])
        case None => None
        case Some((args, rest)) => Suffixes(Call(t, args), rest)
    else Some((t, ts))
  }

  function Arguments(ts: seq<Element>): (r: Option<(seq<Tree>, seq<Element>)>)
    ensures r.Some? ==> |r.value.1| < |ts|
    decreases |ts|, 20, 0
  {
    if At(ts, ")") then Some(([], ts[1..]))
    else MoreArguments(ts)
  }

  function MoreArguments(ts: seq<Element>): (r: Option<(seq<Tree>, seq<Element>)>)
    ensures r.Some? ==> |r.value.1| < |ts|
    decreases |ts|, 19, 0
  {
    match Parse(2, ts)
    case None => None
    case Some((t, rest)) =>
      if At(rest, ")") then Some(([t], rest[1..]))
      else if At(rest, ",") then
        match MoreArguments(rest[1..])
        case None => None
        case Some((more, end)) => Some(([t] + more, end))
      else None
  }
}
