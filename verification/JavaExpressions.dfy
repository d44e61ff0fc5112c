/** The Java expression builders: syntax elements with grouping inserted by precedence. */
module JavaExpressions {
  import opened Options

  // ----- elements -----

  datatype Class = Identifier | Literal | Operator | Other

  /** A terminal with the trivia before it, or a node with a grammar kind. A terminal without text
      carries trivia only. */
  datatype Element = Token(text: string, class_: Class, leading: string := "") | Node(kind: string, children: seq<Element>)

  function Op(text: string): Element {
    Token(text, Operator)
  }

  function Trivia(): Element {
    Token("", Other, " ")
  }

  const ASSIGNMENTS: set<string> := {"=", "+=", "-=", "*=", "/=", "%=", "&=", "|=", "^=", "<<=", ">>=", ">>>="}

  function Precedence(op: string): nat {
    if op in ASSIGNMENTS then 2
    else if op == "||" then 4
    else if op == "&&" then 5
    else if op == "|" then 6
    else if op == "^" then 7
    else if op == "&" then 8
    else if op in {"==", "!="} then 9
    else if op in {"<", ">", "<=", ">=", "instanceof"} then 10
    else if op in {"<<", ">>", ">>>"} then 11
    else if op in {"+", "-"} then 12
    else if op in {"*", "/", "%"} then 13
    else 15
  }

  /** The first operator token among the children. */
  function FirstOperator(children: seq<Element>): Option<string> {
    if children == [] then None
    else if children[0].Token? && children[0].class_ == Operator then Some(children[0].text)
    else FirstOperator(children[1..])
  }

  function ElementPrecedence(e: Element): nat {
    if e.Token? then 18
    else match e.kind
      case "lambda_expression" => 1
      case "assignment_expression" => 2
      case "ternary_expression" => 3
      case "conditional_expression" => 3
      case "binary_expression" =>
        var op := FirstOperator(e.children);
        if op.Some? then Precedence(op.value) else 15
      case "unary_expression" => 14
      case "cast_expression" => 14
      case "method_invocation" => 16
      case "field_access" => 16
      case "array_access" => 16
      case "update_expression" => 16
      case _ => 18
  }

  function Grouped(e: Element, parent: nat, equalNeedsGrouping: bool): Element {
    if ElementPrecedence(e) < parent || (equalNeedsGrouping && ElementPrecedence(e) == parent) then
      Node("parenthesized_expression", [Op("("), e, Op(")")])
    else e
  }

  /** Leading trivia goes into a token's own text field, or in front of a node's children. */
  function WithLeading(e: Element): Element {
    if e.Token? then e.(leading := " " + e.leading) else Node(e.kind, [Trivia()] + e.children)
  }

  function BinaryExpression(op: string, left: Element, right: Element): Element {
    var assignment := Precedence(op) == 2;
    Node("binary_expression",
         [Grouped(left, Precedence(op), true), Token(op, Operator, " "), WithLeading(Grouped(right, Precedence(op), !assignment))])
  }

  function UnaryExpression(op: string, operand: Element): Element {
    Node("unary_expression", [Op(op), Grouped(operand, 14, true)])
  }

  function MemberAccess(receiver: Element, member: string): Element {
    Node("field_access", [Grouped(receiver, 16, false), Op("."), Token(member, Identifier)])
  }

  function CallExpression(callee: Element, arguments: seq<Element>): Element {
    Node("method_invocation",
         [Grouped(callee, 16, false), Node("argument_list", [Op("(")] + Separated(arguments) + [Op(")")])])
  }

  function Separated(arguments: seq<Element>): seq<Element> {
    if arguments == [] then []
    else if |arguments| == 1 then [arguments[0]]
    else [arguments[0], Op(",")] + SeparatedTail(arguments[1..])
  }

  function SeparatedTail(arguments: seq<Element>): seq<Element> {
    if arguments == [] then []
    else [WithLeading(arguments[0])] + (if |arguments| > 1 then [Op(",")] else []) + SeparatedTail(arguments[1..])
  }

  /** The tokens an element renders to, without trivia. */
  function Tokens(e: Element): seq<Element>
    decreases e, 0
  {
    if e.Token? then (if e.text == "" then [] else [e.(leading := "")]) else TokensOf(e.children)
  }

  function TokensOf(es: seq<Element>): seq<Element>
    decreases es, 0
  {
    if es == [] then [] else Tokens(es[0]) + TokensOf(es[1..])
  }

  /** What an element renders to. */
  function Text(e: Element): string
    decreases e, 0
  {
    if e.Token? then e.leading + e.text else TextOf(e.children)
  }

  function TextOf(es: seq<Element>): string
    decreases es, 0
  {
    if es == [] then "" else Text(es[0]) + TextOf(es[1..])
  }

  // ----- requested trees -----

  datatype Tree =
    | Name(name: string)
    | Constant(text: string)
    | Binary(op: string, left: Tree, right: Tree)
    | Unary(op: string, operand: Tree)
    | Member(receiver: Tree, member: string)
    | Call(callee: Tree, arguments: seq<Tree>)

  function Build(t: Tree): Element
    decreases t, 0
  {
    match t
    case Name(n) => Token(n, Identifier)
    case Constant(s) => Token(s, Literal)
    case Binary(op, l, r) => BinaryExpression(op, Build(l), Build(r))
    case Unary(op, e) => UnaryExpression(op, Build(e))
    case Member(r, m) => MemberAccess(Build(r), m)
    case Call(c, args) => CallExpression(Build(c), BuildAll(args))
  }

  function BuildAll(ts: seq<Tree>): (r: seq<Element>)
    ensures |r| == |ts|
    decreases ts, 0
  {
    if ts == [] then [] else [Build(ts[0])] + BuildAll(ts[1..])
  }
}
