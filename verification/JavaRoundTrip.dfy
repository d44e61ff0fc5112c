/** Printing and parsing undo each other. */
module JavaRoundTrip {
  import opened Options
  import opened JavaExpressions
  import opened JavaGrammar

  function Show(t: Tree): seq<Element> {
    Tokens(Build(t))
  }

  /** How tightly the built element binds. */
  function Level(t: Tree): nat {
    match t
    case Binary(op, _, _) => Precedence(op)
    case Unary(_, _) => 14
    case Member(_, _) => 16
    case Call(_, _) => 16
    case _ => 18
  }

  predicate NeedsGroup(t: Tree, parent: nat, equal: bool) {
    Level(t) < parent || (equal && Level(t) == parent)
  }

  function ShowGrouped(t: Tree, parent: nat, equal: bool): seq<Element> {
    if NeedsGroup(t, parent, equal) then [Op("(")] + Show(t) + [Op(")")] else Show(t)
  }

  // ----- what the builders render -----

  lemma TokensOfConcat(es: seq<Element>, fs: seq<Element>)
    ensures TokensOf(es + fs) == TokensOf(es) + TokensOf(fs)
  {
    if es == [] {
      assert es + fs == fs;
    } else {
      assert (es + fs)[1..] == es[1..] + fs;
      TokensOfConcat(es[1..], fs);
    }
  }

  lemma TokensOfOne(a: Element)
    ensures TokensOf([a]) == Tokens(a)
  {
  }

  lemma TokensOfFew(a: Element, b: Element, c: Element)
    ensures TokensOf([a, b]) == Tokens(a) + Tokens(b)
    ensures TokensOf([a, b, c]) == Tokens(a) + Tokens(b) + Tokens(c)
  {
    hide Tokens, TokensOf;
    TokensOfOne(a); TokensOfOne(b); TokensOfOne(c);
    TokensOfConcat([a], [b]);
    TokensOfConcat([a, b], [c]);
    assert [a] + [b] == [a, b] && [a, b] + [c] == [a, b, c];
  }

  lemma LeadingIsSilent(e: Element)
    ensures Tokens(WithLeading(e)) == Tokens(e)
  {
    if e.Node? {
      TokensOfConcat([Trivia()], e.children);
      TokensOfOne(Trivia());
    }
  }

  /** The precedence the grouping reads off a built element is the operator's own. */
  lemma BuiltLevel(t: Tree)
    requires Listed(t)
    ensures ElementPrecedence(Build(t)) == Level(t)
    ensures Build(t).Token? ==> Build(t).class_ != Operator
  {
    if t.Binary? {
      var children := BinaryExpression(t.op, Build(t.left), Build(t.right)).children;
      BuiltLevel(t.left);
      assert FirstOperator(children[1..]) == Some(t.op);
    }
  }

  lemma GroupedTokens(t: Tree, parent: nat, equal: bool)
    requires Listed(t)
    ensures Tokens(Grouped(Build(t), parent, equal)) == ShowGrouped(t, parent, equal)
    ensures Tokens(WithLeading(Grouped(Build(t), parent, equal))) == ShowGrouped(t, parent, equal)
  {
    BuiltLevel(t);
    LeadingIsSilent(Grouped(Build(t), parent, equal));
    TokensOfFew(Op("("), Build(t), Op(")"));
  }

  lemma ShowBinary(op: string, l: Tree, r: Tree)
    requires Listed(Binary(op, l, r))
    ensures Show(Binary(op, l, r))
         == ShowGrouped(l, Precedence(op), true) + [Op(op)] + ShowGrouped(r, Precedence(op), Precedence(op) != 2)
  {
    GroupedTokens(l, Precedence(op), true);
    GroupedTokens(r, Precedence(op), Precedence(op) != 2);
    var children := Build(Binary(op, l, r)).children;
    TokensOfFew(children[0], children[1], children[2]);
  }

  lemma ShowUnary(op: string, e: Tree)
    requires Listed(Unary(op, e))
    ensures Show(Unary(op, e)) == [Op(op)] + ShowGrouped(e, 14, true)
  {
    GroupedTokens(e, 14, true);
    TokensOfFew(Op(op), Grouped(Build(e), 14, true), Op(op));
  }

  lemma ShowMember(r: Tree, m: string)
    requires Listed(Member(r, m))
    ensures Show(Member(r, m)) == ShowGrouped(r, 16, false) + [Op("."), Token(m, Identifier)]
  {
    GroupedTokens(r, 16, false);
    TokensOfFew(Grouped(Build(r), 16, false), Op("."), Token(m, Identifier));
  }

  /** The arguments with their commas and the closing parenthesis. */
  function ShowArguments(args: seq<Tree>): seq<Element> {
    if args == [] then [Op(")")]
    else Show(args[0]) + (if |args| > 1 then [Op(",")] else []) + ShowArguments(args[1..])
  }

  lemma {:induction false} TailTokens(args: seq<Tree>)
    requires args != []
    ensures TokensOf(SeparatedTail(BuildAll(args))) + [Op(")")] == ShowArguments(args)
  {
    hide Build, WithLeading, Tokens;
    var es := BuildAll(args);
    LeadingIsSilent(es[0]);
    assert es[1..] == BuildAll(args[1..]);
    OperatorTokens(",");
    if |args| > 1 {
      var front := [WithLeading(es[0]), Op(",")];
      assert SeparatedTail(es) == front + SeparatedTail(es[1..]);
      TokensOfConcat(front, SeparatedTail(es[1..]));
      TokensOfFew(front[0], front[1], front[1]);
      TailTokens(args[1..]);
    } else {
      assert SeparatedTail(es) == [WithLeading(es[0])];
      TokensOfOne(WithLeading(es[0]));
      assert ShowArguments(args[1..]) == [Op(")")];
    }
  }

  lemma OperatorTokens(text: string)
    ensures text != "" ==> Tokens(Op(text)) == [Op(text)]
  {
  }

  lemma ArgumentTokens(args: seq<Tree>)
    ensures TokensOf(Separated(BuildAll(args))) + [Op(")")] == ShowArguments(args)
  {
    hide Build, Tokens;
    var es := BuildAll(args);
    if |args| == 1 {
      TokensOfOne(es[0]);
      assert ShowArguments(args[1..]) == [Op(")")];
    } else if |args| > 1 {
      assert es[1..] == BuildAll(args[1..]);
      var front := [es[0], Op(",")];
      TokensOfConcat(front, SeparatedTail(es[1..]));
      TokensOfFew(es[0], Op(","), es[0]);
      OperatorTokens(",");
      TailTokens(args[1..]);
    }
  }

  lemma ShowCall(c: Tree, args: seq<Tree>)
    requires Listed(Call(c, args))
    ensures Show(Call(c, args)) == ShowGrouped(c, 16, false) + [Op("(")] + ShowArguments(args)
  {
    assert Show(Call(c, args)) == TokensOf(Build(Call(c, args)).children);
    assert Build(Call(c, args)) == CallExpression(Build(c), BuildAll(args));
    hide Build, Tokens, TokensOf, Grouped, Separated, Show, ShowGrouped, ShowArguments;
    GroupedTokens(c, 16, false);
    var list := Node("argument_list", [Op("(")] + Separated(BuildAll(args)) + [Op(")")]);
    TokensOfFew(Grouped(Build(c), 16, false), list, list);
    ListTokens(args);
  }

  lemma ListTokens(args: seq<Tree>)
    ensures Tokens(Node("argument_list", [Op("(")] + Separated(BuildAll(args)) + [Op(")")])) == [Op("(")] + ShowArguments(args)
  {
    var es := Separated(BuildAll(args));
    TokensOfList(Node("argument_list", [Op("(")] + es + [Op(")")]));
    hide Tokens, TokensOf;
    TokensOfConcat([Op("(")] + es, [Op(")")]);
    TokensOfConcat([Op("(")], es);
    TokensOfOne(Op("("));
    TokensOfOne(Op(")"));
    OperatorTokens("(");
    OperatorTokens(")");
    ArgumentTokens(args);
  }

  lemma TokensOfList(e: Element)
    requires e.Node?
    ensures Tokens(e) == TokensOf(e.children)
  {
  }

  // ----- the builders' table and the grammar's levels -----

  /** An operator binds as tightly as its level in the grammar says. */
  lemma OperatorLevel(op: string)
    ensures forall level :: 2 <= level <= 13 ==> (op in BinaryOperators(level) <==> Precedence(op) == level)
    ensures IsBinary(op) <==> 2 <= Precedence(op) <= 13
    ensures IsBinary(op) ==> op !in {"", ".", "(", ")", ","} && Precedence(op) != 3
  {
    if 2 <= Precedence(op) <= 13 { assert op in BinaryOperators(Precedence(op)); }
  }

  // ----- where a parse stops -----

  /** The next token cannot continue an expression parsed at `level`. */
  predicate Stops(level: nat, rest: seq<Element>) {
    rest == [] || (
      && rest[0].Token? && rest[0].class_ == Operator
      && rest[0].text !in {".", "("}
      && (Precedence(rest[0].text) == 15 || Precedence(rest[0].text) < level))
  }

  predicate StartsPlain(ts: seq<Element>) {
    ts != [] && !(ts[0].Token? && ts[0].class_ == Operator && ts[0].text in PrefixOperators())
  }

  /** A tighter parse that stops here is the looser parse, too. */
  lemma {:induction false} Loosen(from: nat, level: nat, ts: seq<Element>, t: Tree, rest: seq<Element>)
    requires 2 <= level <= from && from != 3 && from != 15 && from <= 16
    requires level != 3 && level != 15
    requires Parse(from, ts) == Some((t, rest)) && Stops(level, rest)
    requires from == 16 ==> StartsPlain(ts)
    ensures Parse(level, ts) == Some((t, rest))
    decreases from - level
  {
    if rest != [] { OperatorLevel(rest[0].text); }
    hide BinaryOperators, Precedence;
    if level < from {
      var next := if level == 2 then 4 else if level == 14 then 16 else level + 1;
      Loosen(from, next, ts, t, rest);
    }
  }

  lemma FirstToken(t: Tree)
    requires Listed(t) && Level(t) >= 16
    ensures StartsPlain(Show(t))
    decreases t
  {
    match t {
      case Member(r, m) => ShowMember(r, m); if !NeedsGroup(r, 16, false) { FirstToken(r); }
      case Call(c, args) => ShowCall(c, args); if !NeedsGroup(c, 16, false) { FirstToken(c); }
      case _ =>
    }
  }

  /** A printed expression parses back to itself, up to whatever may follow it. */
  lemma {:induction false} ParsesBack(t: Tree, level: nat, rest: seq<Element>)
    requires Listed(t) && WellPlaced(t)
    requires 2 <= level <= 16 && level <= Level(t) && level != 3 && level != 15
    requires Stops(level, rest)
    ensures Parse(level, Show(t) + rest) == Some((t, rest))
    decreases t, 2
  {
    hide Build, Show;
    match t {
      case Binary(op, l, r) =>
        if Precedence(op) == 2 {
          AssignmentBack(op, l, r, rest);
        } else {
          OperatorBack(op, l, r, rest);
          Loosen(Precedence(op), level, Show(t) + rest, t, rest);
        }
      case Unary(op, e) =>
        ShowUnary(op, e);
        var operand := ShowGrouped(e, 14, true) + rest;
        assert Show(t) + rest == [Op(op)] + operand && ([Op(op)] + operand)[1..] == operand;
        GroupParsesBack(e, 14, true, 14, rest);
        Loosen(14, level, Show(t) + rest, t, rest);
      case _ =>
        SuffixesBack(t, rest);
        FirstToken(t);
        Loosen(16, level, Show(t) + rest, t, rest);
    }
  }

  lemma {:induction false} AssignmentBack(op: string, l: Tree, r: Tree, rest: seq<Element>)
    requires Listed(Binary(op, l, r)) && WellPlaced(Binary(op, l, r))
    requires Precedence(op) == 2 && Stops(2, rest)
    ensures Parse(2, Show(Binary(op, l, r)) + rest) == Some((Binary(op, l, r), rest))
    decreases Binary(op, l, r), 0
  {
    hide Build, Show, BinaryOperators, Precedence;
    OperatorLevel(op);
    if rest != [] { OperatorLevel(rest[0].text); }
    ShowBinary(op, l, r);
    var right := ShowGrouped(r, 2, false) + rest;
    var tail := [Op(op)] + right;
    assert Show(Binary(op, l, r)) + rest == ShowGrouped(l, 2, true) + tail;
    assert tail[1..] == right;
    LevelAtLeast(l);
    LevelAtLeast(r);
    GroupParsesBack(l, 2, true, 4, tail);
    GroupParsesBack(r, 2, false, 2, rest);
  }

  lemma {:induction false} OperatorBack(op: string, l: Tree, r: Tree, rest: seq<Element>)
    requires Listed(Binary(op, l, r)) && WellPlaced(Binary(op, l, r))
    requires 4 <= Precedence(op) <= 13 && Stops(Precedence(op), rest)
    ensures Parse(Precedence(op), Show(Binary(op, l, r)) + rest) == Some((Binary(op, l, r), rest))
    decreases Binary(op, l, r), 0
  {
    hide Build, Show, BinaryOperators, Precedence;
    OperatorLevel(op);
    if rest != [] { OperatorLevel(rest[0].text); }
    var p := Precedence(op);
    ShowBinary(op, l, r);
    var right := ShowGrouped(r, p, true) + rest;
    var tail := [Op(op)] + right;
    assert Show(Binary(op, l, r)) + rest == ShowGrouped(l, p, true) + tail;
    assert tail[1..] == right;
    GroupParsesBack(l, p, true, p + 1, tail);
    GroupParsesBack(r, p, true, p + 1, rest);
    assert Continue(p, l, tail) == Continue(p, Binary(op, l, r), rest);
  }

  /** The same for an operand, grouped or not. */
  lemma {:induction false} GroupParsesBack(t: Tree, parent: nat, equal: bool, level: nat, rest: seq<Element>)
    requires Listed(t) && WellPlaced(t)
    requires 2 <= level <= 14 && level != 3 && Stops(level, rest)
    requires !NeedsGroup(t, parent, equal) ==> level <= Level(t)
    ensures Parse(level, ShowGrouped(t, parent, equal) + rest) == Some((t, rest))
    decreases t, 4
  {
    hide Build;
    if NeedsGroup(t, parent, equal) {
      GroupSuffixesBack(t, parent, equal, rest);
      Loosen(16, level, ShowGrouped(t, parent, equal) + rest, t, rest);
    } else {
      ParsesBack(t, level, rest);
    }
  }

  /** What stands in front of `.` or `(` parses to the point where the suffixes go on. */
  lemma {:induction false} GroupSuffixesBack(t: Tree, parent: nat, equal: bool, rest: seq<Element>)
    requires Listed(t) && WellPlaced(t) && (NeedsGroup(t, parent, equal) || Level(t) >= 16)
    ensures Parse(16, ShowGrouped(t, parent, equal) + rest) == Suffixes(t, rest)
    ensures StartsPlain(ShowGrouped(t, parent, equal))
    decreases t, 3
  {
    DelimiterStops(rest);
    LevelAtLeast(t);
    hide Build, Show, Parse, Suffixes, Stops, Level, BinaryOperators, Precedence, Listed, WellPlaced;
    if NeedsGroup(t, parent, equal) {
      var inner := Show(t) + ([Op(")")] + rest);
      assert ShowGrouped(t, parent, equal) + rest == [Op("(")] + inner;
      ParsesBack(t, 2, [Op(")")] + rest);
      ParenthesesBack(inner, t, rest);
    } else {
      SuffixesBack(t, rest);
      FirstToken(t);
    }
  }

  lemma ParenthesesBack(inner: seq<Element>, t: Tree, rest: seq<Element>)
    requires Parse(2, inner) == Some((t, [Op(")")] + rest))
    ensures Parse(16, [Op("(")] + inner) == Suffixes(t, rest)
  {
    hide Suffixes;
    var ts, end := [Op("(")] + inner, [Op(")")] + rest;
    assert ts[1..] == inner && end[1..] == rest;
    assert Primary(ts) == Some((t, rest));
  }

  lemma LevelAtLeast(t: Tree)
    requires Listed(t)
    ensures Level(t) >= 2 && Level(t) != 3 && Level(t) != 15
  {
  }

  lemma {:induction false} SuffixesBack(t: Tree, rest: seq<Element>)
    requires Listed(t) && WellPlaced(t) && Level(t) >= 16
    ensures Parse(16, Show(t) + rest) == Suffixes(t, rest)
    decreases t, 1
  {
    hide Build;
    match t {
      case Name(n) => AtomTokens(t); assert ([Token(n, Identifier)] + rest)[1..] == rest;
      case Constant(s) => AtomTokens(t); assert ([Token(s, Literal)] + rest)[1..] == rest;
      case Member(r, m) => MemberBack(r, m, rest);
      case Call(c, args) => CallBack(c, args, rest);
    }
  }

  lemma {:induction false} MemberBack(r: Tree, m: string, rest: seq<Element>)
    requires Listed(Member(r, m)) && WellPlaced(Member(r, m))
    ensures Parse(16, Show(Member(r, m)) + rest) == Suffixes(Member(r, m), rest)
    decreases Member(r, m), 0
  {
    hide Build;
    ShowMember(r, m);
    var tail := [Op("."), Token(m, Identifier)] + rest;
    assert Show(Member(r, m)) + rest == ShowGrouped(r, 16, false) + tail;
    assert tail[1..] == [Token(m, Identifier)] + rest && tail[2..] == rest;
    GroupSuffixesBack(r, 16, false, tail);
  }

  lemma {:induction false} CallBack(c: Tree, args: seq<Tree>, rest: seq<Element>)
    requires Listed(Call(c, args)) && WellPlaced(Call(c, args))
    ensures Parse(16, Show(Call(c, args)) + rest) == Suffixes(Call(c, args), rest)
    decreases Call(c, args), 0
  {
    hide Build;
    ShowCall(c, args);
    var tail := [Op("(")] + (ShowArguments(args) + rest);
    assert Show(Call(c, args)) + rest == ShowGrouped(c, 16, false) + tail;
    assert tail[1..] == ShowArguments(args) + rest;
    GroupSuffixesBack(c, 16, false, tail);
    ArgumentsBack(args, rest);
  }

  lemma AtomTokens(t: Tree)
    requires Listed(t)
    ensures t.Name? ==> Show(t) == [Token(t.name, Identifier)]
    ensures t.Constant? ==> Show(t) == [Token(t.text, Literal)]
  {
  }

  lemma {:induction false} ArgumentsBack(args: seq<Tree>, rest: seq<Element>)
    requires ListedAll(args) && WellPlacedAll(args)
    ensures Arguments(ShowArguments(args) + rest) == Some((args, rest))
    decreases args, 5
  {
    hide Build;
    if args == [] {
      assert ([Op(")")] + rest)[1..] == rest;
    } else {
      MoreArgumentsBack(args, rest);
      NotClosing(args[0]);
    }
  }

  /** No expression starts with a closing parenthesis. */
  lemma NotClosing(t: Tree)
    requires Listed(t)
    ensures Show(t) != [] && !At(Show(t), ")")
    decreases t
  {
    match t {
      case Binary(op, l, r) => ShowBinary(op, l, r); if !NeedsGroup(l, Precedence(op), true) { NotClosing(l); }
      case Unary(op, e) => ShowUnary(op, e);
      case _ => FirstOfSuffixed(t);
    }
  }

  lemma FirstOfSuffixed(t: Tree)
    requires Listed(t) && Level(t) >= 16
    ensures Show(t) != [] && !At(Show(t), ")")
    decreases t
  {
    match t {
      case Member(r, m) => ShowMember(r, m); if !NeedsGroup(r, 16, false) { FirstOfSuffixed(r); }
      case Call(c, args) => ShowCall(c, args); if !NeedsGroup(c, 16, false) { FirstOfSuffixed(c); }
      case _ => AtomTokens(t);
    }
  }

  lemma {:induction false} MoreArgumentsBack(args: seq<Tree>, rest: seq<Element>)
    requires args != [] && ListedAll(args) && WellPlacedAll(args)
    ensures MoreArguments(ShowArguments(args) + rest) == Some((args, rest))
    decreases args, 4
  {
    hide *;
    HeadArguments(args);
    LevelAtLeast(args[0]);
    if |args| == 1 {
      LastArgument(args);
      Rejoin(Show(args[0]), [Op(")")], rest);
      DelimiterStops(rest);
      ParsesBack(args[0], 2, [Op(")")] + rest);
      LastUnfold(ShowArguments(args) + rest, args[0], rest);
      assert args == [args[0]];
    } else {
      var more := ShowArguments(args[1..]);
      FirstArgument(args);
      Rejoin(Show(args[0]), [Op(",")] + more, rest);
      Rejoin([Op(",")], more, rest);
      DelimiterStops(more + rest);
      ParsesBack(args[0], 2, [Op(",")] + (more + rest));
      MoreArgumentsBack(args[1..], rest);
      NextUnfold(ShowArguments(args) + rest, args[0], more + rest, args[1..], rest);
      assert [args[0]] + args[1..] == args;
    }
  }

  lemma Rejoin(a: seq<Element>, b: seq<Element>, c: seq<Element>)
    ensures (a + b) + c == a + (b + c)
  {
  }

  lemma HeadArguments(args: seq<Tree>)
    requires args != [] && ListedAll(args) && WellPlacedAll(args)
    ensures Listed(args[0]) && WellPlaced(args[0]) && ListedAll(args[1..]) && WellPlacedAll(args[1..])
  {
    hide Listed, WellPlaced;
  }

  /** One argument, and what its delimiter says. */
  lemma LastUnfold(ts: seq<Element>, t: Tree, rest: seq<Element>)
    requires Parse(2, ts) == Some((t, [Op(")")] + rest))
    ensures MoreArguments(ts) == Some(([t], rest))
  {
    hide Parse;
    assert ([Op(")")] + rest)[1..] == rest;
  }

  lemma NextUnfold(ts: seq<Element>, t: Tree, more: seq<Element>, args: seq<Tree>, rest: seq<Element>)
    requires Parse(2, ts) == Some((t, [Op(",")] + more)) && MoreArguments(more) == Some((args, rest))
    ensures MoreArguments(ts) == Some(([t] + args, rest))
  {
    hide Parse;
    assert ([Op(",")] + more)[1..] == more;
  }

  lemma DelimiterStops(rest: seq<Element>)
    ensures Stops(2, [Op(")")] + rest) && Stops(2, [Op(",")] + rest)
  {
  }

  lemma LastArgument(args: seq<Tree>)
    requires |args| == 1 && ListedAll(args)
    ensures ShowArguments(args) == Show(args[0]) + [Op(")")]
  {
    hide Build, Show;
    assert ShowArguments(args[1..]) == [Op(")")];
  }

  lemma FirstArgument(args: seq<Tree>)
    requires |args| > 1 && ListedAll(args)
    ensures ShowArguments(args) == Show(args[0]) + ([Op(",")] + ShowArguments(args[1..]))
  {
    hide Build, Show;
  }

  // ----- the other direction -----

  /** Whatever the parser accepts is well placed. */
  lemma ParsedIsWellPlaced(level: nat, ts: seq<Element>)
    ensures Parse(level, ts).Some? ==> WellPlaced(Parse(level, ts).value.0)
    decreases |ts|, 20 - level, 1
  {
    if level <= 3 {
      ParsedIsWellPlaced(4, ts);
      var r := Parse(4, ts);
      if r.Some? && OperatorAt(r.value.1, 2) { ParsedIsWellPlaced(2, r.value.1[1..]); }
    } else if level <= 13 {
      ParsedIsWellPlaced(level + 1, ts);
      var r := Parse(level + 1, ts);
      if r.Some? { ContinuedIsWellPlaced(level, r.value.0, r.value.1); }
    } else if level == 14 {
      if ts != [] { ParsedIsWellPlaced(14, ts[1..]); }
      ParsedIsWellPlaced(16, ts);
    } else if level <= 16 {
      if At(ts, "(") { ParsedIsWellPlaced(2, ts[1..]); }
      var r := Primary(ts);
      if r.Some? { SuffixedIsWellPlaced(r.value.0, r.value.1); }
    }
  }

  lemma ContinuedIsWellPlaced(level: nat, left: Tree, ts: seq<Element>)
    requires 4 <= level <= 13 && WellPlaced(left)
    ensures Continue(level, left, ts).Some? ==> WellPlaced(Continue(level, left, ts).value.0)
    decreases |ts|, 0, 0
  {
    hide BinaryOperators, Precedence;
    if OperatorAt(ts, level) {
      OperatorLevel(ts[0].text);
      ParsedIsWellPlaced(level + 1, ts[1..]);
      var r := Parse(level + 1, ts[1..]);
      if r.Some? { ContinuedIsWellPlaced(level, Binary(ts[0].text, left, r.value.0), r.value.1); }
    }
  }

  lemma SuffixedIsWellPlaced(t: Tree, ts: seq<Element>)
    requires WellPlaced(t)
    ensures Suffixes(t, ts).Some? ==> WellPlaced(Suffixes(t, ts).value.0)
    decreases |ts|, 0, 0
  {
    if At(ts, ".") && WordAt(ts[1..]) {
      SuffixedIsWellPlaced(Member(t, ts[1].text), ts[2..]);
    } else if At(ts, "(") && Place(t) {
      ArgumentsAreWellPlaced(ts[1..]);
      var r := Arguments(ts[1..]);
      if r.Some? { SuffixedIsWellPlaced(Call(t, r.value.0), r.value.1); }
    }
  }

  lemma ArgumentsAreWellPlaced(ts: seq<Element>)
    ensures Arguments(ts).Some? ==> WellPlacedAll(Arguments(ts).value.0)
    decreases |ts|, 20, 0
  {
    if !At(ts, ")") { MoreAreWellPlaced(ts); }
  }

  lemma MoreAreWellPlaced(ts: seq<Element>)
    ensures MoreArguments(ts).Some? ==> WellPlacedAll(MoreArguments(ts).value.0)
    decreases |ts|, 19, 0
  {
    ParsedIsWellPlaced(2, ts);
    var r := Parse(2, ts);
    if r.Some? && At(r.value.1, ",") {
      MoreAreWellPlaced(r.value.1[1..]);
      var more := MoreArguments(r.value.1[1..]);
      if more.Some? { assert ([r.value.0] + more.value.0)[1..] == more.value.0; }
    }
  }

  /** Main result. A built expression reads back as the tree it was built from, up to
      parentheses, exactly when every assignment in it has a place on its left and every call
      a method name. */
  lemma PrintedReadsBack(t: Tree)
    requires Listed(t)
    ensures Parse(2, Show(t)) == Some((t, [])) <==> WellPlaced(t)
  {
    LevelAtLeast(t);
    assert Show(t) + [] == Show(t);
    ParsedIsWellPlaced(2, Show(t));
    if WellPlaced(t) {
      ParsesBack(t, 2, []);
    }
  }

  // ----- elements that were parsed -----

  function InGroup(e: Element): Element {
    Node("parenthesized_expression", [Op("("), e, Op(")")])
  }

  /** What becomes of an element left and right of a binary operator, below a prefix operator, in
      front of a member, and in front of arguments. */
  ghost predicate Stands(e: Element, op: string, left: Element, right: Element, below: Element) {
    && (forall other :: BinaryExpression(op, e, other).children[0] == left)
    && (forall other :: BinaryExpression(op, other, e).children[2] == WithLeading(right))
    && (forall prefix :: UnaryExpression(prefix, e).children[1] == below)
    && (forall member :: MemberAccess(e, member).children[0] == below)
    && (forall arguments :: CallExpression(e, arguments).children[0] == below)
  }

  /** Elements that were parsed are grouped as their productions ask: a lambda everywhere, an
      assignment unless it stands right of one, a conditional unless it stands beside one, a
      cast or prefix operator below the postfix forms and other prefix operators, and nothing
      else anywhere. */
  lemma ParsedElementsGrouped(e: Element, op: string)
    requires IsBinary(op) && (e.Node? ==> e.kind != "binary_expression")
    ensures var kind, assignment, group := if e.Node? then e.kind else "", op in BinaryOperators(2), InGroup(e);
      if kind == "lambda_expression" then Stands(e, op, group, group, group)
      else if kind == "assignment_expression" then Stands(e, op, group, if assignment then e else group, group)
      else if kind in {"ternary_expression", "conditional_expression"} then
        Stands(e, op, if assignment then e else group, if assignment then e else group, group)
      else if kind in {"unary_expression", "cast_expression"} then Stands(e, op, e, e, group)
      else Stands(e, op, e, e, e)
  {
    OperatorLevel(op);
    hide BinaryOperators, Precedence;
  }
}
