/** From the text of a built expression back to its tokens, by the longest match of section 3.2 of the
    Java Language Specification: the blanks the builders write are enough to keep tokens apart. */
module JavaText {
  import opened Options
  import opened JavaExpressions
  import opened JavaGrammar
  import opened JavaRoundTrip

  // ----- reading tokens -----

  predicate IsWordChar(c: char) {
    'a' <= c <= 'z' || 'A' <= c <= 'Z' || '0' <= c <= '9' || c == '_' || c == '$' || c >= '\U{80}'
  }

  function WordLength(s: string): (n: nat)
    ensures n <= |s| && (forall i :: 0 <= i < n ==> IsWordChar(s[i])) && (n < |s| ==> !IsWordChar(s[n]))
  {
    if s != [] && IsWordChar(s[0]) then WordLength(s[1..]) + 1 else 0
  }

  /** The separators and operators of `n` letters, sections 3.11 and 3.12. */
  function Symbols(n: nat): set<string> {
    match n
    case 1 => {"(", ")", "{", "}", "[", "]", ";", ",", ".", "@", "=", ">", "<", "!", "~", "?", ":",
               "+", "-", "*", "/", "&", "|", "^", "%"}
    case 2 => {"::", "->", "==", ">=", "<=", "!=", "&&", "||", "++", "--", "<<", ">>",
               "+=", "-=", "*=", "/=", "&=", "|=", "^=", "%="}
    case 3 => {"...", ">>>", "<<=", ">>="}
    case 4 => {">>>="}
    case _ => {}
  }

  predicate SymbolAt(s: string, n: nat) {
    n <= |s| && s[..n] in Symbols(n)
  }

  function SymbolLength(s: string): (n: nat)
    ensures n <= |s|
  {
    if SymbolAt(s, 4) then 4
    else if SymbolAt(s, 3) then 3
    else if SymbolAt(s, 2) then 2
    else if SymbolAt(s, 1) then 1
    else 0
  }

  predicate OpensComment(s: string) {
    |s| >= 2 && s[0] == '/' && (s[1] == '/' || s[1] == '*')
  }

  function Ahead(front: seq<string>, rest: Option<seq<string>>): Option<seq<string>> {
    if rest.None? then None else Some(front + rest.value)
  }

  /** The tokens of a text without comments and quotes. */
  function Read(s: string): Option<seq<string>>
    decreases |s|
  {
    if s == [] then Some([])
    else if s[0] == ' ' then Read(s[1..])
    else if IsWordChar(s[0]) then
      var n := WordLength(s);
      if n == 0 then None else Ahead([s[..n]], Read(s[n..]))
    else
      var n := SymbolLength(s);
      if OpensComment(s) || n == 0 then None else Ahead([s[..n]], Read(s[n..]))
  }

  /** Which kind of token a text is. */
  function Classified(text: string): Element {
    if text == "" || !IsWordChar(text[0]) || text == "instanceof" then Op(text)
    else if '0' <= text[0] <= '9' || text in {"true", "false", "null"} then Token(text, Literal)
    else Token(text, Identifier)
  }

  function Elements(texts: seq<string>): (r: seq<Element>)
    ensures |r| == |texts| && forall i :: 0 <= i < |r| ==> r[i] == Classified(texts[i])
  {
    seq(|texts|, i requires 0 <= i < |texts| => Classified(texts[i]))
  }

  predicate Word(w: string) {
    w != "" && forall c :: c in w ==> IsWordChar(c)
  }

  /** Names and constants are words of their kind. */
  predicate Worded(t: Tree)
    decreases t, 0
  {
    match t
    case Name(n) => Word(n) && Classified(n) == Token(n, Identifier)
    case Constant(s) => Word(s) && Classified(s) == Token(s, Literal)
    case Binary(_, l, r) => Worded(l) && Worded(r)
    case Unary(_, e) => Worded(e)
    case Member(r, m) => Worded(r) && Word(m) && Classified(m) == Token(m, Identifier)
    case Call(c, args) => Worded(c) && WordedAll(args)
  }

  predicate WordedAll(ts: seq<Tree>)
    decreases ts, 0
  {
    ts == [] || (Worded(ts[0]) && WordedAll(ts[1..]))
  }

  // ----- one token -----

  /** A text that does not go on with the word or symbol before it. */
  predicate Boundary(rest: string) {
    rest == "" || rest[0] in {' ', '(', ')', ',', '.'}
  }

  lemma AheadBoth(a: seq<string>, b: seq<string>, rest: Option<seq<string>>)
    ensures Ahead(a, Ahead(b, rest)) == Ahead(a + b, rest) && Ahead([], rest) == rest
  {
    if rest.Some? { assert a + (b + rest.value) == a + b + rest.value && [] + rest.value == rest.value; }
  }

  lemma {:induction false} WordEnds(w: string, rest: string)
    requires Word(w) && Boundary(rest)
    ensures WordLength(w + rest) == |w|
  {
    assert forall i :: 0 <= i < |w| ==> (w + rest)[i] == w[i] && w[i] in w;
    assert rest != "" ==> (w + rest)[|w|] == rest[0];
  }

  lemma WordRead(w: string, rest: string)
    requires Word(w) && Boundary(rest)
    ensures Read(w + rest) == Ahead([w], Read(rest))
  {
    WordEnds(w, rest);
    assert (w + rest)[0] == w[0] && w[0] in w;
    assert (w + rest)[..|w|] == w && (w + rest)[|w|..] == rest;
  }

  lemma BlankRead(rest: string)
    ensures Read(" " + rest) == Read(rest)
  {
    assert (" " + rest)[1..] == rest;
  }

  /** No longer symbol starts here. */
  ghost predicate Longest(op: string, rest: string) {
    forall n :: |op| < n <= 4 ==> !SymbolAt(op + rest, n)
  }

  lemma SymbolRead(op: string, rest: string)
    requires 1 <= |op| <= 4 && op in Symbols(|op|) && Longest(op, rest) && !OpensComment(op + rest)
    ensures Read(op + rest) == Ahead([op], Read(rest))
  {
    hide Symbols;
    assert (op + rest)[..|op|] == op && (op + rest)[|op|..] == rest;
    assert SymbolAt(op + rest, |op|);
    SignsAreNoWords(op);
    assert (op + rest)[0] == op[0];
    LengthIs(op + rest, |op|);
  }

  lemma LengthIs(s: string, n: nat)
    requires 1 <= n <= 4 && SymbolAt(s, n) && forall m :: n < m <= 4 ==> !SymbolAt(s, m)
    ensures SymbolLength(s) == n
  {
    hide SymbolAt;
  }

  lemma SignsAreNoWords(op: string)
    requires 1 <= |op| <= 4 && op in Symbols(|op|)
    ensures !IsWordChar(op[0]) && op[0] != ' '
  {
  }

  /** What a longer symbol goes on with; none starts with a parenthesis or a comma. */
  lemma LongerSymbols(x: string, i: nat)
    requires 2 <= |x| <= 4 && x in Symbols(|x|) && 0 < i < |x|
    ensures x[i] in {'=', '<', '>', '&', '|', '+', '-', ':', '.'} && x[0] !in {'(', ')', ','}
  {
  }

  lemma LongerAt(op: string, rest: string, n: nat)
    requires 1 <= |op| < n <= 4 && SymbolAt(op + rest, n)
    ensures rest != "" && rest[0] in {'=', '<', '>', '&', '|', '+', '-', ':', '.'} && op[0] !in {'(', ')', ','}
  {
    hide Symbols;
    var x := (op + rest)[..n];
    LongerSymbols(x, |op|);
    assert x[|op|] == rest[0] && x[0] == op[0];
  }

  lemma OperatorEnds(op: string, rest: string)
    requires 1 <= |op| <= 4 && op in Symbols(|op|) && rest != "" && (rest[0] in {' ', '('} || IsWordChar(rest[0]))
    ensures Longest(op, rest) && !OpensComment(op + rest)
  {
    hide Symbols;
    forall n | |op| < n <= 4 ensures !SymbolAt(op + rest, n) {
      if SymbolAt(op + rest, n) { LongerAt(op, rest, n); }
    }
    NoComment(op, rest);
  }

  lemma NoComment(op: string, rest: string)
    requires 1 <= |op| <= 4 && op in Symbols(|op|) && rest != "" && rest[0] !in {'/', '*'}
    ensures !OpensComment(op + rest)
  {
    if |op| > 1 {
      hide Symbols;
      LongerSymbols(op, 1);
      assert (op + rest)[1] == op[1];
    } else {
      assert (op + rest)[1] == rest[0];
    }
  }

  /** A parenthesis or comma is a token whatever follows. */
  lemma SeparatorRead(op: string, rest: string)
    requires op in {"(", ")", ","}
    ensures Read(op + rest) == Ahead([op], Read(rest))
  {
    assert op in Symbols(1);
    hide Symbols;
    forall n | 1 < n <= 4 ensures !SymbolAt(op + rest, n) {
      if SymbolAt(op + rest, n) { LongerAt(op, rest, n); }
    }
    assert (op + rest)[0] == op[0];
    SymbolRead(op, rest);
  }

  /** A binary operator with the blank behind it. */
  lemma BinaryRead(op: string, rest: string)
    requires IsBinary(op)
    ensures Read(op + (" " + rest)) == Ahead([op], Read(rest))
  {
    hide Read;
    BlankRead(rest);
    if op == "instanceof" {
      WordRead(op, " " + rest);
    } else {
      BinaryIsSymbol(op);
      OperatorEnds(op, " " + rest);
      SymbolRead(op, " " + rest);
    }
  }

  lemma BinaryIsSymbol(op: string)
    requires IsBinary(op) && op != "instanceof"
    ensures 1 <= |op| <= 4 && op in Symbols(|op|)
  {
  }

  // ----- the text of built expressions -----

  lemma TextOfConcat(es: seq<Element>, fs: seq<Element>)
    ensures TextOf(es + fs) == TextOf(es) + TextOf(fs)
  {
    if es == [] {
      assert es + fs == fs;
    } else {
      assert (es + fs)[1..] == es[1..] + fs;
      TextOfConcat(es[1..], fs);
    }
  }

  lemma TextOfOne(a: Element)
    ensures TextOf([a]) == Text(a)
  {
    assert [a][1..] == [];
  }

  lemma TextOfFew(a: Element, b: Element, c: Element)
    ensures TextOf([a]) == Text(a)
    ensures TextOf([a, b]) == Text(a) + Text(b)
    ensures TextOf([a, b, c]) == Text(a) + Text(b) + Text(c)
  {
    hide Text, TextOf;
    TextOfOne(a); TextOfOne(b); TextOfOne(c);
    TextOfConcat([a], [b]);
    TextOfConcat([a, b], [c]);
    assert [a] + [b] == [a, b] && [a, b] + [c] == [a, b, c];
  }

  lemma LeadingText(e: Element)
    ensures Text(WithLeading(e)) == " " + Text(e)
  {
    if e.Node? {
      TextOfConcat([Trivia()], e.children);
      TextOfFew(Trivia(), e, e);
    }
  }

  function GroupedText(t: Tree, parent: nat, equal: bool): string {
    if NeedsGroup(t, parent, equal) then "(" + (Text(Build(t)) + ")") else Text(Build(t))
  }

  lemma GroupedTextIs(t: Tree, parent: nat, equal: bool)
    requires Listed(t)
    ensures Text(Grouped(Build(t), parent, equal)) == GroupedText(t, parent, equal)
  {
    hide Build;
    BuiltLevel(t);
    TextOfFew(Op("("), Build(t), Op(")"));
  }

  lemma BinaryText(op: string, l: Tree, r: Tree)
    requires Listed(l) && Listed(r)
    ensures Text(Build(Binary(op, l, r)))
         == GroupedText(l, Precedence(op), true) + (" " + (op + (" " + GroupedText(r, Precedence(op), Precedence(op) != 2))))
  {
    GroupedTextIs(l, Precedence(op), true);
    GroupedTextIs(r, Precedence(op), Precedence(op) != 2);
    var right := Grouped(Build(r), Precedence(op), Precedence(op) != 2);
    LeadingText(right);
    var left := Grouped(Build(l), Precedence(op), true);
    assert Build(Binary(op, l, r)) == Node("binary_expression", [left, Token(op, Operator, " "), WithLeading(right)]);
    hide Build, Grouped, WithLeading, GroupedText;
    TextOfFew(left, Token(op, Operator, " "), WithLeading(right));
    ThreeTexts(Text(left), op, Text(right));
  }

  lemma ThreeTexts(a: string, op: string, b: string)
    ensures a + (" " + op) + (" " + b) == a + (" " + (op + (" " + b)))
  {
  }

  lemma UnaryText(op: string, e: Tree)
    requires Listed(e)
    ensures Text(Build(Unary(op, e))) == op + GroupedText(e, 14, true)
  {
    hide *;
    GroupedTextIs(e, 14, true);
    var operand := Grouped(Build(e), 14, true);
    UnaryElements(op, e);
    TextOfFew(Op(op), operand, operand);
    TokenText(op, Operator);
  }

  lemma UnaryElements(op: string, e: Tree)
    ensures Text(Build(Unary(op, e))) == TextOf([Op(op), Grouped(Build(e), 14, true)])
  {
  }

  lemma MemberElements(r: Tree, m: string)
    ensures Text(Build(Member(r, m))) == TextOf([Grouped(Build(r), 16, false), Op("."), Token(m, Identifier)])
  {
  }

  lemma TokenText(text: string, class_: Class)
    ensures Text(Token(text, class_)) == text && Op(text) == Token(text, Operator)
  {
  }

  lemma MemberText(r: Tree, m: string)
    requires Listed(r)
    ensures Text(Build(Member(r, m))) == GroupedText(r, 16, false) + ("." + m)
  {
    hide *;
    GroupedTextIs(r, 16, false);
    var receiver := Grouped(Build(r), 16, false);
    MemberElements(r, m);
    TextOfFew(receiver, Op("."), Token(m, Identifier));
    TokenText(".", Operator);
    TokenText(m, Identifier);
    assert (Text(receiver) + ".") + m == Text(receiver) + ("." + m);
  }

  /** The arguments with their commas and the closing parenthesis. */
  function ArgumentsText(args: seq<Tree>): string {
    if args == [] then ")"
    else Text(Build(args[0])) + ((if |args| > 1 then ", " else "") + ArgumentsText(args[1..]))
  }

  lemma CallText(c: Tree, args: seq<Tree>)
    requires Listed(c)
    ensures Text(Build(Call(c, args))) == GroupedText(c, 16, false) + ("(" + ArgumentsText(args))
  {
    GroupedTextIs(c, 16, false);
    var list := Node("argument_list", [Op("(")] + Separated(BuildAll(args)) + [Op(")")]);
    assert Build(Call(c, args)) == Node("method_invocation", [Grouped(Build(c), 16, false), list]);
    hide Build, Grouped, GroupedText, ArgumentsText, Separated;
    TextOfFew(Grouped(Build(c), 16, false), list, list);
    ListText(args);
  }

  lemma ListText(args: seq<Tree>)
    ensures Text(Node("argument_list", [Op("(")] + Separated(BuildAll(args)) + [Op(")")])) == "(" + ArgumentsText(args)
  {
    hide ArgumentsText, Separated;
    var es := Separated(BuildAll(args));
    TextOfConcat([Op("(")] + es, [Op(")")]);
    TextOfConcat([Op("(")], es);
    TextOfFew(Op("("), Op(")"), Op(")"));
    TextOfFew(Op(")"), Op("("), Op("("));
    SeparatedText(args);
  }

  lemma SeparatedText(args: seq<Tree>)
    ensures TextOf(Separated(BuildAll(args))) + ")" == ArgumentsText(args)
  {
    hide Build, Text;
    var es := BuildAll(args);
    if |args| == 1 {
      TextOfFew(es[0], es[0], es[0]);
      assert ArgumentsText(args[1..]) == ")";
    } else if |args| > 1 {
      assert es[1..] == BuildAll(args[1..]);
      TextOfConcat([es[0], Op(",")], SeparatedTail(es[1..]));
      TextOfFew(es[0], Op(","), es[0]);
      CommaText();
      TailText(args[1..]);
      CommaTexts("", Text(es[0]), TextOf(SeparatedTail(es[1..])), ArgumentsText(args[1..]));
    }
  }

  lemma CommaText()
    ensures Text(Op(",")) == "," && "," + " " == ", "
  {
  }

  /** Behind a comma every argument has its blank. */
  lemma {:induction false} TailText(args: seq<Tree>)
    requires args != []
    ensures TextOf(SeparatedTail(BuildAll(args))) + ")" == " " + ArgumentsText(args)
  {
    hide Build, Text, WithLeading;
    var es := BuildAll(args);
    LeadingText(es[0]);
    assert es[1..] == BuildAll(args[1..]);
    CommaText();
    if |args| > 1 {
      var front := [WithLeading(es[0]), Op(",")];
      assert SeparatedTail(es) == front + SeparatedTail(es[1..]);
      TextOfConcat(front, SeparatedTail(es[1..]));
      TextOfFew(front[0], front[1], front[1]);
      TailText(args[1..]);
      CommaTexts(" ", Text(es[0]), TextOf(SeparatedTail(es[1..])), ArgumentsText(args[1..]));
    } else {
      assert SeparatedTail(es) == [WithLeading(es[0])];
      TextOfFew(WithLeading(es[0]), es[0], es[0]);
      assert ArgumentsText(args[1..]) == ")";
    }
  }

  lemma CommaTexts(blank: string, a: string, tail: string, more: string)
    requires tail + ")" == " " + more
    ensures (((blank + a) + ",") + tail) + ")" == blank + (a + (", " + more))
    ensures "" + a == a && ((a + ",") + tail) + ")" == a + (", " + more)
  {
    assert (((blank + a) + ",") + tail) + ")" == ((blank + a) + ",") + (tail + ")");
    assert ((a + ",") + tail) + ")" == (a + ",") + (tail + ")");
    assert ", " + more == "," + (" " + more);
  }

  // ----- reading built expressions -----

  function Texts(es: seq<Element>): seq<string> {
    if es == [] then [] else (if es[0].Token? then [es[0].text] else []) + Texts(es[1..])
  }

  lemma {:induction false} TextsConcat(es: seq<Element>, fs: seq<Element>)
    ensures Texts(es + fs) == Texts(es) + Texts(fs)
  {
    hide *;
    if es == [] {
      NoTexts();
      assert es + fs == fs && [] + Texts(fs) == Texts(fs);
    } else {
      TextsUnfold(es + fs);
      TextsUnfold(es);
      assert (es + fs)[1..] == es[1..] + fs && (es + fs)[0] == es[0];
      TextsConcat(es[1..], fs);
    }
  }

  lemma NoTexts()
    ensures Texts([]) == []
  {
  }

  lemma TextsUnfold(es: seq<Element>)
    requires es != []
    ensures Texts(es) == (if es[0].Token? then [es[0].text] else []) + Texts(es[1..])
  {
  }

  lemma TextsOfOne(text: string, class_: Class)
    ensures Texts([Token(text, class_)]) == [text]
  {
  }

  /** A text and what follows it are read apart. */
  ghost predicate ReadsAs(text: string, tokens: seq<Element>, rest: string) {
    Read(text + rest) == Ahead(Texts(tokens), Read(rest))
  }

  /** Behind one token the next text. */
  lemma ReadsBehind(op: string, a: string, tokens: seq<Element>, rest: string)
    requires Read(op + (a + rest)) == Ahead([op], Read(a + rest)) && ReadsAs(a, tokens, rest)
    ensures ReadsAs(op + a, [Op(op)] + tokens, rest)
  {
    hide Read;
    assert (op + a) + rest == op + (a + rest);
    TextsConcat([Op(op)], tokens);
    TextsOfOne(op, Operator);
    AheadBoth([op], Texts(tokens), Read(rest));
  }

  lemma ReadsJoin(a: string, b: string, front: seq<Element>, back: seq<Element>, rest: string)
    requires ReadsAs(a, front, b + rest) && ReadsAs(b, back, rest)
    ensures ReadsAs(a + b, front + back, rest)
  {
    hide Read;
    assert (a + b) + rest == a + (b + rest);
    TextsConcat(front, back);
    AheadBoth(Texts(front), Texts(back), Read(rest));
  }

  lemma SeparatorReads(op: string, rest: string)
    requires op in {"(", ")", ","}
    ensures ReadsAs(op, [Op(op)], rest)
  {
    hide Read;
    SeparatorRead(op, rest);
    TextsOfOne(op, Operator);
  }

  lemma WordReads(w: string, class_: Class, rest: string)
    requires Word(w) && Boundary(rest)
    ensures ReadsAs(w, [Token(w, class_)], rest)
  {
    hide Read;
    WordRead(w, rest);
    TextsOfOne(w, class_);
  }

  /** What is no operator expression starts with a word or a parenthesis. */
  lemma {:induction false} FirstLetter(t: Tree)
    requires Listed(t) && Worded(t) && !t.Binary? && !t.Unary?
    ensures Text(Build(t)) != "" && (IsWordChar(Text(Build(t))[0]) || Text(Build(t))[0] == '(')
    decreases t, 0
  {
    match t
    case Name(n) => assert n[0] in n && Text(Build(t)) == n;
    case Constant(s) => assert s[0] in s && Text(Build(t)) == s;
    case Member(r, m) =>
      MemberText(r, m);
      GroupedLetter(r, 16, false);
    case Call(c, args) =>
      CallText(c, args);
      GroupedLetter(c, 16, false);
  }

  lemma {:induction false} GroupedLetter(t: Tree, parent: nat, equal: bool)
    requires Listed(t) && Worded(t) && (parent == 16 || (parent == 14 && equal))
    ensures GroupedText(t, parent, equal) != ""
    ensures IsWordChar(GroupedText(t, parent, equal)[0]) || GroupedText(t, parent, equal)[0] == '('
    decreases t, 1
  {
    hide Text, Build;
    if !NeedsGroup(t, parent, equal) {
      OperatorLevels(t);
      FirstLetter(t);
    }
  }

  lemma OperatorLevels(t: Tree)
    requires Listed(t)
    ensures t.Binary? ==> Level(t) <= 13
    ensures t.Unary? ==> Level(t) == 14
  {
    if t.Binary? { OperatorLevel(t.op); }
  }

  lemma {:induction false} TreeReads(t: Tree, rest: string)
    requires Listed(t) && Worded(t) && Boundary(rest)
    ensures ReadsAs(Text(Build(t)), Show(t), rest)
    decreases t, 0
  {
    hide ReadsAs, Text, Build, Show, Boundary, IsBinary, PrefixOperators;
    match t
    case Name(n) => AtomReads(t, rest);
    case Constant(s) => AtomReads(t, rest);
    case Binary(op, l, r) => BinaryReads(op, l, r, rest);
    case Unary(op, e) => UnaryReads(op, e, rest);
    case Member(r, m) => MemberReads(r, m, rest);
    case Call(c, args) => CallReads(c, args, rest);
  }

  lemma AtomReads(t: Tree, rest: string)
    requires (t.Name? || t.Constant?) && Worded(t) && Boundary(rest)
    ensures ReadsAs(Text(Build(t)), Show(t), rest)
  {
    hide ReadsAs, Text, Build, Show;
    AtomTokens(t);
    AtomText(t);
    if t.Name? { WordReads(t.name, Identifier, rest); } else { WordReads(t.text, Literal, rest); }
  }

  lemma {:induction false} UnaryReads(op: string, e: Tree, rest: string)
    requires op in PrefixOperators() && Listed(e) && Worded(e) && Boundary(rest)
    ensures ReadsAs(Text(Build(Unary(op, e))), Show(Unary(op, e)), rest)
    decreases Unary(op, e), 0, 0
  {
    hide ReadsAs, Text, Build, Show, GroupedText, ShowGrouped, PrefixOperators;
    GroupedReads(e, 14, true, rest);
    GroupedLetter(e, 14, true);
    PrefixRead(op, GroupedText(e, 14, true) + rest);
    ReadsBehind(op, GroupedText(e, 14, true), ShowGrouped(e, 14, true), rest);
    UnaryText(op, e);
    ShowUnary(op, e);
  }

  lemma {:induction false} MemberReads(r: Tree, m: string, rest: string)
    requires Listed(Member(r, m)) && Worded(Member(r, m)) && Boundary(rest)
    ensures ReadsAs(Text(Build(Member(r, m))), Show(Member(r, m)), rest)
    decreases Member(r, m), 0, 0
  {
    hide ReadsAs, Text, Build, Show, GroupedText, ShowGrouped;
    GroupedReads(r, 16, false, ("." + m) + rest);
    DotReads(m, rest);
    ReadsJoin(GroupedText(r, 16, false), "." + m, ShowGrouped(r, 16, false), [Op("."), Token(m, Identifier)], rest);
    MemberText(r, m);
    ShowMember(r, m);
  }

  lemma {:induction false} CallReads(c: Tree, args: seq<Tree>, rest: string)
    requires Listed(Call(c, args)) && Worded(Call(c, args)) && Boundary(rest)
    ensures ReadsAs(Text(Build(Call(c, args))), Show(Call(c, args)), rest)
    decreases Call(c, args), 0, 0
  {
    hide ReadsAs, Text, Build, Show, GroupedText, ShowGrouped, ArgumentsText, ShowArguments;
    var tail := "(" + ArgumentsText(args);
    GroupedReads(c, 16, false, tail + rest);
    ArgumentsRead(args, rest);
    SeparatorRead("(", ArgumentsText(args) + rest);
    ReadsBehind("(", ArgumentsText(args), ShowArguments(args), rest);
    ReadsJoin(GroupedText(c, 16, false), tail, ShowGrouped(c, 16, false), [Op("(")] + ShowArguments(args), rest);
    CallText(c, args);
    ShowCall(c, args);
    assert ShowGrouped(c, 16, false) + [Op("(")] + ShowArguments(args) == ShowGrouped(c, 16, false) + ([Op("(")] + ShowArguments(args));
  }

  lemma AtomText(t: Tree)
    requires t.Name? || t.Constant?
    ensures Text(Build(t)) == if t.Name? then t.name else t.text
  {
  }

  lemma {:induction false} BinaryReads(op: string, l: Tree, r: Tree, rest: string)
    requires Listed(Binary(op, l, r)) && Worded(Binary(op, l, r)) && Boundary(rest)
    ensures ReadsAs(Text(Build(Binary(op, l, r))), Show(Binary(op, l, r)), rest)
    decreases Binary(op, l, r), 0, 0
  {
    hide ReadsAs, Text, Build, Show, GroupedText, ShowGrouped;
    var level := Precedence(op);
    var left, right := GroupedText(l, level, true), GroupedText(r, level, level != 2);
    var front, back := ShowGrouped(l, level, true), ShowGrouped(r, level, level != 2);
    var tail := " " + (op + (" " + right));
    GroupedReads(r, level, level != 2, rest);
    GroupedReads(l, level, true, tail + rest);
    OperatorReads(op, right, back, rest);
    ReadsJoin(left, tail, front, [Op(op)] + back, rest);
    BinaryText(op, l, r);
    ShowBinary(op, l, r);
    assert front + [Op(op)] + back == front + ([Op(op)] + back);
  }

  lemma OperatorReads(op: string, right: string, back: seq<Element>, rest: string)
    requires IsBinary(op) && ReadsAs(right, back, rest)
    ensures ReadsAs(" " + (op + (" " + right)), [Op(op)] + back, rest)
  {
    hide Read;
    BinaryRead(op, right + rest);
    BlankRead(right + rest);
    assert (" " + right) + rest == " " + (right + rest);
    assert ReadsAs(" " + right, back, rest);
    ReadsBehind(op, " " + right, back, rest);
    BlankRead((op + (" " + right)) + rest);
    assert (" " + (op + (" " + right))) + rest == " " + ((op + (" " + right)) + rest);
  }

  lemma PrefixRead(op: string, rest: string)
    requires op in PrefixOperators() && rest != "" && (IsWordChar(rest[0]) || rest[0] == '(')
    ensures Read(op + rest) == Ahead([op], Read(rest))
  {
    hide Read;
    assert |op| == 1 && op in Symbols(1);
    OperatorEnds(op, rest);
    SymbolRead(op, rest);
  }

  lemma DotReads(m: string, rest: string)
    requires Word(m) && Boundary(rest)
    ensures ReadsAs("." + m, [Op("."), Token(m, Identifier)], rest)
  {
    hide Read;
    WordReads(m, Identifier, rest);
    assert m[0] in m && (m + rest)[0] == m[0];
    assert "." in Symbols(1);
    OperatorEnds(".", m + rest);
    SymbolRead(".", m + rest);
    ReadsBehind(".", m, [Token(m, Identifier)], rest);
    assert [Op(".")] + [Token(m, Identifier)] == [Op("."), Token(m, Identifier)];
  }

  lemma {:induction false} GroupedReads(t: Tree, parent: nat, equal: bool, rest: string)
    requires Listed(t) && Worded(t) && Boundary(rest)
    ensures ReadsAs(GroupedText(t, parent, equal), ShowGrouped(t, parent, equal), rest)
    decreases t, 1
  {
    hide ReadsAs, Text, Build, Show;
    if NeedsGroup(t, parent, equal) {
      assert (")" + rest)[0] == ')';
      TreeReads(t, ")" + rest);
      SeparatorReads(")", rest);
      ReadsJoin(Text(Build(t)), ")", Show(t), [Op(")")], rest);
      SeparatorRead("(", (Text(Build(t)) + ")") + rest);
      ReadsBehind("(", Text(Build(t)) + ")", Show(t) + [Op(")")], rest);
      assert [Op("(")] + Show(t) + [Op(")")] == [Op("(")] + (Show(t) + [Op(")")]);
    } else {
      TreeReads(t, rest);
    }
  }

  lemma {:induction false} ArgumentsRead(args: seq<Tree>, rest: string)
    requires ListedAll(args) && WordedAll(args)
    ensures ReadsAs(ArgumentsText(args), ShowArguments(args), rest)
    decreases args, 0
  {
    hide ReadsAs, Text, Build, Show;
    if args == [] {
      SeparatorReads(")", rest);
    } else {
      var more, tokens := ArgumentsText(args[1..]), ShowArguments(args[1..]);
      ArgumentsRead(args[1..], rest);
      var comma := (if |args| > 1 then ", " else "") + more;
      var behind := (if |args| > 1 then [Op(",")] else []) + tokens;
      CommaReads(|args| > 1, more, tokens, rest);
      ArgumentsStart(args, rest);
      TreeReads(args[0], comma + rest);
      ReadsJoin(Text(Build(args[0])), comma, Show(args[0]), behind, rest);
      assert Show(args[0]) + (if |args| > 1 then [Op(",")] else []) + tokens == Show(args[0]) + behind;
    }
  }

  lemma ArgumentsStart(args: seq<Tree>, rest: string)
    requires args != []
    ensures Boundary(((if |args| > 1 then ", " else "") + ArgumentsText(args[1..])) + rest)
  {
    hide Text, Build;
    if |args| == 1 { assert ArgumentsText(args[1..]) == ")"; }
  }

  lemma CommaReads(more: bool, a: string, tokens: seq<Element>, rest: string)
    requires ReadsAs(a, tokens, rest)
    ensures ReadsAs((if more then ", " else "") + a, (if more then [Op(",")] else []) + tokens, rest)
  {
    hide Read;
    if more {
      BlankRead(a + rest);
      assert (" " + a) + rest == " " + (a + rest);
      assert ReadsAs(" " + a, tokens, rest);
      SeparatorRead(",", (" " + a) + rest);
      ReadsBehind(",", " " + a, tokens, rest);
      assert ", " + a == "," + (" " + a);
    } else {
      assert "" + a == a && [] + tokens == tokens;
    }
  }

  // ----- the kinds of tokens -----

  /** Every token is told by its text. */
  predicate Told(es: seq<Element>) {
    forall e :: e in es ==> e.Token? && e == Classified(e.text)
  }

  lemma OperatorTold(op: string)
    requires IsBinary(op) || op in PrefixOperators() || op in {"(", ")", ",", "."}
    ensures Told([Op(op)])
  {
  }

  lemma {:induction false} ShowTold(t: Tree)
    requires Listed(t) && Worded(t)
    ensures Told(Show(t))
    decreases t, 0
  {
    hide Show, Classified, ShowGrouped, IsBinary;
    match t
    case Name(n) => AtomTokens(t);
    case Constant(s) => AtomTokens(t);
    case Binary(op, l, r) =>
      ShowBinary(op, l, r);
      GroupedTold(l, Precedence(op), true);
      GroupedTold(r, Precedence(op), Precedence(op) != 2);
      OperatorTold(op);
    case Unary(op, e) =>
      ShowUnary(op, e);
      GroupedTold(e, 14, true);
      OperatorTold(op);
    case Member(r, m) =>
      ShowMember(r, m);
      GroupedTold(r, 16, false);
      OperatorTold(".");
      assert Op(".") in [Op(".")];
    case Call(c, args) =>
      ShowCall(c, args);
      GroupedTold(c, 16, false);
      ArgumentsTold(args);
      OperatorTold("(");
  }

  lemma {:induction false} GroupedTold(t: Tree, parent: nat, equal: bool)
    requires Listed(t) && Worded(t)
    ensures Told(ShowGrouped(t, parent, equal))
    decreases t, 1
  {
    hide Show, Classified;
    ShowTold(t);
    OperatorTold("(");
    OperatorTold(")");
  }

  lemma {:induction false} ArgumentsTold(args: seq<Tree>)
    requires ListedAll(args) && WordedAll(args)
    ensures Told(ShowArguments(args))
    decreases args, 0
  {
    hide Show, Classified;
    OperatorTold(")");
    OperatorTold(",");
    if args != [] {
      ShowTold(args[0]);
      ArgumentsTold(args[1..]);
    }
  }

  lemma {:induction false} ToldIsElements(es: seq<Element>)
    requires Told(es)
    ensures Elements(Texts(es)) == es
  {
    hide Classified;
    if es != [] {
      assert es[0] in es && forall e :: e in es[1..] ==> e in es;
      ToldIsElements(es[1..]);
      assert Texts(es) == [es[0].text] + Texts(es[1..]);
    }
  }

  /** Main result. The text of a built expression is read back, token by token and level by level,
      as the tree it was built from, exactly when every assignment in it has a place on its left
      and every call a method name. */
  lemma TextReadsBack(t: Tree)
    requires Listed(t) && Worded(t)
    ensures Read(Text(Build(t))).Some?
    ensures Parse(2, Elements(Read(Text(Build(t))).value)) == Some((t, [])) <==> WellPlaced(t)
  {
    hide Listed, Worded, Parse, Build, Text, Show, WellPlaced;
    TreeReads(t, "");
    assert Text(Build(t)) + "" == Text(Build(t));
    assert Read("") == Some([]);
    assert Texts(Show(t)) + [] == Texts(Show(t));
    ShowTold(t);
    ToldIsElements(Show(t));
    PrintedReadsBack(t);
  }
}
