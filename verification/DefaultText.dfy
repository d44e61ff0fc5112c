/** Default expressions as the constructor pass sees them: as text. An expression tree with
    its printed form says which names that text really mentions. */
module DefaultText {
  import opened Options

  // ----- characters -----

  predicate IsLetter(c: char) {
    'a' <= c <= 'z' || 'A' <= c <= 'Z'
  }

  predicate IsDigit(c: char) {
    '0' <= c <= '9'
  }

  predicate IsWord(c: char) {
    IsLetter(c) || IsDigit(c) || c == '_'
  }

  function TakeWord(text: string): (r: string)
    ensures r <= text && forall c :: c in r ==> IsWord(c)
    ensures |r| < |text| ==> !IsWord(text[|r|])
  {
    if text != [] && IsWord(text[0]) then [text[0]] + TakeWord(text[1..]) else []
  }

  function DropWord(text: string): string {
    text[|TakeWord(text)|..]
  }

  // ----- the identifier scan -----

  /** Names outside quotes; what follows a dot directly is a member, not a name. */
  function Scan(text: string, quote: Option<char>): seq<string>
    decreases |text|
  {
    if text == [] then []
    else if quote.Some? then
      if text[0] == '\\' then Scan(if |text| > 1 then text[2..] else [], quote)
      else Scan(text[1..], if text[0] == quote.value then None else quote)
    else if text[0] == '"' || text[0] == '\'' then Scan(text[1..], Some(text[0]))
    else if text[0] == '.' then Scan(DropWord(text[1..]), None)
    else if IsLetter(text[0]) || text[0] == '_' then
      [[text[0]] + TakeWord(text[1..])] + Scan(DropWord(text[1..]), None)
    else Scan(text[1..], None)
  }

  /** The scan as the program runs it, character by character. */
  method Identifiers(text: string) returns (out: seq<string>)
    ensures out == Scan(text, None)
  {
    out := [];
    var rest := text;
    var quote: Option<char> := None;
    while rest != []
      invariant out + Scan(rest, quote) == Scan(text, None)
      decreases |rest|
    {
      var ch := rest[0];
      rest := rest[1..];
      if quote.Some? {
        if ch == '\\' {
          if rest != [] { rest := rest[1..]; }
        } else if ch == quote.value {
          quote := None;
        }
      } else if ch == '"' || ch == '\'' {
        quote := Some(ch);
      } else if ch == '.' {
        rest := SkipWord(rest);
      } else if IsLetter(ch) || ch == '_' {
        out := out + [[ch] + TakeWord(rest)];
        rest := SkipWord(rest);
      }
    }
  }

  method SkipWord(text: string) returns (rest: string)
    ensures rest == DropWord(text)
  {
    rest := text;
    while rest != [] && IsWord(rest[0])
      invariant DropWord(rest) == DropWord(text) && |rest| <= |text|
    {
      rest := rest[1..];
    }
  }

  // ----- expressions and their text -----

  datatype Expr =
    | Number(digits: string)
    | Constant(word: string)
    | Quoted(body: string)
    | Template(name: string)
    | Name(name: string)
    | Member(target: Expr, name: string)
    | Apply(name: string, args: seq<Expr>)
    | Plus(left: Expr, right: Expr)
    | UpTo(low: Expr, high: Expr)

  const CONSTANTS: set<string> := {"true", "false", "null"}

  predicate Identifier(s: string) {
    && s != [] && (IsLetter(s[0]) || s[0] == '_') && (forall c :: c in s ==> IsWord(c))
    && s !in CONSTANTS
  }

  /** Lexically well formed and printed as it parses: a sum or range is not a receiver, a range is
      no operand, and sums lean to the left. */
  predicate Written(e: Expr) {
    match e
    case Number(ds) => ds != [] && forall c :: c in ds ==> IsDigit(c)
    case Constant(w) => w in CONSTANTS
    case Quoted(s) => '"' !in s && '\\' !in s && '$' !in s
    case Template(n) => Identifier(n)
    case Name(n) => Identifier(n)
    case Member(t, n) => Written(t) && Identifier(n) && !t.Plus? && !t.UpTo?
    case Apply(n, args) => Identifier(n) && forall a :: a in args ==> Written(a)
    case Plus(l, r) => Written(l) && Written(r) && !l.UpTo? && !r.UpTo? && !r.Plus?
    case UpTo(l, h) => Written(l) && Written(h) && !l.UpTo? && !h.UpTo?
  }

  function Show(e: Expr): string
    decreases e, 0
  {
    match e
    case Number(ds) => ds
    case Constant(w) => w
    case Quoted(s) => "\"" + s + "\""
    case Template(n) => "\"$" + n + "\""
    case Name(n) => n
    case Member(t, n) => Show(t) + "." + n
    case Apply(n, args) => n + "(" + ShowArgs(args) + ")"
    case Plus(l, r) => Show(l) + " + " + Show(r)
    case UpTo(l, h) => Show(l) + ".." + Show(h)
  }

  function ShowArgs(args: seq<Expr>): string
    decreases args, 0
  {
    if args == [] then "" else Show(args[0]) + (if |args| > 1 then ", " + ShowArgs(args[1..]) else "")
  }

  // ----- what a scan of the text finds -----

  /** The names the scan reports, in order. */
  function Seen(e: Expr): seq<string>
    decreases e, 0
  {
    match e
    case Constant(w) => [w]
    case Name(n) => [n]
    case Member(t, _) => Seen(t)
    case Apply(n, args) => [n] + SeenIn(args)
    case Plus(l, r) => Seen(l) + Seen(r)
    case UpTo(l, h) => Seen(l) + SeenAfterDot(h)
    case _ => []
  }

  /** The same behind a dot: the scan skips the word that stands there. */
  function SeenAfterDot(e: Expr): seq<string>
    decreases e, 0
  {
    match e
    case Member(t, _) => SeenAfterDot(t)
    case Apply(_, args) => SeenIn(args)
    case Plus(l, r) => SeenAfterDot(l) + Seen(r)
    case UpTo(l, h) => SeenAfterDot(l) + SeenAfterDot(h)
    case _ => []
  }

  function SeenIn(args: seq<Expr>): seq<string>
    decreases args, 0
  {
    if args == [] then [] else Seen(args[0]) + SeenIn(args[1..])
  }

  /** The names the expression looks up when it runs. */
  function Free(e: Expr): set<string>
    decreases e, 0
  {
    match e
    case Template(n) => {n}
    case Name(n) => {n}
    case Member(t, _) => Free(t)
    case Apply(n, args) => {n} + FreeIn(args)
    case Plus(l, r) => Free(l) + Free(r)
    case UpTo(l, h) => Free(l) + Free(h)
    case _ => {}
  }

  function FreeIn(args: seq<Expr>): set<string>
    decreases args, 0
  {
    if args == [] then {} else Free(args[0]) + FreeIn(args[1..])
  }

  /** The names that hide from the scan: those in templates, and a name right behind `..`. */
  function Unseen(e: Expr): set<string>
    decreases e, 0
  {
    match e
    case Template(n) => {n}
    case Member(t, _) => Unseen(t)
    case Apply(_, args) => UnseenIn(args)
    case Plus(l, r) => Unseen(l) + Unseen(r)
    case UpTo(l, h) => Unseen(l) + FirstName(h) + Unseen(h)
    case _ => {}
  }

  function UnseenIn(args: seq<Expr>): set<string>
    decreases args, 0
  {
    if args == [] then {} else Unseen(args[0]) + UnseenIn(args[1..])
  }

  /** The name a text starts with, if it starts with one. */
  function FirstName(e: Expr): set<string> {
    match e
    case Name(n) => {n}
    case Member(t, _) => FirstName(t)
    case Apply(n, _) => {n}
    case Plus(l, _) => FirstName(l)
    case UpTo(l, _) => FirstName(l)
    case _ => {}
  }

  /** The scan misses exactly those. */
  lemma {:induction false} FreeIsSeenOrUnseen(e: Expr, x: string)
    requires Written(e)
    ensures x in Free(e) <==> x in Unseen(e) || (x in Seen(e) && x !in CONSTANTS)
    ensures x in Free(e) <==> x in FirstName(e) || x in Unseen(e) || (x in SeenAfterDot(e) && x !in CONSTANTS)
    decreases e, 0
  {
    match e {
      case Member(t, _) => FreeIsSeenOrUnseen(t, x);
      case Apply(_, args) => FreeInIsSeenOrUnseen(args, x);
      case Plus(l, r) => FreeIsSeenOrUnseen(l, x); FreeIsSeenOrUnseen(r, x);
      case UpTo(l, h) => FreeIsSeenOrUnseen(l, x); FreeIsSeenOrUnseen(h, x);
      case _ =>
    }
  }

  lemma {:induction false} FreeInIsSeenOrUnseen(args: seq<Expr>, x: string)
    requires forall a :: a in args ==> Written(a)
    ensures x in FreeIn(args) <==> x in UnseenIn(args) || (x in SeenIn(args) && x !in CONSTANTS)
    decreases args, 0
  {
    if args != [] {
      FreeIsSeenOrUnseen(args[0], x);
      FreeInIsSeenOrUnseen(args[1..], x);
    }
  }

  /** A tail that cannot continue a word. */
  predicate Breaks(tail: string) {
    tail == [] || !IsWord(tail[0])
  }

  lemma TakeWordAll(word: string, tail: string)
    requires (forall c :: c in word ==> IsWord(c)) && Breaks(tail)
    ensures TakeWord(word + tail) == word && DropWord(word + tail) == tail
  {
    if word != [] {
      assert (word + tail)[1..] == word[1..] + tail;
      TakeWordAll(word[1..], tail);
    }
  }

  lemma ScanDigits(ds: string, tail: string)
    requires forall c :: c in ds ==> IsDigit(c)
    ensures Scan(ds + tail, None) == Scan(tail, None)
  {
    if ds == [] {
      assert ds + tail == tail;
    } else {
      assert (ds + tail)[0] == ds[0] && IsDigit(ds[0]);
      assert (ds + tail)[1..] == ds[1..] + tail;
      ScanDigits(ds[1..], tail);
    }
  }

  lemma ScanQuoted(s: string, tail: string)
    requires '"' !in s && '\\' !in s
    ensures Scan(s + "\"" + tail, Some('"')) == Scan(tail, None)
  {
    if s == [] {
      assert s + "\"" + tail == "\"" + tail;
    } else {
      assert (s + "\"" + tail)[1..] == s[1..] + "\"" + tail;
      ScanQuoted(s[1..], tail);
    }
  }

  lemma ScanName(n: string, tail: string)
    requires n != [] && (IsLetter(n[0]) || n[0] == '_') && (forall c :: c in n ==> IsWord(c)) && Breaks(tail)
    ensures Scan(n + tail, None) == [n] + Scan(tail, None)
  {
    assert (n + tail)[1..] == n[1..] + tail;
    TakeWordAll(n[1..], tail);
    assert [n[0]] + n[1..] == n;
  }

  lemma ScanDot(text: string)
    ensures Scan("." + text, None) == Scan(DropWord(text), None)
  {
    assert ("." + text)[1..] == text;
  }

  lemma ScanOther(c: char, text: string)
    requires c in "()+, "
    ensures Scan([c] + text, None) == Scan(text, None)
  {
    assert ([c] + text)[1..] == text;
  }

  lemma ScanPlus(text: string)
    ensures Scan(" + " + text, None) == Scan(text, None)
  {
    ScanOther(' ', ['+'] + ([' '] + text));
    ScanOther('+', [' '] + text);
    ScanOther(' ', text);
    assert [' '] + (['+'] + ([' '] + text)) == " + " + text;
  }

  /** Constants are words like any other to the scan. */
  lemma ConstantWords(w: string)
    requires w in CONSTANTS
    ensures w != [] && IsLetter(w[0]) && forall c :: c in w ==> IsWord(c)
  {
  }

  // ----- texts of compound expressions -----

  lemma {:induction false} ArgsText(args: seq<Expr>, tail: string)
    ensures args == [] ==> ShowArgs(args) + tail == tail
    ensures |args| == 1 ==> ShowArgs(args) + tail == Show(args[0]) + tail
    ensures |args| > 1 ==> ShowArgs(args) + tail == Show(args[0]) + ([','] + ([' '] + (ShowArgs(args[1..]) + tail)))
  {
    hide Show;
    if |args| > 1 {
      var rest := ShowArgs(args[1..]);
      assert ShowArgs(args) == Show(args[0]) + (", " + rest);
      assert ", " + rest == [','] + ([' '] + rest);
    } else if |args| == 1 {
      assert ShowArgs(args) == Show(args[0]) + "" == Show(args[0]);
    }
  }

  predicate IsLeaf(e: Expr) {
    e.Number? || e.Constant? || e.Quoted? || e.Template? || e.Name?
  }

  lemma MemberText(t: Expr, n: string, tail: string)
    ensures Show(Member(t, n)) + tail == Show(t) + ("." + (n + tail))
  {
  }

  lemma ApplyText(n: string, args: seq<Expr>, tail: string)
    ensures Show(Apply(n, args)) + tail == n + (['('] + (ShowArgs(args) + (")" + tail)))
  {
  }

  lemma PlusText(l: Expr, r: Expr, tail: string)
    ensures Show(Plus(l, r)) + tail == Show(l) + (" + " + (Show(r) + tail))
  {
  }

  lemma UpToText(l: Expr, h: Expr, tail: string)
    ensures Show(UpTo(l, h)) + tail == Show(l) + ("." + ("." + (Show(h) + tail)))
  {
  }

  lemma ScanLeaf(e: Expr, tail: string)
    requires Written(e) && Breaks(tail) && IsLeaf(e)
    ensures Scan(Show(e) + tail, None) == Seen(e) + Scan(tail, None)
    ensures Scan(DropWord(Show(e) + tail), None) == SeenAfterDot(e) + Scan(tail, None)
  {
    hide Scan, TakeWord, DropWord;
    match e {
      case Number(ds) => ScanDigits(ds, tail); TakeWordAll(ds, tail);
      case Constant(w) => ConstantWords(w); ScanName(w, tail); TakeWordAll(w, tail);
      case Quoted(s) => ScanString(s, tail); NoWord(Show(e) + tail);
      case Template(n) =>
        ScanString("$" + n, tail);
        NoWord(Show(e) + tail);
        assert "\"" + ("$" + n) + "\"" == Show(e);
      case Name(n) => ScanName(n, tail); TakeWordAll(n, tail);
    }
  }

  /** The scan of a printed expression reports exactly `Seen`. */
  lemma {:induction false} ScanShow(e: Expr, tail: string)
    requires Written(e) && Breaks(tail)
    ensures Scan(Show(e) + tail, None) == Seen(e) + Scan(tail, None)
    decreases e, 0
  {
    hide Scan, TakeWord, DropWord, Show, ShowArgs;
    match e {
      case Member(t, n) =>
        MemberText(t, n, tail);
        ScanShow(t, "." + (n + tail));
        ScanDot(n + tail);
        TakeWordAll(n, tail);
      case Apply(n, args) =>
        ApplyText(n, args, tail);
        ScanName(n, ['('] + (ShowArgs(args) + (")" + tail)));
        ScanOther('(', ShowArgs(args) + (")" + tail));
        ScanArgs(args, ")" + tail);
        ScanOther(')', tail);
      case Plus(l, r) =>
        PlusText(l, r, tail);
        ScanShow(l, " + " + (Show(r) + tail));
        ScanPlus(Show(r) + tail);
        ScanShow(r, tail);
      case UpTo(l, h) =>
        UpToText(l, h, tail);
        ScanShow(l, "." + ("." + (Show(h) + tail)));
        ScanDots(Show(h) + tail);
        ScanShowAfterDot(h, tail);
      case _ => ScanLeaf(e, tail);
    }
  }

  lemma ScanDots(text: string)
    ensures Scan("." + ("." + text), None) == Scan(DropWord(text), None)
  {
    assert ("." + ("." + text))[1..] == "." + text;
    assert DropWord("." + text) == "." + text;
    ScanDot(text);
  }

  lemma ScanString(s: string, tail: string)
    requires '"' !in s && '\\' !in s
    ensures Scan("\"" + s + "\"" + tail, None) == Scan(tail, None)
  {
    assert ("\"" + s + "\"" + tail)[1..] == s + "\"" + tail;
    ScanQuoted(s, tail);
  }

  lemma {:induction false} ScanArgs(args: seq<Expr>, tail: string)
    requires (forall a :: a in args ==> Written(a)) && Breaks(tail)
    ensures Scan(ShowArgs(args) + tail, None) == SeenIn(args) + Scan(tail, None)
    decreases args, 0
  {
    hide Scan, TakeWord, DropWord, Show, ShowArgs, Seen;
    ArgsText(args, tail);
    if args == [] {
    } else if |args| == 1 {
      ScanShow(args[0], tail);
      assert SeenIn(args) == Seen(args[0]);
    } else {
      var rest := ShowArgs(args[1..]) + tail;
      ScanShow(args[0], [','] + ([' '] + rest));
      ScanOther(',', [' '] + rest);
      ScanOther(' ', rest);
      ScanArgs(args[1..], tail);
    }
  }

  lemma {:induction false} ScanShowAfterDot(e: Expr, tail: string)
    requires Written(e) && Breaks(tail)
    ensures Scan(DropWord(Show(e) + tail), None) == SeenAfterDot(e) + Scan(tail, None)
    decreases e, 1
  {
    hide Scan, TakeWord, DropWord, Show, ShowArgs;
    match e {
      case Member(t, n) =>
        MemberText(t, n, tail);
        ScanShowAfterDot(t, "." + (n + tail));
        ScanDot(n + tail);
        TakeWordAll(n, tail);
      case Apply(n, args) =>
        ApplyText(n, args, tail);
        TakeWordAll(n, ['('] + (ShowArgs(args) + (")" + tail)));
        ScanOther('(', ShowArgs(args) + (")" + tail));
        ScanArgs(args, ")" + tail);
        ScanOther(')', tail);
      case Plus(l, r) =>
        PlusText(l, r, tail);
        ScanShowAfterDot(l, " + " + (Show(r) + tail));
        ScanPlus(Show(r) + tail);
        ScanShow(r, tail);
      case UpTo(l, h) =>
        UpToText(l, h, tail);
        ScanShowAfterDot(l, "." + ("." + (Show(h) + tail)));
        ScanDots(Show(h) + tail);
        ScanShowAfterDot(h, tail);
      case _ => ScanLeaf(e, tail);
    }
  }

  lemma NoWord(text: string)
    requires text != [] && !IsWord(text[0])
    ensures DropWord(text) == text
  {
  }

  // ----- all the words of a text -----

  /** The scan without its blind spot: behind `..` a word is a word. */
  function Words(text: string, quote: Option<char>): seq<string>
    decreases |text|
  {
    if text == [] then []
    else if quote.Some? then
      if text[0] == '\\' then Words(if |text| > 1 then text[2..] else [], quote)
      else Words(text[1..], if text[0] == quote.value then None else quote)
    else if text[0] == '"' || text[0] == '\'' then Words(text[1..], Some(text[0]))
    else if text[0] == '.' then
      if |text| > 1 && text[1] == '.' then Words(text[2..], None) else Words(DropWord(text[1..]), None)
    else if IsLetter(text[0]) || text[0] == '_' then
      [[text[0]] + TakeWord(text[1..])] + Words(DropWord(text[1..]), None)
    else Words(text[1..], None)
  }

  /** The words of an expression outside quotes, but for member names. */
  function Mentioned(e: Expr): seq<string>
    decreases e, 0
  {
    match e
    case Constant(w) => [w]
    case Name(n) => [n]
    case Member(t, _) => Mentioned(t)
    case Apply(n, args) => [n] + MentionedIn(args)
    case Plus(l, r) => Mentioned(l) + Mentioned(r)
    case UpTo(l, h) => Mentioned(l) + Mentioned(h)
    case _ => []
  }

  function MentionedIn(args: seq<Expr>): seq<string>
    decreases args, 0
  {
    if args == [] then [] else Mentioned(args[0]) + MentionedIn(args[1..])
  }

  lemma WordsDigits(ds: string, tail: string)
    requires forall c :: c in ds ==> IsDigit(c)
    ensures Words(ds + tail, None) == Words(tail, None)
  {
    if ds == [] {
      assert ds + tail == tail;
    } else {
      assert (ds + tail)[0] == ds[0] && IsDigit(ds[0]);
      assert (ds + tail)[1..] == ds[1..] + tail;
      WordsDigits(ds[1..], tail);
    }
  }

  lemma WordsQuoted(s: string, tail: string)
    requires '"' !in s && '\\' !in s
    ensures Words(s + "\"" + tail, Some('"')) == Words(tail, None)
  {
    if s == [] {
      assert s + "\"" + tail == "\"" + tail;
    } else {
      assert (s + "\"" + tail)[1..] == s[1..] + "\"" + tail;
      WordsQuoted(s[1..], tail);
    }
  }

  lemma WordsString(s: string, tail: string)
    requires '"' !in s && '\\' !in s
    ensures Words("\"" + s + "\"" + tail, None) == Words(tail, None)
  {
    assert ("\"" + s + "\"" + tail)[1..] == s + "\"" + tail;
    WordsQuoted(s, tail);
  }

  lemma WordsName(n: string, tail: string)
    requires n != [] && (IsLetter(n[0]) || n[0] == '_') && (forall c :: c in n ==> IsWord(c)) && Breaks(tail)
    ensures Words(n + tail, None) == [n] + Words(tail, None)
  {
    assert (n + tail)[1..] == n[1..] + tail;
    TakeWordAll(n[1..], tail);
    assert [n[0]] + n[1..] == n;
  }

  lemma WordsDot(n: string, tail: string)
    requires n != [] && (forall c :: c in n ==> IsWord(c)) && Breaks(tail)
    ensures Words("." + (n + tail), None) == Words(tail, None)
  {
    assert ("." + (n + tail))[1..] == n + tail && ("." + (n + tail))[1] == n[0];
    TakeWordAll(n, tail);
  }

  lemma WordsDots(text: string)
    ensures Words("." + ("." + text), None) == Words(text, None)
  {
    assert ("." + ("." + text))[2..] == text;
  }

  lemma WordsOther(c: char, text: string)
    requires c in "()+, "
    ensures Words([c] + text, None) == Words(text, None)
  {
    assert ([c] + text)[1..] == text;
  }

  lemma WordsPlus(text: string)
    ensures Words(" + " + text, None) == Words(text, None)
  {
    WordsOther(' ', ['+'] + ([' '] + text));
    WordsOther('+', [' '] + text);
    WordsOther(' ', text);
    assert [' '] + (['+'] + ([' '] + text)) == " + " + text;
  }

  lemma WordsLeaf(e: Expr, tail: string)
    requires Written(e) && Breaks(tail) && IsLeaf(e)
    ensures Words(Show(e) + tail, None) == Mentioned(e) + Words(tail, None)
  {
    hide Words, TakeWord, DropWord;
    match e {
      case Number(ds) => WordsDigits(ds, tail);
      case Constant(w) => ConstantWords(w); WordsName(w, tail);
      case Quoted(s) => WordsString(s, tail);
      case Template(n) =>
        WordsString("$" + n, tail);
        assert "\"" + ("$" + n) + "\"" == Show(e);
      case Name(n) => WordsName(n, tail);
    }
  }

  /** The words of a printed expression are exactly those it mentions. */
  lemma {:induction false} WordsShow(e: Expr, tail: string)
    requires Written(e) && Breaks(tail)
    ensures Words(Show(e) + tail, None) == Mentioned(e) + Words(tail, None)
    decreases e, 0
  {
    hide Words, TakeWord, DropWord, Show, ShowArgs;
    match e {
      case Member(t, n) =>
        MemberText(t, n, tail);
        WordsShow(t, "." + (n + tail));
        WordsDot(n, tail);
      case Apply(n, args) =>
        ApplyText(n, args, tail);
        WordsName(n, ['('] + (ShowArgs(args) + (")" + tail)));
        WordsOther('(', ShowArgs(args) + (")" + tail));
        WordsArgs(args, ")" + tail);
        WordsOther(')', tail);
      case Plus(l, r) =>
        PlusText(l, r, tail);
        WordsShow(l, " + " + (Show(r) + tail));
        WordsPlus(Show(r) + tail);
        WordsShow(r, tail);
      case UpTo(l, h) =>
        UpToText(l, h, tail);
        WordsShow(l, "." + ("." + (Show(h) + tail)));
        WordsDots(Show(h) + tail);
        WordsShow(h, tail);
      case _ => WordsLeaf(e, tail);
    }
  }

  lemma {:induction false} WordsArgs(args: seq<Expr>, tail: string)
    requires (forall a :: a in args ==> Written(a)) && Breaks(tail)
    ensures Words(ShowArgs(args) + tail, None) == MentionedIn(args) + Words(tail, None)
    decreases args, 0
  {
    hide Words, TakeWord, DropWord, Show, ShowArgs, Mentioned;
    ArgsText(args, tail);
    if args == [] {
    } else if |args| == 1 {
      WordsShow(args[0], tail);
      assert MentionedIn(args) == Mentioned(args[0]);
    } else {
      var rest := ShowArgs(args[1..]) + tail;
      WordsShow(args[0], [','] + ([' '] + rest));
      WordsOther(',', [' '] + rest);
      WordsOther(' ', rest);
      WordsArgs(args[1..], tail);
    }
  }
}
