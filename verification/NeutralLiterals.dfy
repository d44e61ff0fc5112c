/** Which default texts are written at a call site verbatim. */
module NeutralLiterals {
  import opened Options
  import opened DefaultText

  predicate IsHex(c: char) {
    IsDigit(c) || 'a' <= c <= 'f' || 'A' <= c <= 'F'
  }

  function WithoutSign(text: string): string {
    if text != [] && text[0] == '-' then text[1..] else text
  }

  function WithoutSuffix(text: string): string {
    if text != [] && text[|text| - 1] in "LlfFdD" then text[..|text| - 1] else text
  }

  predicate Enclosed(body: string, quote: char) {
    body != [] && body[0] == quote && body[|body| - 1] == quote
  }

  /** The counting loop over a would-be number, from character `i` on. */
  predicate NumberFrom(body: string, i: nat, digits: nat, dots: nat, exponent: bool)
    requires i <= |body|
    decreases |body| - i
  {
    if i == |body| then digits > 0
    else
      var c := body[i];
      if IsDigit(c) then NumberFrom(body, i + 1, digits + 1, dots, exponent)
      else if c == '_' then NumberFrom(body, i + 1, digits, dots, exponent)
      else if c == '.' && dots == 0 then NumberFrom(body, i + 1, digits, dots + 1, exponent)
      else if c in "eE" && digits > 0 && !exponent && i > 0 then NumberFrom(body, i + 1, digits, dots, true)
      else c in "+-" && exponent && NumberFrom(body, i + 1, digits, dots, exponent)
  }

  predicate Neutral(text: string) {
    || text in CONSTANTS
    || var body := WithoutSuffix(WithoutSign(text));
       && body != []
       && if "0x" <= body || "0X" <= body then
            |body| > 2 && forall c :: c in body[2..] ==> IsHex(c) || c == '_'
          else if Enclosed(body, '"') && |body| >= 2 then '$' !in body && '\\' !in body
          else if Enclosed(body, '\'') && |body| >= 3 then '$' !in body && '\\' !in body
          else body[|body| - 1] !in "uU" && NumberFrom(body, 0, 0, 0, false)
  }

  /** The same test with its loop as the program runs it. */
  method IsNeutralLiteral(text: string) returns (neutral: bool)
    ensures neutral == Neutral(text)
  {
    if text in CONSTANTS {
      return true;
    }
    var body := WithoutSuffix(WithoutSign(text));
    if body == [] {
      return false;
    }
    if "0x" <= body || "0X" <= body {
      return |body| > 2 && forall c | c in body[2..] :: IsHex(c) || c == '_';
    }
    if (Enclosed(body, '"') && |body| >= 2) || (Enclosed(body, '\'') && |body| >= 3) {
      return '$' !in body && '\\' !in body;
    }
    if body[|body| - 1] in "uU" {
      return false;
    }
    var digits, dots, exponent := 0, 0, false;
    for i := 0 to |body|
      invariant NumberFrom(body, i, digits, dots, exponent) == NumberFrom(body, 0, 0, 0, false)
    {
      var c := body[i];
      if IsDigit(c) {
        digits := digits + 1;
      } else if c == '_' {
      } else if c == '.' && dots == 0 {
        dots := dots + 1;
      } else if c in "eE" && digits > 0 && !exponent && i > 0 {
        exponent := true;
      } else if c in "+-" && exponent {
      } else {
        return false;
      }
    }
    return digits > 0;
  }

  // ----- when a neutral default really names nothing -----

  /** All words of the text outside quotes are constants; one behind `..` counts, too. */
  predicate OnlyConstants(text: string) {
    forall w :: w in Words(text, None) ==> w in CONSTANTS
  }

  lemma {:induction false} NumberHasNoDollar(body: string, i: nat, digits: nat, dots: nat, exponent: bool)
    requires i <= |body| && NumberFrom(body, i, digits, dots, exponent)
    ensures '$' !in body[i..]
    decreases |body| - i
  {
    if i < |body| {
      var c := body[i];
      assert body[i..] == [c] + body[i + 1..];
      if IsDigit(c) { NumberHasNoDollar(body, i + 1, digits + 1, dots, exponent); }
      else if c == '_' { NumberHasNoDollar(body, i + 1, digits, dots, exponent); }
      else if c == '.' && dots == 0 { NumberHasNoDollar(body, i + 1, digits, dots + 1, exponent); }
      else if c in "eE" && digits > 0 && !exponent && i > 0 { NumberHasNoDollar(body, i + 1, digits, dots, true); }
      else { NumberHasNoDollar(body, i + 1, digits, dots, exponent); }
    }
  }

  /** A template does not pass for a literal. */
  lemma NeutralHasNoDollar(text: string)
    requires Neutral(text)
    ensures '$' !in text
  {
    if text !in CONSTANTS {
      var body := WithoutSuffix(WithoutSign(text));
      assert '$' in text ==> '$' in body;
      if "0x" <= body || "0X" <= body {
        assert body == body[..2] + body[2..];
      } else if !(Enclosed(body, '"') && |body| >= 2) && !(Enclosed(body, '\'') && |body| >= 3) {
        NumberHasNoDollar(body, 0, 0, 0, false);
        assert body[0..] == body;
      }
    }
  }

  lemma {:induction false} FreeIsMentioned(e: Expr, x: string)
    requires Written(e) && '$' !in Show(e)
    ensures x in Free(e) <==> x in Mentioned(e) && x !in CONSTANTS
    decreases e, 0
  {
    match e {
      case Template(_) => assert false;
      case Member(t, _) => FreeIsMentioned(t, x);
      case Apply(_, args) => FreeInIsMentioned(args, x);
      case Plus(l, r) => FreeIsMentioned(l, x); FreeIsMentioned(r, x);
      case UpTo(l, h) => FreeIsMentioned(l, x); FreeIsMentioned(h, x);
      case _ =>
    }
  }

  lemma {:induction false} FreeInIsMentioned(args: seq<Expr>, x: string)
    requires (forall a :: a in args ==> Written(a)) && '$' !in ShowArgs(args)
    ensures x in FreeIn(args) <==> x in MentionedIn(args) && x !in CONSTANTS
    decreases args, 0
  {
    if args != [] {
      FreeIsMentioned(args[0], x);
      FreeInIsMentioned(args[1..], x);
    }
  }

  /** A default that passes the test names nothing, exactly if all words of its text are
      constants. */
  lemma NeutralIsClosed(e: Expr)
    requires Written(e) && Neutral(Show(e))
    ensures Free(e) == {} <==> OnlyConstants(Show(e))
  {
    hide Neutral, Words, Show, Free, Mentioned;
    WordsShow(e, "");
    assert Words("", None) == [] by { WordsNothing(); }
    assert Show(e) + "" == Show(e);
    NeutralHasNoDollar(Show(e));
    forall x ensures x in Free(e) <==> x in Mentioned(e) && x !in CONSTANTS {
      FreeIsMentioned(e, x);
    }
    if Free(e) != {} {
      var x :| x in Free(e);
      assert x in Words(Show(e), None);
    }
  }

  lemma WordsNothing()
    ensures Words("", None) == []
  {
  }

  /** Two texts that pass and mention a name. A sum of strings around one: */
  lemma StringSumPasses()
    ensures var e := Plus(Plus(Quoted("a"), Name("n")), Quoted("b"));
      Written(e) && Neutral(Show(e)) && Free(e) == {"n"}
  {
    var e := Plus(Plus(Quoted("a"), Name("n")), Quoted("b"));
    assert Show(e) == "\"a\" + n + \"b\"";
    assert WithoutSuffix(WithoutSign(Show(e))) == Show(e);
  }

  /** and one that reads as a number. */
  lemma UnderscoreNamePasses()
    ensures Written(Name("_1")) && Neutral(Show(Name("_1"))) && Free(Name("_1")) == {"_1"}
  {
    var n := "_1";
    assert WithoutSuffix(WithoutSign(n)) == n;
    assert NumberFrom(n, 2, 1, 0, false);
    assert NumberFrom(n, 1, 0, 0, false);
  }
}
