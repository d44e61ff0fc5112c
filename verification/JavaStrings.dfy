/** String literals: the escaping writer, and the two translation phases a Java compiler
    applies to what it wrote. Characters are Unicode scalar values. */
module JavaStrings {
  import opened Options

  function Code(c: char): nat {
    c as int
  }

  predicate IsControl(c: char) {
    Code(c) < 0x20 || 0x7f <= Code(c) <= 0x9f
  }

  // ----- the writer -----

  function OctalDigit(n: nat): char
    requires n < 8
  {
    "01234567"[n]
  }

  function HexDigit(n: nat): char
    requires n < 16
  {
    "0123456789abcdef"[n]
  }

  function Octal3(n: nat): string
    requires n <= 0xff
  {
    [OctalDigit(n / 64), OctalDigit(n / 8 % 8), OctalDigit(n % 8)]
  }

  function Hex4(n: nat): string
    requires n <= 0xffff
  {
    [HexDigit(n / 4096), HexDigit(n / 256 % 16), HexDigit(n / 16 % 16), HexDigit(n % 16)]
  }

  function Escape(c: char): string {
    if c == '\\' then "\\\\"
    else if c == '"' then "\\\""
    else if c == '\n' then "\\n"
    else if c == '\r' then "\\r"
    else if c == '\t' then "\\t"
    else if Code(c) == 0x08 then "\\b"
    else if Code(c) == 0x0c then "\\f"
    else if IsControl(c) && Code(c) <= 0xff then "\\" + Octal3(Code(c))
    else if IsControl(c) then "\\u" + Hex4(Code(c))
    else [c]
  }

  function Escaped(value: string): string {
    if value == [] then [] else Escape(value[0]) + Escaped(value[1..])
  }

  /** The text of the literal token, built up character by character. */
  method StringLiteral(value: string) returns (text: string)
    ensures text == "\"" + Escaped(value) + "\""
  {
    text := "\"";
    for i := 0 to |value|
      invariant text + Escaped(value[i..]) == "\"" + Escaped(value)
    {
      assert value[i..][1..] == value[i + 1..];
      text := text + Escape(value[i]);
    }
    assert Escaped(value[|value|..]) == [];
    text := text + "\"";
  }

  // ----- phase one: Unicode escapes (JLS section 3.3) -----

  function HexValue(c: char): Option<nat> {
    if '0' <= c <= '9' then Some(Code(c) - Code('0'))
    else if 'a' <= c <= 'f' then Some(Code(c) - Code('a') + 10)
    else if 'A' <= c <= 'F' then Some(Code(c) - Code('A') + 10)
    else None
  }

  function FromHex4(s: string): Option<char>
    requires |s| == 4
  {
    var a, b, c, d := HexValue(s[0]), HexValue(s[1]), HexValue(s[2]), HexValue(s[3]);
    if a.None? || b.None? || c.None? || d.None? then None
    else
      var n := a.value * 4096 + b.value * 256 + c.value * 16 + d.value;
      if n < 0xd800 || 0xe000 <= n < 0x110000 then Some(n as char) else None
  }

  function SkipUs(s: string): string {
    if s != [] && s[0] == 'u' then SkipUs(s[1..]) else s
  }

  lemma SkipUsShrinks(s: string)
    ensures |SkipUs(s)| <= |s|
  {
  }

  /** A backslash starts a Unicode escape only behind an even number of backslashes; `odd`
      says that an odd number of them stands directly before `s`. What an escape yields is
      not looked at again. */
  function Translate(s: string, odd: bool): Option<string>
    decreases |s|
  {
    if s == [] then Some([])
    else if s[0] == '\\' && !odd && |s| > 1 && s[1] == 'u' then
      SkipUsShrinks(s[1..]);
      var digits := SkipUs(s[1..]);
      if |digits| < 4 || FromHex4(digits[..4]).None? then None
      else
        match Translate(digits[4..], false)
        case None => None
        case Some(rest) => Some([FromHex4(digits[..4]).value] + rest)
    else
      match Translate(s[1..], s[0] == '\\' && !odd)
      case None => None
      case Some(rest) => Some([s[0]] + rest)
  }

  // ----- phase two: string literals and escape sequences (JLS sections 3.10.5 and 3.10.7) -----

  predicate IsOctal(c: char) {
    48 <= Code(c) <= 55
  }

  /** The digits of an octal escape: up to three, and three only behind a 0 to 3. */
  function OctalLength(s: string): (n: nat)
    ensures n <= |s| && n <= 3 && forall i :: 0 <= i < n ==> IsOctal(s[i])
  {
    if s == [] || !IsOctal(s[0]) then 0
    else if |s| == 1 || !IsOctal(s[1]) then 1
    else if |s| == 2 || !IsOctal(s[2]) || s[0] > '3' then 2
    else 3
  }

  function OctalValue(s: string): (n: nat)
    requires |s| <= 3 && forall i :: 0 <= i < |s| ==> IsOctal(s[i])
    ensures n < 512
  {
    if s == [] then 0
    else
    assert IsOctal(s[0]) && (|s| > 1 ==> IsOctal(s[1])) && (|s| > 2 ==> IsOctal(s[2]));
    if |s| == 1 then Code(s[0]) - 48
    else if |s| == 2 then (Code(s[0]) - 48) * 8 + (Code(s[1]) - 48)
    else (Code(s[0]) - 48) * 64 + (Code(s[1]) - 48) * 8 + (Code(s[2]) - 48)
  }

  /** The escape sequence behind a backslash: the character and the rest. */
  function Sequence(s: string): Option<(char, string)> {
    if s == [] then None
    else match s[0]
      case 'b' => Some((8 as char, s[1..]))
      case 't' => Some(('\t', s[1..]))
      case 'n' => Some(('\n', s[1..]))
      case 'f' => Some((12 as char, s[1..]))
      case 'r' => Some(('\r', s[1..]))
      case 's' => Some((' ', s[1..]))
      case '"' => Some(('"', s[1..]))
      case '\'' => Some(('\'', s[1..]))
      case '\\' => Some(('\\', s[1..]))
      case _ =>
        var n := OctalLength(s);
        if n == 0 then None else Some((OctalValue(s[..n]) as char, s[n..]))
  }

  /** The value of the literal whose opening quote has been read, and what follows it. */
  function Body(s: string): Option<(string, string)>
    decreases |s|
  {
    if s == [] || s[0] == '\n' || s[0] == '\r' then None
    else if s[0] == '"' then Some(([], s[1..]))
    else if s[0] == '\\' then
      match Sequence(s[1..])
      case None => None
      case Some((c, rest)) =>
        if |rest| >= |s| then None else
        match Body(rest)
        case None => None
        case Some((value, end)) => Some(([c] + value, end))
    else
      match Body(s[1..])
      case None => None
      case Some((value, end)) => Some(([s[0]] + value, end))
  }

  function Lex(s: string): Option<(string, string)> {
    if s != [] && s[0] == '"' then Body(s[1..]) else None
  }

  // ----- the round trip -----

  function Behind(front: string, rest: Option<string>): Option<string> {
    if rest.None? then None else Some(front + rest.value)
  }

  lemma BehindBoth(a: string, b: string, rest: Option<string>)
    ensures Behind(a, Behind(b, rest)) == Behind(a + b, rest)
    ensures a == [] ==> Behind(a, rest) == rest
  {
    if rest.Some? {
      assert a + (b + rest.value) == a + b + rest.value && [] + rest.value == rest.value;
    }
  }

  function With(front: string, rest: Option<(string, string)>): Option<(string, string)> {
    if rest.None? then None else Some((front + rest.value.0, rest.value.1))
  }

  lemma WithBoth(a: string, b: string, rest: Option<(string, string)>)
    ensures With(a, With(b, rest)) == With(a + b, rest)
    ensures a == [] ==> With(a, rest) == rest
  {
    if rest.Some? {
      assert a + (b + rest.value.0) == a + b + rest.value.0 && [] + rest.value.0 == rest.value.0;
    }
  }

  /** A character that starts no Unicode escape passes phase one. */
  lemma TranslateOne(c: char, tail: string, odd: bool)
    requires c == '\\' ==> odd || tail == [] || tail[0] != 'u'
    ensures Translate([c] + tail, odd) == Behind([c], Translate(tail, c == '\\' && !odd))
  {
    assert ([c] + tail)[1..] == tail;
    assert |tail| > 0 ==> ([c] + tail)[1] == tail[0];
  }

  /** Text without backslashes passes phase one unchanged. */
  lemma {:induction false} TranslatePlain(s: string, tail: string, odd: bool)
    requires s != [] && '\\' !in s
    ensures Translate(s + tail, odd) == Behind(s, Translate(tail, false))
  {
    assert s + tail == [s[0]] + (s[1..] + tail);
    TranslateOne(s[0], s[1..] + tail, odd);
    if |s| == 1 {
      assert s[1..] + tail == tail;
    } else {
      TranslatePlain(s[1..], tail, false);
      BehindBoth([s[0]], s[1..], Translate(tail, false));
      assert [s[0]] + s[1..] == s;
    }
  }

  /** No escape the writer uses contains a Unicode escape, whatever follows it. */
  lemma TranslateEscape(c: char, tail: string)
    ensures Translate(Escape(c) + tail, false) == Behind(Escape(c), Translate(tail, false))
  {
    hide Translate;
    var e := Escape(c);
    if |e| == 1 {
      TranslateOne(c, tail, false);
    } else {
      assert e + tail == [e[0]] + (e[1..] + tail);
      TranslateOne(e[0], e[1..] + tail, false);
      if |e| == 2 {
        assert e[1..] == [e[1]];
        TranslateOne(e[1], tail, true);
      } else {
        assert '\\' !in e[1..] by { OctalPlain(Code(c)); }
        TranslatePlain(e[1..], tail, true);
      }
      BehindBoth([e[0]], e[1..], Translate(tail, false));
      assert [e[0]] + e[1..] == e;
    }
  }

  lemma OctalPlain(n: nat)
    requires n <= 0xff
    ensures '\\' !in Octal3(n)
  {
    OctalDigitCode(n / 64);
    OctalDigitCode(n / 8 % 8);
    OctalDigitCode(n % 8);
  }

  lemma {:induction false} TranslateEscaped(value: string, tail: string)
    ensures Translate(Escaped(value) + tail, false) == Behind(Escaped(value), Translate(tail, false))
  {
    hide Translate;
    if value == [] {
      assert Escaped(value) + tail == tail;
      BehindBoth([], [], Translate(tail, false));
    } else {
      assert Escaped(value) + tail == Escape(value[0]) + (Escaped(value[1..]) + tail);
      TranslateEscape(value[0], Escaped(value[1..]) + tail);
      TranslateEscaped(value[1..], tail);
      BehindBoth(Escape(value[0]), Escaped(value[1..]), Translate(tail, false));
    }
  }

  /** Three octal digits are always taken together, whatever digit comes next. */
  lemma OctalBack(n: nat, tail: string)
    requires n <= 0xff
    ensures Sequence(Octal3(n) + tail) == Some((n as char, tail))
  {
    hide Octal3, OctalDigit, Code, IsOctal, OctalLength, OctalValue;
    var s := Octal3(n) + tail;
    OctalParts(n, tail);
    assert s[..3] == Octal3(n) && s[3..] == tail;
  }

  lemma OctalParts(n: nat, tail: string)
    requires n <= 0xff
    ensures |Octal3(n)| == 3 && '0' <= Octal3(n)[0] <= '7'
    ensures forall i :: 0 <= i < 3 ==> IsOctal(Octal3(n)[i])
    ensures OctalLength(Octal3(n) + tail) == 3 && OctalValue(Octal3(n)) == n
  {
    hide OctalDigit, IsOctal;
    var s := Octal3(n);
    OctalDigitCode(n / 64);
    OctalDigitCode(n / 8 % 8);
    OctalDigitCode(n % 8);
    FirstOctal(n / 64);
    assert (s + tail)[0] == s[0] && (s + tail)[1] == s[1] && (s + tail)[2] == s[2];
  }

  lemma FirstOctal(n: nat)
    requires n < 8
    ensures '0' <= OctalDigit(n) <= '7' && (n < 4 ==> OctalDigit(n) <= '3')
  {
  }

  lemma OctalDigitCode(n: nat)
    requires n < 8
    ensures IsOctal(OctalDigit(n)) && Code(OctalDigit(n)) == 48 + n
  {
  }

  lemma BodyEscape(c: char, tail: string)
    ensures Body(Escape(c) + tail) == With([c], Body(tail))
  {
    var e := Escape(c);
    assert (e + tail)[1..] == e[1..] + tail;
    if |e| == 1 {
      assert (e + tail)[1..] == tail;
    } else if |e| == 2 {
      assert (e[1..] + tail)[1..] == tail;
    } else {
      assert e[1..] == Octal3(Code(c));
      OctalBack(Code(c), tail);
    }
  }

  lemma {:induction false} BodyEscaped(value: string, tail: string)
    ensures Body(Escaped(value) + tail) == With(value, Body(tail))
  {
    hide Body, Escape;
    if value == [] {
      assert Escaped(value) + tail == tail;
      WithBoth([], [], Body(tail));
    } else {
      assert Escaped(value) + tail == Escape(value[0]) + (Escaped(value[1..]) + tail);
      BodyEscape(value[0], Escaped(value[1..]) + tail);
      BodyEscaped(value[1..], tail);
      WithBoth([value[0]], value[1..], Body(tail));
      assert [value[0]] + value[1..] == value;
    }
  }

  /** Main result. Whatever text follows it in the file, the written literal goes through both
      phases as one literal with the original value, and the following text is left as it
      would have been on its own. */
  lemma LiteralRoundTrips(value: string, tail: string)
    requires Translate(tail, false).Some?
    ensures var text := "\"" + Escaped(value) + "\"" + tail;
      && Translate(text, false).Some?
      && Lex(Translate(text, false).value) == Some((value, Translate(tail, false).value))
  {
    var after := Translate(tail, false).value;
    assert "\"" + Escaped(value) + "\"" + tail == "\"" + (Escaped(value) + ("\"" + tail));
    TranslatePlain("\"", Escaped(value) + ("\"" + tail), false);
    TranslateEscaped(value, "\"" + tail);
    TranslatePlain("\"", tail, false);
    assert ("\"" + after)[1..] == after;
    BodyEscaped(value, "\"" + after);
    assert value + [] == value;
    var whole := "\"" + (Escaped(value) + ("\"" + after));
    assert whole[1..] == Escaped(value) + ("\"" + after);
  }

  /** Different values never share a literal. */
  lemma LiteralsAreInjective(a: string, b: string)
    requires Escaped(a) == Escaped(b)
    ensures a == b
  {
    LiteralRoundTrips(a, "");
    LiteralRoundTrips(b, "");
  }

  // ----- what the escapes are for -----

  /** No control character stands in a literal, and nothing outside ASCII that was not in the
      string. */
  lemma {:induction false} LiteralIsPlain(value: string)
    ensures forall c :: c in Escaped(value) ==> 0x20 <= Code(c) && !(0x7f <= Code(c) <= 0x9f) && (Code(c) < 0x7f || c in value)
  {
    hide Escape;
    if value != [] {
      EscapeIsPlain(value[0]);
      LiteralIsPlain(value[1..]);
    }
  }

  /** Nothing is escaped without need. */
  lemma {:induction false} PlainIsKept(value: string)
    requires forall c :: c in value ==> c != '"' && c != '\\' && 0x20 <= Code(c) && !(0x7f <= Code(c) <= 0x9f)
    ensures Escaped(value) == value
  {
    hide Escape, Code;
    if value != [] {
      assert value[0] in value && forall c :: c in value[1..] ==> c in value;
      PlainStays(value[0]);
      PlainIsKept(value[1..]);
      assert value == [value[0]] + value[1..];
    }
  }

  lemma PlainStays(c: char)
    requires c != '"' && c != '\\' && 0x20 <= Code(c) && !(0x7f <= Code(c) <= 0x9f)
    ensures Escape(c) == [c]
  {
  }

  lemma EscapeIsPlain(c: char)
    ensures forall d :: d in Escape(c) ==> 0x20 <= Code(d) && !(0x7f <= Code(d) <= 0x9f) && (Code(d) < 0x7f || d == c)
  {
    hide Octal3;
    if IsControl(c) && Code(c) <= 0xff { OctalPrints(Code(c)); }
  }

  lemma OctalPrints(n: nat)
    requires n <= 0xff
    ensures forall d :: d in Octal3(n) ==> 48 <= Code(d) <= 55
  {
    hide OctalDigit;
    OctalDigitCode(n / 64);
    OctalDigitCode(n / 8 % 8);
    OctalDigitCode(n % 8);
  }

  function Us(n: nat): string {
    if n == 0 then [] else "u" + Us(n - 1)
  }

  /** Phase one reads the Unicode escape of every character up to four hexadecimal digits as that
      character, however many times its `u` is written. */
  lemma UnicodeEscapeReads(c: char, us: nat, tail: string)
    requires Code(c) <= 0xffff && us > 0
    ensures Translate("\\" + (Us(us) + (Hex4(Code(c)) + tail)), false) == Behind([c], Translate(tail, false))
  {
    var digits := Hex4(Code(c)) + tail;
    var s := "\\" + (Us(us) + digits);
    HexBack(Code(c));
    HexNoU(Code(c));
    SkipAllUs(us, digits);
    assert s[1..] == Us(us) + digits && s[1] == 'u';
    assert digits[..4] == Hex4(Code(c)) && digits[4..] == tail;
    hide Hex4, FromHex4, SkipUs;
    assert FromHex4(digits[..4]) == Some(c);
  }

  lemma {:induction false} SkipAllUs(us: nat, digits: string)
    requires digits != [] && digits[0] != 'u'
    ensures SkipUs(Us(us) + digits) == digits
  {
    if us > 0 {
      SkipAllUs(us - 1, digits);
      assert (Us(us) + digits)[1..] == Us(us - 1) + digits;
    } else {
      assert Us(0) + digits == digits;
    }
  }

  lemma HexDigitBack(n: nat)
    requires n < 16
    ensures HexValue(HexDigit(n)) == Some(n) && HexDigit(n) != 'u'
  {
  }

  lemma HexNoU(n: nat)
    requires n <= 0xffff
    ensures |Hex4(n)| == 4 && Hex4(n)[0] != 'u'
  {
    HexDigitBack(n / 4096);
  }

  lemma HexBack(n: nat)
    requires n <= 0xffff && (n < 0xd800 || 0xe000 <= n)
    ensures FromHex4(Hex4(n)) == Some(n as char)
  {
    HexDigitBack(n / 4096);
    HexDigitBack(n / 256 % 16);
    HexDigitBack(n / 16 % 16);
    HexDigitBack(n % 16);
    HexSum(n);
    hide HexDigit, HexValue;
    var s := Hex4(n);
    assert HexValue(s[0]) == Some(n / 4096) && HexValue(s[1]) == Some(n / 256 % 16);
    assert HexValue(s[2]) == Some(n / 16 % 16) && HexValue(s[3]) == Some(n % 16);
  }

  lemma HexSum(n: nat)
    ensures n / 4096 * 4096 + n / 256 % 16 * 256 + n / 16 % 16 * 16 + n % 16 == n
  {
    var a, b := n / 16, n / 256;
    assert a / 16 == b && b / 16 == n / 4096;
    assert b == b / 16 * 16 + b % 16 && a == a / 16 * 16 + a % 16 && n == n / 16 * 16 + n % 16;
  }
}
