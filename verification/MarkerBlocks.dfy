/** Marker blocks as they are written, and the scan that recognises them again. */
module MarkerBlocks {
  import opened Options
  import opened TextSearch
  import opened Markers

  /** One marker: a line, or a comment whose lines are given without the delimiters. */
  datatype Chunk = LineMark(text: string) | DocMark(body: seq<string>)

  /** One line without comment delimiters. */
  ghost predicate Quiet(line: string) {
    && (forall i :: 0 <= i < |line| ==> line[i] != '\n' && line[i] != '\r')
    && NoPair(line, '/', '*') && NoPair(line, '*', '/')
  }

  ghost predicate NoPair(s: string, a: char, b: char) {
    forall i :: 0 <= i < |s| - 1 && s[i] == a ==> s[i + 1] != b
  }

  ghost predicate Blank(indent: string) {
    forall i :: 0 <= i < |indent| ==> indent[i] == ' ' || indent[i] == '\t'
  }

  ghost predicate Proper(c: Chunk) {
    match c
    case LineMark(text) => Quiet(text)
    case DocMark(body) => body != [] && StartsWith(body[0], " * NOTLIN ") && forall i :: 0 <= i < |body| ==> Quiet(body[i])
  }

  ghost predicate AllProper(cs: seq<Chunk>) {
    forall i :: 0 <= i < |cs| ==> Proper(cs[i])
  }

  function DocHead(indent: string, body: seq<string>): string {
    indent + ("/**\n" + Indented(indent, body))
  }

  function DocClose(indent: string): string {
    indent + " */\n"
  }

  function ChunkText(indent: string, c: Chunk): string {
    match c
    case LineMark(text) => indent + ("// NOTLIN:" + text + "\n")
    case DocMark(body) => DocHead(indent, body) + DocClose(indent)
  }

  function ChunksText(indent: string, cs: seq<Chunk>): string {
    if cs == [] then [] else ChunksText(indent, cs[..|cs| - 1]) + ChunkText(indent, cs[|cs| - 1])
  }

  // ----- the scan, one line at a time -----

  ghost predicate AtLineStart(s: string) {
    s == [] || s[|s| - 1] == '\n'
  }

  ghost predicate OneLine(line: string) {
    line != [] && forall i :: 0 <= i < |line| - 1 ==> line[i] != '\n'
  }

  /** Where the markers at the end of `s` start. */
  function Above(s: string, indent: string): (r: nat)
    ensures r <= |s|
  {
    MarkersAbove(s, 0, |s|, indent)
  }

  lemma {:induction false} LineStartPrefix(s: string, t: string, at: nat)
    requires at <= |s|
    ensures LineStart(s + t, at) == LineStart(s, at)
    decreases at
  {
    if at > 0 && s[at - 1] != '\n' {
      LineStartPrefix(s, t, at - 1);
    }
  }

  lemma BlockAbovePrefix(s: string, t: string, prev: nat)
    requires prev <= |s|
    ensures BlockAbove(s + t, 0, prev) == BlockAbove(s, 0, prev)
  {
    hide SaysNotlin, Contains, FindLast;
    assert (s + t)[0..prev] == s[0..prev];
    forall at: nat | at <= prev ensures LineStart(s + t, at) == LineStart(s, at) {
      LineStartPrefix(s, t, at);
    }
  }

  lemma ScanUnfold(s: string, at: nat, indent: string)
    requires at <= |s|
    ensures MarkersAbove(s, 0, at, indent) ==
      if at == 0 then at
      else
        var prev := LineStart(s, at - 1);
        if StartsWith(s[prev..at], indent + "// NOTLIN:") then MarkersAbove(s, 0, prev, indent)
        else if Trim(s[prev..at]) != "*/" || BlockAbove(s, 0, prev).None? then at
        else MarkersAbove(s, 0, BlockAbove(s, 0, prev).value, indent)
  {
    hide BlockAbove, Trim, StartsWith, LineStart;
  }

  /** The scan reads nothing below its start. */
  lemma {:induction false} ScanPrefix(s: string, t: string, at: nat, indent: string)
    requires at <= |s|
    ensures MarkersAbove(s + t, 0, at, indent) == MarkersAbove(s, 0, at, indent)
    decreases at
  {
    hide BlockAbove, Trim, StartsWith, MarkersAbove, LineStart;
    ScanUnfold(s, at, indent);
    ScanUnfold(s + t, at, indent);
    if at > 0 {
      LineStartPrefix(s, t, at - 1);
      var prev := LineStart(s, at - 1);
      assert (s + t)[prev..at] == s[prev..at];
      BlockAbovePrefix(s, t, prev);
      ScanPrefix(s, t, prev, indent);
      if BlockAbove(s, 0, prev).Some? {
        ScanPrefix(s, t, BlockAbove(s, 0, prev).value, indent);
      }
    }
  }

  lemma ScanIsAbove(s: string, at: nat, indent: string)
    requires at <= |s|
    ensures MarkersAbove(s, 0, at, indent) == Above(s[..at], indent)
  {
    ScanPrefix(s[..at], s[at..], at, indent);
    assert s[..at] + s[at..] == s;
  }

  lemma LastLineStart(x: string, line: string)
    requires AtLineStart(x) && OneLine(line)
    ensures LineStart(x + line, |x + line| - 1) == |x|
  {
    var s := x + line;
    var r := LineStart(s, |s| - 1);
    assert forall i :: |x| <= i < |s| - 1 ==> s[i] == line[i - |x|];
    assert x != [] ==> s[|x| - 1] == x[|x| - 1];
  }

  /** One step of the scan, over the last line. */
  lemma AboveLine(x: string, line: string, indent: string)
    requires AtLineStart(x) && OneLine(line)
    ensures Above(x + line, indent) ==
      if StartsWith(line, indent + "// NOTLIN:") then Above(x, indent)
      else if Trim(line) != "*/" || BlockAbove(x, 0, |x|).None? then |x + line|
      else Above(x[..BlockAbove(x, 0, |x|).value], indent)
  {
    hide BlockAbove, Trim, StartsWith;
    var s := x + line;
    LastLineStart(x, line);
    assert s[|x|..|s|] == line;
    BlockAbovePrefix(x, line, |x|);
    ScanIsAbove(s, |x|, indent);
    assert s[..|x|] == x;
    if BlockAbove(x, 0, |x|).Some? {
      var start := BlockAbove(x, 0, |x|).value;
      ScanIsAbove(s, start, indent);
      assert s[..start] == x[..start];
    }
  }

  // ----- over whole markers -----

  lemma LineMarkText(indent: string, text: string)
    requires Blank(indent) && Quiet(text)
    ensures var w := ChunkText(indent, LineMark(text));
      OneLine(w) && w[|w| - 1] == '\n' && StartsWith(w, indent + "// NOTLIN:")
  {
    var w := ChunkText(indent, LineMark(text));
    assert w == (indent + "// NOTLIN:") + (text + "\n");
    assert w[..|indent + "// NOTLIN:"|] == indent + "// NOTLIN:";
    forall i | 0 <= i < |w| - 1 ensures w[i] != '\n' {
      if i < |indent| { assert w[i] == indent[i]; }
      else if i < |indent| + 10 { assert w[i] == "// NOTLIN:"[i - |indent|]; }
      else { assert w[i] == text[i - |indent| - 10]; }
    }
  }

  lemma DocCloseText(indent: string)
    requires Blank(indent)
    ensures OneLine(DocClose(indent)) && !StartsWith(DocClose(indent), indent + "// NOTLIN:")
    ensures Trim(DocClose(indent)) == "*/"
  {
    var w := DocClose(indent);
    var pat := indent + "// NOTLIN:";
    AtLetters(w, 0, pat);
    assert |pat| > |w|;
    TrimStartBlank(indent, " */\n");
    assert " */\n"[1..] == "*/\n";
    assert TrimStart(" */\n") == "*/\n";
    assert "*/\n"[..2] == "*/";
  }

  lemma {:induction false} TrimStartBlank(indent: string, rest: string)
    requires Blank(indent)
    ensures TrimStart(indent + rest) == TrimStart(rest)
  {
    if indent != [] {
      TrimStartBlank(indent[1..], rest);
      assert (indent + rest)[1..] == indent[1..] + rest;
    } else {
      assert indent + rest == rest;
    }
  }

  lemma {:induction false} IndentedQuiet(indent: string, body: seq<string>)
    requires Blank(indent) && forall i :: 0 <= i < |body| ==> Quiet(body[i])
    ensures var w := Indented(indent, body);
      NoPair(w, '/', '*') && NoPair(w, '*', '/') && AtLineStart(w)
  {
    if body != [] {
      IndentedQuiet(indent, body[1..]);
      var line, rest := indent + body[0] + "\n", Indented(indent, body[1..]);
      assert NoPair(line, '/', '*') && NoPair(line, '*', '/');
    }
  }

  /** Where a delimiter can be in a marker comment: the opener once, the close at the end. */
  lemma DocHeadQuiet(indent: string, body: seq<string>)
    requires Blank(indent) && Proper(DocMark(body))
    ensures var h := DocHead(indent, body);
      && AtLineStart(h) && |h| > |indent| + 3 && h[|indent|..] == "/**\n" + Indented(indent, body)
      && At(h, |indent|, "/**") && NoPair(h[|indent| + 1..], '/', '*') && NoPair(h[|indent|..], '*', '/')
      && (forall i :: 0 <= i < |indent| ==> h[i] != '\n' && h[i] != '/')
  {
    var h, w := DocHead(indent, body), Indented(indent, body);
    IndentedQuiet(indent, body);
    assert h[|indent|..] == "/**\n" + w;
    assert h[|indent| + 1..] == "**\n" + w;
    assert h[|indent|..|indent| + 3] == "/**";
    assert NoPair("**\n" + w, '/', '*') && NoPair("/**\n" + w, '*', '/');
  }

  /** The marker comment is recognised by its second line. */
  lemma DocSays(indent: string, body: seq<string>, rest: string)
    requires Blank(indent) && Proper(DocMark(body))
    ensures SaysNotlin("/**\n" + Indented(indent, body) + rest)
  {
    hide Lines, TrimStart, StartsWith;
    var line, more := indent + body[0], Indented(indent, body[1..]) + rest;
    var whole := "/**\n" + Indented(indent, body) + rest;
    assert whole == "/**" + "\n" + (line + "\n" + more);
    assert forall i :: 0 <= i < |line| ==> line[i] != '\n' && line[i] != '\r';
    LinesHead("/**", line + "\n" + more);
    LinesHead(line, more);
    assert Lines(whole)[1] == line;
    TrimStartBlank(indent, body[0]);
    MarkerLineTrims(body[0]);
  }

  lemma MarkerLineTrims(b: string)
    requires StartsWith(b, " * NOTLIN ")
    ensures StartsWith(TrimStart(b), "* NOTLIN ")
  {
    assert b[..10] == " * NOTLIN ";
    assert b[0] == b[..10][0] && b[1] == b[..10][1];
    assert TrimStart(b) == b[1..];
    assert b[1..][0..9] == b[..10][1..];
  }

  lemma LinesHead(line: string, rest: string)
    requires forall i :: 0 <= i < |line| ==> line[i] != '\n' && line[i] != '\r'
    ensures Lines(line + "\n" + rest) == [line] + Lines(rest)
  {
    var s := line + "\n" + rest;
    LineEndAt(line, rest);
    assert s[..|line|] == line && s[|line| + 1..] == rest;
  }

  lemma LineEndAt(line: string, rest: string)
    requires forall i :: 0 <= i < |line| ==> line[i] != '\n'
    ensures LineEnd(line + "\n" + rest) == |line|
  {
    var s := line + "\n" + rest;
    assert s[|line|] == '\n' && forall i :: 0 <= i < |line| ==> s[i] == line[i];
  }

  /** The opener of a marker comment is the last one in the text up to its close. */
  lemma LastOpener(x: string, h: string, i: nat, pat: string)
    requires i < |h| && At(h, i, pat) && |pat| >= 2 && pat[0] == '/' && pat[1] == '*' && NoPair(h[i + 1..], '/', '*')
    ensures FindLast(x + h, pat) == Some(|x| + i)
  {
    AtShift(x, h, i, pat);
    forall j: nat | j > |x| + i ensures !At(x + h, j, pat) {
      AtLetters(x + h, j, pat);
      if j + 1 < |x + h| {
        assert (x + h)[j] == h[i + 1..][j - |x| - i - 1] && (x + h)[j + 1] == h[i + 1..][j - |x| - i];
      }
    }
  }

  lemma AtShift(x: string, h: string, i: nat, pat: string)
    ensures At(x + h, |x| + i, pat) <==> At(h, i, pat)
  {
    if i + |pat| <= |h| {
      assert (x + h)[|x| + i..|x| + i + |pat|] == h[i..i + |pat|];
    }
  }

  lemma QuietHasNoPair(s: string, pat: string)
    requires |pat| >= 2 && NoPair(s, pat[0], pat[1])
    ensures !Contains(s, pat)
  {
    forall j: nat ensures !At(s, j, pat) {
      AtLetters(s, j, pat);
    }
  }

  lemma BlockAboveOpener(s: string, i: nat)
    requires FindLast(s, "/**") == Some(i) && i < |s| && SaysNotlin(s[i..]) && !Contains(s[i..], "*/") && LineStart(s, i) < |s|
    ensures BlockAbove(s, 0, |s|) == Some(LineStart(s, i))
  {
    hide SaysNotlin, Contains, FindLast, LineStart;
    assert s[0..|s|] == s;
  }

  lemma BlockAboveDoc(x: string, indent: string, body: seq<string>)
    requires AtLineStart(x) && Blank(indent) && Proper(DocMark(body))
    ensures AtLineStart(x + DocHead(indent, body))
    ensures BlockAbove(x + DocHead(indent, body), 0, |x + DocHead(indent, body)|) == Some(|x|)
  {
    hide SaysNotlin, Contains, FindLast, NoPair, At, LineStart, BlockAbove, DocHead, Indented, Proper;
    var h := DocHead(indent, body);
    var s, i := x + h, |x| + |indent|;
    DocHeadQuiet(indent, body);
    LastOpener(x, h, |indent|, "/**");
    JoinedTail(x, h, |indent|);
    DocSays(indent, body, "");
    assert h[|indent|..] == "/**\n" + Indented(indent, body) + "";
    QuietHasNoPair(h[|indent|..], "*/");
    BlankLineStart(x, h, |indent|);
    BlockAboveOpener(s, i);
  }

  lemma JoinedTail(x: string, h: string, i: nat)
    requires i <= |h|
    ensures (x + h)[|x| + i..] == h[i..]
  {
  }

  lemma {:induction false} BlankLineStart(x: string, h: string, i: nat)
    requires AtLineStart(x) && i <= |h| && forall k :: 0 <= k < i ==> h[k] != '\n'
    ensures LineStart(x + h, |x| + i) == |x|
  {
    assert forall k :: 0 <= k < i ==> (x + h)[|x| + k] == h[k];
    assert x != [] ==> (x + h)[|x| - 1] == x[|x| - 1];
    var r := LineStart(x + h, |x| + i);
    assert forall k :: r <= k < |x| + i ==> (x + h)[k] != '\n';
  }

  /** A whole marker is scanned over. */
  lemma AboveChunk(x: string, indent: string, c: Chunk)
    requires AtLineStart(x) && Blank(indent) && Proper(c)
    ensures AtLineStart(x + ChunkText(indent, c))
    ensures Above(x + ChunkText(indent, c), indent) == Above(x, indent)
  {
    hide Above, Trim, StartsWith, BlockAbove;
    match c
    case LineMark(text) =>
      LineMarkText(indent, text);
      AboveLine(x, ChunkText(indent, c), indent);
    case DocMark(body) =>
      var h := DocHead(indent, body);
      BlockAboveDoc(x, indent, body);
      DocCloseText(indent);
      AboveLine(x + h, DocClose(indent), indent);
      assert x + ChunkText(indent, c) == (x + h) + DocClose(indent);
      assert (x + h)[..|x|] == x;
  }

  /** So is a block of them. */
  lemma {:induction false} AboveChunks(x: string, indent: string, cs: seq<Chunk>)
    requires AtLineStart(x) && Blank(indent) && AllProper(cs)
    ensures AtLineStart(x + ChunksText(indent, cs))
    ensures Above(x + ChunksText(indent, cs), indent) == Above(x, indent)
  {
    hide *;
    if cs == [] {
      NoChunks(x, indent);
    } else {
      var init := cs[..|cs| - 1];
      ChunksUnfold(x, indent, cs);
      AboveChunks(x, indent, init);
      AboveChunk(x + ChunksText(indent, init), indent, cs[|cs| - 1]);
    }
  }

  lemma NoChunks(x: string, indent: string)
    ensures x + ChunksText(indent, []) == x
  {
  }

  lemma ChunksUnfold(x: string, indent: string, cs: seq<Chunk>)
    requires cs != [] && AllProper(cs)
    ensures AllProper(cs[..|cs| - 1]) && Proper(cs[|cs| - 1])
    ensures x + ChunksText(indent, cs) == (x + ChunksText(indent, cs[..|cs| - 1])) + ChunkText(indent, cs[|cs| - 1])
  {
    hide ChunkText, Proper;
  }
}
