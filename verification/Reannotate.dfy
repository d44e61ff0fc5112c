/** Annotating what is annotated already: the markers of one run are found again by the next,
    and left as they are. */
module Reannotate {
  import opened Options
  import opened TextSearch
  import opened Markers
  import opened MarkerBlocks

  // ----- where the scan halts -----

  /** The scan finds no marker at the end of `z`. */
  ghost predicate Halts(z: string, indent: string) {
    Above(z, indent) == |z|
  }

  /** Every comment that may be a marker's is closed again. */
  ghost predicate Closed(y: string) {
    forall i: nat :: i <= |y| && (At(y, i, "/**") || At(y, i, "/* NOTLIN:")) ==> Contains(y[i..], "*/")
  }

  ghost function Hit(s: string): (r: Option<nat>)
    ensures r.Some? ==> r.value <= |s| && (At(s, r.value, "/**") || At(s, r.value, "/* NOTLIN:"))
  {
    var doc := FindLast(s, "/**");
    if doc.Some? && SaysNotlin(s[doc.value..]) then doc else FindLast(s, "/* NOTLIN:")
  }

  lemma BlockAboveEnd(s: string)
    ensures BlockAbove(s, 0, |s|).None? <==> Hit(s).None? || Contains(s[Hit(s).value..], "*/")
  {
    hide SaysNotlin, Contains, FindLast, LineStart;
    assert s[0..|s|] == s;
  }

  lemma ContainsGrows(a: string, b: string, pat: string)
    requires Contains(a, pat)
    ensures Contains(a + b, pat)
  {
    var i: nat :| i <= |a| && At(a, i, pat);
    assert (a + b)[i..i + |pat|] == a[i..i + |pat|];
    assert At(a + b, i, pat);
  }

  /** The last occurrence in `y + w` is the last in `w`, or else the last in `y`. */
  lemma LastMoves(y: string, w: string, pat: string)
    requires AtLineStart(y) && pat != [] && forall k :: 0 <= k < |pat| ==> pat[k] != '\n'
    ensures FindLast(y + w, pat) ==
      match FindLast(w, pat) case Some(j) => Some(|y| + j) case None => FindLast(y, pat)
  {
    forall j: nat ensures At(y + w, |y| + j, pat) <==> At(w, j, pat) {
      AtShift(y, w, j, pat);
    }
    forall j: nat | j < |y| ensures At(y + w, j, pat) <==> At(y, j, pat) {
      AtLetters(y + w, j, pat);
      if j + |pat| <= |y| {
        assert (y + w)[j..j + |pat|] == y[j..j + |pat|];
      } else if j + |pat| <= |y + w| {
        assert (y + w)[j + (|y| - 1 - j)] == '\n' && pat[|y| - 1 - j] != '\n';
      }
    }
    var r := FindLast(y + w, pat);
    assert forall j: nat :: j >= |y| ==> (At(y + w, j, pat) <==> At(w, j - |y|, pat));
  }

  /** Behind closed text the scan for a comment ends as it does without it. */
  lemma NoBlockBehind(y: string, w: string)
    requires AtLineStart(y) && Closed(y) && !Contains(w, "/* NOTLIN:") && BlockAbove(w, 0, |w|).None?
    ensures BlockAbove(y + w, 0, |y + w|).None?
  {
    hide SaysNotlin, Contains, BlockAbove, FindLast;
    BlockAboveEnd(w);
    BlockAboveEnd(y + w);
    LastMoves(y, w, "/**");
    LastMoves(y, w, "/* NOTLIN:");
    NotContained(w, "/* NOTLIN:");
    var doc := FindLast(w, "/**");
    if doc.Some? {
      assert (y + w)[|y| + doc.value..] == w[doc.value..];
    }
    if Hit(y + w).Some? && Hit(y + w).value < |y| {
      InClosed(y, w, Hit(y + w).value);
    }
  }

  lemma NotContained(w: string, pat: string)
    requires !Contains(w, pat)
    ensures FindLast(w, pat).None?
  {
  }

  lemma InClosed(y: string, w: string, i: nat)
    requires Closed(y) && i <= |y| && (At(y, i, "/**") || At(y, i, "/* NOTLIN:"))
    ensures Contains((y + w)[i..], "*/")
  {
    hide Contains;
    ContainsGrows(y[i..], w, "*/");
    assert (y + w)[i..] == y[i..] + w;
  }

  lemma NoBlockAlone(u: string, w: string)
    requires AtLineStart(u) && !Contains(w, "/* NOTLIN:") && BlockAbove(u + w, 0, |u + w|).None?
    ensures BlockAbove(w, 0, |w|).None?
  {
    hide SaysNotlin, Contains, BlockAbove, FindLast;
    BlockAboveEnd(w);
    BlockAboveEnd(u + w);
    LastMoves(u, w, "/**");
    LastMoves(u, w, "/* NOTLIN:");
    NotContained(w, "/* NOTLIN:");
    var doc := FindLast(w, "/**");
    if doc.Some? {
      assert (u + w)[|u| + doc.value..] == w[doc.value..];
    }
  }

  lemma HaltsOnLine(x: string, line: string, indent: string)
    requires AtLineStart(x) && OneLine(line)
    ensures Halts(x + line, indent) <==>
      !StartsWith(line, indent + "// NOTLIN:") && (Trim(line) != "*/" || BlockAbove(x, 0, |x|).None?)
  {
    hide BlockAbove, Trim, StartsWith;
    AboveLine(x, line, indent);
    assert Above(x, indent) <= |x|;
  }

  lemma SplitLastLine(z: string) returns (x: string, line: string)
    requires z != [] && AtLineStart(z)
    ensures z == x + line && AtLineStart(x) && OneLine(line)
  {
    var r := LineStart(z, |z| - 1);
    x, line := z[..r], z[r..];
    assert forall i :: 0 <= i < |line| - 1 ==> line[i] == z[r + i];
  }

  lemma NotContainedPrefix(a: string, b: string, pat: string)
    requires !Contains(a + b, pat)
    ensures !Contains(a, pat)
  {
    if Contains(a, pat) {
      ContainsGrows(a, b, pat);
    }
  }

  /** Whether the scan halts behind code is a matter of that code. */
  lemma HaltsAnywhere(y: string, z: string, indent: string)
    requires AtLineStart(y) && Closed(y) && z != [] && AtLineStart(z) && !Contains(z, "/* NOTLIN:") && Halts(z, indent)
    ensures AtLineStart(y + z) && Halts(y + z, indent)
  {
    hide Halts, BlockAbove, Trim, StartsWith, Closed, Contains;
    var x, line := SplitLastLine(z);
    NotContainedPrefix(x, line, "/* NOTLIN:");
    HaltsOnLine(x, line, indent);
    HaltsOnLine(y + x, line, indent);
    assert y + z == (y + x) + line;
    if BlockAbove(x, 0, |x|).None? {
      NoBlockBehind(y, x);
    }
  }

  lemma HaltsAlone(u: string, z: string, indent: string)
    requires AtLineStart(u) && z != [] && AtLineStart(z) && !Contains(z, "/* NOTLIN:") && Halts(u + z, indent)
    ensures Halts(z, indent)
  {
    hide Halts, BlockAbove, Trim, StartsWith, Contains;
    var x, line := SplitLastLine(z);
    NotContainedPrefix(x, line, "/* NOTLIN:");
    HaltsOnLine(x, line, indent);
    HaltsOnLine(u + x, line, indent);
    assert u + z == (u + x) + line;
    if BlockAbove(u + x, 0, |u + x|).None? {
      NoBlockAlone(u, x);
    }
  }

  // ----- closed text -----

  lemma ClosedJoins(a: string, b: string)
    requires AtLineStart(a) && Closed(a) && Closed(b)
    ensures Closed(a + b)
  {
    hide Contains, At;
    forall i: nat | i <= |a + b| && (At(a + b, i, "/**") || At(a + b, i, "/* NOTLIN:")) ensures Contains((a + b)[i..], "*/") {
      if i < |a| {
        AtFront(a, b, i, "/**");
        AtFront(a, b, i, "/* NOTLIN:");
        InClosed(a, b, i);
      } else {
        AtShift(a, b, i - |a|, "/**");
        AtShift(a, b, i - |a|, "/* NOTLIN:");
        assert (a + b)[i..] == b[i - |a|..];
      }
    }
  }

  lemma AtFront(a: string, b: string, i: nat, pat: string)
    requires AtLineStart(a) && i < |a| && forall k :: 0 <= k < |pat| ==> pat[k] != '\n'
    ensures At(a + b, i, pat) ==> At(a, i, pat)
  {
    AtLetters(a + b, i, pat);
    if i + |pat| <= |a| {
      assert (a + b)[i..i + |pat|] == a[i..i + |pat|];
    } else if i + |pat| <= |a + b| {
      assert (a + b)[i + (|a| - 1 - i)] == '\n' && pat[|a| - 1 - i] != '\n';
    }
  }

  lemma ChunkClosed(indent: string, c: Chunk)
    requires Blank(indent) && Proper(c)
    ensures Closed(ChunkText(indent, c))
  {
    var w := ChunkText(indent, c);
    match c
    case LineMark(text) =>
      assert NoPair(w, '/', '*');
      forall i: nat ensures !At(w, i, "/**") && !At(w, i, "/* NOTLIN:") {
        AtLetters(w, i, "/**");
        AtLetters(w, i, "/* NOTLIN:");
      }
    case DocMark(body) =>
      DocOpener(indent, body);
      assert w[|w| - 3..|w| - 1] == "*/";
      forall i: nat | i <= |w| && (At(w, i, "/**") || At(w, i, "/* NOTLIN:")) ensures Contains(w[i..], "*/") {
        assert i == |indent|;
        assert At(w[i..], |w| - 3 - i, "*/");
      }
  }

  lemma DocOpener(indent: string, body: seq<string>)
    requires Blank(indent) && Proper(DocMark(body))
    ensures var w := ChunkText(indent, DocMark(body));
      && |w| > |indent| + 6 && w[|w| - 3..] == "*/\n" && At(w, |indent|, "/**") && NoPair(w[|indent| + 1..], '/', '*')
      && (forall i: nat :: At(w, i, "/**") || At(w, i, "/* NOTLIN:") ==> i == |indent|)
  {
    hide DocHead, NoPair, Proper;
    var h, close := DocHead(indent, body), DocClose(indent);
    var w := ChunkText(indent, DocMark(body));
    DocHeadQuiet(indent, body);
    assert w == h + close && h[|h| - 1] == '\n' && h[|indent|..|indent| + 3] == "/**";
    assert w[|indent|..|indent| + 3] == h[|indent|..|indent| + 3];
    assert w[|indent| + 1..] == h[|indent| + 1..] + close;
    QuietJoins(h[|indent| + 1..], close);
    forall i: nat | i != |indent| ensures !At(w, i, "/**") && !At(w, i, "/* NOTLIN:") {
      if i < |indent| {
        assert w[i] == h[i];
      }
      NoOpenerAt(w, |indent|, i, "/**");
      NoOpenerAt(w, |indent|, i, "/* NOTLIN:");
    }
  }

  lemma QuietJoins(h: string, close: string)
    requires NoPair(h, '/', '*') && h != [] && h[|h| - 1] != '/'
    requires forall i :: 0 <= i < |close| - 1 && close[i] == '/' ==> close[i + 1] != '*'
    ensures NoPair(h + close, '/', '*')
  {
  }

  lemma NoOpenerAt(w: string, at: nat, i: nat, pat: string)
    requires at < |w| && NoPair(w[at + 1..], '/', '*') && i != at && (i < at ==> w[i] != '/')
    requires |pat| >= 2 && pat[0] == '/' && pat[1] == '*'
    ensures !At(w, i, pat)
  {
    AtLetters(w, i, pat);
    if i > at && i + 1 < |w| {
      assert w[i] == w[at + 1..][i - at - 1] && w[i + 1] == w[at + 1..][i - at];
    }
  }

  lemma {:induction false} ChunksClosed(indent: string, cs: seq<Chunk>)
    requires Blank(indent) && AllProper(cs)
    ensures Closed(ChunksText(indent, cs)) && AtLineStart(ChunksText(indent, cs))
  {
    hide Closed, ChunkText;
    if cs == [] {
      NothingOpen();
    } else {
      ChunksUnfold([], indent, cs);
      var init, last := ChunksText(indent, cs[..|cs| - 1]), ChunkText(indent, cs[|cs| - 1]);
      ChunksClosed(indent, cs[..|cs| - 1]);
      ChunkClosed(indent, cs[|cs| - 1]);
      ClosedJoins(init, last);
      AboveChunk(init, indent, cs[|cs| - 1]);
      assert ChunksText(indent, cs) == init + last;
    }
  }

  lemma NothingOpen()
    ensures Closed("")
  {
  }

  // ----- a marker comment above annotations -----

  lemma TailCloses(indent: string, body: seq<string>)
    requires Blank(indent) && Proper(DocMark(body))
    ensures var w := ChunkText(indent, DocMark(body)); |w| > |indent| + 6
    ensures var tail := ChunkText(indent, DocMark(body))[|indent|..];
      tail == "/**\n" + Indented(indent, body) + DocClose(indent) && FindFirst(tail, "*/") == Some(|tail| - 3)
  {
    hide Indented, Proper, NoPair, FindFirst, DocHead, DocClose;
    DocHeadQuiet(indent, body);
    DocOpener(indent, body);
    var head := DocHead(indent, body);
    var h := head[|indent|..];
    assert ChunkText(indent, DocMark(body)) == head + DocClose(indent);
    assert ChunkText(indent, DocMark(body))[|indent|..] == h + DocClose(indent);
    assert h[|h| - 1] == head[|head| - 1];
    FirstClose(h, indent);
  }

  lemma FirstClose(h: string, indent: string)
    requires h != [] && h[|h| - 1] == '\n' && NoPair(h, '*', '/') && Blank(indent)
    ensures FindFirst(h + DocClose(indent), "*/") == Some(|h + DocClose(indent)| - 3)
  {
    var tail := h + DocClose(indent);
    assert tail[|tail| - 3..|tail| - 1] == "*/";
    assert At(tail, |tail| - 3, "*/");
    forall j: nat | j < |tail| - 3 ensures !At(tail, j, "*/") {
      AtLetters(tail, j, "*/");
      if j < |h| {
        assert tail[j] == h[j];
      } else {
        assert tail[j] == DocClose(indent)[j - |h|];
      }
    }
  }

  lemma FirstStays(t: string, more: string, pat: string)
    requires FindFirst(t, pat).Some? && pat != []
    ensures FindFirst(t + more, pat) == FindFirst(t, pat)
  {
    var i := FindFirst(t, pat).value;
    assert (t + more)[i..i + |pat|] == t[i..i + |pat|];
    forall j: nat | j < i ensures At(t + more, j, pat) <==> At(t, j, pat) {
      assert t[j..j + |pat|] == (t + more)[j..j + |pat|];
    }
    var r := FindFirst(t + more, pat);
    assert At(t + more, i, pat);
  }

  /** The last marker comment of a block is found again from below annotations, behind its
      indentation; from anything else it is not. */
  lemma DocFound(text: string, x: string, indent: string, body: seq<string>, below: string, line: nat)
    requires Blank(indent) && Proper(DocMark(body)) && !Contains(below, "/**")
    requires line < |text| && (line == 0 || text[line - 1] == '\n')
    requires text[..line] == (x + ChunkText(indent, DocMark(body))) + below
    ensures KdocBeforeAnnotations(text, 0, line, indent) ==
      if AnnotationsOnly(Lines(below), indent, 0, false) then Some((|x| + |indent|, |x + ChunkText(indent, DocMark(body))|)) else None
  {
    hide SaysNotlin, FindLast, FindFirst, ChunkText, DocClose, Indented, NoPair, Proper, SkipBreak, AnnotationsOnly, Lines, Contains;
    var w := ChunkText(indent, DocMark(body));
    var start, end := |x| + |indent|, |x + w|;
    DocOpener(indent, body);
    assert text[0..line] == (x + w) + below;
    LastIsOpener(x, w, |indent|, below);
    TailCloses(indent, body);
    var tail, short := text[start..line], w[|indent|..];
    assert tail == short + below;
    DocSays(indent, body, DocClose(indent) + below);
    assert tail == "/**\n" + Indented(indent, body) + (DocClose(indent) + below);
    FirstStays(short, below, "*/");
    assert w[|w| - 1] == w[|w| - 3..][2];
    assert text[end - 1] == text[..line][end - 1] == '\n';
    BreakBehind(text, end - 1);
    assert start + (|short| - 3) + 2 == end - 1;
    assert text[end..line] == below;
  }

  lemma BreakBehind(text: string, at: nat)
    requires at < |text| && text[at] == '\n'
    ensures SkipBreak(text, at) == at + 1
  {
  }

  lemma LastIsOpener(x: string, w: string, i: nat, below: string)
    requires |w| > i && At(w, i, "/**") && NoPair(w[i + 1..], '/', '*') && |w| >= 3 && w[|w| - 3..] == "*/\n"
    requires !Contains(below, "/**")
    ensures FindLast((x + w) + below, "/**") == Some(|x| + i)
  {
    hide NoPair, Contains, FindLast;
    LastOpener(x, w, i, "/**");
    assert w[|w| - 1] == w[|w| - 3..][2];
    assert AtLineStart(x + w);
    NotContained(below, "/**");
    LastMoves(x + w, below, "/**");
  }

  /** A block that ends in a marker comment, above annotations: it is what a second run finds and
      leaves, exactly if it is that one comment and not indented. */
  lemma BlockAgain(text: string, x: string, g: Group, comment: Option<(nat, nat)>, cs: seq<Chunk>, below: string)
    requires Reachable(text, 0, 0, g) && comment == KdocBeforeAnnotations(text, 0, g.line, g.indent)
    requires Blank(g.indent) && AllProper(cs) && g.block == ChunksText(g.indent, cs)
    requires cs != [] && cs[|cs| - 1].DocMark? && !Contains(below, "/**") && AnnotationsOnly(Lines(below), g.indent, 0, false)
    requires text[..g.line] == (x + g.block) + below
    ensures comment.Some? && comment.value.0 <= comment.value.1 <= |text|
    ensures text[comment.value.0..comment.value.1] == g.block <==> g.indent == "" && |cs| == 1
  {
    hide *;
    var init, last := cs[..|cs| - 1], cs[|cs| - 1];
    ChunksUnfold(x, g.indent, cs);
    ChunksUnfold("", g.indent, cs);
    var front, w := ChunksText(g.indent, init), ChunkText(g.indent, last);
    assert g.block == front + w by { assert "" + g.block == g.block && "" + front == front; }
    LineOfReachable(text, g);
    DocFound(text, x + front, g.indent, last.body, below, g.line);
    DocOpener(g.indent, last.body);
    assert comment == Some((|x + front| + |g.indent|, |(x + front) + w|));
    LastPart(text, g.line, x, front, w, |g.indent|, below);
    OneChunk(g.indent, init);
  }

  /** The text of a block's last marker behind its indentation is the whole block if it is not
      indented and alone. */
  lemma LastPart(text: string, line: nat, x: string, front: string, w: string, n: nat, below: string)
    requires line <= |text| && text[..line] == (x + (front + w)) + below && n <= |w|
    ensures |x + front| + n <= |(x + front) + w| <= |text|
    ensures text[|x + front| + n..|(x + front) + w|] == front + w <==> n == 0 && front == ""
  {
    var start, end := |x + front| + n, |(x + front) + w|;
    assert text[start..end] == text[..line][start..end] == w[n..];
  }

  lemma OneChunk(indent: string, cs: seq<Chunk>)
    ensures ChunksText(indent, cs) == "" <==> cs == []
  {
  }

  // ----- annotated texts -----

  /** Code, the block of markers above what follows it, and the annotations between the block and
      the line it is for. A block above annotations is written where the comment it replaces
      opened: `pad` is what stands before that on its line. */
  datatype Stretch = Stretch(code: string, pad: string, indent: string, chunks: seq<Chunk>, below: string)

  function BlockText(s: Stretch): string {
    s.pad + ChunksText(s.indent, s.chunks)
  }

  function StretchText(s: Stretch): string {
    (s.code + BlockText(s)) + s.below
  }

  function Annotated(ss: seq<Stretch>): string {
    if ss == [] then [] else Annotated(ss[..|ss| - 1]) + StretchText(ss[|ss| - 1])
  }

  /** Code in whole lines, its comments closed; where the block is directly above its line, no
      marker at the end of the code and no old-style block marker in it. */
  ghost predicate Sound(s: Stretch) {
    && AtLineStart(s.code) && Closed(s.code) && Blank(s.indent) && AllProper(s.chunks)
    && if s.below == "" then s.pad == "" && !Contains(s.code, "/* NOTLIN:") && Halts(s.code, s.indent) else OverAnnotations(s)
  }

  /** A block that ends in a marker comment, and annotations without such comments below it. */
  ghost predicate OverAnnotations(s: Stretch) {
    && Blank(s.pad) && s.chunks != [] && s.chunks[|s.chunks| - 1].DocMark?
    && AtLineStart(s.below) && !Contains(s.below, "/**") && !Contains(s.below, "/* NOTLIN:")
    && AnnotationsOnly(Lines(s.below), s.indent, 0, false)
  }

  /** All blocks but the first have code above them. */
  ghost predicate AllSound(ss: seq<Stretch>) {
    forall k :: 0 <= k < |ss| ==> Sound(ss[k]) && (k > 0 ==> ss[k].code != [])
  }

  lemma {:induction false} TextClosed(ss: seq<Stretch>)
    requires AllSound(ss)
    ensures AtLineStart(Annotated(ss)) && Closed(Annotated(ss))
  {
    hide *;
    if ss == [] {
      NothingOpen();
      assert Annotated([]) == "" && AtLineStart("") by { NoText(); }
    } else {
      TextUnfold(ss);
      var init, last := ss[..|ss| - 1], ss[|ss| - 1];
      TextClosed(init);
      SoundParts(last);
      BlockClosed(last);
      var above := Annotated(init) + last.code;
      ClosedJoins(Annotated(init), last.code);
      LineStartJoins(Annotated(init), last.code);
      ClosedJoins(above, BlockText(last));
      LineStartJoins(above, BlockText(last));
      ClosedJoins(above + BlockText(last), last.below);
      LineStartJoins(above + BlockText(last), last.below);
    }
  }

  lemma BlockClosed(s: Stretch)
    requires Sound(s)
    ensures AtLineStart(BlockText(s)) && Closed(BlockText(s)) && AtLineStart(s.below) && Closed(s.below)
  {
    hide *;
    SoundParts(s);
    BelowParts(s);
    ChunksClosed(s.indent, s.chunks);
    PadClosed(s.pad, ChunksText(s.indent, s.chunks));
    PaddedBlock(s);
    if s.below == "" { NothingOpen(); NoText(); } else { NoOpenerClosed(s.below); }
  }

  lemma BelowParts(s: Stretch)
    requires Sound(s)
    ensures Blank(s.pad) && (s.below == "" ==> s.pad == "")
    ensures s.below != "" ==> AtLineStart(s.below) && !Contains(s.below, "/**") && !Contains(s.below, "/* NOTLIN:")
    ensures s.below != "" ==> s.chunks != []
  {
    hide AtLineStart, Closed, Contains, Halts, AllProper;
  }

  lemma PaddedBlock(s: Stretch)
    requires Blank(s.indent) && AllProper(s.chunks) && AtLineStart(ChunksText(s.indent, s.chunks)) && (s.pad == "" || s.chunks != [])
    ensures AtLineStart(BlockText(s)) && BlockText(s) == s.pad + ChunksText(s.indent, s.chunks)
  {
    hide AllProper;
    if s.pad == "" {
      assert BlockText(s) == ChunksText(s.indent, s.chunks);
    } else {
      ChunksUnfold([], s.indent, s.chunks);
      assert ChunksText(s.indent, s.chunks) != [];
    }
  }

  /** Blanks open no comment. */
  lemma PadClosed(pad: string, w: string)
    requires Blank(pad) && Closed(w)
    ensures Closed(pad + w)
  {
    hide Contains, At;
    forall i: nat | i <= |pad + w| && (At(pad + w, i, "/**") || At(pad + w, i, "/* NOTLIN:")) ensures Contains((pad + w)[i..], "*/") {
      AtLetters(pad + w, i, "/**");
      AtLetters(pad + w, i, "/* NOTLIN:");
      assert i >= |pad|;
      AtShift(pad, w, i - |pad|, "/**");
      AtShift(pad, w, i - |pad|, "/* NOTLIN:");
      assert (pad + w)[i..] == w[i - |pad|..];
    }
  }

  lemma NoOpenerClosed(s: string)
    requires !Contains(s, "/**") && !Contains(s, "/* NOTLIN:")
    ensures Closed(s)
  {
  }

  lemma NoText()
    ensures Annotated([]) == "" && AtLineStart("")
  {
  }

  lemma LineStartJoins(a: string, b: string)
    requires AtLineStart(a) && AtLineStart(b)
    ensures AtLineStart(a + b)
  {
  }

  lemma SoundParts(s: Stretch)
    requires Sound(s)
    ensures AtLineStart(s.code) && Closed(s.code) && Blank(s.indent) && AllProper(s.chunks)
  {
    hide AtLineStart, Closed, Blank, AllProper, OverAnnotations;
  }

  lemma TextUnfold(ss: seq<Stretch>)
    requires ss != [] && AllSound(ss)
    ensures AllSound(ss[..|ss| - 1]) && Sound(ss[|ss| - 1])
    ensures var last := ss[|ss| - 1]; Annotated(ss) == ((Annotated(ss[..|ss| - 1]) + last.code) + BlockText(last)) + last.below
  {
    hide Sound, BlockText;
    var init, last := Annotated(ss[..|ss| - 1]), ss[|ss| - 1];
    assert init + ((last.code + BlockText(last)) + last.below) == ((init + last.code) + BlockText(last)) + last.below;
  }

  /** The scan from below a block ends exactly above it. */
  lemma ScanFindsBlock(ss: seq<Stretch>)
    requires ss != [] && AllSound(ss) && ss[|ss| - 1].below == ""
    ensures var last := ss[|ss| - 1];
      && Above(Annotated(ss), last.indent) == |Annotated(ss)| - |ChunksText(last.indent, last.chunks)|
      && Annotated(ss)[|Annotated(ss)| - |ChunksText(last.indent, last.chunks)|..] == ChunksText(last.indent, last.chunks)
  {
    hide *;
    TextUnfold(ss);
    var init, last := ss[..|ss| - 1], ss[|ss| - 1];
    TextClosed(init);
    SoundParts(last);
    BelowParts(last);
    PlainBlock(last);
    CodeScan(ss);
    AboveChunks(Annotated(init) + last.code, last.indent, last.chunks);
    assert Annotated(ss) == (Annotated(init) + last.code) + ChunksText(last.indent, last.chunks);
  }

  lemma PlainBlock(s: Stretch)
    requires s.pad == ""
    ensures BlockText(s) == ChunksText(s.indent, s.chunks)
  {
  }

  lemma CodeScan(ss: seq<Stretch>)
    requires ss != [] && AllSound(ss) && AtLineStart(Annotated(ss[..|ss| - 1])) && Closed(Annotated(ss[..|ss| - 1]))
    requires ss[|ss| - 1].below == ""
    ensures var last := ss[|ss| - 1];
      && AtLineStart(Annotated(ss[..|ss| - 1]) + last.code)
      && Above(Annotated(ss[..|ss| - 1]) + last.code, last.indent) == |Annotated(ss[..|ss| - 1]) + last.code|
  {
    hide Closed, Contains, Above, ChunksText, Annotated, OverAnnotations;
    var init, last := ss[..|ss| - 1], ss[|ss| - 1];
    assert Sound(last);
    if last.code == [] {
      assert init == [];
      NoText();
      assert Annotated(init) + last.code == "";
      AboveNothing(last.indent);
    } else {
      HaltsAnywhere(Annotated(init), last.code, last.indent);
    }
  }

  lemma AboveNothing(indent: string)
    ensures Above("", indent) == 0
  {
  }

  /** The block of the last stretch, above the line behind it. */
  function GroupBelow(ss: seq<Stretch>): Group
    requires ss != []
  {
    var last := ss[|ss| - 1];
    Group(|Annotated(ss)|, last.indent, ChunksText(last.indent, last.chunks))
  }

  /** No generated comment before annotations is found for the group, or the one found is its
      block to the letter. */
  ghost predicate CommentSettled(text: string, g: Group)
    requires Reachable(text, 0, 0, g)
  {
    var comment := KdocBeforeAnnotations(text, 0, g.line, g.indent);
    comment.None? || text[comment.value.0..comment.value.1] == g.block
  }

  /** A block is written again exactly if a comment is found for it that is not its own text. */
  lemma BlockSettled(text: string, ss: seq<Stretch>)
    requires ss != [] && AllSound(ss) && Annotated(ss) <= text && |Annotated(ss)| < |text|
    ensures Reachable(text, 0, 0, GroupBelow(ss))
    ensures Step(text, 0, 0, GroupBelow(ss)).None? <==> CommentSettled(text, GroupBelow(ss))
    ensures ss[|ss| - 1].below != "" ==>
      (CommentSettled(text, GroupBelow(ss)) <==> ss[|ss| - 1].indent == "" && |ss[|ss| - 1].chunks| == 1)
  {
    hide *;
    TextClosed(ss);
    if ss[|ss| - 1].below == "" {
      LineBlockDecides(text, ss);
    } else {
      CommentDecides(text, ss);
    }
  }

  lemma LineBlockDecides(text: string, ss: seq<Stretch>)
    requires ss != [] && AllSound(ss) && Annotated(ss) <= text && |Annotated(ss)| < |text| && ss[|ss| - 1].below == ""
    ensures Reachable(text, 0, 0, GroupBelow(ss))
    ensures Step(text, 0, 0, GroupBelow(ss)).None? <==> CommentSettled(text, GroupBelow(ss))
  {
    hide KdocBeforeAnnotations, MarkersAbove, Above, AllSound, Closed, Annotated;
    TextClosed(ss);
    ScanFindsBlock(ss);
    var g := GroupBelow(ss);
    ScanIsAbove(text, g.line, g.indent);
    assert text[..g.line] == Annotated(ss);
    var start := g.line - |g.block|;
    assert text[start..g.line] == Annotated(ss)[start..];
  }

  lemma CommentDecides(text: string, ss: seq<Stretch>)
    requires ss != [] && AllSound(ss) && Annotated(ss) <= text && |Annotated(ss)| < |text| && ss[|ss| - 1].below != ""
    requires AtLineStart(Annotated(ss))
    ensures Reachable(text, 0, 0, GroupBelow(ss))
    ensures Step(text, 0, 0, GroupBelow(ss)).None? <==> CommentSettled(text, GroupBelow(ss))
    ensures CommentSettled(text, GroupBelow(ss)) <==> ss[|ss| - 1].indent == "" && |ss[|ss| - 1].chunks| == 1
  {
    hide *;
    var init, last := ss[..|ss| - 1], ss[|ss| - 1];
    TextUnfold(ss);
    SoundParts(last);
    AnnotatedParts(last);
    var x := (Annotated(init) + last.code) + last.pad;
    Repad(Annotated(init) + last.code, last);
    LineReachable(text, ss);
    var g := GroupBelow(ss);
    LineOfReachable(text, g);
    BlockAgain(text, x, g, KdocBeforeAnnotations(text, 0, g.line, g.indent), last.chunks, last.below);
    CommentDecidesStep(text, GroupBelow(ss));
  }

  lemma LineOfReachable(s: string, g: Group)
    requires Reachable(s, 0, 0, g)
    ensures g.line < |s| && (g.line == 0 || s[g.line - 1] == '\n')
  {
  }

  lemma AnnotatedParts(s: Stretch)
    requires Sound(s) && s.below != ""
    ensures s.chunks != [] && s.chunks[|s.chunks| - 1].DocMark? && !Contains(s.below, "/**")
    ensures AnnotationsOnly(Lines(s.below), s.indent, 0, false)
  {
    hide AtLineStart, Closed, Contains, Halts, AllProper, AnnotationsOnly, Lines;
  }

  lemma Repad(x: string, s: Stretch)
    ensures (x + BlockText(s)) + s.below == ((x + s.pad) + ChunksText(s.indent, s.chunks)) + s.below
  {
    assert x + BlockText(s) == (x + s.pad) + ChunksText(s.indent, s.chunks);
  }

  lemma LineReachable(text: string, ss: seq<Stretch>)
    requires ss != [] && Annotated(ss) <= text && |Annotated(ss)| < |text| && AtLineStart(Annotated(ss))
    ensures var g, last := GroupBelow(ss), ss[|ss| - 1];
      && g.line == |Annotated(ss)| && text[..g.line] == Annotated(ss)
      && g.indent == last.indent && g.block == ChunksText(last.indent, last.chunks)
      && Reachable(text, 0, 0, g)
  {
    hide Annotated, ChunksText;
    var g := GroupBelow(ss);
    assert text[..g.line] == Annotated(ss);
    assert g.line > 0 ==> text[g.line - 1] == Annotated(ss)[g.line - 1];
  }

  lemma CommentDecidesStep(text: string, g: Group)
    requires Reachable(text, 0, 0, g) && KdocBeforeAnnotations(text, 0, g.line, g.indent).Some?
    ensures Step(text, 0, 0, g).None? <==> CommentSettled(text, g)
    ensures var comment := KdocBeforeAnnotations(text, 0, g.line, g.indent).value;
      CommentSettled(text, g) <==> text[comment.0..comment.1] == g.block
  {
    hide KdocBeforeAnnotations, MarkersAbove;
  }

  /** The groups of an annotated text, block by block. */
  function GroupsFrom(ss: seq<Stretch>, k: nat): seq<Group>
    requires k <= |ss|
    decreases |ss| - k
  {
    if k == |ss| then [] else [GroupBelow(ss[..k + 1])] + GroupsFrom(ss, k + 1)
  }

  lemma {:induction false} TextPrefix(ss: seq<Stretch>, k: nat)
    requires k <= |ss|
    ensures Annotated(ss[..k]) <= Annotated(ss)
    decreases |ss|
  {
    if k < |ss| {
      TextPrefix(ss[..|ss| - 1], k);
      assert ss[..|ss| - 1][..k] == ss[..k];
    } else {
      assert ss[..k] == ss;
    }
  }

  /** Main result: on an annotated text a second run plans nothing, exactly when for every
      block no other generated comment is found before annotations. */
  lemma {:induction false} SecondRunSettled(text: string, ss: seq<Stretch>, k: nat)
    requires k <= |ss| && AllSound(ss) && Annotated(ss) <= text && |Annotated(ss)| < |text|
    ensures Forward(text, 0, 0, GroupsFrom(ss, k))
    ensures forall g :: g in GroupsFrom(ss, k) ==> Reachable(text, 0, 0, g)
    ensures Steps(text, 0, 0, GroupsFrom(ss, k)) == [] <==> forall g :: g in GroupsFrom(ss, k) ==> CommentSettled(text, g)
    decreases |ss| - k
  {
    hide CommentSettled, Step, Sound, GroupBelow, Annotated;
    if k < |ss| {
      SecondRunSettled(text, ss, k + 1);
      var prefix := ss[..k + 1];
      TextPrefix(ss, k + 1);
      PrefixSound(ss, k + 1);
      PrefixTrans(Annotated(prefix), Annotated(ss), text);
      BlockSettled(text, prefix);
      var g, rest := GroupBelow(prefix), GroupsFrom(ss, k + 1);
      ForwardBelow(text, ss, k);
      assert GroupsFrom(ss, k)[1..] == rest;
    }
  }

  lemma PrefixSound(ss: seq<Stretch>, k: nat)
    requires k <= |ss| && AllSound(ss)
    ensures AllSound(ss[..k])
  {
    hide Sound;
  }

  lemma PrefixTrans(a: string, b: string, c: string)
    requires a <= b <= c
    ensures a <= c && |a| <= |b|
  {
  }

  lemma ForwardBelow(text: string, ss: seq<Stretch>, k: nat)
    requires k < |ss| && Reachable(text, 0, 0, GroupBelow(ss[..k + 1])) && Forward(text, 0, 0, GroupsFrom(ss, k + 1))
    ensures Forward(text, 0, 0, GroupsFrom(ss, k))
  {
    hide GroupBelow;
    if k + 1 < |ss| {
      var a, b := ss[..k + 1], ss[..k + 2];
      assert b[..|b| - 1] == a;
      assert GroupBelow(a).line <= GroupBelow(b).line by { LinesGrow(ss, k); }
      assert GroupsFrom(ss, k + 1)[1..] == GroupsFrom(ss, k + 2);
      assert GroupsFrom(ss, k)[1..] == GroupsFrom(ss, k + 1);
    }
  }

  lemma LinesGrow(ss: seq<Stretch>, k: nat)
    requires k + 1 < |ss|
    ensures GroupBelow(ss[..k + 1]).line <= GroupBelow(ss[..k + 2]).line
  {
    assert ss[..k + 2][..k + 1] == ss[..k + 1];
  }
}
