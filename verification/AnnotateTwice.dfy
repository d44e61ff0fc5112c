/** Two runs: what the first one writes, the second leaves alone. */
module AnnotateTwice {
  import opened Options
  import opened TextSearch
  import opened Edits
  import opened Markers
  import opened MarkerBlocks
  import opened Reannotate

  /** A text and groups the first run treats as code with markers above: no anchor inside the
      markers of a later one, comments closed where they open, and blocks of well-formed markers. */
  ghost predicate Annotatable(s: string, prev: nat, first: bool, gs: seq<Group>, css: seq<seq<Chunk>>)
    decreases |gs|
  {
    && |gs| == |css| && prev <= |s| && AtLineStart(s[..prev]) && (first ==> prev == 0)
    && (gs != [] ==>
          && LineOk(s, prev, first, gs[0], css[0])
          && Annotatable(s, gs[0].line, false, gs[1..], css[1..]))
  }

  predicate OnLine(s: string, g: Group) {
    g.line < |s| && (g.line == 0 || s[g.line - 1] == '\n')
  }

  /** The generated comment above the annotations that the group's line is below. */
  function CommentFor(s: string, g: Group): Option<(nat, nat)>
    requires OnLine(s, g)
  {
    KdocBeforeAnnotations(s, 0, g.line, g.indent)
  }

  /** What is replaced for a group: that comment, or else the markers directly above its line. */
  function Target(s: string, g: Group): (r: (nat, nat))
    requires OnLine(s, g)
    ensures r.0 <= r.1 <= g.line
  {
    match CommentFor(s, g)
    case Some(comment) => comment
    case None => (MarkersAbove(s, 0, g.line, g.indent), g.line)
  }

  /** Where the line starts that the replaced range starts on. */
  function CodeEnd(s: string, g: Group): (r: nat)
    requires OnLine(s, g)
    ensures r <= Target(s, g).0
  {
    LineStart(s, Target(s, g).0)
  }

  ghost predicate LineOk(s: string, prev: nat, first: bool, g: Group, cs: seq<Chunk>) {
    && prev <= g.line && OnLine(s, g)
    && Blank(g.indent) && AllProper(cs) && g.block == ChunksText(g.indent, cs)
    && var end := CodeEnd(s, g);
       && prev <= end && (first || prev < end) && Closed(s[prev..end])
       && if CommentFor(s, g).None? then !Contains(s[prev..end], "/* NOTLIN:")
          else CommentOk(s, g, cs)
  }

  /** The comment to replace opens its line, and the new block ends in a comment as well. */
  ghost predicate CommentOk(s: string, g: Group, cs: seq<Chunk>)
    requires OnLine(s, g)
  {
    && Blank(s[CodeEnd(s, g)..Target(s, g).0]) && !Contains(s[Target(s, g).1..g.line], "/* NOTLIN:")
    && cs != [] && cs[|cs| - 1].DocMark?
  }

  // ----- the scan, once more -----

  lemma {:induction false} ScanStays(s: string, at: nat, indent: string)
    requires at <= |s| && AtLineStart(s[..at])
    ensures var r := MarkersAbove(s, 0, at, indent); MarkersAbove(s, 0, r, indent) == r && AtLineStart(s[..r])
    decreases at
  {
    hide BlockAbove, Trim, StartsWith, MarkersAbove;
    ScanUnfold(s, at, indent);
    if at > 0 {
      var prev := LineStart(s, at - 1);
      ScanStays(s, prev, indent);
      if BlockAbove(s, 0, prev).Some? {
        ScanStays(s, BlockAbove(s, 0, prev).value, indent);
      }
    }
  }

  /** The search for a comment from behind the cursor finds the same one. */
  lemma CommentFrom(s: string, p: nat, line: nat, indent: string)
    requires p <= line < |s| && (line == 0 || s[line - 1] == '\n')
    requires var comment := KdocBeforeAnnotations(s, 0, line, indent); comment.Some? ==> p <= comment.value.0
    ensures KdocBeforeAnnotations(s, p, line, indent) == KdocBeforeAnnotations(s, 0, line, indent)
  {
    hide SaysNotlin, AnnotationsOnly, Lines, FindLast, FindFirst, SkipBreak;
    var whole := s[0..line];
    assert whole == s[0..p] + s[p..line];
    forall j: nat ensures At(whole, p + j, "/**") <==> At(s[p..line], j, "/**") {
      AtShift(s[0..p], s[p..line], j, "/**");
    }
    var last, found := FindLast(whole, "/**"), FindLast(s[p..line], "/**");
    assert last.Some? && last.value >= p ==> At(s[p..line], last.value - p, "/**");
    if found.Some? {
      assert At(whole, p + found.value, "/**");
      assert last.Some? && last.value >= p + found.value;
      assert At(s[p..line], last.value - p, "/**");
      assert last.value == p + found.value;
      assert s[p + found.value..line] == s[0 + last.value..line];
    }
  }

  /** What a comment that is found says about the text. */
  lemma CommentParts(s: string, g: Group)
    requires OnLine(s, g) && CommentFor(s, g).Some?
    ensures var comment := CommentFor(s, g).value;
      && comment.0 < comment.1 < g.line && FindLast(s[0..g.line], "/**") == Some(comment.0)
      && AnnotationsOnly(Lines(s[comment.1..g.line]), g.indent, 0, false)
  {
    hide SaysNotlin, FindLast, FindFirst, SkipBreak, AnnotationsOnly, Lines;
    assert s[g.line..g.line] == "";
    NothingFound(g.indent);
  }

  /** Below the last opener there is none. */
  lemma NoneBelow(s: string, line: nat, at: nat, from: nat)
    requires at < from <= line <= |s| && FindLast(s[0..line], "/**") == Some(at)
    ensures !Contains(s[from..line], "/**")
  {
    hide FindLast;
    assert s[0..line] == s[0..from] + s[from..line];
    forall j: nat ensures !At(s[from..line], j, "/**") {
      AtShift(s[0..from], s[from..line], j, "/**");
    }
  }

  // ----- the first run -----

  function StretchOf(s: string, prev: nat, g: Group, cs: seq<Chunk>): Stretch
    requires OnLine(s, g) && prev <= CodeEnd(s, g)
  {
    var t := Target(s, g);
    Stretch(s[prev..CodeEnd(s, g)], s[CodeEnd(s, g)..t.0], g.indent, cs, s[t.1..g.line])
  }

  ghost function Stretches(s: string, prev: nat, first: bool, gs: seq<Group>, css: seq<seq<Chunk>>): (r: seq<Stretch>)
    requires Annotatable(s, prev, first, gs, css)
    ensures |r| == |gs|
    decreases |gs|
  {
    if gs == [] then []
    else [StretchOf(s, prev, gs[0], css[0])] + Stretches(s, gs[0].line, false, gs[1..], css[1..])
  }

  function LastLine(prev: nat, gs: seq<Group>): nat
    decreases |gs|
  {
    if gs == [] then prev else LastLine(gs[0].line, gs[1..])
  }

  lemma {:induction false} TextFront(s: Stretch, ss: seq<Stretch>)
    ensures Annotated([s] + ss) == StretchText(s) + Annotated(ss)
  {
    hide StretchText;
    if ss == [] {
      assert [s] + ss == [s] && [s][..0] == [];
    } else {
      var init := ss[..|ss| - 1];
      TextFront(s, init);
      assert ([s] + ss)[..|ss|] == [s] + init;
    }
  }

  lemma StretchSound(s: string, prev: nat, first: bool, g: Group, cs: seq<Chunk>)
    requires prev <= |s| && AtLineStart(s[..prev]) && OnLine(s, g) && prev <= CodeEnd(s, g)
    requires LineOk(s, prev, first, g, cs)
    ensures Sound(StretchOf(s, prev, g, cs)) && (!first ==> StretchOf(s, prev, g, cs).code != [])
    ensures StretchOf(s, prev, g, cs).below == "" <==> CommentFor(s, g).None?
  {
    hide *;
    LineParts(s, prev, first, g, cs);
    if CommentFor(s, g).None? {
      LineStretchSound(s, prev, first, g, cs);
    } else {
      CommentStretchSound(s, prev, first, g, cs);
    }
    CodeOfStretch(s, prev, g, cs);
  }

  lemma CodeOfStretch(s: string, prev: nat, g: Group, cs: seq<Chunk>)
    requires OnLine(s, g) && prev <= CodeEnd(s, g)
    ensures StretchOf(s, prev, g, cs).code == s[prev..CodeEnd(s, g)]
  {
    hide CommentFor, MarkersAbove, LineStart;
  }

  lemma LineParts(s: string, prev: nat, first: bool, g: Group, cs: seq<Chunk>)
    requires prev <= |s| && AtLineStart(s[..prev]) && OnLine(s, g) && prev <= CodeEnd(s, g)
    requires LineOk(s, prev, first, g, cs)
    ensures AtLineStart(s[..g.line]) && Blank(g.indent) && AllProper(cs)
    ensures Closed(s[prev..CodeEnd(s, g)]) && AtLineStart(s[prev..CodeEnd(s, g)])
    ensures !first ==> s[prev..CodeEnd(s, g)] != []
  {
    hide CommentFor, Closed, Contains, AllProper, ChunksText, Target, Blank, CommentOk;
    var code := s[prev..CodeEnd(s, g)];
    assert code != [] ==> code[|code| - 1] == s[CodeEnd(s, g) - 1];
  }

  lemma LineStretchSound(s: string, prev: nat, first: bool, g: Group, cs: seq<Chunk>)
    requires prev <= |s| && AtLineStart(s[..prev]) && OnLine(s, g) && prev <= CodeEnd(s, g) && CommentFor(s, g).None?
    requires LineOk(s, prev, first, g, cs)
    ensures Sound(StretchOf(s, prev, g, cs)) && StretchOf(s, prev, g, cs).below == ""
  {
    hide *;
    LineParts(s, prev, first, g, cs);
    var above := MarkersOf(s, g);
    ScanStays(s, g.line, g.indent);
    LineStretch(s, prev, first, g, cs, above);
    CodeHalts(s, prev, above, g.indent);
    SoundFrom(StretchOf(s, prev, g, cs));
  }

  lemma MarkersOf(s: string, g: Group) returns (above: nat)
    requires OnLine(s, g)
    ensures g.line <= |s| && above == MarkersAbove(s, 0, g.line, g.indent) <= g.line
  {
    hide MarkersAbove;
    above := MarkersAbove(s, 0, g.line, g.indent);
  }

  lemma LineStretch(s: string, prev: nat, first: bool, g: Group, cs: seq<Chunk>, above: nat)
    requires g.line <= |s| && above == MarkersAbove(s, 0, g.line, g.indent) && AtLineStart(s[..above])
    requires OnLine(s, g) && prev <= CodeEnd(s, g) && CommentFor(s, g).None? && LineOk(s, prev, first, g, cs)
    ensures CodeEnd(s, g) == above && !Contains(s[prev..above], "/* NOTLIN:")
    ensures StretchOf(s, prev, g, cs) == Stretch(s[prev..above], "", g.indent, cs, "")
  {
    hide CommentFor, MarkersAbove, Closed, Contains, AllProper, ChunksText, Blank, CommentOk;
    assert above > 0 ==> s[..above][above - 1] == s[above - 1];
    assert s[above..above] == "" && s[g.line..g.line] == "";
  }

  lemma CommentStretchSound(s: string, prev: nat, first: bool, g: Group, cs: seq<Chunk>)
    requires prev <= |s| && AtLineStart(s[..prev]) && OnLine(s, g) && prev <= CodeEnd(s, g) && CommentFor(s, g).Some?
    requires LineOk(s, prev, first, g, cs)
    ensures Sound(StretchOf(s, prev, g, cs)) && StretchOf(s, prev, g, cs).below != ""
  {
    hide *;
    LineParts(s, prev, first, g, cs);
    CommentParts(s, g);
    var comment := CommentFor(s, g).value;
    CommentStretch(s, prev, first, g, cs, comment);
    InText(s, g);
    NoneBelow(s, g.line, comment.0, comment.1);
    EndsAtLine(s, comment.1, g.line);
    SoundOver(StretchOf(s, prev, g, cs));
  }

  lemma InText(s: string, g: Group)
    requires OnLine(s, g)
    ensures g.line < |s|
  {
  }

  lemma CommentStretch(s: string, prev: nat, first: bool, g: Group, cs: seq<Chunk>, comment: (nat, nat))
    requires OnLine(s, g) && prev <= CodeEnd(s, g) && CommentFor(s, g) == Some(comment) && LineOk(s, prev, first, g, cs)
    ensures CodeEnd(s, g) <= comment.0 <= comment.1 <= g.line <= |s|
    ensures StretchOf(s, prev, g, cs) == Stretch(s[prev..CodeEnd(s, g)], s[CodeEnd(s, g)..comment.0], g.indent, cs, s[comment.1..g.line])
    ensures Blank(s[CodeEnd(s, g)..comment.0]) && !Contains(s[comment.1..g.line], "/* NOTLIN:")
    ensures cs != [] && cs[|cs| - 1].DocMark?
  {
    hide CommentFor, MarkersAbove, Closed, Contains, AllProper, ChunksText, Blank, LineStart;
    assert Target(s, g) == comment;
  }

  lemma EndsAtLine(s: string, from: nat, line: nat)
    requires from < line <= |s| && AtLineStart(s[..line])
    ensures s[from..line] != "" && AtLineStart(s[from..line])
  {
    assert s[..line][line - 1] == s[line - 1] == s[from..line][line - from - 1];
  }

  lemma SoundFrom(s: Stretch)
    requires AtLineStart(s.code) && Closed(s.code) && !Contains(s.code, "/* NOTLIN:") && Halts(s.code, s.indent)
    requires Blank(s.indent) && AllProper(s.chunks) && s.pad == "" && s.below == ""
    ensures Sound(s)
  {
    hide AtLineStart, Closed, Contains, Halts, Blank, AllProper;
  }

  lemma SoundOver(s: Stretch)
    requires AtLineStart(s.code) && Closed(s.code) && Blank(s.indent) && AllProper(s.chunks) && s.below != "" && Blank(s.pad)
    requires s.chunks != [] && s.chunks[|s.chunks| - 1].DocMark?
    requires AtLineStart(s.below) && !Contains(s.below, "/**") && !Contains(s.below, "/* NOTLIN:")
    requires AnnotationsOnly(Lines(s.below), s.indent, 0, false)
    ensures Sound(s)
  {
    hide AtLineStart, Closed, Contains, Halts, Blank, AllProper, AnnotationsOnly, Lines;
  }

  /** The scan halts behind the code above the markers, whatever is above the code. */
  lemma CodeHalts(s: string, prev: nat, above: nat, indent: string)
    requires prev <= above <= |s| && AtLineStart(s[..prev]) && AtLineStart(s[..above])
    requires MarkersAbove(s, 0, above, indent) == above && !Contains(s[prev..above], "/* NOTLIN:")
    ensures AtLineStart(s[prev..above]) && Halts(s[prev..above], indent)
  {
    hide Contains, MarkersAbove, Above;
    var code := s[prev..above];
    ScanIsAbove(s, above, indent);
    assert s[..above] == s[..prev] + code;
    if code == [] {
      HaltsNowhere(indent);
    } else {
      assert code[|code| - 1] == s[..above][above - 1];
      HaltsAlone(s[..prev], code, indent);
    }
  }

  lemma HaltsNowhere(indent: string)
    ensures Halts("", indent)
  {
  }

  lemma LineOkParts(s: string, prev: nat, first: bool, g: Group, cs: seq<Chunk>)
    requires LineOk(s, prev, first, g, cs)
    ensures OnLine(s, g) && prev <= CodeEnd(s, g)
  {
  }

  lemma {:induction false} StretchesSound(s: string, prev: nat, first: bool, gs: seq<Group>, css: seq<seq<Chunk>>)
    requires Annotatable(s, prev, first, gs, css)
    ensures AllSound(Stretches(s, prev, first, gs, css))
    ensures !first ==> forall k :: 0 <= k < |gs| ==> Stretches(s, prev, first, gs, css)[k].code != []
    decreases |gs|
  {
    if gs == [] {
    } else {
      hide *;
      StretchesUnfold(s, prev, first, gs, css);
      LineOkParts(s, prev, first, gs[0], css[0]);
      StretchSound(s, prev, first, gs[0], css[0]);
      StretchesSound(s, gs[0].line, false, gs[1..], css[1..]);
      SoundCons(StretchOf(s, prev, gs[0], css[0]), Stretches(s, gs[0].line, false, gs[1..], css[1..]));
    }
  }

  lemma SoundCons(s: Stretch, ss: seq<Stretch>)
    requires Sound(s) && AllSound(ss) && forall k :: 0 <= k < |ss| ==> ss[k].code != []
    ensures AllSound([s] + ss)
  {
    hide Sound;
  }

  lemma StretchesUnfold(s: string, prev: nat, first: bool, gs: seq<Group>, css: seq<seq<Chunk>>)
    requires gs != [] && Annotatable(s, prev, first, gs, css)
    ensures prev <= |s| && AtLineStart(s[..prev]) && css != [] && LineOk(s, prev, first, gs[0], css[0])
    ensures OnLine(s, gs[0]) && prev <= CodeEnd(s, gs[0])
    ensures Annotatable(s, gs[0].line, false, gs[1..], css[1..])
    ensures Stretches(s, prev, first, gs, css)
         == [StretchOf(s, prev, gs[0], css[0])] + Stretches(s, gs[0].line, false, gs[1..], css[1..])
  {
    hide CommentFor, Target, LineStart, CommentOk, Closed, Contains, AllProper, ChunksText, Blank, StretchOf;
  }

  /** One group of the first run. */
  lemma StepWrites(s: string, p: nat, prev: nat, first: bool, g: Group, cs: seq<Chunk>)
    requires p <= prev && LineOk(s, prev, first, g, cs)
    ensures Reachable(s, 0, p, g)
    ensures var t := Target(s, g);
      Step(s, 0, p, g) == if s[t.0..t.1] != g.block then Some(Edit(t.0, t.1, g.block)) else None
  {
    hide KdocBeforeAnnotations, MarkersAbove, Closed, Contains, AllProper, ChunksText, CommentOk, LineStart;
    CommentFrom(s, p, g.line, g.indent);
  }

  /** A group's part of the cursor pass: copied if it is right already, else replaced. */
  lemma SpliceGroup(s: string, p: nat, prev: nat, from: nat, to: nat, line: nat, block: string, rest: seq<Edit>, tail: string)
    requires p <= prev <= from <= to <= line <= |s|
    requires var q := if s[from..to] != block then line else p;
      Orderly(rest, q, |s|) && Splice(s, rest, q) == s[q..line] + tail
    ensures var edits := if s[from..to] != block then [Edit(from, to, block)] + rest else rest;
      Orderly(edits, p, |s|) && Splice(s, edits, p) == s[p..prev] + (s[prev..from] + block + (s[to..line] + tail))
  {
    hide Splice, Orderly;
    assert s[p..from] == s[p..prev] + s[prev..from];
    if s[from..to] != block {
      SpliceSkips(s, rest, to, line);
      SpliceEdit(s, Edit(from, to, block), rest, p);
      assert s[line..line] + tail == tail;
    } else {
      assert s[p..line] == (s[p..from] + s[from..to]) + s[to..line];
      assert s[p..line] + tail == (s[p..from] + s[from..to]) + (s[to..line] + tail);
    }
    Associate(s[p..prev], s[prev..from], block, s[to..line] + tail);
  }

  lemma Associate(a: string, b: string, c: string, d: string)
    ensures ((a + b) + c) + d == a + (b + c + d)
  {
  }

  /** What the first run writes: the code, with the new blocks between. */
  lemma {:induction false} FirstRunWrites(s: string, p: nat, prev: nat, first: bool, gs: seq<Group>, css: seq<seq<Chunk>>)
    requires Annotatable(s, prev, first, gs, css) && p <= prev
    ensures LastLine(prev, gs) <= |s| && (gs != [] ==> LastLine(prev, gs) < |s|)
    ensures Forward(s, 0, p, gs) && Orderly(Steps(s, 0, p, gs), p, |s|)
    ensures Splice(s, Steps(s, 0, p, gs), p)
         == s[p..prev] + (Annotated(Stretches(s, prev, first, gs, css)) + s[LastLine(prev, gs)..])
    decreases |gs|
  {
    if gs == [] {
      assert s[p..] == s[p..prev] + ("" + s[prev..]);
    } else {
      hide *;
      FirstGroup(s, p, prev, first, gs, css);
      var g := gs[0];
      var t := Target(s, g);
      var q := if s[t.0..t.1] != g.block then g.line else p;
      FirstRunWrites(s, q, g.line, false, gs[1..], css[1..]);
      var ss := Stretches(s, g.line, false, gs[1..], css[1..]);
      var tail := Annotated(ss) + s[LastLine(g.line, gs[1..])..];
      SpliceGroup(s, p, prev, t.0, t.1, g.line, g.block, Steps(s, 0, q, gs[1..]), tail);
      AnnotatableForward(s, g.line, false, gs[1..], css[1..]);
      StepsOf(s, p, prev, first, gs, css);
      TextOf(s, prev, first, gs, css);
      Regroup(s[prev..t.0] + g.block, s[t.1..g.line], Annotated(ss), s[LastLine(g.line, gs[1..])..]);
    }
  }

  lemma FirstGroup(s: string, p: nat, prev: nat, first: bool, gs: seq<Group>, css: seq<seq<Chunk>>)
    requires gs != [] && Annotatable(s, prev, first, gs, css) && p <= prev
    ensures css != [] && LineOk(s, prev, first, gs[0], css[0]) && p <= gs[0].line < |s| && OnLine(s, gs[0])
    ensures prev <= Target(s, gs[0]).0 <= Target(s, gs[0]).1 <= gs[0].line
    ensures Annotatable(s, gs[0].line, false, gs[1..], css[1..])
  {
    hide KdocBeforeAnnotations, MarkersAbove, Closed, Contains, AllProper, ChunksText, CommentOk, LineStart;
  }

  lemma Regroup(code: string, block: string, text: string, rest: string)
    ensures code + (block + (text + rest)) == ((code + block) + text) + rest
  {
  }

  lemma StepsOf(s: string, p: nat, prev: nat, first: bool, gs: seq<Group>, css: seq<seq<Chunk>>)
    requires gs != [] && css != [] && p <= prev && LineOk(s, prev, first, gs[0], css[0]) && OnLine(s, gs[0])
    requires var t := Target(s, gs[0]);
      Forward(s, 0, if s[t.0..t.1] != gs[0].block then gs[0].line else p, gs[1..])
    requires Forward(s, 0, gs[0].line, gs[1..])
    ensures Forward(s, 0, p, gs)
    ensures var t := Target(s, gs[0]);
      Steps(s, 0, p, gs)
      == if s[t.0..t.1] != gs[0].block then [Edit(t.0, t.1, gs[0].block)] + Steps(s, 0, gs[0].line, gs[1..])
         else Steps(s, 0, p, gs[1..])
  {
    hide Step, LineOk, Target;
    StepWrites(s, p, prev, first, gs[0], css[0]);
  }

  lemma {:induction false} AnnotatableForward(s: string, prev: nat, first: bool, gs: seq<Group>, css: seq<seq<Chunk>>)
    requires Annotatable(s, prev, first, gs, css)
    ensures Forward(s, 0, prev, gs)
    decreases |gs|
  {
    hide KdocBeforeAnnotations, MarkersAbove, Closed, Contains, AllProper, ChunksText, CommentOk, LineStart, Target;
    if gs != [] {
      AnnotatableForward(s, gs[0].line, false, gs[1..], css[1..]);
    }
  }

  lemma TextOf(s: string, prev: nat, first: bool, gs: seq<Group>, css: seq<seq<Chunk>>)
    requires gs != [] && css != [] && Annotatable(s, prev, first, gs, css) && LineOk(s, prev, first, gs[0], css[0])
    requires Annotatable(s, gs[0].line, false, gs[1..], css[1..]) && OnLine(s, gs[0])
    ensures var t := Target(s, gs[0]);
      && prev <= t.0
      && Annotated(Stretches(s, prev, first, gs, css))
         == ((s[prev..t.0] + gs[0].block) + s[t.1..gs[0].line]) + Annotated(Stretches(s, gs[0].line, false, gs[1..], css[1..]))
  {
    hide KdocBeforeAnnotations, MarkersAbove, Closed, Contains, AllProper, ChunksText, Annotated, Annotatable, CommentOk, LineStart, Target;
    var t, end := Target(s, gs[0]), CodeEnd(s, gs[0]);
    TextFront(StretchOf(s, prev, gs[0], css[0]), Stretches(s, gs[0].line, false, gs[1..], css[1..]));
    assert s[prev..t.0] == s[prev..end] + s[end..t.0];
    assert s[prev..end] + (s[end..t.0] + gs[0].block) == s[prev..t.0] + gs[0].block;
  }

  // ----- the second run -----

  lemma GroupsMatch(s: string, prev: nat, first: bool, gs: seq<Group>, css: seq<seq<Chunk>>, k: nat)
    requires Annotatable(s, prev, first, gs, css) && k < |gs|
    ensures var ss := Stretches(s, prev, first, gs, css);
      GroupBelow(ss[..k + 1]).indent == gs[k].indent && GroupBelow(ss[..k + 1]).block == gs[k].block
  {
    StretchAt(s, prev, first, gs, css, k);
    var ss := Stretches(s, prev, first, gs, css);
    assert ss[..k + 1][k] == ss[k];
  }

  lemma {:induction false} StretchAt(s: string, prev: nat, first: bool, gs: seq<Group>, css: seq<seq<Chunk>>, k: nat)
    requires Annotatable(s, prev, first, gs, css) && k < |gs|
    ensures var st := Stretches(s, prev, first, gs, css)[k];
      st.indent == gs[k].indent && ChunksText(st.indent, st.chunks) == gs[k].block
    decreases |gs|
  {
    hide KdocBeforeAnnotations, MarkersAbove, Closed, Contains, AllProper, ChunksText, CommentOk, LineStart, Target;
    if k > 0 {
      StretchAt(s, gs[0].line, false, gs[1..], css[1..], k - 1);
    }
  }

  /** Main result: annotate, then annotate the result at the same code lines. The first run
      writes the code with the new blocks between; the second changes nothing, exactly when no
      block is taken for the one below another generated comment and annotations. */
  lemma AnnotatingTwice(s: string, gs: seq<Group>, css: seq<seq<Chunk>>)
    requires gs != [] && Annotatable(s, 0, true, gs, css)
    ensures Forward(s, 0, 0, gs) && Orderly(Steps(s, 0, 0, gs), 0, |s|) && LastLine(0, gs) < |s|
    ensures var ss := Stretches(s, 0, true, gs, css);
      var out := Splice(s, Steps(s, 0, 0, gs), 0);
      && out == Annotated(ss) + s[LastLine(0, gs)..]
      && AllSound(ss) && Forward(out, 0, 0, GroupsFrom(ss, 0))
      && (forall g :: g in GroupsFrom(ss, 0) ==> Reachable(out, 0, 0, g))
      && (Steps(out, 0, 0, GroupsFrom(ss, 0)) == [] <==> forall g :: g in GroupsFrom(ss, 0) ==> CommentSettled(out, g))
  {
    hide *;
    FirstRunWrites(s, 0, 0, true, gs, css);
    StretchesSound(s, 0, true, gs, css);
    var ss, tail := Stretches(s, 0, true, gs, css), s[LastLine(0, gs)..];
    assert s[0..0] + (Annotated(ss) + tail) == Annotated(ss) + tail;
    assert Annotated(ss) <= Annotated(ss) + tail;
    SecondRunSettled(Annotated(ss) + tail, ss, 0);
  }

  /** A block directly above its line that ends in a marker comment is always settled. */
  lemma DocBlockSettled(text: string, ss: seq<Stretch>)
    requires ss != [] && AllSound(ss) && Annotated(ss) <= text && |Annotated(ss)| < |text| && ss[|ss| - 1].below == ""
    requires var cs := ss[|ss| - 1].chunks; cs != [] && cs[|cs| - 1].DocMark?
    ensures Reachable(text, 0, 0, GroupBelow(ss)) && CommentSettled(text, GroupBelow(ss))
  {
    hide *;
    BlockSettled(text, ss);
    TextUnfold(ss);
    TextClosed(ss);
    var last := ss[|ss| - 1];
    SoundParts(last);
    BelowParts(last);
    PlainBlock(last);
    ReachableOnLine(text, GroupBelow(ss));
    var cs := last.chunks;
    var above := Annotated(ss[..|ss| - 1]) + last.code;
    ChunksUnfold(above, last.indent, cs);
    LineReachable(text, ss);
    LineOfReachable(text, GroupBelow(ss));
    var x := above + ChunksText(last.indent, cs[..|cs| - 1]);
    assert text[..|Annotated(ss)|] == (x + ChunkText(last.indent, DocMark(cs[|cs| - 1].body))) + "";
    NothingFound(last.indent);
    DocFound(text, x, last.indent, cs[|cs| - 1].body, "", |Annotated(ss)|);
    NoneSettles(text, ss);
  }

  lemma NothingFound(indent: string)
    ensures !AnnotationsOnly(Lines(""), indent, 0, false) && !Contains("", "/**")
  {
  }

  lemma NoneSettles(text: string, ss: seq<Stretch>)
    requires ss != [] && Reachable(text, 0, 0, GroupBelow(ss))
    requires KdocBeforeAnnotations(text, 0, |Annotated(ss)|, ss[|ss| - 1].indent).None?
    ensures CommentSettled(text, GroupBelow(ss))
  {
    hide KdocBeforeAnnotations;
  }

  // ----- above annotations -----

  /** The text after a block was written over the comment above annotations, and the group below. */
  function Rewritten(s: string, g: Group, comment: (nat, nat)): string
    requires comment.0 <= comment.1 <= |s|
  {
    s[..comment.0] + g.block + s[comment.1..]
  }

  function Pushed(g: Group, comment: (nat, nat)): Group
    requires comment.1 <= g.line
  {
    g.(line := comment.0 + |g.block| + (g.line - comment.1))
  }

  /** A block that ends in a comment replaces the comment above the annotations. The next run
      leaves it alone, exactly if it is one comment and not indented. */
  lemma CommentSettlesUnindented(s: string, g: Group, cs: seq<Chunk>)
    requires Reachable(s, 0, 0, g) && KdocBeforeAnnotations(s, 0, g.line, g.indent).Some?
    requires Blank(g.indent) && AllProper(cs) && g.block == ChunksText(g.indent, cs) && cs != [] && cs[|cs| - 1].DocMark?
    ensures var comment := KdocBeforeAnnotations(s, 0, g.line, g.indent).value;
      var out, moved := Rewritten(s, g, comment), Pushed(g, comment);
      Reachable(out, 0, 0, moved) && (Step(out, 0, 0, moved).None? <==> g.indent == "" && |cs| == 1)
  {
    hide *;
    ReachableOnLine(s, g);
    LineOfReachable(s, g);
    CommentParts(s, g);
    var comment := KdocBeforeAnnotations(s, 0, g.line, g.indent).value;
    var out, moved := Rewritten(s, g, comment), Pushed(g, comment);
    NoneBelow(s, g.line, comment.0, comment.1);
    RewrittenParts(s, g, comment);
    LineOfReachable(out, moved);
    BlockAgain(out, s[..comment.0], moved, KdocBeforeAnnotations(out, 0, moved.line, moved.indent), cs, s[comment.1..g.line]);
    CommentDecidesStep(out, moved);
  }

  lemma ReachableOnLine(s: string, g: Group)
    requires Reachable(s, 0, 0, g)
    ensures OnLine(s, g) && g.line < |s| && CommentFor(s, g) == KdocBeforeAnnotations(s, 0, g.line, g.indent)
  {
    hide KdocBeforeAnnotations;
  }

  lemma RewrittenParts(s: string, g: Group, comment: (nat, nat))
    requires Reachable(s, 0, 0, g) && comment.0 < comment.1 < g.line
    ensures var out, moved := Rewritten(s, g, comment), Pushed(g, comment);
      && moved.indent == g.indent && moved.block == g.block && Reachable(out, 0, 0, moved)
      && out[..moved.line] == (s[..comment.0] + g.block) + s[comment.1..g.line]
  {
    var out, line := Rewritten(s, g, comment), Pushed(g, comment).line;
    assert s[comment.1..] == s[comment.1..g.line] + s[g.line..];
    assert out == ((s[..comment.0] + g.block) + s[comment.1..g.line]) + s[g.line..];
    assert out[line - 1] == s[comment.1..g.line][g.line - comment.1 - 1];
  }

  /** Above annotations an indented marker never settles: the comment that is found starts
      behind the indentation its block starts with, so every run writes the block again. */
  lemma IndentedCommentNeverSettles(s: string, g: Group)
    requires Reachable(s, 0, 0, g) && KdocBeforeAnnotations(s, 0, g.line, g.indent).Some?
    requires g.indent != [] && Blank(g.indent) && |g.block| >= |g.indent| && g.block[..|g.indent|] == g.indent
    ensures !CommentSettled(s, g)
    ensures Step(s, 0, 0, g) == Some(Edit(KdocBeforeAnnotations(s, 0, g.line, g.indent).value.0,
                                          KdocBeforeAnnotations(s, 0, g.line, g.indent).value.1, g.block))
  {
    hide SaysNotlin, AnnotationsOnly, Lines;
    var comment := KdocBeforeAnnotations(s, 0, g.line, g.indent).value;
    assert At(s[0..g.line], comment.0, "/**");
    AtLetters(s[0..g.line], comment.0, "/**");
    assert s[comment.0] == '/';
    assert s[comment.0..comment.1][0] == '/';
    assert g.block[0] == g.block[..|g.indent|][0];
  }

  /** So it goes for a tab: the comment the run wrote is found without its tab, and is written
      once more behind it, and again by the next run. */
  lemma TabbedCommentGrows()
    ensures var w := ChunkText("\t", DocMark([" * NOTLIN x"]));
      var s, g := w + "\t@A\n" + "\tf", Group(|w| + 4, "\t", w);
      && Reachable(s, 0, 0, g) && KdocBeforeAnnotations(s, 0, g.line, g.indent) == Some((1, |w|))
      && Step(s, 0, 0, g) == Some(Edit(1, |w|, w)) && Rewritten(s, g, (1, |w|)) == "\t" + s
      && Reachable("\t" + s, 0, 0, Pushed(g, (1, |w|))) && Step("\t" + s, 0, 0, Pushed(g, (1, |w|))).Some?
  {
    hide *;
    var c := DocMark([" * NOTLIN x"]);
    var w := ChunkText("\t", c);
    var s, g := w + "\t@A\n" + "\tf", Group(|w| + 4, "\t", w);
    TabProper();
    TabReachable(w, g);
    TabAnnotation();
    DocFound(s, "", "\t", c.body, "\t@A\n", g.line);
    SingleChunk("\t", c);
    CommentSettlesUnindented(s, g, [c]);
    DocOpener("\t", c.body);
    TabFirst(w);
    TabStep(s, w, g);
    IndentedCommentNeverSettles(s, g);
  }

  lemma TabProper()
    ensures Blank("\t") && Proper(DocMark([" * NOTLIN x"])) && AllProper([DocMark([" * NOTLIN x"])])
  {
  }

  lemma TabReachable(w: string, g: Group)
    requires g.line == |w| + 4
    ensures var s := w + "\t@A\n" + "\tf"; Reachable(s, 0, 0, g) && s[..g.line] == ("" + w) + "\t@A\n"
  {
  }

  lemma TabAnnotation()
    ensures AnnotationsOnly(Lines("\t@A\n"), "\t", 0, false) && !Contains("\t@A\n", "/**")
  {
    var line := "\t@A";
    LinesHead(line, "");
    assert line + "\n" + "" == "\t@A\n" && Lines("\t@A\n") == [line];
    assert line[0..0 + 1] == "\t" && line[1..] == "@A";
    assert Bare(line, "\t") == "@A";
    assert "@A"[1..] == "A";
    assert Count("A", '(') == 0 && Count("A", ')') == 0;
    assert Count("@A", '(') == 0 && Count("@A", ')') == 0;
    assert [line][1..] == [];
    forall j: nat ensures !At("\t@A\n", j, "/**") { AtLetters("\t@A\n", j, "/**"); }
  }

  lemma SingleChunk(indent: string, c: Chunk)
    ensures ChunksText(indent, [c]) == ChunkText(indent, c)
  {
    assert [c][..0] == [];
  }

  lemma TabFirst(w: string)
    requires w == ChunkText("\t", DocMark([" * NOTLIN x"]))
    ensures w != [] && w[0] == '\t'
  {
  }

  lemma TabStep(s: string, w: string, g: Group)
    requires s == w + "\t@A\n" + "\tf" && g == Group(|w| + 4, "\t", w) && |w| > 1 && w[0] == '\t'
    ensures w[..1] == "\t" && Rewritten(s, g, (1, |w|)) == "\t" + s && Pushed(g, (1, |w|)).line == 1 + g.line
  {
    assert s[..1] == "\t" && s[|w|..] == "\t@A\n" + "\tf";
  }

  /** An anchor that moves with its line stays on it, at the same indentation. */
  lemma AnchorKeepsItsLine(s: string, b: Blocker, out: string, line: nat)
    requires b.offset <= |s| && line + (b.offset - LineOf(s, 0, b)) <= |out|
    requires line == 0 || out[line - 1] == '\n'
    requires out[line..line + (b.offset - LineOf(s, 0, b))] == s[LineOf(s, 0, b)..b.offset]
    ensures var moved := Blocker(line + (b.offset - LineOf(s, 0, b)), b.text);
      LineOf(out, 0, moved) == line && IndentOf(out, 0, moved) == IndentOf(s, 0, b)
  {
    var start := LineOf(s, 0, b);
    var n := b.offset - start;
    assert forall i :: start <= i < b.offset ==> s[i] != '\n';
    forall i | line <= i < line + n ensures out[i] != '\n' {
      assert out[line..line + n][i - line] == s[start..b.offset][i - line];
    }
    var r := LineStart(out, line + n);
    assert forall i :: r <= i < line + n ==> out[i] != '\n';
  }
}
