/** What a strip loses and what it adds, byte by byte. */
module StripMeaning {
  import opened Options
  import opened TextSearch
  import opened Edits
  import opened Markers
  import opened Strip

  // ----- without blockers -----

  /** The bytes outside the translated spans, in order. */
  ghost function KeptBytes(source: string, spans: seq<Edit>, from: nat): string
    requires from <= |source|
    decreases |source| - from
  {
    if from == |source| then []
    else (if Gone(source, spans, from) then [] else [source[from]]) + KeptBytes(source, spans, from + 1)
  }

  lemma {:induction false} ApartOrderly(spans: seq<Edit>, from: nat, n: nat)
    requires Deletions(spans, n) && Apart(spans) && from <= n && (spans != [] ==> from <= spans[0].start)
    ensures Orderly(spans, from, n)
    ensures forall i: nat :: TextsAt(spans, i) == []
  {
    if spans != [] {
      ApartOrderly(spans[1..], spans[0].end, n);
    }
  }

  lemma {:induction false} PiecesKept(source: string, spans: seq<Edit>, merged: seq<Edit>, from: nat)
    requires from <= |source| && (forall i: nat :: TextsAt(merged, i) == [])
    requires forall i: nat :: Covered(merged, i) <==> Gone(source, spans, i)
    ensures Pieces(source, merged, from, |source| + 1) == KeptBytes(source, spans, from)
    decreases |source| - from
  {
    hide Covered, Gone, TextsAt;
    if from < |source| {
      PiecesKept(source, spans, merged, from + 1);
    } else {
      assert Pieces(source, merged, |source| + 1, |source| + 1) == [];
      assert PieceAt(source, merged, from) == [];
    }
  }

  lemma {:induction false} NothingToWrite(source: string, cursor: nat, spans: seq<Edit>)
    requires cursor <= |source| && Deletions(spans, |source|) && Apart(spans)
    requires spans != [] ==> cursor <= spans[0].start
    ensures Script(source, cursor, spans, []) == spans
    decreases |spans|
  {
    if spans != [] {
      hide Script, Orderly;
      ScriptUnfold(source, cursor, spans, []);
      NothingToWrite(source, spans[0].end, spans[1..]);
      assert LeftBehind([], cursor, spans[0]) == [];
      assert Plan(source, cursor, spans[0].start, []) == [];
    }
  }

  /** Main result: without blockers the output is the text outside the union of the widened
      spans, in order, and nothing else. */
  lemma StripKeepsTheRest(source: string, spans: seq<Edit>, merged: seq<Edit>)
    requires Deletions(merged, |source|) && Apart(merged)
    requires forall i: nat :: Covered(merged, i) <==> Gone(source, spans, i)
    ensures Splice(source, Script(source, 0, merged, []), 0) == KeptBytes(source, spans, 0)
  {
    hide Covered, Gone, TextsAt, Splice, Pieces, Script, Orderly;
    NothingToWrite(source, 0, merged);
    ApartOrderly(merged, 0, |source|);
    SimultaneousIsSplice(source, merged);
    PiecesKept(source, spans, merged, 0);
  }

  // ----- what a marker edit removes -----

  /** A line that is a line marker at this indentation. */
  ghost predicate LineMarker(source: string, a: nat, b: nat, indent: string) {
    a < b <= |source| && StartsWith(source[a..b], indent + "// NOTLIN:") && forall i :: a <= i < b - 1 ==> source[i] != '\n'
  }

  /** A comment that opens as a marker at `open`, on the line from `a`, and closes on the line
      from `close` to `b`. */
  ghost predicate BlockMarker(source: string, a: nat, open: nat, close: nat, b: nat) {
    && a <= open < close < b <= |source|
    && ((StartsWith(source[open..close], "/**") && SaysNotlin(source[open..close])) || StartsWith(source[open..close], "/* NOTLIN:"))
    && !Contains(source[open..close], "*/") && Trim(source[close..b]) == "*/"
    && forall i :: a <= i < open ==> source[i] != '\n'
  }

  /** Markers one after another, from `a` to `b`. */
  ghost predicate MarkerRun(source: string, a: nat, b: nat, indent: string)
    decreases b
  {
    a == b || exists m: nat :: a <= m < b && MarkerRun(source, a, m, indent) && OneMarker(source, m, b, indent)
  }

  ghost predicate OneMarker(source: string, m: nat, b: nat, indent: string) {
    LineMarker(source, m, b, indent) || exists open, close :: BlockMarker(source, m, open, close, b)
  }

  lemma BlockAboveIsMarker(source: string, from: nat, prev: nat, at: nat)
    requires from <= prev < at <= |source| && BlockAbove(source, from, prev).Some? && Trim(source[prev..at]) == "*/"
    ensures exists open :: BlockMarker(source, BlockAbove(source, from, prev).value, open, prev, at)
  {
    hide SaysNotlin, Trim, FindLast;
    var before := source[from..prev];
    var doc := FindLast(before, "/**");
    var hit := if doc.Some? && SaysNotlin(before[doc.value..]) then doc else FindLast(before, "/* NOTLIN:");
    var open := from + hit.value;
    assert before[hit.value..] == source[open..prev];
    assert BlockMarker(source, BlockAbove(source, from, prev).value, open, prev, at);
  }

  /** What the scan upwards walks over is markers and nothing else. */
  lemma {:induction false} ScanIsMarkers(source: string, from: nat, at: nat, indent: string)
    requires from <= at <= |source|
    ensures MarkerRun(source, MarkersAbove(source, from, at, indent), at, indent)
    decreases at
  {
    hide BlockAbove, LineMarker, BlockMarker, LineStart, Trim, StartsWith;
    if at > from {
      var prev := AtLeast(LineStart(source, at - 1), from);
      if StartsWith(source[prev..at], indent + "// NOTLIN:") {
        ScanIsMarkers(source, from, prev, indent);
        LineMarkerThere(source, from, at, indent);
        assert OneMarker(source, prev, at, indent);
      } else if Trim(source[prev..at]) == "*/" && BlockAbove(source, from, prev).Some? {
        BlockAboveIsMarker(source, from, prev, at);
        var start := BlockAbove(source, from, prev).value;
        ScanIsMarkers(source, from, start, indent);
        assert OneMarker(source, start, at, indent);
      }
    }
  }

  lemma LineMarkerThere(source: string, from: nat, at: nat, indent: string)
    requires from < at <= |source|
    requires var prev := AtLeast(LineStart(source, at - 1), from); StartsWith(source[prev..at], indent + "// NOTLIN:")
    ensures LineMarker(source, AtLeast(LineStart(source, at - 1), from), at, indent)
  {
  }

  /** A generated comment, up to its first close and the break behind, with only annotations
      between it and `line`. */
  ghost predicate GeneratedComment(source: string, a: nat, b: nat, line: nat, indent: string) {
    && a < b <= line <= |source| && StartsWith(source[a..line], "/**") && SaysNotlin(source[a..line])
    && AnnotationsOnly(Lines(source[b..line]), indent, 0, false)
    && exists close: nat :: a + close + 2 <= b && At(source[a..line], close, "*/") && SkipBreak(source, a + close + 2) == b
         && forall j: nat :: j < close ==> !At(source[a..line], j, "*/")
  }

  /** `e` puts a block above `line`, in place of the markers from `start` on or of the generated
      comment before the annotations. A cursor inside the markers leaves their head. */
  ghost predicate Replaces(source: string, e: Edit, start: nat, line: nat, indent: string) {
    && start <= e.start <= e.end <= line <= |source|
    && ((e.end == line && MarkerRun(source, start, line, indent)) || GeneratedComment(source, e.start, e.end, line, indent))
  }

  lemma CommentIsGenerated(source: string, from: nat, line: nat, indent: string)
    requires from <= line < |source| && (line == from || source[line - 1] == '\n')
    requires KdocBeforeAnnotations(source, from, line, indent).Some?
    ensures var r := KdocBeforeAnnotations(source, from, line, indent).value; GeneratedComment(source, r.0, r.1, line, indent)
  {
    hide SaysNotlin, AnnotationsOnly, Lines, SkipBreak;
    var start := from + FindLast(source[from..line], "/**").value;
    var close := FindFirst(source[start..line], "*/").value;
    assert At(source[start..line], close, "*/");
  }

  lemma StepReplaces(source: string, from: nat, p: nat, g: Group)
    requires Reachable(source, from, p, g) && Step(source, from, p, g).Some?
    ensures exists start :: Replaces(source, Step(source, from, p, g).value, start, g.line, g.indent)
  {
    hide KdocBeforeAnnotations, GeneratedComment, MarkerRun, MarkersAbove;
    var e := Step(source, from, p, g).value;
    if KdocBeforeAnnotations(source, p, g.line, g.indent).Some? {
      CommentIsGenerated(source, p, g.line, g.indent);
      assert Replaces(source, e, e.start, g.line, g.indent);
    } else {
      ScanIsMarkers(source, from, g.line, g.indent);
      assert Replaces(source, e, MarkersAbove(source, from, g.line, g.indent), g.line, g.indent);
    }
  }

  /** The blockers `bs` share a line, and `e` writes their block there. */
  ghost predicate Annotates(source: string, from: nat, bs: seq<Blocker>, e: Edit, start: nat) {
    && bs != [] && Within(bs, from, |source| + 1)
    && (forall b :: b in bs ==> LineOf(source, from, b) == LineOf(source, from, bs[0]))
    && e.text == BlockOf(IndentOf(source, from, bs[0]), bs)
    && Replaces(source, e, start, LineOf(source, from, bs[0]), IndentOf(source, from, bs[0]))
  }

  ghost predicate AnnotationEdit(source: string, blockers: seq<Blocker>, e: Edit) {
    exists from, bs, start :: Annotates(source, from, bs, e, start) && forall b :: b in bs ==> b in blockers
  }

  lemma {:induction false} GroupsFrom(source: string, from: nat, bs: seq<Blocker>, g: Group) returns (n: nat, m: nat)
    requires Within(bs, from, |source| + 1) && g in Groups(source, from, bs)
    ensures n < m <= |bs| && g.line == LineOf(source, from, bs[n]) && g.indent == IndentOf(source, from, bs[n])
    ensures g.block == BlockOf(g.indent, bs[n..m])
    ensures forall i :: n <= i < m ==> LineOf(source, from, bs[i]) == LineOf(source, from, bs[n])
    decreases |bs|
  {
    hide LineOf, IndentOf, BlockOf, SameLine, Groups;
    assert bs != [] by { SomeBlocker(source, from, bs, g); }
    GroupsUnfold(source, from, bs);
    var k := SameLine(source, from, bs, 1);
    if g == Groups(source, from, bs)[0] {
      n, m := 0, k;
      assert bs[0..k] == bs[..k];
    } else {
      assert g in Groups(source, from, bs)[1..];
      var u, v := GroupsFrom(source, from, bs[k..], g);
      n, m := k + u, k + v;
      Reindexed(bs, k, u, v);
    }
  }

  lemma SomeBlocker(source: string, from: nat, bs: seq<Blocker>, g: Group)
    requires Within(bs, from, |source| + 1) && g in Groups(source, from, bs)
    ensures bs != []
  {
  }

  lemma Reindexed(bs: seq<Blocker>, k: nat, u: nat, v: nat)
    requires k <= |bs| && u < v <= |bs[k..]|
    ensures bs[k..][u..v] == bs[k + u..k + v] && bs[k..][u] == bs[k + u]
    ensures forall i :: k + u <= i < k + v ==> bs[i] == bs[k..][i - k]
  {
  }

  lemma {:induction false} StepsFrom(source: string, from: nat, p: nat, groups: seq<Group>, e: Edit) returns (g: Group, start: nat)
    requires from <= p && Forward(source, from, p, groups) && e in Steps(source, from, p, groups)
    ensures g in groups && e.text == g.block && Replaces(source, e, start, g.line, g.indent)
    decreases |groups|
  {
    hide Replaces, Step;
    g := groups[0];
    var step := Step(source, from, p, g);
    if step.Some? && e == step.value {
      StepReplaces(source, from, p, g);
      start :| Replaces(source, e, start, g.line, g.indent);
    } else {
      ForwardFrom(source, from, p, groups);
      g, start := StepsFrom(source, from, if step.Some? then g.line else p, groups[1..], e);
    }
  }

  lemma PlanAnnotates(source: string, from: nat, to: nat, blockers: seq<Blocker>, e: Edit)
    requires from <= to <= |source| && Ascending(blockers) && e in Plan(source, from, to, blockers)
    ensures AnnotationEdit(source, blockers, e)
  {
    hide *;
    PlanParts(source, from, to, blockers);
    var bs := InStretch(blockers, from, to);
    var g, start := StepsFrom(source, from, from, Groups(source, from, bs), e);
    var n, m := GroupsFrom(source, from, bs, g);
    GroupAnnotates(source, from, bs, n, m, g, e, start);
    AnnotatesSome(source, blockers, from, bs[n..m], e, start);
  }

  lemma PlanParts(source: string, from: nat, to: nat, blockers: seq<Blocker>)
    requires from <= to <= |source| && Ascending(blockers)
    ensures var bs := InStretch(blockers, from, to);
      && Within(bs, from, |source| + 1) && Forward(source, from, from, Groups(source, from, bs))
      && Plan(source, from, to, blockers) == Steps(source, from, from, Groups(source, from, bs))
  {
    hide Steps, Groups, Forward, Orderly;
    StretchAscends(blockers, from, to);
    GroupsForward(source, from, to, from, InStretch(blockers, from, to));
  }

  lemma AnnotatesSome(source: string, blockers: seq<Blocker>, from: nat, bs: seq<Blocker>, e: Edit, start: nat)
    requires Annotates(source, from, bs, e, start) && forall b :: b in bs ==> b in blockers
    ensures AnnotationEdit(source, blockers, e)
  {
    hide Annotates;
  }

  lemma GroupAnnotates(source: string, from: nat, bs: seq<Blocker>, n: nat, m: nat, g: Group, e: Edit, start: nat)
    requires n < m <= |bs| && Within(bs, from, |source| + 1)
    requires g.line == LineOf(source, from, bs[n]) && g.indent == IndentOf(source, from, bs[n])
    requires g.block == BlockOf(g.indent, bs[n..m])
    requires forall i :: n <= i < m ==> LineOf(source, from, bs[i]) == LineOf(source, from, bs[n])
    requires e.text == g.block && Replaces(source, e, start, g.line, g.indent)
    ensures Annotates(source, from, bs[n..m], e, start)
  {
    hide Replaces, LineOf, IndentOf, BlockOf;
    assert bs[n..m][0] == bs[n] && forall b :: b in bs[n..m] ==> b in bs;
    forall b | b in bs[n..m] ensures LineOf(source, from, b) == LineOf(source, from, bs[n]) {
      var i :| n <= i < m && bs[i] == b;
    }
  }

  /** Main result: every edit of a strip deletes a merged span, or puts the block of the
      blockers on one line where markers were. */
  lemma {:induction false} ScriptAnnotates(source: string, cursor: nat, spans: seq<Edit>, blockers: seq<Blocker>, e: Edit)
    requires cursor <= |source| && Deletions(spans, |source|) && Apart(spans) && Ascending(blockers)
    requires spans != [] ==> cursor <= spans[0].start
    requires e in Script(source, cursor, spans, blockers)
    ensures e in spans || AnnotationEdit(source, blockers, e)
    decreases |spans|
  {
    hide Plan, AnnotationEdit, Orderly, Script;
    if spans == [] {
      ScriptEnd(source, cursor, spans, blockers);
      PlanAnnotates(source, cursor, |source|, blockers, e);
    } else {
      ScriptUnfold(source, cursor, spans, blockers);
      if e in Plan(source, cursor, spans[0].start, blockers) {
        PlanAnnotates(source, cursor, spans[0].start, blockers, e);
      } else if e != spans[0] {
        var left := LeftBehind(blockers, cursor, spans[0]);
        ScriptAnnotates(source, spans[0].end, spans[1..], left, e);
        if e !in spans[1..] {
          FewerBlockers(source, left, blockers, e);
        }
      }
    }
  }

  lemma FewerBlockers(source: string, few: seq<Blocker>, blockers: seq<Blocker>, e: Edit)
    requires AnnotationEdit(source, few, e) && forall b :: b in few ==> b in blockers
    ensures AnnotationEdit(source, blockers, e)
  {
    hide Annotates;
    var from, bs, start :| Annotates(source, from, bs, e, start) && forall b :: b in bs ==> b in few;
    assert Annotates(source, from, bs, e, start) && forall b :: b in bs ==> b in blockers;
  }

  // ----- byte by byte -----

  /** A marker of the run from `start` to `line`. */
  ghost predicate OfRun(source: string, start: nat, m: nat, n: nat, line: nat, indent: string) {
    && start <= m < n <= line && MarkerRun(source, start, m, indent) && OneMarker(source, m, n, indent)
  }

  /** Byte `i` is the marker's own: in its line, or from its opener on. */
  ghost predicate OwnOf(source: string, m: nat, n: nat, indent: string, i: nat) {
    || (LineMarker(source, m, n, indent) && m <= i < n)
    || exists open: nat, close: nat :: BlockMarker(source, m, open, close, n) && open <= i < n
  }

  /** Byte `i` stands before the opener, on the line it is on. */
  ghost predicate AheadOf(source: string, m: nat, n: nat, i: nat) {
    exists open: nat, close: nat :: BlockMarker(source, m, open, close, n) && m <= i < open
  }

  /** Edit `e` replaces a marker, or the generated comment, that byte `i` belongs to. */
  ghost predicate EditsOwn(source: string, blockers: seq<Blocker>, e: Edit, i: nat) {
    && e.start <= i < e.end
    && exists from, bs, start ::
         && Annotates(source, from, bs, e, start) && (forall b :: b in bs ==> b in blockers)
         && OwnThere(source, e, start, LineOf(source, from, bs[0]), IndentOf(source, from, bs[0]), i)
  }

  ghost predicate OwnThere(source: string, e: Edit, start: nat, line: nat, indent: string, i: nat) {
    || GeneratedComment(source, e.start, e.end, line, indent)
    || exists m, n :: OfRun(source, start, m, n, line, indent) && OwnOf(source, m, n, indent, i)
  }

  /** Edit `e` replaces a block marker, and byte `i` before its opener with it. */
  ghost predicate EditsAhead(source: string, blockers: seq<Blocker>, e: Edit, i: nat) {
    && e.start <= i < e.end
    && exists from, bs, start ::
         && Annotates(source, from, bs, e, start) && (forall b :: b in bs ==> b in blockers)
         && AheadThere(source, start, LineOf(source, from, bs[0]), IndentOf(source, from, bs[0]), i)
  }

  ghost predicate AheadThere(source: string, start: nat, line: nat, indent: string, i: nat) {
    exists m, n :: OfRun(source, start, m, n, line, indent) && AheadOf(source, m, n, i)
  }

  /** Byte `i` is the own byte of a marker that is replaced. */
  ghost predicate InReplaced(source: string, blockers: seq<Blocker>, script: seq<Edit>, i: nat) {
    exists k :: 0 <= k < |script| && EditsOwn(source, blockers, script[k], i)
  }

  /** Byte `i` stands before the opener of a block marker that is replaced, on its first line. */
  ghost predicate AheadOfReplaced(source: string, blockers: seq<Blocker>, script: seq<Edit>, i: nat) {
    exists k :: 0 <= k < |script| && EditsAhead(source, blockers, script[k], i)
  }

  lemma {:induction false} RunByte(source: string, a: nat, b: nat, indent: string, i: nat) returns (m: nat, n: nat)
    requires MarkerRun(source, a, b, indent) && a <= i < b
    ensures OfRun(source, a, m, n, b, indent) && m <= i < n
    decreases b
  {
    hide OneMarker;
    m :| a <= m < b && MarkerRun(source, a, m, indent) && OneMarker(source, m, b, indent);
    n := b;
    if i < m {
      m, n := RunByte(source, a, m, indent, i);
    }
  }

  lemma MarkerByte(source: string, m: nat, n: nat, indent: string, i: nat)
    requires OneMarker(source, m, n, indent) && m <= i < n
    ensures OwnOf(source, m, n, indent, i) || AheadOf(source, m, n, i)
  {
    hide LineMarker, BlockMarker;
    if !LineMarker(source, m, n, indent) {
      var open, close :| BlockMarker(source, m, open, close, n);
    }
  }

  lemma AnnotationByte(source: string, blockers: seq<Blocker>, e: Edit, i: nat)
    requires AnnotationEdit(source, blockers, e) && e.start <= i < e.end
    ensures EditsOwn(source, blockers, e, i) || EditsAhead(source, blockers, e, i)
  {
    hide MarkerRun, GeneratedComment, OneMarker, LineOf, IndentOf, BlockOf, OwnOf, AheadOf, OfRun;
    var from, bs, start :| Annotates(source, from, bs, e, start) && forall b :: b in bs ==> b in blockers;
    var line, indent := LineOf(source, from, bs[0]), IndentOf(source, from, bs[0]);
    if e.end == line && MarkerRun(source, start, line, indent) {
      var m, n := RunByte(source, start, line, indent, i);
      assert OneMarker(source, m, n, indent) by { OfRunMarker(source, start, m, n, line, indent); }
      MarkerByte(source, m, n, indent, i);
      assert OwnOf(source, m, n, indent, i) ==> OwnThere(source, e, start, line, indent, i);
      assert AheadOf(source, m, n, i) ==> AheadThere(source, start, line, indent, i);
    } else {
      assert OwnThere(source, e, start, line, indent, i);
    }
  }

  lemma OfRunMarker(source: string, start: nat, m: nat, n: nat, line: nat, indent: string)
    requires OfRun(source, start, m, n, line, indent)
    ensures OneMarker(source, m, n, indent)
  {
  }

  /** Main result: a byte is missing from the output exactly if a translated span went there, or
      it belongs to a marker that is replaced, or stands before the opener of one on its line. */
  lemma MissingBytes(source: string, spans: seq<Edit>, merged: seq<Edit>, blockers: seq<Blocker>, i: nat)
    requires Deletions(merged, |source|) && Apart(merged) && Ascending(blockers)
    requires forall j: nat :: Covered(merged, j) <==> Gone(source, spans, j)
    ensures var script := Script(source, 0, merged, blockers);
      Covered(script, i) <==>
        Gone(source, spans, i) || InReplaced(source, blockers, script, i) || AheadOfReplaced(source, blockers, script, i)
  {
    hide Script, Gone, EditsOwn, EditsAhead, AnnotationEdit, Apart, Deletions, Ascending;
    var script := Script(source, 0, merged, blockers);
    if Covered(script, i) {
      var k :| 0 <= k < |script| && script[k].start <= i < script[k].end;
      assert script[k] in script;
      ScriptAnnotates(source, 0, merged, blockers, script[k]);
      if script[k] in merged {
        assert Covered(merged, i);
      } else {
        AnnotationByte(source, blockers, script[k], i);
      }
    }
    if Gone(source, spans, i) {
      var k :| 0 <= k < |merged| && merged[k].start <= i < merged[k].end;
      SpansScripted(source, 0, merged, blockers, merged[k]);
    }
    forall k | 0 <= k < |script| ensures EditsOwn(source, blockers, script[k], i) || EditsAhead(source, blockers, script[k], i) ==> Covered(script, i) {
      EditsCover(source, blockers, script, k, i);
    }
  }

  lemma EditsCover(source: string, blockers: seq<Blocker>, script: seq<Edit>, k: nat, i: nat)
    requires k < |script|
    ensures EditsOwn(source, blockers, script[k], i) || EditsAhead(source, blockers, script[k], i) ==> Covered(script, i)
  {
    hide Annotates, OwnThere, AheadThere;
  }

  /** Every merged span is deleted. */
  lemma {:induction false} SpansScripted(source: string, cursor: nat, spans: seq<Edit>, blockers: seq<Blocker>, e: Edit)
    requires cursor <= |source| && Deletions(spans, |source|) && Apart(spans) && Ascending(blockers)
    requires spans != [] ==> cursor <= spans[0].start
    requires e in spans
    ensures e in Script(source, cursor, spans, blockers)
    decreases |spans|
  {
    hide Plan, Orderly, Script, LeftBehind;
    ScriptUnfold(source, cursor, spans, blockers);
    if e != spans[0] {
      SpansScripted(source, spans[0].end, spans[1..], LeftBehind(blockers, cursor, spans[0]), e);
    }
  }

  predicate BlankAt(source: string, i: nat) {
    i < |source| && (source[i] == ' ' || source[i] == '\t')
  }

  /** What is not blank is missing only where a span or a marker itself was, exactly if nothing
      but blanks stands before the opener of any block marker that is replaced. */
  lemma CodeIsKept(source: string, spans: seq<Edit>, merged: seq<Edit>, blockers: seq<Blocker>)
    requires Deletions(merged, |source|) && Apart(merged) && Ascending(blockers)
    requires forall j: nat :: Covered(merged, j) <==> Gone(source, spans, j)
    ensures var script := Script(source, 0, merged, blockers);
      (forall i: nat :: Covered(script, i) && !BlankAt(source, i) ==> Gone(source, spans, i) || InReplaced(source, blockers, script, i))
      <==> (forall i: nat :: AheadOfReplaced(source, blockers, script, i) && !BlankAt(source, i) ==> Gone(source, spans, i) || InReplaced(source, blockers, script, i))
  {
    hide *;
    forall i: nat
      ensures var script := Script(source, 0, merged, blockers);
        Covered(script, i) <==>
          Gone(source, spans, i) || InReplaced(source, blockers, script, i) || AheadOfReplaced(source, blockers, script, i)
    {
      MissingBytes(source, spans, merged, blockers, i);
    }
  }

  /** Byte `i` stands before the opener of a block marker, on its line, in a run of markers right
      above the line of some blocker. */
  ghost predicate AheadAbove(source: string, blockers: seq<Blocker>, i: nat) {
    exists from: nat, b: Blocker, start: nat :: from <= b.offset <= |source| && b in blockers &&
      AheadThere(source, start, LineOf(source, from, b), IndentOf(source, from, b), i)
  }

  /** So no code is lost where the markers above the blockers' lines open their lines. */
  lemma CleanMarkersKeepCode(source: string, spans: seq<Edit>, merged: seq<Edit>, blockers: seq<Blocker>)
    requires Deletions(merged, |source|) && Apart(merged) && Ascending(blockers)
    requires forall j: nat :: Covered(merged, j) <==> Gone(source, spans, j)
    requires forall i: nat :: AheadAbove(source, blockers, i) ==> BlankAt(source, i)
    ensures var script := Script(source, 0, merged, blockers);
      forall i: nat :: Covered(script, i) && !BlankAt(source, i) ==> Gone(source, spans, i) || InReplaced(source, blockers, script, i)
  {
    hide *;
    CodeIsKept(source, spans, merged, blockers);
    var script := Script(source, 0, merged, blockers);
    forall i: nat | AheadOfReplaced(source, blockers, script, i) ensures AheadAbove(source, blockers, i) {
      ReplacedIsAbove(source, blockers, script, i);
    }
  }

  lemma ReplacedIsAbove(source: string, blockers: seq<Blocker>, script: seq<Edit>, i: nat)
    requires AheadOfReplaced(source, blockers, script, i)
    ensures AheadAbove(source, blockers, i)
  {
    hide AheadThere, LineOf, IndentOf, BlockOf, Replaces;
    var k :| 0 <= k < |script| && EditsAhead(source, blockers, script[k], i);
    var from: nat, bs: seq<Blocker>, start: nat :| Annotates(source, from, bs, script[k], start) && (forall b :: b in bs ==> b in blockers)
      && AheadThere(source, start, LineOf(source, from, bs[0]), IndentOf(source, from, bs[0]), i);
    assert bs[0] in bs && from <= bs[0].offset <= |source|;
  }

  /** No occurrence but at `i`, by the first three letters. */
  lemma OnlyAt(s: string, pat: string, i: nat)
    requires |pat| >= 2
    requires forall j :: 0 <= j < |s| - 1 && j != i && s[j] == pat[0] && s[j + 1] == pat[1] ==> |pat| > 2 && j + 2 < |s| && s[j + 2] != pat[2]
    ensures forall j: nat :: j != i ==> !At(s, j, pat)
  {
    forall j: nat | j != i ensures !At(s, j, pat) {
      AtLetters(s, j, pat);
    }
  }

  /** The line matters: code before a block marker on its first line goes with the marker. */
  lemma CodeBeforeMarkerIsLost(block: string)
    requires block != "x/* NOTLIN:\n*/\n"
    ensures var source := "x/* NOTLIN:\n*/\ny"; Step(source, 0, 0, Group(15, "", block)) == Some(Edit(0, 15, block))
  {
    hide BlockAbove, Trim, TrimStart, TrimEnd;
    var source := "x/* NOTLIN:\n*/\ny";
    OnlyAt(source[0..15], "/**", 15);
    assert source[0..15] == "x/* NOTLIN:\n*/\n";
    MarkersOverCode();
    hide MarkersAbove, LineStart;
    assert KdocBeforeAnnotations(source, 0, 15, "").None?;
  }

  lemma MarkersOverCode()
    ensures MarkersAbove("x/* NOTLIN:\n*/\ny", 0, 15, "") == 0
  {
    hide BlockAbove, Trim;
    TrimmedClose();
    MarkerBelowCode();
    var source := "x/* NOTLIN:\n*/\ny";
    assert LineStart(source, 14) == 12;
    assert source[12..15] == "*/\n" && !StartsWith("*/\n", "" + "// NOTLIN:");
  }

  lemma TrimmedClose()
    ensures Trim("*/\n") == "*/"
  {
    assert TrimStart("*/\n") == "*/\n" && "*/\n"[..2] == "*/";
  }

  lemma MarkerBelowCode()
    ensures BlockAbove("x/* NOTLIN:\n*/\ny", 0, 12) == Some(0)
  {
    hide SaysNotlin;
    var source := "x/* NOTLIN:\n*/\ny";
    var before := source[0..12];
    assert before == "x/* NOTLIN:\n" && before[1..] == "/* NOTLIN:\n";
    OnlyAt(before, "/**", 12);
    OnlyAt(before, "/* NOTLIN:", 1);
    OnlyAt(before[1..], "*/", 12);
    assert At(before, 1, "/* NOTLIN:");
    assert LineStart(source, 1) == 0;
  }
}
