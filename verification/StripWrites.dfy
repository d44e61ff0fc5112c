/** What a strip adds: for every line with blockers due, their block right above it. */
module StripWrites {
  import opened Options
  import opened TextSearch
  import opened Edits
  import opened Markers
  import opened Strip
  import opened MarkerBlocks
  import opened Reannotate
  import AnnotateTwice

  // ----- the blockers of one line -----

  /** The blockers between `from` and `to` whose line starts at `line`, in order. */
  function Mates(source: string, from: nat, to: nat, bs: seq<Blocker>, line: nat): (r: seq<Blocker>)
    requires to <= |source| + 1
  {
    if bs == [] then []
    else (if from <= bs[0].offset < to && LineOf(source, from, bs[0]) == line then [bs[0]] else [])
         + Mates(source, from, to, bs[1..], line)
  }

  lemma {:induction false} NoMates(source: string, from: nat, bs: seq<Blocker>, line: nat)
    requires Within(bs, from, |source| + 1) && forall k :: 0 <= k < |bs| ==> LineOf(source, from, bs[k]) != line
    ensures Mates(source, from, |source| + 1, bs, line) == []
  {
    hide LineOf;
    if bs != [] { NoMates(source, from, bs[1..], line); }
  }

  /** The first `n` on the line, the others elsewhere. */
  lemma {:induction false} FrontMates(source: string, from: nat, bs: seq<Blocker>, n: nat, line: nat)
    requires Within(bs, from, |source| + 1) && n <= |bs|
    requires forall k :: 0 <= k < |bs| ==> (LineOf(source, from, bs[k]) == line <==> k < n)
    ensures Mates(source, from, |source| + 1, bs, line) == bs[..n]
  {
    hide LineOf;
    if n == 0 {
      NoMates(source, from, bs, line);
    } else {
      FrontMates(source, from, bs[1..], n - 1, line);
      assert bs[..n] == [bs[0]] + bs[1..][..n - 1];
    }
  }

  lemma {:induction false} BackMates(source: string, from: nat, bs: seq<Blocker>, n: nat, line: nat)
    requires Within(bs, from, |source| + 1) && n <= |bs| && Within(bs[n..], from, |source| + 1)
    requires forall k :: 0 <= k < n ==> LineOf(source, from, bs[k]) != line
    ensures Mates(source, from, |source| + 1, bs, line) == Mates(source, from, |source| + 1, bs[n..], line)
  {
    hide LineOf;
    if n == 0 {
      assert bs[0..] == bs;
    } else {
      BackMates(source, from, bs[1..], n - 1, line);
      assert bs[1..][n - 1..] == bs[n..];
    }
  }

  /** The group of a blocker's line holds exactly the blockers of that line. */
  ghost predicate GroupFor(source: string, from: nat, to: nat, bs: seq<Blocker>, b: Blocker, g: Group)
    requires from <= b.offset < to <= |source| + 1
  {
    var mates := Mates(source, from, to, bs, LineOf(source, from, b));
    && b in mates && Within(mates, from, to)
    && g.line == LineOf(source, from, b)
    && (assert mates[0] in mates; g.indent == IndentOf(source, from, mates[0]))
    && g.block == BlockOf(g.indent, mates)
  }

  lemma {:induction false} MatesWithin(source: string, from: nat, to: nat, bs: seq<Blocker>, line: nat)
    requires to <= |source| + 1
    ensures Within(Mates(source, from, to, bs, line), from, to)
    ensures forall b :: b in Mates(source, from, to, bs, line) <==> (
      b in bs && from <= b.offset < to && LineOf(source, from, b) == line)
  {
    hide LineOf;
    if bs != [] {
      MatesWithin(source, from, to, bs[1..], line);
      assert forall b :: b in bs <==> b == bs[0] || b in bs[1..];
    }
  }

  lemma {:induction false} MatesInStretch(source: string, from: nat, to: nat, bs: seq<Blocker>, line: nat)
    requires to <= |source|
    ensures Mates(source, from, |source| + 1, InStretch(bs, from, to), line) == Mates(source, from, to, bs, line)
  {
    hide LineOf;
    if bs != [] {
      MatesInStretch(source, from, to, bs[1..], line);
      var rest := InStretch(bs[1..], from, to);
      assert [] + rest == rest && ([bs[0]] + rest)[1..] == rest;
    }
  }

  lemma {:induction false} GroupsHold(source: string, from: nat, bs: seq<Blocker>, b: Blocker) returns (i: nat)
    requires Within(bs, from, |source| + 1) && Ascending(bs) && b in bs
    ensures i < |Groups(source, from, bs)| && GroupFor(source, from, |source| + 1, bs, b, Groups(source, from, bs)[i])
    decreases |bs|
  {
    hide LineOf, IndentOf, BlockOf, Groups;
    var n := SameLine(source, from, bs, 1);
    GroupsUnfold(source, from, bs);
    var line := LineOf(source, from, bs[0]);
    LinesRise(source, from, bs, n);
    MatesWithin(source, from, |source| + 1, bs, LineOf(source, from, b));
    if LineOf(source, from, b) == line {
      i := 0;
      FrontMates(source, from, bs, n, line);
    } else {
      InBack(source, from, bs, n, b);
      BackAscends(bs, n);
      var j := GroupsHold(source, from, bs[n..], b);
      i := j + 1;
      assert Groups(source, from, bs)[i] == Groups(source, from, bs)[1..][j];
      BackMates(source, from, bs, n, LineOf(source, from, b));
    }
  }

  lemma BackAscends(bs: seq<Blocker>, n: nat)
    requires Ascending(bs) && n <= |bs|
    ensures Ascending(bs[n..])
  {
  }

  lemma InBack(source: string, from: nat, bs: seq<Blocker>, n: nat, b: Blocker)
    requires Within(bs, from, |source| + 1) && n <= |bs| && b in bs
    requires forall k :: 0 <= k < n ==> LineOf(source, from, bs[k]) != LineOf(source, from, b)
    ensures b in bs[n..]
  {
    hide LineOf;
    var k :| 0 <= k < |bs| && bs[k] == b;
    assert bs[n..][k - n] == b;
  }

  /** Sorted blockers: those of the first line in front, later lines behind. */
  lemma LinesRise(source: string, from: nat, bs: seq<Blocker>, n: nat)
    requires bs != [] && Within(bs, from, |source| + 1) && Ascending(bs) && n == SameLine(source, from, bs, 1)
    ensures forall k :: 0 <= k < |bs| ==> (LineOf(source, from, bs[k]) == LineOf(source, from, bs[0]) <==> k < n)
  {
    hide LineOf;
    forall k | n <= k < |bs| ensures LineOf(source, from, bs[k]) != LineOf(source, from, bs[0]) {
      assert bs[n] in bs && bs[k] in bs && bs[0] in bs;
      LinesAscend(source, from, bs[0], bs[n]);
      LinesAscend(source, from, bs[n], bs[k]);
    }
  }

  /** Every group is that of some blocker. */
  lemma {:induction false} GroupsAre(source: string, from: nat, bs: seq<Blocker>, i: nat) returns (b: Blocker)
    requires Within(bs, from, |source| + 1) && Ascending(bs) && i < |Groups(source, from, bs)|
    ensures b in bs && GroupFor(source, from, |source| + 1, bs, b, Groups(source, from, bs)[i])
    decreases |bs|
  {
    hide LineOf, IndentOf, BlockOf, Groups;
    assert bs != [] by { NoGroups(source, from); }
    var n := SameLine(source, from, bs, 1);
    GroupsUnfold(source, from, bs);
    LinesRise(source, from, bs, n);
    if i == 0 {
      b := bs[0];
      MatesWithin(source, from, |source| + 1, bs, LineOf(source, from, b));
      FrontMates(source, from, bs, n, LineOf(source, from, b));
    } else {
      BackAscends(bs, n);
      b := GroupsAre(source, from, bs[n..], i - 1);
      assert Groups(source, from, bs)[i] == Groups(source, from, bs)[1..][i - 1];
      InFront(source, from, bs, n, b);
      MatesWithin(source, from, |source| + 1, bs, LineOf(source, from, b));
      BackMates(source, from, bs, n, LineOf(source, from, b));
    }
  }

  lemma NoGroups(source: string, from: nat)
    ensures Groups(source, from, []) == []
  {
  }

  /** A blocker of the back is on a later line than the front's. */
  lemma InFront(source: string, from: nat, bs: seq<Blocker>, n: nat, b: Blocker)
    requires 0 < n <= |bs| && Within(bs, from, |source| + 1) && b in bs[n..]
    requires forall k :: 0 <= k < |bs| ==> (LineOf(source, from, bs[k]) == LineOf(source, from, bs[0]) <==> k < n)
    ensures b in bs && forall k :: 0 <= k < n ==> LineOf(source, from, bs[k]) != LineOf(source, from, b)
  {
    hide LineOf;
    var j :| 0 <= j < |bs[n..]| && bs[n..][j] == b;
    assert bs[n + j] == b;
  }

  /** Lines of groups go up. */
  ghost predicate Rising(groups: seq<Group>) {
    forall i, j :: 0 <= i < j < |groups| ==> groups[i].line < groups[j].line
  }

  lemma {:induction false} GroupsRise(source: string, from: nat, bs: seq<Blocker>)
    requires Within(bs, from, |source| + 1) && Ascending(bs)
    ensures Rising(Groups(source, from, bs))
    ensures forall g :: g in Groups(source, from, bs) ==> bs != [] && LineOf(source, from, bs[0]) <= g.line
    decreases |bs|
  {
    hide LineOf, IndentOf, BlockOf, Groups;
    if bs == [] {
      NoGroups(source, from);
    } else {
      var n := SameLine(source, from, bs, 1);
      GroupsUnfold(source, from, bs);
      BackAscends(bs, n);
      GroupsRise(source, from, bs[n..]);
      if n < |bs| {
        assert bs[0] in bs && bs[n] in bs;
        LinesAscend(source, from, bs[0], bs[n]);
      }
      RisingCons(Groups(source, from, bs), if n < |bs| then LineOf(source, from, bs[n]) else 0);
    }
  }

  lemma RisingCons(groups: seq<Group>, next: nat)
    requires groups != [] && Rising(groups[1..]) && forall g :: g in groups[1..] ==> groups[0].line < next <= g.line
    ensures Rising(groups) && forall g :: g in groups ==> groups[0].line <= g.line
  {
    forall i, j | 0 <= i < j < |groups| ensures groups[i].line < groups[j].line {
      assert groups[1..][j - 1] == groups[j];
      if i > 0 { assert groups[1..][i - 1] == groups[i]; }
    }
    forall g | g in groups ensures groups[0].line <= g.line {
      assert g == groups[0] || g in groups[1..];
    }
  }

  // ----- where a block stands -----

  /** What stands between a block and its line: nothing, or annotations. */
  ghost predicate Between(source: string, end: nat, g: Group) {
    end <= g.line <= |source| && (end == g.line || AnnotationsOnly(Lines(source[end..g.line]), g.indent, 0, false))
  }

  /** Edit `k` puts the block above its line. */
  ghost predicate PutAt(source: string, script: seq<Edit>, k: nat, g: Group) {
    && k < |script| && script[k].text == g.block && Between(source, script[k].end, g)
    && (k + 1 < |script| ==> g.line <= script[k + 1].start)
  }

  /** The block stands there already, and no edit touches it: `k` of them end before it. */
  ghost predicate LeftAt(source: string, low: nat, script: seq<Edit>, k: nat, start: nat, end: nat, g: Group) {
    && k <= |script| && low <= start <= end && Between(source, end, g) && source[start..end] == g.block
    && (k > 0 ==> script[k - 1].end <= start) && (k < |script| ==> g.line <= script[k].start)
  }

  /** An edit for a later line starts before this one. */
  ghost predicate Reaches(groups: seq<Group>, script: seq<Edit>, e: Edit, h: Group, line: nat) {
    e in script && h in groups && e.text == h.block && e.start < line < h.line
  }

  /** The group's block is put or left above its line, or a later line's markers reach over it. */
  ghost predicate Stands(source: string, low: nat, groups: seq<Group>, script: seq<Edit>, g: Group) {
    || (exists k :: PutAt(source, script, k, g))
    || (exists k, start, end :: LeftAt(source, low, script, k, start, end, g))
    || (exists e, h :: Reaches(groups, script, e, h, g.line))
  }

  lemma StandsBehind(source: string, low: nat, mid: nat, groups: seq<Group>, more: seq<Group>, a: seq<Edit>, b: seq<Edit>, g: Group)
    requires Stands(source, mid, groups, b, g) && low <= mid && (a != [] ==> a[|a| - 1].end <= mid)
    requires forall h :: h in groups ==> h in more
    ensures Stands(source, low, more, a + b, g)
  {
    hide Between;
    if k :| PutAt(source, b, k, g) {
      assert PutAt(source, a + b, |a| + k, g);
    } else if k, start, end :| LeftAt(source, mid, b, k, start, end, g) {
      assert LeftAt(source, low, a + b, |a| + k, start, end, g);
    } else {
      var e, h :| Reaches(groups, b, e, h, g.line);
      assert Reaches(more, a + b, e, h, g.line);
    }
  }

  lemma StandsBefore(source: string, low: nat, groups: seq<Group>, a: seq<Edit>, b: seq<Edit>, g: Group)
    requires Stands(source, low, groups, a, g) && (b != [] ==> g.line <= b[0].start)
    ensures Stands(source, low, groups, a + b, g)
  {
    hide Between;
    if k :| PutAt(source, a, k, g) {
      assert PutAt(source, a + b, k, g);
    } else if k, start, end :| LeftAt(source, low, a, k, start, end, g) {
      assert LeftAt(source, low, a + b, k, start, end, g);
    } else {
      var e, h :| Reaches(groups, a, e, h, g.line);
      assert Reaches(groups, a + b, e, h, g.line);
    }
  }

  // ----- one stretch -----

  /** What one step looks at. */
  lemma StepAt(source: string, from: nat, p: nat, g: Group) returns (start: nat, end: nat)
    requires Reachable(source, from, p, g)
    ensures p <= start <= end && Between(source, end, g)
    ensures Step(source, from, p, g) == if source[start..end] != g.block then Some(Edit(start, end, g.block)) else None
  {
    hide SaysNotlin, AnnotationsOnly, Lines, FindLast, FindFirst, SkipBreak, MarkersAbove;
    match KdocBeforeAnnotations(source, p, g.line, g.indent) {
      case Some(comment) => start, end := comment.0, comment.1;
      case None => start, end := AtLeast(MarkersAbove(source, from, g.line, g.indent), p), g.line;
    }
  }

  lemma {:induction false} FirstOfSteps(source: string, from: nat, p: nat, groups: seq<Group>) returns (i: nat)
    requires from <= p && Forward(source, from, p, groups) && Steps(source, from, p, groups) != []
    ensures i < |groups| && Steps(source, from, p, groups)[0].text == groups[i].block
    decreases |groups|
  {
    hide Step;
    if Step(source, from, p, groups[0]).Some? {
      i := 0;
    } else {
      ForwardFrom(source, from, p, groups);
      var j := FirstOfSteps(source, from, p, groups[1..]);
      i := j + 1;
    }
  }

  /** Every group of a stretch stands after it. */
  lemma {:induction false} GroupStands(source: string, from: nat, to: nat, p: nat, groups: seq<Group>, i: nat)
    requires i < |groups| && from <= p <= to <= |source| && Forward(source, from, p, groups) && Rising(groups)
    requires forall g :: g in groups ==> g.line < to
    ensures Stands(source, p, groups, Steps(source, from, p, groups), groups[i])
    decreases |groups|
  {
    hide *;
    FirstStep(source, from, to, p, groups);
    var g := groups[0];
    var step := Step(source, from, p, g);
    var q := Advance(p, g, step);
    var rest := Steps(source, from, q, groups[1..]);
    RestRises(groups, to);
    if i == 0 {
      var start, end := StepAt(source, from, p, g);
      OrderlyStart(rest, q, to);
      if step.Some? {
        PutFirst(source, p, groups, step.value, rest, q);
      } else if rest != [] && rest[0].start < g.line {
        var j := FirstOfSteps(source, from, q, groups[1..]);
        ReachesOver(source, p, groups, rest, j);
        assert [] + rest == rest;
      } else {
        LeftFirst(source, p, groups, rest, start, end);
        assert [] + rest == rest;
      }
    } else {
      GroupStands(source, from, to, q, groups[1..], i - 1);
      assert groups[1..][i - 1] == groups[i];
      StandsBehind(source, p, q, groups[1..], groups, if step.Some? then [step.value] else [], rest, groups[i]);
    }
  }

  lemma RestRises(groups: seq<Group>, to: nat)
    requires groups != [] && Rising(groups) && forall g :: g in groups ==> g.line < to
    ensures Rising(groups[1..]) && (forall g :: g in groups[1..] ==> g in groups && g.line < to)
    ensures groups[0] in groups
  {
  }

  lemma OrderlyStart(script: seq<Edit>, from: nat, to: nat)
    requires Orderly(script, from, to)
    ensures script != [] ==> from <= script[0].start
  {
  }

  lemma PutFirst(source: string, p: nat, groups: seq<Group>, e: Edit, rest: seq<Edit>, q: nat)
    requires groups != [] && e.text == groups[0].block && Between(source, e.end, groups[0])
    requires q == groups[0].line && (rest != [] ==> q <= rest[0].start)
    ensures Stands(source, p, groups, [e] + rest, groups[0])
  {
    assert PutAt(source, [e] + rest, 0, groups[0]);
  }

  lemma LeftFirst(source: string, p: nat, groups: seq<Group>, rest: seq<Edit>, start: nat, end: nat)
    requires groups != [] && p <= start <= end && Between(source, end, groups[0]) && source[start..end] == groups[0].block
    requires rest != [] ==> groups[0].line <= rest[0].start
    ensures Stands(source, p, groups, rest, groups[0])
  {
    assert LeftAt(source, p, rest, 0, start, end, groups[0]);
  }

  lemma ReachesOver(source: string, p: nat, groups: seq<Group>, rest: seq<Edit>, j: nat)
    requires Rising(groups) && j + 1 < |groups| && rest != [] && rest[0].text == groups[1..][j].block
    requires rest[0].start < groups[0].line
    ensures Stands(source, p, groups, rest, groups[0])
  {
    assert Reaches(groups, rest, rest[0], groups[j + 1], groups[0].line);
  }

  // ----- the whole pass -----

  /** Between two spans next to each other, or the last and the end of the text. */
  ghost predicate Stretch(n: nat, cursor: nat, spans: seq<Edit>, from: nat, to: nat) {
    exists k :: 0 <= k <= |spans| && StretchAt(n, cursor, spans, from, to, k)
  }

  ghost predicate StretchAt(n: nat, cursor: nat, spans: seq<Edit>, from: nat, to: nat, k: nat)
    requires k <= |spans|
  {
    && from == (if k == 0 then cursor else spans[k - 1].end)
    && to == (if k == |spans| then n else spans[k].start)
  }

  /** The blocker's group stands in the script's output. */
  ghost predicate BlockerStands(source: string, due: seq<Blocker>, b: Blocker, script: seq<Edit>, from: nat, to: nat, g: Group) {
    && from <= b.offset < to <= |source| && Within(InStretch(due, from, to), from, |source| + 1)
    && GroupFor(source, from, to, due, b, g) && Stands(source, from, Groups(source, from, InStretch(due, from, to)), script, g)
  }

  lemma ForAll(source: string, from: nat, to: nat, due: seq<Blocker>, b: Blocker, g: Group)
    requires from <= b.offset < to <= |source| && GroupFor(source, from, |source| + 1, InStretch(due, from, to), b, g)
    ensures GroupFor(source, from, to, due, b, g)
  {
    hide LineOf, IndentOf, BlockOf, InStretch, Mates;
    MatesInStretch(source, from, to, due, LineOf(source, from, b));
    MatesWithin(source, from, to, due, LineOf(source, from, b));
  }

  lemma PlanStands(source: string, from: nat, to: nat, due: seq<Blocker>, b: Blocker) returns (g: Group)
    requires from <= b.offset < to <= |source| && Ascending(due) && b in due
    ensures BlockerStands(source, due, b, Plan(source, from, to, due), from, to, g) && g.line < to
  {
    hide LineOf, IndentOf, BlockOf, Groups, Steps, Orderly, Stands, GroupFor;
    var bs := InStretch(due, from, to);
    StretchAscends(due, from, to);
    GroupsForward(source, from, to, from, bs);
    var i := GroupsHold(source, from, bs, b);
    GroupsRise(source, from, bs);
    var groups := Groups(source, from, bs);
    g := groups[i];
    assert g in groups;
    GroupStands(source, from, to, from, groups, i);
    ForAll(source, from, to, due, b, g);
  }

  /** What later stretches hold is what was not taken before. */
  lemma {:induction false} StretchLeft(due: seq<Blocker>, cursor: nat, span: Edit, from: nat, to: nat)
    requires cursor <= span.start <= span.end <= from
    ensures InStretch(LeftBehind(due, cursor, span), from, to) == InStretch(due, from, to)
  {
    StretchOutside(due, cursor, span.start, from, to);
    StretchOutside(OutOfStretch(due, cursor, span.start), span.start, span.end, from, to);
  }

  lemma {:induction false} StretchOutside(bs: seq<Blocker>, a: nat, b: nat, from: nat, to: nat)
    requires b <= from
    ensures InStretch(OutOfStretch(bs, a, b), from, to) == InStretch(bs, from, to)
  {
    if bs != [] {
      StretchOutside(bs[1..], a, b, from, to);
      var rest := OutOfStretch(bs[1..], a, b);
      assert [] + rest == rest && ([bs[0]] + rest)[1..] == rest;
    }
  }

  /** Every blocker outside the spans has its block in the output. */
  lemma {:induction false} ScriptStands(source: string, cursor: nat, spans: seq<Edit>, due: seq<Blocker>, b: Blocker)
    returns (from: nat, to: nat, g: Group)
    requires cursor <= |source| && Deletions(spans, |source|) && Apart(spans) && Ascending(due)
    requires spans != [] ==> cursor <= spans[0].start
    requires b in due && cursor <= b.offset < |source| && !Covered(spans, b.offset)
    ensures cursor <= from && Stretch(|source|, cursor, spans, from, to)
    ensures BlockerStands(source, due, b, Script(source, cursor, spans, due), from, to, g)
    decreases |spans|
  {
    hide Plan, LeftBehind, Orderly, BlockerStands, Script, Covered, Stretch;
    if spans == [] {
      from, to := cursor, |source|;
      g := PlanStands(source, cursor, |source|, due, b);
      LastStretch(|source|, cursor);
      ScriptEnd(source, cursor, spans, due);
    } else {
      var span := spans[0];
      ScriptUnfold(source, cursor, spans, due);
      var before := Plan(source, cursor, span.start, due);
      var left := LeftBehind(due, cursor, span);
      var after := Script(source, span.end, spans[1..], left);
      if b.offset < span.start {
        from, to := cursor, span.start;
        g := PlanStands(source, cursor, span.start, due, b);
        FirstStretch(|source|, cursor, spans);
        StandsEarly(source, due, b, before, [span] + after, from, to, g);
      } else {
        StillLeft(due, cursor, spans, b);
        from, to, g := ScriptStands(source, span.end, spans[1..], left, b);
        NextStretch(|source|, cursor, spans, from, to);
        StretchLeft(due, cursor, span, from, to);
        StandsLate(source, cursor, due, left, b, before, span, after, from, to, g);
      }
    }
  }

  lemma StillLeft(due: seq<Blocker>, cursor: nat, spans: seq<Edit>, b: Blocker)
    requires spans != [] && b in due && spans[0].start <= spans[0].end && spans[0].start <= b.offset && !Covered(spans, b.offset)
    ensures b in LeftBehind(due, cursor, spans[0]) && spans[0].end <= b.offset && !Covered(spans[1..], b.offset)
  {
    CoveredSplit(spans, b.offset);
  }

  lemma LastStretch(n: nat, cursor: nat)
    ensures Stretch(n, cursor, [], cursor, n)
  {
    assert StretchAt(n, cursor, [], cursor, n, 0);
  }

  lemma FirstStretch(n: nat, cursor: nat, spans: seq<Edit>)
    requires spans != []
    ensures Stretch(n, cursor, spans, cursor, spans[0].start)
  {
    assert StretchAt(n, cursor, spans, cursor, spans[0].start, 0);
  }

  lemma NextStretch(n: nat, cursor: nat, spans: seq<Edit>, from: nat, to: nat)
    requires spans != [] && Stretch(n, spans[0].end, spans[1..], from, to)
    ensures Stretch(n, cursor, spans, from, to)
  {
    var k :| 0 <= k <= |spans[1..]| && StretchAt(n, spans[0].end, spans[1..], from, to, k);
    assert StretchAt(n, cursor, spans, from, to, k + 1);
  }

  lemma StandsEarly(source: string, due: seq<Blocker>, b: Blocker, before: seq<Edit>, after: seq<Edit>, from: nat, to: nat, g: Group)
    requires BlockerStands(source, due, b, before, from, to, g) && g.line < to && after != [] && after[0].start == to
    ensures BlockerStands(source, due, b, before + after, from, to, g)
  {
    hide Stands, Groups, InStretch, GroupFor;
    StandsBefore(source, from, Groups(source, from, InStretch(due, from, to)), before, after, g);
  }

  lemma StandsLate(source: string, cursor: nat, due: seq<Blocker>, left: seq<Blocker>, b: Blocker, before: seq<Edit>, span: Edit,
                   after: seq<Edit>, from: nat, to: nat, g: Group)
    requires BlockerStands(source, left, b, after, from, to, g) && span.end <= from
    requires InStretch(left, from, to) == InStretch(due, from, to)
    ensures BlockerStands(source, due, b, before + ([span] + after), from, to, g)
  {
    hide Stands, Groups, InStretch, Mates, LineOf, IndentOf, BlockOf, Between, Reaches;
    MatesInStretch(source, from, to, due, LineOf(source, from, b));
    MatesInStretch(source, from, to, left, LineOf(source, from, b));
    var groups := Groups(source, from, InStretch(due, from, to));
    StandsBehind(source, from, from, groups, groups, before + [span], after, g);
    assert (before + [span]) + after == before + ([span] + after);
  }

  // ----- what that means for the text -----

  /** The output is a front, the block, the annotations if there are any, and the line with what
      follows it: front and rest are what the script makes of the source's. */
  ghost predicate TextStands(source: string, script: seq<Edit>, out: string, g: Group, k: nat, j: nat, start: nat, end: nat) {
    && k <= j <= |script| && start <= end && Between(source, end, g)
    && Orderly(script[..k], 0, start) && Orderly(script[j..], g.line, |source|)
    && out == Splice(source[..start], script[..k], 0) + (g.block + (source[end..g.line] + Splice(source, script[j..], g.line)))
  }

  lemma {:induction false} OrderlySplits(script: seq<Edit>, from: nat, to: nat, k: nat, mid: nat)
    requires Orderly(script, from, to) && k <= |script| && from <= mid <= to
    requires (k > 0 ==> script[k - 1].end <= mid) && (k < |script| ==> mid <= script[k].start)
    ensures Orderly(script[..k], from, mid) && Orderly(script[k..], mid, to)
  {
    if k > 0 {
      OrderlyBounds(script[1..], script[0].end, to);
      OrderlySplits(script[1..], script[0].end, to, k - 1, mid);
      OrderlyBounds(script, from, to);
      assert script[..k][1..] == script[1..][..k - 1] && script[1..][k - 1..] == script[k..];
    } else {
      assert script[0..] == script && script[..0] == [];
    }
  }

  lemma SplitText(source: string, script: seq<Edit>, k: nat, mid: nat)
    requires Orderly(script, 0, |source|) && k <= |script| && mid <= |source|
    requires (k > 0 ==> script[k - 1].end <= mid) && (k < |script| ==> mid <= script[k].start)
    ensures Orderly(script[..k], 0, mid) && Orderly(script[k..], mid, |source|)
    ensures Splice(source, script, 0) == Splice(source[..mid], script[..k], 0) + Splice(source, script[k..], mid)
  {
    OrderlySplits(script, 0, |source|, k, mid);
    SpliceJoins(source, script[..k], script[k..], 0, mid);
    assert script[..k] + script[k..] == script;
  }

  lemma PutText(source: string, script: seq<Edit>, k: nat, g: Group)
    requires Orderly(script, 0, |source|) && PutAt(source, script, k, g)
    ensures TextStands(source, script, Splice(source, script, 0), g, k, k + 1, script[k].start, script[k].end)
  {
    hide Splice, Orderly, Between;
    OrderlyBounds(script, 0, |source|);
    var e := script[k];
    assert e.end <= g.line <= |source| by { BetweenBounds(source, e.end, g); }
    Neighbours(script, |source|, k);
    SplitText(source, script, k, e.start);
    OrderlySplits(script, 0, |source|, k + 1, g.line);
    SpliceSkips(source, script[k + 1..], e.end, g.line);
    assert script[k..] == [e] + script[k + 1..];
    SpliceEdit(source, e, script[k + 1..], e.start);
    assert source[e.start..e.start] == "";
    TextsTogether(Splice(source[..e.start], script[..k], 0), g.block, source[e.end..g.line], Splice(source, script[k + 1..], g.line));
  }

  lemma TextsTogether(a: string, b: string, c: string, d: string)
    ensures a + ((("" + b) + (c + d))) == a + (b + (c + d))
  {
  }

  lemma BetweenBounds(source: string, end: nat, g: Group)
    requires Between(source, end, g)
    ensures end <= g.line <= |source|
  {
  }

  lemma {:induction false} Neighbours(script: seq<Edit>, n: nat, k: nat)
    requires Orderly(script, 0, n) && k < |script|
    ensures k > 0 ==> script[k - 1].end <= script[k].start
  {
    if k > 0 { NeighboursFrom(script, 0, n, k); }
  }

  lemma {:induction false} NeighboursFrom(script: seq<Edit>, from: nat, n: nat, k: nat)
    requires Orderly(script, from, n) && 0 < k < |script|
    ensures script[k - 1].end <= script[k].start
  {
    if k > 1 { NeighboursFrom(script[1..], script[0].end, n, k - 1); }
  }

  lemma LeftText(source: string, low: nat, script: seq<Edit>, k: nat, start: nat, end: nat, g: Group)
    requires Orderly(script, 0, |source|) && LeftAt(source, low, script, k, start, end, g)
    ensures TextStands(source, script, Splice(source, script, 0), g, k, k, start, end)
  {
    hide Splice, Orderly, Between;
    BetweenBounds(source, end, g);
    SplitText(source, script, k, start);
    OrderlySplits(script, 0, |source|, k, g.line);
    SpliceSkips(source, script[k..], start, g.line);
    assert source[start..g.line] == source[start..end] + source[end..g.line];
    LeftTogether(Splice(source[..start], script[..k], 0), source[start..end], source[end..g.line], Splice(source, script[k..], g.line));
  }

  lemma LeftTogether(a: string, b: string, c: string, d: string)
    ensures a + ((b + c) + d) == a + (b + (c + d))
  {
  }

  /** A later line's blockers are written over this line's: they reach up to its markers. */
  ghost predicate WrittenOver(source: string, due: seq<Blocker>, script: seq<Edit>, from: nat, to: nat, line: nat, c: Blocker, h: Group, e: Edit) {
    && c in due && from <= c.offset < to <= |source| && GroupFor(source, from, to, due, c, h)
    && e in script && e.text == h.block && e.start < line < h.line
  }

  /** Every blocker that is due and outside the spans: the block of its line, which holds the
      line's blockers in order, stands in the output right above the line or its annotations,
      unless a later line's block was written over it. */
  lemma BlocksStand(source: string, spans: seq<Edit>, due: seq<Blocker>, b: Blocker) returns (from: nat, to: nat, g: Group)
    requires Deletions(spans, |source|) && Apart(spans) && Ascending(due)
    requires b in due && b.offset < |source| && !Covered(spans, b.offset)
    ensures Stretch(|source|, 0, spans, from, to) && from <= b.offset < to <= |source| && GroupFor(source, from, to, due, b, g)
    ensures var script := Script(source, 0, spans, due);
      || (exists k, j, start, end :: TextStands(source, script, Splice(source, script, 0), g, k, j, start, end))
      || (exists c, h, e :: WrittenOver(source, due, script, from, to, g.line, c, h, e))
  {
    hide Script, Orderly, Splice, GroupFor, Between, Groups, InStretch, LineOf, Covered, Stretch;
    from, to, g := ScriptStands(source, 0, spans, due, b);
    var script := Script(source, 0, spans, due);
    var groups := Groups(source, from, InStretch(due, from, to));
    if k :| PutAt(source, script, k, g) {
      PutText(source, script, k, g);
    } else if k, start, end :| LeftAt(source, from, script, k, start, end, g) {
      LeftText(source, from, script, k, start, end, g);
    } else {
      var e, h :| Reaches(groups, script, e, h, g.line);
      var i :| 0 <= i < |groups| && groups[i] == h;
      StretchAscends(due, from, to);
      var c := GroupsAre(source, from, InStretch(due, from, to), i);
      ForAll(source, from, to, due, c, h);
      assert WrittenOver(source, due, script, from, to, g.line, c, h, e);
    }
  }

  /** So a strip, seen from what it is given: each blocker that is to be written and stands
      outside what is stripped has its block in the output, or is written over. */
  lemma DueIsWritten(source: string, spans: seq<Edit>, merged: seq<Edit>, blockers: seq<Blocker>, due: seq<Blocker>, i: nat)
    returns (from: nat, to: nat, g: Group)
    requires Deletions(merged, |source|) && Apart(merged) && forall i: nat :: Covered(merged, i) <==> Gone(source, spans, i)
    requires IsDue(source, blockers, true, due) && Ascending(due)
    requires i < |blockers| && blockers[i].offset < |source|
    requires !InsideGenerated(source, blockers[i].offset) && !Gone(source, spans, blockers[i].offset)
    ensures Stretch(|source|, 0, merged, from, to) && from <= blockers[i].offset < to <= |source|
    ensures GroupFor(source, from, to, due, blockers[i], g)
    ensures var script := Script(source, 0, merged, due);
      || (exists k, j, start, end :: TextStands(source, script, Splice(source, script, 0), g, k, j, start, end))
      || (exists c, h, e :: WrittenOver(source, due, script, from, to, g.line, c, h, e))
  {
    hide Script, Orderly, Splice, GroupFor, TextStands, WrittenOver, InsideGenerated, Gone, Covered, Stretch;
    var order :| InOrder(blockers, order, due) &&
      forall i: nat :: i in order <==> i < |blockers| && !InsideGenerated(source, blockers[i].offset);
    assert i in order;
    var k :| 0 <= k < |order| && order[k] == i;
    assert due[k] == blockers[i];
    from, to, g := BlocksStand(source, merged, due, blockers[i]);
  }

  /** The comment of an annotated line, and a line below the annotations with a new blocker: the
      comment counts as the lower line's own, and is gone from the output. */
  lemma CommentTakenOver()
    ensures var w := ChunkText("", DocMark([" * NOTLIN x"]));
      var s, g, h := w + "@A\n" + "f", Group(|w|, "", w), Group(|w| + 3, "", "// NOTLIN:y\n");
      && Forward(s, 0, 0, [g, h]) && Steps(s, 0, 0, [g, h]) == [Edit(0, |w|, h.block)]
      && Splice(s, [Edit(0, |w|, h.block)], 0) == "// NOTLIN:y\n@A\nf"
  {
    hide *;
    var c := DocMark([" * NOTLIN x"]);
    var w := ChunkText("", c);
    var s, g, h := w + "@A\n" + "f", Group(|w|, "", w), Group(|w| + 3, "", "// NOTLIN:y\n");
    CommentParts(w, s, g, h);
    AnnotateTwice.NothingFound("");
    DocFound(s, "", "", c.body, "", |w|);
    ScanIsAbove(s, |w|, "");
    AboveChunk("", "", c);
    LineOfAnnotation();
    DocFound(s, "", "", c.body, "@A\n", h.line);
    TwoSteps(s, w, g, h);
  }

  lemma CommentParts(w: string, s: string, g: Group, h: Group)
    requires w == ChunkText("", DocMark([" * NOTLIN x"])) && s == w + "@A\n" + "f"
    requires g == Group(|w|, "", w) && h == Group(|w| + 3, "", "// NOTLIN:y\n")
    ensures Blank("") && Proper(DocMark([" * NOTLIN x"])) && AtLineStart("") && Above("", "") == 0
    ensures "" + w == w && w + "" == w && s[..|w|] == ("" + w) + "" && s[..h.line] == ("" + w) + "@A\n"
    ensures g.line < |s| && h.line < |s| && s[g.line - 1] == '\n' && s[h.line - 1] == '\n' && g.line > 0
    ensures |"" + w| == |w| && |""| + |""| == 0 && |w| > 1 && w[1] == '*'
  {
  }

  lemma LineOfAnnotation()
    ensures AnnotationsOnly(Lines("@A\n"), "", 0, false) && !Contains("@A\n", "/**")
  {
    LinesHead("@A", "");
    assert "@A" + "\n" + "" == "@A\n" && Lines("@A\n") == ["@A"];
    assert "@A"[0..] == "@A" && Bare("@A", "") == "@A";
    assert "@A"[1..] == "A" && Count("A", '(') == 0 && Count("A", ')') == 0;
    assert Count("@A", '(') == 0 && Count("@A", ')') == 0 && ["@A"][1..] == [];
    forall j: nat ensures !At("@A\n", j, "/**") { AtLetters("@A\n", j, "/**"); }
  }

  lemma TwoSteps(s: string, w: string, g: Group, h: Group)
    requires s == w + "@A\n" + "f" && g == Group(|w|, "", w) && h == Group(|w| + 3, "", "// NOTLIN:y\n")
    requires |w| > 1 && s[g.line - 1] == '\n' && s[h.line - 1] == '\n' && w[1] == '*'
    requires KdocBeforeAnnotations(s, 0, g.line, "").None? && MarkersAbove(s, 0, g.line, "") == 0
    requires KdocBeforeAnnotations(s, 0, h.line, "") == Some((0, |w|))
    ensures Forward(s, 0, 0, [g, h]) && Steps(s, 0, 0, [g, h]) == [Edit(0, |w|, h.block)]
    ensures Splice(s, [Edit(0, |w|, h.block)], 0) == "// NOTLIN:y\n@A\nf"
  {
    hide KdocBeforeAnnotations, MarkersAbove;
    assert s[0..|w|] == w && w[1] != h.block[1];
    assert Step(s, 0, 0, g) == None && Step(s, 0, 0, h) == Some(Edit(0, |w|, h.block));
    assert [g, h][1..] == [h] && [h][1..] == [];
    assert Forward(s, 0, g.line, []) && Forward(s, 0, h.line, []) && Forward(s, 0, g.line, [h]) && Forward(s, 0, 0, [g, h]);
    assert Steps(s, 0, 0, [g, h]) == Steps(s, 0, 0, [g, h][1..]);
    assert Steps(s, 0, 0, [h]) == [Edit(0, |w|, h.block)];
    assert s[|w|..] == "@A\nf" && [Edit(0, |w|, h.block)][1..] == [];
  }
}
