/** Annotating kept Kotlin: a marker block above each line with a blocker, in place of the
    markers an earlier run left there. */
module Markers {
  import opened Options
  import opened TextSearch
  import opened Edits

  /** A blocker's anchor and the marker text to write for it. */
  datatype Blocker = Blocker(offset: nat, text: string)

  ghost predicate Ascending(bs: seq<Blocker>) {
    forall i, j :: 0 <= i < j < |bs| ==> bs[i].offset <= bs[j].offset
  }

  // ----- the block to write -----

  function Indented(indent: string, lines: seq<string>): string {
    if lines == [] then [] else indent + lines[0] + "\n" + Indented(indent, lines[1..])
  }

  function BlockOf(indent: string, bs: seq<Blocker>): string {
    if bs == [] then [] else Indented(indent, Lines(bs[0].text)) + BlockOf(indent, bs[1..])
  }

  /** Blockers on one line share a block, indented as the line is. */
  datatype Group = Group(line: nat, indent: string, block: string)

  function LineOf(source: string, from: nat, b: Blocker): (r: nat)
    requires from <= b.offset <= |source|
    ensures from <= r <= b.offset && (r == from || source[r - 1] == '\n')
  {
    var start := LineStart(source, b.offset);
    if start < from then from else start
  }

  function Blanks(s: string): (r: nat)
    ensures r <= |s| && forall i :: 0 <= i < r ==> s[i] == ' ' || s[i] == '\t'
  {
    if s != [] && (s[0] == ' ' || s[0] == '\t') then Blanks(s[1..]) + 1 else 0
  }

  function IndentOf(source: string, from: nat, b: Blocker): string
    requires from <= b.offset <= |source|
  {
    var line := source[LineOf(source, from, b)..b.offset];
    line[..Blanks(line)]
  }

  predicate Within(bs: seq<Blocker>, from: nat, to: nat) {
    forall b :: b in bs ==> from <= b.offset < to
  }

  /** How many blockers from `n` on are on the line of blocker `n - 1`. */
  function SameLine(source: string, from: nat, bs: seq<Blocker>, n: nat): (r: nat)
    requires 0 < n <= |bs| && Within(bs, from, |source| + 1)
    ensures n <= r <= |bs|
    ensures forall i :: n - 1 <= i < r ==> LineOf(source, from, bs[i]) == LineOf(source, from, bs[n - 1])
    ensures r < |bs| ==> LineOf(source, from, bs[r]) != LineOf(source, from, bs[n - 1])
    decreases |bs| - n
  {
    if n < |bs| && LineOf(source, from, bs[n]) == LineOf(source, from, bs[n - 1]) then SameLine(source, from, bs, n + 1) else n
  }

  function Groups(source: string, from: nat, bs: seq<Blocker>): seq<Group>
    requires Within(bs, from, |source| + 1)
    decreases |bs|
  {
    if bs == [] then []
    else
      var n := SameLine(source, from, bs, 1);
      var indent := IndentOf(source, from, bs[0]);
      [Group(LineOf(source, from, bs[0]), indent, BlockOf(indent, bs[..n]))] + Groups(source, from, bs[n..])
  }

  // ----- markers already there -----

  /** A comment whose second line is a generated marker's. */
  predicate SaysNotlin(comment: string) {
    var lines := Lines(comment);
    |lines| >= 2 && StartsWith(TrimStart(lines[1]), "* NOTLIN ")
  }

  /** A line without its indentation and the blanks around it. */
  function Bare(line: string, indent: string): string {
    Trim(if StartsWith(line, indent) then line[|indent|..] else line)
  }

  /** Only annotations, their arguments possibly over several lines. */
  predicate AnnotationsOnly(lines: seq<string>, indent: string, depth: nat, saw: bool) {
    if lines == [] then saw && depth == 0
    else
      var line := Bare(lines[0], indent);
      if line == [] then AnnotationsOnly(lines[1..], indent, depth, saw)
      else if depth == 0 && line[0] != '@' then false
      else
        var next := depth + Count(line, '(') - Count(line, ')');
        next >= 0 && AnnotationsOnly(lines[1..], indent, next, true)
  }

  function Count(s: string, c: char): nat {
    if s == [] then 0 else (if s[0] == c then 1 else 0) + Count(s[1..], c)
  }

  /** Behind a line break that may be there. */
  function SkipBreak(source: string, at: nat): (r: nat)
    requires at <= |source|
    ensures at <= r <= |source|
    ensures forall i :: at <= i < |source| && source[i] == '\n' ==> r <= i + 1
  {
    var behindReturn := if at < |source| && source[at] == '\r' then at + 1 else at;
    if behindReturn < |source| && source[behindReturn] == '\n' then behindReturn + 1 else behindReturn
  }

  /** The generated comment above the annotations that end at `line`. */
  function KdocBeforeAnnotations(source: string, from: nat, line: nat, indent: string): (r: Option<(nat, nat)>)
    requires from <= line < |source| && (line == from || source[line - 1] == '\n')
    ensures r.Some? ==> from <= r.value.0 < r.value.1 <= line
  {
    match FindLast(source[from..line], "/**")
    case None => None
    case Some(found) =>
      var start := from + found;
      var tail := source[start..line];
      if !SaysNotlin(tail) then None
      else match FindFirst(tail, "*/")
        case None => None
        case Some(close) =>
          assert tail[close..close + 2] == "*/";
          assert source[start + close + 1] == tail[close..close + 2][1];
          var end := SkipBreak(source, start + close + 2);
          if AnnotationsOnly(Lines(source[end..line]), indent, 0, false) then Some((start, end)) else None
  }

  function AtLeast(n: nat, floor: nat): nat {
    if n < floor then floor else n
  }

  /** The marker comment that ends on the line from `prev`: where its first line starts. */
  function BlockAbove(source: string, from: nat, prev: nat): (r: Option<nat>)
    requires from <= prev <= |source|
    ensures r.Some? ==> from <= r.value < prev && (r.value == from || source[r.value - 1] == '\n')
  {
    var before := source[from..prev];
    var doc := FindLast(before, "/**");
    var hit := if doc.Some? && SaysNotlin(before[doc.value..]) then doc else FindLast(before, "/* NOTLIN:");
    if hit.None? || Contains(before[hit.value..], "*/") then None
    else Some(AtLeast(LineStart(source, from + hit.value), from))
  }

  /** Where the run of markers directly above line `at` starts. */
  function MarkersAbove(source: string, from: nat, at: nat, indent: string): (r: nat)
    requires from <= at <= |source|
    ensures from <= r <= at
  {
    if at == from then at
    else
      var prev := AtLeast(LineStart(source, at - 1), from);
      if StartsWith(source[prev..at], indent + "// NOTLIN:") then MarkersAbove(source, from, prev, indent)
      else if Trim(source[prev..at]) != "*/" || BlockAbove(source, from, prev).None? then at
      else MarkersAbove(source, from, BlockAbove(source, from, prev).value, indent)
  }

  // ----- the edits of a stretch -----

  ghost predicate Reachable(source: string, from: nat, p: nat, g: Group) {
    from <= p <= g.line < |source| && (g.line == from || source[g.line - 1] == '\n')
  }

  /** What happens at one group: its markers are replaced unless they are right already. */
  function Step(source: string, from: nat, p: nat, g: Group): (r: Option<Edit>)
    requires Reachable(source, from, p, g)
    ensures r.Some? ==> p <= r.value.start <= r.value.end <= g.line && r.value.text == g.block
  {
    match KdocBeforeAnnotations(source, p, g.line, g.indent)
    case Some(comment) =>
      if source[comment.0..comment.1] != g.block then Some(Edit(comment.0, comment.1, g.block)) else None
    case None =>
      var start := AtLeast(MarkersAbove(source, from, g.line, g.indent), p);
      if source[start..g.line] != g.block then Some(Edit(start, g.line, g.block)) else None
  }

  /** Groups in order of their lines. */
  ghost predicate Forward(source: string, from: nat, p: nat, groups: seq<Group>)
    decreases |groups|
  {
    groups != [] ==> Reachable(source, from, p, groups[0]) && Forward(source, from, groups[0].line, groups[1..])
  }

  /** The edits of all groups; the cursor stays behind the last line it wrote. */
  function Steps(source: string, from: nat, p: nat, groups: seq<Group>): (r: seq<Edit>)
    requires from <= p && Forward(source, from, p, groups)
    decreases |groups|
  {
    if groups == [] then []
    else match Step(source, from, p, groups[0])
      case None => ForwardFrom(source, from, p, groups); Steps(source, from, p, groups[1..])
      case Some(e) => [e] + Steps(source, from, groups[0].line, groups[1..])
  }

  /** The cursor may stay where it is. */
  lemma ForwardFrom(source: string, from: nat, p: nat, groups: seq<Group>)
    requires groups != [] && Forward(source, from, p, groups)
    ensures Forward(source, from, p, groups[1..])
  {
  }

  /** The cursor never runs ahead of a group, and no edit leaves the stretch: what the plan
      says is a list of edits in order. */
  lemma {:induction false} StepsOrderly(source: string, from: nat, p: nat, groups: seq<Group>, low: nat, to: nat)
    requires from <= p <= to <= |source| && Forward(source, from, p, groups) && low <= p
    requires forall g :: g in groups ==> g.line < to
    ensures Orderly(Steps(source, from, p, groups), low, to)
    decreases |groups|
  {
    hide Step;
    if groups != [] {
      var g := groups[0];
      match Step(source, from, p, g)
      case None =>
        ForwardFrom(source, from, p, groups);
        StepsOrderly(source, from, p, groups[1..], low, to);
      case Some(e) =>
        assert g in groups;
        StepsOrderly(source, from, g.line, groups[1..], e.end, to);
    }
  }

  /** The groups of sorted blockers come in order, and lie in the stretch. */
  lemma {:induction false} GroupsForward(source: string, from: nat, to: nat, p: nat, bs: seq<Blocker>)
    requires from <= p && to <= |source| && Ascending(bs) && Within(bs, from, to)
    requires bs != [] ==> p <= LineOf(source, from, bs[0])
    ensures Forward(source, from, p, Groups(source, from, bs))
    ensures forall g :: g in Groups(source, from, bs) ==> g.line < to
    decreases |bs|
  {
    if bs != [] {
      hide *;
      var n := SameLine(source, from, bs, 1);
      GroupsUnfold(source, from, bs);
      RestOfBlockers(source, from, to, bs, n);
      GroupsForward(source, from, to, LineOf(source, from, bs[0]), bs[n..]);
      ForwardCons(source, from, to, p, bs);
    }
  }

  lemma RestOfBlockers(source: string, from: nat, to: nat, bs: seq<Blocker>, n: nat)
    requires to <= |source| && Ascending(bs) && Within(bs, from, to) && 0 < n <= |bs|
    ensures Ascending(bs[n..]) && Within(bs[n..], from, to) && Within(bs, from, |source| + 1)
    ensures from <= LineOf(source, from, bs[0]) < to
    ensures n < |bs| ==> LineOf(source, from, bs[0]) <= LineOf(source, from, bs[n])
  {
    assert bs[0] in bs && forall b :: b in bs[n..] ==> b in bs;
    if n < |bs| {
      assert bs[n] in bs;
      LinesAscend(source, from, bs[0], bs[n]);
    }
  }

  lemma ForwardCons(source: string, from: nat, to: nat, p: nat, bs: seq<Blocker>)
    requires bs != [] && from <= p && to <= |source| && Within(bs, from, to) && p <= LineOf(source, from, bs[0]) < to
    requires Within(bs, from, |source| + 1)
    requires var gs := Groups(source, from, bs); gs != [] && gs[0].line == LineOf(source, from, bs[0])
    requires Forward(source, from, LineOf(source, from, bs[0]), Groups(source, from, bs)[1..])
    ensures Forward(source, from, p, Groups(source, from, bs))
  {
    hide Groups;
  }

  lemma GroupsUnfold(source: string, from: nat, bs: seq<Blocker>)
    requires bs != [] && Within(bs, from, |source| + 1)
    ensures var n, gs := SameLine(source, from, bs, 1), Groups(source, from, bs);
      && Within(bs[n..], from, |source| + 1) && gs != [] && gs[1..] == Groups(source, from, bs[n..])
      && gs[0] == Group(LineOf(source, from, bs[0]), IndentOf(source, from, bs[0]), BlockOf(IndentOf(source, from, bs[0]), bs[..n]))
  {
    hide LineOf, BlockOf, IndentOf, SameLine;
  }

  lemma LinesAscend(source: string, from: nat, a: Blocker, b: Blocker)
    requires from <= a.offset <= b.offset <= |source|
    ensures LineOf(source, from, a) <= LineOf(source, from, b)
  {
  }

  // ----- the loops -----

  /** The lines with something on them, trimmed. */
  function Solid(lines: seq<string>, indent: string): seq<string> {
    if lines == [] then []
    else
      var line := Bare(lines[0], indent);
      (if line == [] then [] else [line]) + Solid(lines[1..], indent)
  }

  /** The parentheses open after these lines. */
  function Open(lines: seq<string>): int {
    if lines == [] then 0 else Open(lines[..|lines| - 1]) + Count(lines[|lines| - 1], '(') - Count(lines[|lines| - 1], ')')
  }

  /** Annotations: every line outside all parentheses starts with `@`, none closes more than is
      open, and in the end all is closed. */
  predicate Annotations(ts: seq<string>, depth: int) {
    && depth + Open(ts) == 0
    && forall i :: 0 <= i < |ts| ==> depth + Open(ts[..i]) >= 0 && (depth + Open(ts[..i]) == 0 ==> "@" <= ts[i])
  }

  lemma {:induction false} OpenFront(t: string, ts: seq<string>)
    ensures Open([t] + ts) == Count(t, '(') - Count(t, ')') + Open(ts)
    decreases |ts|
  {
    hide Count;
    if ts == [] {
      assert [t] + ts == [t] && [t][..0] == [];
    } else {
      var init := ts[..|ts| - 1];
      OpenFront(t, init);
      assert ([t] + ts)[..|ts|] == [t] + init;
    }
  }

  /** The scan accepts annotations and nothing else. */
  lemma {:induction false} AnnotationsOnlyIs(lines: seq<string>, indent: string, depth: nat, saw: bool)
    requires depth > 0 ==> saw
    ensures AnnotationsOnly(lines, indent, depth, saw)
       <==> (saw || Solid(lines, indent) != []) && Annotations(Solid(lines, indent), depth)
    decreases |lines|
  {
    hide Bare, Count, Open, Annotations;
    if lines == [] {
      NothingOpened();
    } else {
      var line := Bare(lines[0], indent);
      var rest := Solid(lines[1..], indent);
      if line == [] {
        AnnotationsOnlyIs(lines[1..], indent, depth, saw);
        assert Solid(lines, indent) == rest;
      } else {
        var next: int := depth + Count(line, '(') - Count(line, ')');
        if next >= 0 { AnnotationsOnlyIs(lines[1..], indent, next, true); }
        AnnotationsFront(line, rest, depth);
      }
    }
  }

  lemma AnnotationsFront(t: string, ts: seq<string>, depth: nat)
    ensures var next: int := depth + Count(t, '(') - Count(t, ')');
      Annotations([t] + ts, depth) <==> (depth == 0 ==> "@" <= t) && next >= 0 && Annotations(ts, next)
  {
    hide Count, Open;
    var all := [t] + ts;
    var next: int := depth + Count(t, '(') - Count(t, ')');
    OpenFront(t, ts);
    assert all[..0] == [] && Open([]) == 0 by { NothingOpened(); }
    forall i | 0 <= i < |ts|
      ensures depth + Open(all[..i + 1]) == next + Open(ts[..i]) && all[i + 1] == ts[i]
    {
      assert all[..i + 1] == [t] + ts[..i];
      OpenFront(t, ts[..i]);
    }
    if Annotations(all, depth) {
      assert depth + Open(all[..0]) >= 0;
      if ts != [] { assert depth + Open(all[..1]) >= 0 && ts[..0] == []; }
      forall i | 0 <= i < |ts| ensures next + Open(ts[..i]) >= 0 && (next + Open(ts[..i]) == 0 ==> "@" <= ts[i]) {
        assert depth + Open(all[..i + 1]) >= 0;
      }
    }
    if next >= 0 && Annotations(ts, next) && (depth == 0 ==> "@" <= t) {
      forall i | 0 <= i < |all| ensures depth + Open(all[..i]) >= 0 && (depth + Open(all[..i]) == 0 ==> "@" <= all[i]) {
        if i > 0 { assert next + Open(ts[..i - 1]) >= 0; }
      }
    }
  }

  lemma NothingOpened()
    ensures Open([]) == 0
    ensures forall depth :: Annotations([], depth) <==> depth == 0
  {
  }

  method ScanAnnotations(text: string, indent: string) returns (only: bool)
    ensures only <==> Solid(Lines(text), indent) != [] && Annotations(Solid(Lines(text), indent), 0)
  {
    hide Bare, Count, Open, Annotations, Solid, Lines;
    var lines, saw, depth: int := Lines(text), false, 0;
    AnnotationsOnlyIs(lines, indent, 0, false);
    assert lines[0..] == lines;
    for i := 0 to |lines|
      invariant depth >= 0 && (depth > 0 ==> saw)
      invariant AnnotationsOnly(lines[i..], indent, depth, saw) == AnnotationsOnly(lines, indent, 0, false)
    {
      assert lines[i..][0] == lines[i] && lines[i..][1..] == lines[i + 1..];
      var line := Bare(lines[i], indent);
      if line == [] {
        continue;
      }
      if depth == 0 {
        if line[0] != '@' {
          return false;
        }
        saw := true;
      }
      depth := depth + Count(line, '(') - Count(line, ')');
      if depth < 0 {
        return false;
      }
    }
    return saw && depth == 0;
  }

  method ScanMarkers(source: string, from: nat, line: nat, indent: string) returns (start: nat)
    requires from <= line <= |source|
    ensures start == MarkersAbove(source, from, line, indent)
  {
    start := line;
    while start > from
      invariant from <= start <= line
      invariant MarkersAbove(source, from, start, indent) == MarkersAbove(source, from, line, indent)
    {
      var prev := AtLeast(LineStart(source, start - 1), from);
      if StartsWith(source[prev..start], indent + "// NOTLIN:") {
        start := prev;
      } else if Trim(source[prev..start]) == "*/" {
        var block := BlockAbove(source, from, prev);
        if block.None? {
          break;
        }
        start := block.value;
      } else {
        break;
      }
    }
  }

  function InStretch(bs: seq<Blocker>, from: nat, to: nat): (r: seq<Blocker>)
    ensures Within(r, from, to) && forall b :: b in r <==> b in bs && from <= b.offset < to
    ensures |r| <= |bs|
  {
    if bs == [] then []
    else (if from <= bs[0].offset < to then [bs[0]] else []) + InStretch(bs[1..], from, to)
  }

  function OutOfStretch(bs: seq<Blocker>, from: nat, to: nat): (r: seq<Blocker>)
    ensures forall b :: b in r <==> b in bs && !(from <= b.offset < to)
  {
    if bs == [] then []
    else (if from <= bs[0].offset < to then [] else [bs[0]]) + OutOfStretch(bs[1..], from, to)
  }

  lemma {:induction false} StretchAscends(bs: seq<Blocker>, from: nat, to: nat)
    requires Ascending(bs)
    ensures Ascending(InStretch(bs, from, to)) && Ascending(OutOfStretch(bs, from, to))
  {
    if bs != [] {
      StretchAscends(bs[1..], from, to);
      forall b | b in bs[1..] ensures bs[0].offset <= b.offset {}
      AscendsCons(bs[0], InStretch(bs[1..], from, to));
      AscendsCons(bs[0], OutOfStretch(bs[1..], from, to));
      assert [] + InStretch(bs[1..], from, to) == InStretch(bs[1..], from, to);
      assert [] + OutOfStretch(bs[1..], from, to) == OutOfStretch(bs[1..], from, to);
    }
  }

  lemma AscendsCons(b: Blocker, bs: seq<Blocker>)
    requires Ascending(bs) && forall x :: x in bs ==> b.offset <= x.offset
    ensures Ascending([b] + bs)
  {
  }

  /** The plan of a stretch. */
  ghost function Plan(source: string, from: nat, to: nat, blockers: seq<Blocker>): (r: seq<Edit>)
    requires from <= to <= |source| && Ascending(blockers)
    ensures Orderly(r, from, to)
  {
    var bs := InStretch(blockers, from, to);
    StretchAscends(blockers, from, to);
    GroupsForward(source, from, to, from, bs);
    StepsOrderly(source, from, from, Groups(source, from, bs), from, to);
    Steps(source, from, from, Groups(source, from, bs))
  }

  /** What one group adds to the output, and where the cursor goes. */
  ghost function Advance(p: nat, g: Group, step: Option<Edit>): nat {
    if step.Some? then g.line else p
  }

  ghost function Written(source: string, p: nat, g: Group, step: Option<Edit>): string
    requires g.line <= |source| && (step.Some? ==> p <= step.value.start <= step.value.end <= g.line)
  {
    if step.Some? then source[p..step.value.start] + step.value.text + source[step.value.end..g.line] else []
  }

  lemma StepsUnfold(source: string, from: nat, to: nat, p: nat, groups: seq<Group>)
    requires groups != [] && from <= p <= to <= |source| && Forward(source, from, p, groups)
    requires forall g :: g in groups ==> g.line < to
    ensures var g := groups[0]; Reachable(source, from, p, g) && var q := Advance(p, g, Step(source, from, p, g));
      && p <= q <= to && Forward(source, from, q, groups[1..])
      && Orderly(Steps(source, from, p, groups), p, to) && Orderly(Steps(source, from, q, groups[1..]), q, to)
      && Splice(source[..to], Steps(source, from, p, groups), p)
         == Written(source, p, g, Step(source, from, p, g)) + Splice(source[..to], Steps(source, from, q, groups[1..]), q)
  {
    hide *;
    var g := groups[0];
    FirstStep(source, from, to, p, groups);
    var step := Step(source, from, p, g);
    var rest := Steps(source, from, Advance(p, g, step), groups[1..]);
    if step.Some? {
      SpliceStep(source, to, p, g, step.value, rest);
    } else {
      assert [] + rest == rest && "" + Splice(source[..to], rest, p) == Splice(source[..to], rest, p);
    }
    WrittenIs(source, p, g, step);
  }

  /** The plan of the first group, and of the rest. */
  lemma FirstStep(source: string, from: nat, to: nat, p: nat, groups: seq<Group>)
    requires groups != [] && from <= p <= to <= |source| && Forward(source, from, p, groups)
    requires forall g :: g in groups ==> g.line < to
    ensures var g := groups[0]; Reachable(source, from, p, g) && var step := Step(source, from, p, g); var q := Advance(p, g, step);
      && p <= q <= to && g.line <= to && Forward(source, from, q, groups[1..])
      && Orderly(Steps(source, from, p, groups), p, to) && Orderly(Steps(source, from, q, groups[1..]), q, to)
      && (step.Some? ==> p <= step.value.start <= step.value.end <= g.line == q)
      && (step.None? ==> q == p)
      && Steps(source, from, p, groups) == (if step.Some? then [step.value] else []) + Steps(source, from, q, groups[1..])
  {
    hide Step, Orderly;
    var g := groups[0];
    assert g in groups;
    ForwardFrom(source, from, p, groups);
    var q := Advance(p, g, Step(source, from, p, g));
    StepsOrderly(source, from, p, groups, p, to);
    StepsOrderly(source, from, q, groups[1..], q, to);
  }

  lemma WrittenIs(source: string, p: nat, g: Group, step: Option<Edit>)
    requires g.line <= |source| && (step.Some? ==> p <= step.value.start <= step.value.end <= g.line)
    ensures Written(source, p, g, step)
         == if step.Some? then source[p..step.value.start] + step.value.text + source[step.value.end..g.line] else []
    ensures Advance(p, g, step) == if step.Some? then g.line else p
  {
  }

  lemma SpliceStep(source: string, to: nat, p: nat, g: Group, e: Edit, rest: seq<Edit>)
    requires p <= e.start <= e.end <= g.line <= to <= |source| && Orderly(rest, g.line, to)
    ensures Splice(source[..to], [e] + rest, p)
         == (source[p..e.start] + e.text + source[e.end..g.line]) + Splice(source[..to], rest, g.line)
  {
    hide Splice, Orderly;
    var head := source[..to];
    SpliceSkips(head, rest, e.end, g.line);
    SpliceEdit(head, e, rest, p);
    assert head[p..e.start] == source[p..e.start] && head[e.end..g.line] == source[e.end..g.line];
  }

  method WriteGroup(source: string, from: nat, p: nat, g: Group) returns (text: string, q: nat)
    requires Reachable(source, from, p, g)
    ensures text == Written(source, p, g, Step(source, from, p, g)) && q == Advance(p, g, Step(source, from, p, g))
  {
    hide KdocBeforeAnnotations, MarkersAbove;
    var comment := KdocBeforeAnnotations(source, p, g.line, g.indent);
    if comment.Some? {
      if source[comment.value.0..comment.value.1] != g.block {
        return source[p..comment.value.0] + g.block + source[comment.value.1..g.line], g.line;
      }
      return "", p;
    }
    var above := ScanMarkers(source, from, g.line, g.indent);
    var start := AtLeast(above, p);
    if source[start..g.line] != g.block {
      assert source[g.line..g.line] == "";
      return source[p..start] + g.block, g.line;
    }
    return "", p;
  }

  /** The blockers `bs` are next, with the cursor at `p`. */
  ghost predicate Ready(source: string, from: nat, to: nat, p: nat, bs: seq<Blocker>) {
    && from <= p <= to <= |source| && Within(bs, from, |source| + 1)
    && Forward(source, from, p, Groups(source, from, bs))
    && (forall g :: g in Groups(source, from, bs) ==> g.line < to)
    && Orderly(Steps(source, from, p, Groups(source, from, bs)), p, to)
  }

  /** What is still to be written. */
  ghost function Coming(source: string, from: nat, to: nat, p: nat, bs: seq<Blocker>): string
    requires Ready(source, from, to, p, bs)
  {
    Splice(source[..to], Steps(source, from, p, Groups(source, from, bs)), p)
  }

  lemma ReadyAtStart(source: string, from: nat, to: nat, blockers: seq<Blocker>)
    requires from <= to <= |source| && Ascending(blockers)
    ensures Ready(source, from, to, from, InStretch(blockers, from, to))
    ensures Coming(source, from, to, from, InStretch(blockers, from, to)) == Splice(source[..to], Plan(source, from, to, blockers), from)
  {
    hide Steps, Groups;
    StretchAscends(blockers, from, to);
    var bs := InStretch(blockers, from, to);
    GroupsForward(source, from, to, from, bs);
    StepsOrderly(source, from, from, Groups(source, from, bs), from, to);
  }

  lemma ReadyStep(source: string, from: nat, to: nat, p: nat, bs: seq<Blocker>, g: Group)
    requires bs != [] && Ready(source, from, to, p, bs) && g == Groups(source, from, bs)[0]
    ensures Reachable(source, from, p, g) && p <= Advance(p, g, Step(source, from, p, g)) <= to
    ensures Ready(source, from, to, Advance(p, g, Step(source, from, p, g)), bs[SameLine(source, from, bs, 1)..])
    ensures Coming(source, from, to, p, bs)
         == Written(source, p, g, Step(source, from, p, g))
            + Coming(source, from, to, Advance(p, g, Step(source, from, p, g)), bs[SameLine(source, from, bs, 1)..])
  {
    hide Steps, Groups, Step, SameLine, Forward, Splice, Orderly;
    GroupsUnfold(source, from, bs);
    StepsUnfold(source, from, to, p, Groups(source, from, bs));
  }

  lemma ReadyEnd(source: string, from: nat, to: nat, p: nat, bs: seq<Blocker>)
    requires bs == [] && Ready(source, from, to, p, bs)
    ensures p <= to <= |source| && Coming(source, from, to, p, bs) == source[p..to]
  {
  }

  method CountSameLine(source: string, from: nat, bs: seq<Blocker>) returns (n: nat)
    requires bs != [] && Within(bs, from, |source| + 1)
    ensures n == SameLine(source, from, bs, 1)
  {
    hide LineOf;
    n := 1;
    while n < |bs| && LineOf(source, from, bs[n]) == LineOf(source, from, bs[0])
      invariant 0 < n <= |bs| && LineOf(source, from, bs[n - 1]) == LineOf(source, from, bs[0])
      invariant SameLine(source, from, bs, n) == SameLine(source, from, bs, 1)
    {
      n := n + 1;
    }
  }

  /** The copying loop carries out the plan, and takes the stretch's blockers off the list. */
  method CopyKept(blockers: seq<Blocker>, source: string, from: nat, to: nat) returns (out: string, left: seq<Blocker>)
    requires from <= to <= |source| && Ascending(blockers)
    ensures out == Splice(source[..to], Plan(source, from, to, blockers), from)
    ensures left == OutOfStretch(blockers, from, to)
  {
    var region := InStretch(blockers, from, to);
    out := CopyRegion(blockers, source, from, to, region);
    left := OutOfStretch(blockers, from, to);
  }

  method CopyRegion(ghost blockers: seq<Blocker>, source: string, from: nat, to: nat, region: seq<Blocker>) returns (out: string)
    requires from <= to <= |source| && Ascending(blockers) && region == InStretch(blockers, from, to)
    ensures out == Splice(source[..to], Plan(source, from, to, blockers), from)
  {
    hide *;
    ReadyAtStart(source, from, to, blockers);
    var p, rest := from, region;
    out := "";
    while rest != []
      invariant Ready(source, from, to, p, rest)
      invariant out + Coming(source, from, to, p, rest) == Coming(source, from, to, from, region)
    {
      var text, n, q := CopyGroup(source, from, to, p, rest);
      out, p, rest := out + text, q, rest[n..];
    }
    ReadyEnd(source, from, to, p, rest);
    out := out + source[p..to];
  }

  method CopyGroup(source: string, from: nat, to: nat, p: nat, bs: seq<Blocker>) returns (text: string, n: nat, q: nat)
    requires bs != [] && Ready(source, from, to, p, bs)
    ensures 0 < n <= |bs| && Ready(source, from, to, q, bs[n..])
    ensures Coming(source, from, to, p, bs) == text + Coming(source, from, to, q, bs[n..])
  {
    hide Steps, Groups, Step, SameLine, Forward, Splice, Orderly, LineOf, IndentOf, BlockOf, Written, Coming;
    n := CountSameLine(source, from, bs);
    GroupsUnfold(source, from, bs);
    var indent := IndentOf(source, from, bs[0]);
    var g := Group(LineOf(source, from, bs[0]), indent, BlockOf(indent, bs[..n]));
    ReadyStep(source, from, to, p, bs, g);
    text, q := WriteGroup(source, from, p, g);
  }
}
