/** The copying loop on its own output: with every anchor moved along with its line, the groups
    are those whose markers were just written, and nothing is written again. */
module CopyTwice {
  import opened Options
  import opened TextSearch
  import opened Edits
  import opened Markers
  import opened MarkerBlocks
  import opened Reannotate
  import opened AnnotateTwice

  // ----- anchors that move with their lines -----

  /** What is left of the line behind position `at`. */
  function RestOfLine(s: string, at: nat): string
    requires at <= |s|
  {
    s[at..at + LineEnd(s[at..])]
  }

  /** The line at `b` in `out` is the line at `a` in `s`. */
  ghost predicate SameLineAt(s: string, a: nat, out: string, b: nat) {
    && a <= |s| && b <= |out| && (b == 0 || out[b - 1] == '\n')
    && RestOfLine(s, a) <= out[b..] && (a + |RestOfLine(s, a)| < |s| ==> b + |RestOfLine(s, a)| < |out|)
  }

  /** The lines of the groups in the new text, in order. */
  ghost predicate Carries(s: string, out: string, gs: seq<Group>, lines: seq<nat>) {
    && |lines| == |gs|
    && (forall k :: 0 <= k < |gs| ==> SameLineAt(s, gs[k].line, out, lines[k]))
    && forall i, j :: 0 <= i < j < |lines| ==> lines[i] < lines[j]
  }

  /** The anchor at the same place of its line. */
  function Shifted(b: Blocker, line: nat, newLine: nat): Blocker
    requires line <= b.offset
  {
    Blocker(newLine + (b.offset - line), b.text)
  }

  /** Every blocker moves with the line of its group. */
  function Moved(s: string, bs: seq<Blocker>, lines: seq<nat>): (r: seq<Blocker>)
    requires Within(bs, 0, |s| + 1) && |lines| == |Groups(s, 0, bs)|
    ensures |r| == |bs|
    decreases |bs|
  {
    if bs == [] then []
    else
      var n := SameLine(s, 0, bs, 1);
      MovedGroup(s, bs, n, lines[0]) + Moved(s, bs[n..], lines[1..])
  }

  function MovedGroup(s: string, bs: seq<Blocker>, n: nat, newLine: nat): (r: seq<Blocker>)
    requires 0 < n <= |bs| && Within(bs, 0, |s| + 1) && n == SameLine(s, 0, bs, 1)
    ensures |r| == n && forall i :: 0 <= i < n ==> r[i] == Shifted(bs[i], LineOf(s, 0, bs[0]), newLine)
  {
    seq(n, i requires 0 <= i < n =>
      assert LineOf(s, 0, bs[i]) == LineOf(s, 0, bs[0]);
      Shifted(bs[i], LineOf(s, 0, bs[0]), newLine))
  }

  /** A moved anchor is on the new line, with the same indentation. */
  lemma {:induction false} ShiftedOnLine(s: string, out: string, b: Blocker, newLine: nat)
    requires b.offset < |s| && SameLineAt(s, LineOf(s, 0, b), out, newLine)
    ensures var m := Shifted(b, LineOf(s, 0, b), newLine);
      m.offset < |out| && LineOf(out, 0, m) == newLine && IndentOf(out, 0, m) == IndentOf(s, 0, b)
  {
    hide IndentOf;
    var line := LineOf(s, 0, b);
    var rest, n := RestOfLine(s, line), b.offset - line;
    assert n <= |rest| by { OffsetOnLine(s, b); }
    assert out[newLine..newLine + n] == out[newLine..][..n] == rest[..n] == s[line..b.offset];
    AnchorKeepsItsLine(s, b, out, newLine);
  }

  lemma OffsetOnLine(s: string, b: Blocker)
    requires b.offset <= |s|
    ensures b.offset - LineOf(s, 0, b) <= LineEnd(s[LineOf(s, 0, b)..])
  {
    var line := LineOf(s, 0, b);
    var rest := s[line..];
    var e := LineEnd(rest);
    assert e < |rest| ==> s[line + e] == '\n';
  }

  lemma {:induction false} SameTexts(indent: string, bs: seq<Blocker>, other: seq<Blocker>)
    requires |bs| == |other| && forall i :: 0 <= i < |bs| ==> bs[i].text == other[i].text
    ensures BlockOf(indent, bs) == BlockOf(indent, other)
  {
    if bs != [] { SameTexts(indent, bs[1..], other[1..]); }
  }

  /** Moved blockers form the same groups, at the new lines. */
  lemma {:induction false} MovedGroups(s: string, out: string, bs: seq<Blocker>, lines: seq<nat>, low: nat)
    requires Within(bs, 0, |s|) && Within(bs, 0, |s| + 1) && Ascending(bs)
    requires Carries(s, out, Groups(s, 0, bs), lines) && (lines != [] ==> low <= lines[0])
    ensures var moved := Moved(s, bs, lines);
      && Within(moved, low, |out|) && Within(moved, 0, |out| + 1) && Ascending(moved)
      && Groups(out, 0, moved) == Relined(Groups(s, 0, bs), lines)
    ensures bs != [] ==> Moved(s, bs, lines)[0].offset >= lines[0] && LineOf(out, 0, Moved(s, bs, lines)[0]) == lines[0]
    decreases |bs|
  {
    if bs == [] {
      NoGroups(s, out, lines);
    } else {
      hide *;
      var n := SameLine(s, 0, bs, 1);
      var gs := Groups(s, 0, bs);
      MovedUnfold(s, bs, lines);
      GroupsUnfold(s, 0, bs);
      CarriesRest(s, out, gs, lines);
      RestWithin(s, bs, n);
      var front, back := MovedGroup(s, bs, n, lines[0]), Moved(s, bs[n..], lines[1..]);
      MovedGroups(s, out, bs[n..], lines[1..], lines[0] + 1);
      GroupMoved(s, out, bs, n, lines[0]);
      BackLater(out, back, lines);
      FrontIn(out, front, back, lines[0], low);
      FrontGroup(s, out, bs, n, lines[0], front, back);
      RelinedUnfold(gs, lines);
    }
  }

  lemma NoGroups(s: string, out: string, lines: seq<nat>)
    requires Carries(s, out, Groups(s, 0, []), lines)
    ensures Moved(s, [], lines) == [] && Groups(out, 0, []) == [] == Relined(Groups(s, 0, []), lines)
  {
  }

  lemma RestWithin(s: string, bs: seq<Blocker>, n: nat)
    requires Within(bs, 0, |s|) && Ascending(bs) && n <= |bs|
    ensures Within(bs[n..], 0, |s|) && Within(bs[n..], 0, |s| + 1) && Ascending(bs[n..])
  {
    assert forall b :: b in bs[n..] ==> b in bs;
  }

  lemma BackLater(out: string, back: seq<Blocker>, lines: seq<nat>)
    requires lines != [] && Within(back, 0, |out| + 1)
    requires back != [] ==> |lines| > 1 && LineOf(out, 0, back[0]) == lines[1..][0] && lines[0] + 1 <= lines[1]
    ensures back != [] ==> LineOf(out, 0, back[0]) > lines[0]
  {
  }

  lemma RelinedUnfold(gs: seq<Group>, lines: seq<nat>)
    requires |lines| == |gs| > 0
    ensures Relined(gs, lines) == [Group(lines[0], gs[0].indent, gs[0].block)] + Relined(gs[1..], lines[1..])
  {
  }

  lemma MovedUnfold(s: string, bs: seq<Blocker>, lines: seq<nat>)
    requires Within(bs, 0, |s| + 1) && |lines| == |Groups(s, 0, bs)| && bs != []
    ensures var n := SameLine(s, 0, bs, 1);
      && Within(bs[n..], 0, |s| + 1) && |lines| > 0 && |lines[1..]| == |Groups(s, 0, bs[n..])|
      && Moved(s, bs, lines) == MovedGroup(s, bs, n, lines[0]) + Moved(s, bs[n..], lines[1..])
  {
    GroupsUnfold(s, 0, bs);
  }

  lemma CarriesRest(s: string, out: string, gs: seq<Group>, lines: seq<nat>)
    requires gs != [] && Carries(s, out, gs, lines)
    ensures Carries(s, out, gs[1..], lines[1..]) && SameLineAt(s, gs[0].line, out, lines[0])
    ensures |lines| > 1 ==> lines[0] + 1 <= lines[1]
  {
    hide SameLineAt;
  }

  function Relined(gs: seq<Group>, lines: seq<nat>): seq<Group>
    requires |lines| == |gs|
  {
    seq(|gs|, k requires 0 <= k < |gs| => Group(lines[k], gs[k].indent, gs[k].block))
  }

  lemma GroupMoved(s: string, out: string, bs: seq<Blocker>, n: nat, newLine: nat)
    requires bs != [] && Within(bs, 0, |s|) && Within(bs, 0, |s| + 1) && Ascending(bs) && n == SameLine(s, 0, bs, 1)
    requires SameLineAt(s, LineOf(s, 0, bs[0]), out, newLine)
    ensures var r := MovedGroup(s, bs, n, newLine);
      && (forall i :: 0 <= i < n ==> newLine <= r[i].offset < |out| && LineOf(out, 0, r[i]) == newLine && r[i].text == bs[i].text)
      && IndentOf(out, 0, r[0]) == IndentOf(s, 0, bs[0])
      && (forall i, j :: 0 <= i < j < n ==> r[i].offset <= r[j].offset)
  {
    hide LineOf, IndentOf, SameLineAt;
    var r := MovedGroup(s, bs, n, newLine);
    forall i | 0 <= i < n
      ensures newLine <= r[i].offset < |out| && LineOf(out, 0, r[i]) == newLine && IndentOf(out, 0, r[i]) == IndentOf(s, 0, bs[i])
    {
      assert bs[i] in bs && LineOf(s, 0, bs[i]) == LineOf(s, 0, bs[0]);
      ShiftedOnLine(s, out, bs[i], newLine);
    }
  }

  lemma LaterLine(source: string, a: Blocker, b: Blocker)
    requires a.offset <= |source| && b.offset <= |source| && LineOf(source, 0, a) < LineOf(source, 0, b)
    ensures a.offset <= b.offset
  {
    hide LineOf;
    if b.offset < a.offset { LinesAscend(source, 0, b, a); }
  }

  lemma FrontIn(out: string, front: seq<Blocker>, back: seq<Blocker>, newLine: nat, low: nat)
    requires low <= newLine && front != []
    requires forall i :: 0 <= i < |front| ==> newLine <= front[i].offset < |out| && LineOf(out, 0, front[i]) == newLine
    requires forall i, j :: 0 <= i < j < |front| ==> front[i].offset <= front[j].offset
    requires Within(back, newLine + 1, |out|) && Ascending(back) && Within(back, 0, |out| + 1)
    requires back != [] ==> LineOf(out, 0, back[0]) > newLine
    ensures var all := front + back; Within(all, low, |out|) && Within(all, 0, |out| + 1) && Ascending(all)
  {
    var all := front + back;
    if back != [] {
      forall i | 0 <= i < |front| ensures front[i].offset <= back[0].offset {
        LaterLine(out, front[i], back[0]);
      }
    }
    forall i, j | 0 <= i < j < |all| ensures all[i].offset <= all[j].offset {
      if i < |front| <= j {
        assert back[0].offset <= back[j - |front|].offset;
      }
    }
  }

  lemma {:induction false} SameLineIs(source: string, bs: seq<Blocker>, i: nat, n: nat, line: nat)
    requires 0 < i <= n <= |bs| && Within(bs, 0, |source| + 1)
    requires forall j :: 0 <= j < n ==> LineOf(source, 0, bs[j]) == line
    requires n < |bs| ==> LineOf(source, 0, bs[n]) != line
    ensures SameLine(source, 0, bs, i) == n
    decreases n - i
  {
    hide LineOf;
    if i < n { SameLineIs(source, bs, i + 1, n, line); }
  }

  /** Blockers at one line, and blockers at later lines: the first make a group. */
  lemma FrontGroup(s: string, out: string, bs: seq<Blocker>, n: nat, newLine: nat, front: seq<Blocker>, back: seq<Blocker>)
    requires 0 < n <= |bs| && |front| == n && Within(front + back, 0, |out| + 1) && Within(back, 0, |out| + 1)
    requires forall i :: 0 <= i < n ==> front[i].offset <= |out| && LineOf(out, 0, front[i]) == newLine && front[i].text == bs[i].text
    requires Within(bs, 0, |s| + 1) && IndentOf(out, 0, front[0]) == IndentOf(s, 0, bs[0])
    requires back != [] ==> LineOf(out, 0, back[0]) > newLine
    ensures Groups(out, 0, front + back)
         == [Group(newLine, IndentOf(s, 0, bs[0]), BlockOf(IndentOf(s, 0, bs[0]), bs[..n]))] + Groups(out, 0, back)
  {
    hide LineOf, IndentOf, BlockOf, Groups;
    var all := front + back;
    assert forall j :: 0 <= j < n ==> all[j] == front[j];
    assert back != [] ==> all[n] == back[0];
    SameLineIs(out, all, 1, n, newLine);
    GroupsUnfold(out, 0, all);
    assert all[n..] == back && all[..n] == front;
    SameTexts(IndentOf(s, 0, bs[0]), front, bs[..n]);
  }

  // ----- the lines in what the first run wrote -----

  /** Where the line below block `k` is in the annotated text. */
  function NewLines(ss: seq<Stretch>): seq<nat> {
    seq(|ss|, k requires 0 <= k < |ss| => |Annotated(ss[..k + 1])|)
  }

  /** The code of stretch `k + 1` starts with the line below block `k`, and is whole lines. */
  lemma {:induction false} CodeAt(s: string, prev: nat, first: bool, gs: seq<Group>, css: seq<seq<Chunk>>, k: nat)
    requires Annotatable(s, prev, first, gs, css) && k + 1 < |gs|
    ensures var code := Stretches(s, prev, first, gs, css)[k + 1].code;
      && gs[k].line + |code| <= |s| && code != [] && code == s[gs[k].line..gs[k].line + |code|] && code[|code| - 1] == '\n'
    decreases |gs|
  {
    hide *;
    StretchesUnfold(s, prev, first, gs, css);
    var rest := Stretches(s, gs[0].line, false, gs[1..], css[1..]);
    if k > 0 {
      CodeAt(s, gs[0].line, false, gs[1..], css[1..], k - 1);
    } else {
      StretchesUnfold(s, gs[0].line, false, gs[1..], css[1..]);
      LineParts(s, gs[0].line, false, gs[1], css[1]);
      CodeOfStretch(s, gs[0].line, gs[1], css[1]);
      InText(s, gs[1]);
      CodeLines(s, gs[0].line, CodeEnd(s, gs[1]), rest[0].code);
    }
  }

  lemma CodeLines(s: string, from: nat, to: nat, code: string)
    requires from <= to <= |s| && code == s[from..to] && code != [] && AtLineStart(code)
    ensures from + |code| <= |s| && code == s[from..from + |code|] && code[|code| - 1] == '\n'
  {
  }

  lemma {:induction false} LastLineIs(prev: nat, gs: seq<Group>)
    requires gs != []
    ensures LastLine(prev, gs) == gs[|gs| - 1].line
    decreases |gs|
  {
    if |gs| > 1 { LastLineIs(gs[0].line, gs[1..]); }
  }

  /** The rest of a line inside whole lines of code. */
  lemma RestInCode(s: string, line: nat, code: string)
    requires line + |code| <= |s| && code != [] && code == s[line..line + |code|] && code[|code| - 1] == '\n'
    ensures |RestOfLine(s, line)| < |code| && RestOfLine(s, line) <= code
  {
    var rest := s[line..];
    assert rest[|code| - 1] == code[|code| - 1];
    assert LineEnd(rest) < |code|;
    assert RestOfLine(s, line) == code[..|RestOfLine(s, line)|];
  }

  lemma TextStep(ss: seq<Stretch>, k: nat)
    requires k + 1 < |ss|
    ensures Annotated(ss[..k + 2]) == Annotated(ss[..k + 1]) + (ss[k + 1].code + (BlockText(ss[k + 1]) + ss[k + 1].below))
  {
    hide BlockText;
    assert ss[..k + 2][..k + 1] == ss[..k + 1];
    var st := ss[k + 1];
    assert (st.code + BlockText(st)) + st.below == st.code + (BlockText(st) + st.below);
  }

  lemma LineCarried(s: string, gs: seq<Group>, css: seq<seq<Chunk>>, k: nat)
    requires Annotatable(s, 0, true, gs, css) && k < |gs| && LastLine(0, gs) < |s| && gs[k].line <= |s|
    ensures var ss := Stretches(s, 0, true, gs, css);
      && SameLineAt(s, gs[k].line, Annotated(ss) + s[LastLine(0, gs)..], |Annotated(ss[..k + 1])|)
      && (k + 1 < |gs| ==> |Annotated(ss[..k + 1])| < |Annotated(ss[..k + 2])|)
  {
    hide Annotatable, Annotated, Stretches, RestOfLine, LastLine, AllSound, ChunksText, Closed;
    var ss := Stretches(s, 0, true, gs, css);
    var b, tail := |Annotated(ss[..k + 1])|, s[LastLine(0, gs)..];
    var out := Annotated(ss) + tail;
    StretchesSound(s, 0, true, gs, css);
    PrefixSound(ss, k + 1);
    TextClosed(ss[..k + 1]);
    TextPrefix(ss, k + 1);
    assert out[..b] == Annotated(ss[..k + 1]);
    assert b == 0 || out[b - 1] == '\n';
    if k + 1 < |gs| {
      CodeAt(s, 0, true, gs, css, k);
      var code := ss[k + 1].code;
      RestInCode(s, gs[k].line, code);
      TextStep(ss, k);
      TextPrefix(ss, k + 2);
      assert out[b..b + |code|] == code;
      assert RestOfLine(s, gs[k].line) <= out[b..];
    } else {
      LastLineIs(0, gs);
      assert ss[..k + 1] == ss;
      assert out[b..] == tail;
      TailLine(s, gs[k].line);
    }
  }

  lemma TailLine(s: string, line: nat)
    requires line <= |s|
    ensures RestOfLine(s, line) <= s[line..]
  {
  }

  lemma {:induction false} Rising(lines: seq<nat>)
    requires forall k :: 0 <= k < |lines| - 1 ==> lines[k] < lines[k + 1]
    ensures forall i, j :: 0 <= i < j < |lines| ==> lines[i] < lines[j]
  {
    if |lines| > 1 {
      var n := |lines| - 1;
      Rising(lines[..n]);
      forall i, j | 0 <= i < j < |lines| ensures lines[i] < lines[j] {
        assert lines[n - 1] < lines[n];
        if j < n { assert lines[..n][i] < lines[..n][j]; }
        else if i < n - 1 { assert lines[..n][i] < lines[..n][n - 1]; }
      }
    }
  }

  lemma LinesCarried(s: string, gs: seq<Group>, css: seq<seq<Chunk>>)
    requires gs != [] && Annotatable(s, 0, true, gs, css) && LastLine(0, gs) < |s|
    ensures var ss := Stretches(s, 0, true, gs, css); Carries(s, Annotated(ss) + s[LastLine(0, gs)..], gs, NewLines(ss))
  {
    hide Annotatable, Annotated, Stretches, LastLine, SameLineAt;
    var ss := Stretches(s, 0, true, gs, css);
    var out, lines := Annotated(ss) + s[LastLine(0, gs)..], NewLines(ss);
    forall k | 0 <= k < |gs| ensures SameLineAt(s, gs[k].line, out, lines[k]) && (k + 1 < |gs| ==> lines[k] < lines[k + 1]) {
      GroupInText(s, 0, true, gs, css, k);
      LineCarried(s, gs, css, k);
    }
    Rising(lines);
  }

  lemma {:induction false} GroupInText(s: string, prev: nat, first: bool, gs: seq<Group>, css: seq<seq<Chunk>>, k: nat)
    requires Annotatable(s, prev, first, gs, css) && k < |gs|
    ensures OnLine(s, gs[k])
    decreases |gs|
  {
    hide *;
    StretchesUnfold(s, prev, first, gs, css);
    if k > 0 { GroupInText(s, gs[0].line, false, gs[1..], css[1..], k - 1); }
  }

  lemma {:induction false} GroupsFromAt(ss: seq<Stretch>, k: nat, j: nat)
    requires k + j < |ss|
    ensures |GroupsFrom(ss, k)| == |ss| - k && GroupsFrom(ss, k)[j] == GroupBelow(ss[..k + j + 1])
    decreases |ss| - k
  {
    hide GroupBelow;
    if k + 1 < |ss| { GroupsFromAt(ss, k + 1, if j > 0 then j - 1 else 0); }
  }

  /** The groups below the blocks are those of the first run, at their new lines. */
  lemma GroupsRelined(s: string, gs: seq<Group>, css: seq<seq<Chunk>>)
    requires gs != [] && Annotatable(s, 0, true, gs, css)
    ensures var ss := Stretches(s, 0, true, gs, css); Relined(gs, NewLines(ss)) == GroupsFrom(ss, 0)
  {
    hide Annotatable, Annotated, Stretches, ChunksText;
    var ss := Stretches(s, 0, true, gs, css);
    GroupsFromAt(ss, 0, 0);
    forall k | 0 <= k < |gs| ensures Relined(gs, NewLines(ss))[k] == GroupsFrom(ss, 0)[k] {
      GroupsFromAt(ss, 0, k);
      GroupsMatch(s, 0, true, gs, css, k);
    }
  }

  // ----- blocks that settle -----

  /** A block directly above its line that the annotation branch never takes for annotations: it
      ends in a comment, or in a line without a closing parenthesis. */
  predicate Settling(cs: seq<Chunk>) {
    cs != [] && match cs[|cs| - 1] case DocMark(_) => true case LineMark(text) => ')' !in text
  }

  /** Above annotations a block must be one comment, and not indented. */
  predicate Settles(s: string, g: Group, cs: seq<Chunk>)
    requires OnLine(s, g)
  {
    if CommentFor(s, g).None? then Settling(cs) else Unindented(g, cs)
  }

  predicate Unindented(g: Group, cs: seq<Chunk>) {
    g.indent == "" && |cs| == 1
  }

  function WithoutReturn(line: string): string {
    if line != [] && line[|line| - 1] == '\r' then line[..|line| - 1] else line
  }

  lemma {:induction false} LinesUnfold(text: string)
    requires LineEnd(text) < |text|
    ensures Lines(text) == [WithoutReturn(text[..LineEnd(text)])] + Lines(text[LineEnd(text) + 1..])
  {
    hide LineEnd;
    var n := LineEnd(text);
    if n > 0 {
      assert text[..n][n - 1] == text[n - 1] && text[..n][..n - 1] == text[..n - 1];
    }
  }

  lemma {:induction false} LinesAppend(text: string, line: string)
    requires AtLineStart(text) && forall i :: 0 <= i < |line| ==> line[i] != '\n' && line[i] != '\r'
    ensures Lines(text + (line + "\n")) == Lines(text) + [line]
    decreases |text|
  {
    hide Lines, LineEnd, WithoutReturn;
    if text == [] {
      LinesHead(line, "");
      assert line + "\n" + "" == line + "\n" && text + (line + "\n") == line + "\n";
      assert Lines("") == [] by { NoLines(); }
    } else {
      var n := LineEnd(text);
      FirstLineEnds(text, line + "\n");
      LinesUnfold(text);
      LinesUnfold(text + (line + "\n"));
      var rest := text[n + 1..];
      LinesAppend(rest, line);
      assert (text + (line + "\n"))[n + 1..] == rest + (line + "\n");
      assert (text + (line + "\n"))[..n] == text[..n];
    }
  }

  lemma NoLines()
    ensures Lines("") == []
  {
  }

  lemma {:induction false} FirstLineEnds(text: string, more: string)
    requires text != [] && AtLineStart(text)
    ensures LineEnd(text) < |text| && LineEnd(text + more) == LineEnd(text) && AtLineStart(text[LineEnd(text) + 1..])
  {
    hide LineEnd;
    var n := LineEnd(text);
    assert text[|text| - 1] == '\n';
    var line, rest := text[..n], text[n + 1..];
    LineEndAt(line, rest + more);
    assert text + more == line + "\n" + (rest + more);
  }

  /** Lines that end in a marker line are not annotations only. */
  lemma {:induction false} MarkerEnds(ls: seq<string>, line: string, indent: string, depth: nat, saw: bool)
    requires var t := Bare(line, indent);
      t != [] && t[0] != '@' && Count(t, ')') == 0
    ensures !AnnotationsOnly(ls + [line], indent, depth, saw)
    decreases |ls|
  {
    hide Bare, Count;
    var all := ls + [line];
    if ls == [] {
      assert all[1..] == [];
    } else {
      assert all[0] == ls[0] && all[1..] == ls[1..] + [line];
      var t := Bare(ls[0], indent);
      if t == [] {
        MarkerEnds(ls[1..], line, indent, depth, saw);
      } else {
        var next: int := depth + Count(t, '(') - Count(t, ')');
        if next >= 0 { MarkerEnds(ls[1..], line, indent, next, true); }
      }
    }
  }

  lemma {:induction false} CountNone(s: string, c: char)
    requires c !in s
    ensures Count(s, c) == 0
  {
    if s != [] { CountNone(s[1..], c); }
  }

  lemma {:induction false} TrimEndIn(s: string)
    ensures TrimEnd(s) <= s && (s != [] && !IsSpace(s[0]) ==> TrimEnd(s) != [])
  {
    if s != [] && IsSpace(s[|s| - 1]) { TrimEndIn(s[..|s| - 1]); }
  }

  lemma MarkerLine(indent: string, text: string)
    requires ')' !in text
    ensures var line := indent + ("// NOTLIN:" + text);
      var t := Bare(line, indent);
      t != [] && t[0] != '@' && Count(t, ')') == 0
  {
    hide Count;
    var line, mark := indent + ("// NOTLIN:" + text), "// NOTLIN:" + text;
    assert line[0..0 + |indent|] == indent && line[|indent|..] == mark;
    assert TrimStart(mark) == mark;
    TrimEndIn(mark);
    var t := Trim(mark);
    assert t[0] == mark[0];
    assert ')' !in t by { assert forall i :: 0 <= i < |t| ==> t[i] == mark[i]; }
    CountNone(t, ')');
  }

  /** A block whose last marker is a line without closing parenthesis is settled. */
  lemma LineBlockSettled(text: string, x: string, indent: string, mark: string)
    requires AtLineStart(x) && Blank(indent) && Quiet(mark) && ')' !in mark
    requires var w := ChunkText(indent, LineMark(mark)); x + w <= text && |x + w| < |text|
    ensures var line := |x + ChunkText(indent, LineMark(mark))|;
      && line > 0 && text[line - 1] == '\n' && KdocBeforeAnnotations(text, 0, line, indent).None?
  {
    hide *;
    var line := |x + ChunkText(indent, LineMark(mark))|;
    MarkShape(indent, mark);
    LastOfMark(text, x, ChunkText(indent, LineMark(mark)));
    var found := FindLast(text[0..line], "/**");
    if found.Some? {
      assert found.value <= line by { FoundWithin(text[0..line], "/**"); }
      if FindFirst(text[found.value..line], "*/").Some? {
        FoundAboveMark(text, x, indent, mark, found.value);
      }
    }
    KdocNone(text, line, indent);
  }

  lemma FoundWithin(s: string, pat: string)
    ensures FindLast(s, pat).Some? ==> FindLast(s, pat).value <= |s|
  {
    hide FindLast;
    if FindLast(s, pat).Some? { assert At(s, FindLast(s, pat).value, pat); }
  }

  lemma LastOfMark(text: string, x: string, w: string)
    requires w != [] && w[|w| - 1] == '\n' && x + w <= text
    ensures |x + w| > 0 && text[|x + w| - 1] == '\n'
  {
    assert text[..|x + w|] == x + w;
    assert text[|x + w| - 1] == (x + w)[|x + w| - 1];
  }

  /** Whatever generated comment stands above, what is between it and the line ends in the marker. */
  lemma FoundAboveMark(text: string, x: string, indent: string, mark: string, start: nat)
    requires AtLineStart(x) && Blank(indent) && Quiet(mark) && ')' !in mark
    requires var w := ChunkText(indent, LineMark(mark)); x + w <= text && start <= |x + w|
    requires FindFirst(text[start..|x + ChunkText(indent, LineMark(mark))|], "*/").Some?
    ensures var line := |x + ChunkText(indent, LineMark(mark))|;
      var at := start + FindFirst(text[start..line], "*/").value + 2;
      at <= |text| && SkipBreak(text, at) <= line && !AnnotationsOnly(Lines(text[SkipBreak(text, at)..line]), indent, 0, false)
  {
    hide AnnotationsOnly, Lines, FindFirst, ChunkText, SkipBreak, Blank, Quiet, NoPair;
    var w := ChunkText(indent, LineMark(mark));
    var line := |x + w|;
    MarkShape(indent, mark);
    var close := FindFirst(text[start..line], "*/").value;
    CloseAboveMark(text, x, w, start, close);
    BreakAboveMark(text, x, w, start + close + 2);
    var end := SkipBreak(text, start + close + 2);
    BehindJoin(text, x, w, end);
    MarkedLines(x[end..], indent, mark);
  }

  lemma BehindJoin(text: string, x: string, w: string, end: nat)
    requires x + w <= text && end <= |x| && AtLineStart(x)
    ensures text[end..|x + w|] == x[end..] + w && AtLineStart(x[end..])
  {
    assert text[..|x + w|] == x + w;
    assert text[end..|x + w|] == text[..|x + w|][end..] == (x + w)[end..];
  }

  lemma KdocNone(text: string, line: nat, indent: string)
    requires 0 < line < |text| && text[line - 1] == '\n'
    requires var found := FindLast(text[0..line], "/**");
      found.Some? && FindFirst(text[found.value..line], "*/").Some? ==>
        var at := found.value + FindFirst(text[found.value..line], "*/").value + 2;
        at <= |text| && SkipBreak(text, at) <= line && !AnnotationsOnly(Lines(text[SkipBreak(text, at)..line]), indent, 0, false)
    ensures KdocBeforeAnnotations(text, 0, line, indent).None?
  {
    hide SaysNotlin, AnnotationsOnly, Lines, FindLast, FindFirst, SkipBreak;
  }

  lemma MarkedLines(rest: string, indent: string, mark: string)
    requires AtLineStart(rest) && Blank(indent) && Quiet(mark) && ')' !in mark
    ensures !AnnotationsOnly(Lines(rest + ChunkText(indent, LineMark(mark))), indent, 0, false)
  {
    hide AnnotationsOnly, Lines, Bare;
    var line := indent + ("// NOTLIN:" + mark);
    assert ChunkText(indent, LineMark(mark)) == line + "\n";
    assert forall i :: 0 <= i < |line| ==> line[i] != '\n' && line[i] != '\r';
    LinesAppend(rest, line);
    MarkerLine(indent, mark);
    MarkerEnds(Lines(rest), line, indent, 0, false);
  }

  lemma MarkShape(indent: string, mark: string)
    requires Blank(indent) && Quiet(mark)
    ensures var w := ChunkText(indent, LineMark(mark));
      w != [] && w[|w| - 1] == '\n' && NoPair(w, '*', '/') && w[0] in " \t/"
  {
    LineMarkText(indent, mark);
    var w := ChunkText(indent, LineMark(mark));
    assert w[0] == if indent == [] then '/' else indent[0];
  }

  /** A comment's close is above the marker line. */
  lemma CloseAboveMark(text: string, x: string, w: string, start: nat, close: nat)
    requires AtLineStart(x) && w != [] && NoPair(w, '*', '/') && x + w <= text && start <= |x + w|
    requires FindFirst(text[start..|x + w|], "*/") == Some(close)
    ensures start + close + 2 <= |x|
  {
    hide FindFirst, NoPair, AtLineStart;
    var line := |x + w|;
    var tail := text[start..line];
    assert At(tail, close, "*/");
    AtLetters(tail, close, "*/");
    var at := start + close;
    assert text[at] == '*' && text[at + 1] == '/' && at + 2 <= line;
    assert text[..line] == x + w;
    if |x| <= at {
      assert (x + w)[at] == w[at - |x|] && (x + w)[at + 1] == w[at + 1 - |x|];
      NoPairAt(w, '*', '/', at - |x|);
    } else if at + 1 == |x| {
      assert (x + w)[at] == x[|x| - 1];
      EndsLine(x);
    }
  }

  lemma NoPairAt(s: string, a: char, b: char, i: nat)
    requires NoPair(s, a, b) && i + 1 < |s|
    ensures !(s[i] == a && s[i + 1] == b)
  {
  }

  lemma EndsLine(x: string)
    requires AtLineStart(x) && x != []
    ensures x[|x| - 1] == '\n'
  {
  }

  lemma BreakAboveMark(text: string, x: string, w: string, at: nat)
    requires AtLineStart(x) && x + w <= text && at <= |x| && w != [] && w[0] in " \t/"
    ensures SkipBreak(text, at) <= |x|
  {
    assert text[..|x + w|] == x + w;
    if at < |x| {
      assert text[|x| - 1] == (x + w)[|x| - 1] == x[|x| - 1] == '\n';
    } else {
      assert text[at] == (x + w)[at] == w[0];
    }
  }

  // ----- the second run -----

  /** What the second run does is nothing, for blocks that settle. */
  lemma BlockSettles(text: string, ss: seq<Stretch>)
    requires ss != [] && AllSound(ss) && Annotated(ss) <= text && |Annotated(ss)| < |text|
    requires ss[|ss| - 1].below == "" && Settling(ss[|ss| - 1].chunks)
    ensures Reachable(text, 0, 0, GroupBelow(ss)) && CommentSettled(text, GroupBelow(ss))
  {
    hide *;
    var last := ss[|ss| - 1];
    var cs := last.chunks;
    SettlingParts(cs);
    if cs[|cs| - 1].DocMark? {
      DocBlockSettled(text, ss);
    } else {
      BlockSettled(text, ss);
      TextUnfold(ss);
      SoundParts(last);
      BelowParts(last);
      PlainBlock(last);
      var init := ss[..|ss| - 1];
      TextClosed(init);
      ChunksUnfold(Annotated(init) + last.code, last.indent, cs);
      LineStartJoins(Annotated(init), last.code);
      AboveChunks(Annotated(init) + last.code, last.indent, cs[..|cs| - 1]);
      var x, mark := (Annotated(init) + last.code) + ChunksText(last.indent, cs[..|cs| - 1]), cs[|cs| - 1].text;
      assert Annotated(ss) == x + ChunkText(last.indent, LineMark(mark)) by { assert cs[|cs| - 1] == LineMark(mark); }
      QuietMark(cs[|cs| - 1]);
      LineBlockSettled(text, x, last.indent, mark);
      NoneSettles(text, ss);
    }
  }

  lemma SettlingParts(cs: seq<Chunk>)
    requires Settling(cs)
    ensures cs != [] && (cs[|cs| - 1].LineMark? ==> ')' !in cs[|cs| - 1].text)
  {
  }

  lemma QuietMark(c: Chunk)
    requires Proper(c) && c.LineMark?
    ensures Quiet(c.text)
  {
  }

  /** A text with blockers that the first copy treats as code with markers above. */
  ghost predicate Copyable(s: string, bs: seq<Blocker>, css: seq<seq<Chunk>>) {
    && bs != [] && Ascending(bs) && Within(bs, 0, |s|) && Within(bs, 0, |s| + 1)
    && Annotatable(s, 0, true, Groups(s, 0, bs), css)
  }

  ghost function Copy(s: string, bs: seq<Blocker>): string
    requires Ascending(bs)
  {
    Splice(s, Plan(s, 0, |s|, bs), 0)
  }

  ghost function Blocks(s: string, bs: seq<Blocker>, css: seq<seq<Chunk>>): (r: seq<Stretch>)
    requires Copyable(s, bs, css)
    ensures |r| == |Groups(s, 0, bs)|
  {
    Stretches(s, 0, true, Groups(s, 0, bs), css)
  }

  /** The blockers of the second copy. */
  ghost function Anchored(s: string, bs: seq<Blocker>, css: seq<seq<Chunk>>): seq<Blocker>
    requires Copyable(s, bs, css)
  {
    Moved(s, bs, NewLines(Blocks(s, bs, css)))
  }

  /** Every block settles. */
  ghost predicate AllSettle(s: string, gs: seq<Group>, css: seq<seq<Chunk>>)
    requires |gs| == |css| && forall k :: 0 <= k < |gs| ==> OnLine(s, gs[k])
  {
    forall k :: 0 <= k < |gs| ==> Settles(s, gs[k], css[k])
  }

  /** Every block above annotations is one comment, and not indented. */
  ghost predicate CommentsUnindented(s: string, gs: seq<Group>, css: seq<seq<Chunk>>)
    requires |gs| == |css| && forall k :: 0 <= k < |gs| ==> OnLine(s, gs[k])
  {
    forall k :: 0 <= k < |gs| && CommentFor(s, gs[k]).Some? ==> Unindented(gs[k], css[k])
  }

  /** Main result. Copy a text with its blockers, then copy what was written with every anchor
      moved along with its line. The first copy is code with the new blocks between. The second
      finds the same groups at their new lines, and plans nothing exactly if for each block no
      other generated comment is found before annotations. So it changes nothing when every
      block directly above its line ends in a comment, or in a marker line without a closing
      parenthesis, and every block above annotations is one comment and not indented; and it
      writes again as soon as one above annotations is not. */
  lemma CopyKeptTwice(s: string, bs: seq<Blocker>, css: seq<seq<Chunk>>)
    requires Copyable(s, bs, css)
    ensures Annotated(Blocks(s, bs, css)) <= Copy(s, bs)
    ensures var out, moved := Copy(s, bs), Anchored(s, bs, css);
      && Ascending(moved) && Within(moved, 0, |out|) && Within(moved, 0, |out| + 1)
      && Groups(out, 0, moved) == GroupsFrom(Blocks(s, bs, css), 0)
    ensures var out, groups := Copy(s, bs), GroupsFrom(Blocks(s, bs, css), 0);
      && (forall g :: g in groups ==> Reachable(out, 0, 0, g))
      && (Plan(out, 0, |out|, Anchored(s, bs, css)) == [] <==> forall g :: g in groups ==> CommentSettled(out, g))
    ensures var gs := Groups(s, 0, bs);
      && |gs| == |css| && (forall k :: 0 <= k < |gs| ==> OnLine(s, gs[k]))
      && (AllSettle(s, gs, css) ==> Copy(Copy(s, bs), Anchored(s, bs, css)) == Copy(s, bs))
      && (!CommentsUnindented(s, gs, css) ==> Plan(Copy(s, bs), 0, |Copy(s, bs)|, Anchored(s, bs, css)) != [])
  {
    hide *;
    CopyableParts(s, bs, css);
    var gs := Groups(s, 0, bs);
    AnnotatingTwice(s, gs, css);
    PlanIsSteps(s, bs);
    var ss := Blocks(s, bs, css);
    var out, moved := Copy(s, bs), Anchored(s, bs, css);
    CopyIs(s, bs, css);
    LinesCarried(s, gs, css);
    MovedGroups(s, out, bs, NewLines(ss), 0);
    GroupsRelined(s, gs, css);
    PlanIsSteps(out, moved);
    SizesAgree(s, gs, css);
    forall k | 0 <= k < |gs| ensures OnLine(s, gs[k]) { GroupInText(s, 0, true, gs, css, k); }
    forall k | 0 <= k < |gs|
      ensures k < |GroupsFrom(ss, 0)| && Reachable(out, 0, 0, GroupsFrom(ss, 0)[k])
      ensures CommentFor(s, gs[k]).None? && Settles(s, gs[k], css[k]) ==> CommentSettled(out, GroupsFrom(ss, 0)[k])
      ensures CommentFor(s, gs[k]).Some? ==> (CommentSettled(out, GroupsFrom(ss, 0)[k]) <==> Unindented(gs[k], css[k]))
    {
      GroupSettles(s, gs, css, out, k);
    }
    GroupsFromAt(ss, 0, 0);
    SettlesSplit(s, gs, css);
    if AllSettle(s, gs, css) {
      forall g | g in GroupsFrom(ss, 0) ensures CommentSettled(out, g) {
        var k :| 0 <= k < |GroupsFrom(ss, 0)| && GroupsFrom(ss, 0)[k] == g;
        assert k < |gs|;
      }
      NothingPlanned(out, moved);
    }
    if !CommentsUnindented(s, gs, css) {
      var k := SomeIndented(s, gs, css);
      assert GroupsFrom(ss, 0)[k] in GroupsFrom(ss, 0);
    }
  }

  lemma SettlesSplit(s: string, gs: seq<Group>, css: seq<seq<Chunk>>)
    requires |gs| == |css| && forall k :: 0 <= k < |gs| ==> OnLine(s, gs[k])
    ensures AllSettle(s, gs, css) ==> forall k :: 0 <= k < |gs| ==> Settles(s, gs[k], css[k])
    ensures forall k :: 0 <= k < |gs| && Settles(s, gs[k], css[k]) && CommentFor(s, gs[k]).Some? ==> Unindented(gs[k], css[k])
  {
    hide CommentFor, Settling, Unindented;
  }

  lemma SomeIndented(s: string, gs: seq<Group>, css: seq<seq<Chunk>>) returns (k: nat)
    requires |gs| == |css| && forall k :: 0 <= k < |gs| ==> OnLine(s, gs[k])
    requires !CommentsUnindented(s, gs, css)
    ensures k < |gs| && CommentFor(s, gs[k]).Some? && !Unindented(gs[k], css[k])
  {
    hide CommentFor, Unindented;
    k :| 0 <= k < |gs| && CommentFor(s, gs[k]).Some? && !Unindented(gs[k], css[k]);
  }

  lemma CopyableParts(s: string, bs: seq<Blocker>, css: seq<seq<Chunk>>)
    requires Copyable(s, bs, css)
    ensures bs != [] && Ascending(bs) && Within(bs, 0, |s|) && Within(bs, 0, |s| + 1)
    ensures Groups(s, 0, bs) != [] && Annotatable(s, 0, true, Groups(s, 0, bs), css)
  {
    hide Annotatable, Ascending, Within;
    GroupsUnfold(s, 0, bs);
  }

  lemma CopyIs(s: string, bs: seq<Blocker>, css: seq<seq<Chunk>>)
    requires Copyable(s, bs, css)
    requires Forward(s, 0, 0, Groups(s, 0, bs)) && Plan(s, 0, |s|, bs) == Steps(s, 0, 0, Groups(s, 0, bs))
    requires Orderly(Steps(s, 0, 0, Groups(s, 0, bs)), 0, |s|) && LastLine(0, Groups(s, 0, bs)) < |s|
    requires Splice(s, Steps(s, 0, 0, Groups(s, 0, bs)), 0)
          == Annotated(Stretches(s, 0, true, Groups(s, 0, bs), css)) + s[LastLine(0, Groups(s, 0, bs))..]
    ensures Blocks(s, bs, css) == Stretches(s, 0, true, Groups(s, 0, bs), css)
    ensures Copy(s, bs) == Annotated(Blocks(s, bs, css)) + s[LastLine(0, Groups(s, 0, bs))..]
    ensures Annotated(Blocks(s, bs, css)) <= Copy(s, bs)
    ensures |NewLines(Blocks(s, bs, css))| == |Groups(s, 0, bs)| && Anchored(s, bs, css) == Moved(s, bs, NewLines(Blocks(s, bs, css)))
    ensures forall k :: 0 <= k < |NewLines(Blocks(s, bs, css))| ==> NewLines(Blocks(s, bs, css))[k] >= 0
  {
    hide Groups, Plan, Steps, Annotated, Stretches, LastLine, Splice, Moved, Forward, Orderly, Annotatable;
  }

  lemma NothingPlanned(out: string, bs: seq<Blocker>)
    requires Ascending(bs) && Plan(out, 0, |out|, bs) == []
    ensures Copy(out, bs) == out
  {
  }

  lemma PlanIsSteps(s: string, bs: seq<Blocker>)
    requires Ascending(bs) && Within(bs, 0, |s|) && Within(bs, 0, |s| + 1)
    ensures Forward(s, 0, 0, Groups(s, 0, bs)) && Plan(s, 0, |s|, bs) == Steps(s, 0, 0, Groups(s, 0, bs))
  {
    hide Steps, Groups;
    AllInStretch(bs, |s|);
    GroupsForward(s, 0, |s|, 0, bs);
  }

  lemma {:induction false} AllInStretch(bs: seq<Blocker>, to: nat)
    requires Within(bs, 0, to)
    ensures InStretch(bs, 0, to) == bs
  {
    if bs != [] {
      assert bs[0] in bs && forall b :: b in bs[1..] ==> b in bs;
      AllInStretch(bs[1..], to);
    }
  }

  lemma GroupSettles(s: string, gs: seq<Group>, css: seq<seq<Chunk>>, out: string, k: nat)
    requires gs != [] && Annotatable(s, 0, true, gs, css) && LastLine(0, gs) < |s|
    requires out == Annotated(Stretches(s, 0, true, gs, css)) + s[LastLine(0, gs)..]
    requires |css| == |gs| && k < |gs| && OnLine(s, gs[k])
    ensures var groups := GroupsFrom(Stretches(s, 0, true, gs, css), 0);
      && k < |groups| && Reachable(out, 0, 0, groups[k])
      && (CommentFor(s, gs[k]).None? && Settles(s, gs[k], css[k]) ==> CommentSettled(out, groups[k]))
      && (CommentFor(s, gs[k]).Some? ==> (CommentSettled(out, groups[k]) <==> Unindented(gs[k], css[k])))
  {
    hide *;
    var ss := Stretches(s, 0, true, gs, css);
    StretchesSound(s, 0, true, gs, css);
    assert |ss| == |gs| by { SizesAgree(s, gs, css); }
    GroupsFromAt(ss, 0, k);
    PrefixSound(ss, k + 1);
    TextPrefix(ss, k + 1);
    StretchIs(s, 0, true, gs, css, k);
    var prefix := ss[..k + 1];
    assert prefix[k] == ss[k];
    BlockSettled(out, prefix);
    SettlesIs(s, gs[k], css[k]);
    if CommentFor(s, gs[k]).None? && Settles(s, gs[k], css[k]) {
      BlockSettles(out, prefix);
    }
  }

  lemma SettlesIs(s: string, g: Group, cs: seq<Chunk>)
    requires OnLine(s, g)
    ensures CommentFor(s, g).None? ==> (Settles(s, g, cs) <==> Settling(cs))
    ensures Unindented(g, cs) <==> g.indent == "" && |cs| == 1
  {
    hide CommentFor, Settling;
  }

  lemma SizesAgree(s: string, gs: seq<Group>, css: seq<seq<Chunk>>)
    requires Annotatable(s, 0, true, gs, css)
    ensures |css| == |gs| == |Stretches(s, 0, true, gs, css)|
  {
  }

  lemma {:induction false} StretchIs(s: string, prev: nat, first: bool, gs: seq<Group>, css: seq<seq<Chunk>>, k: nat)
    requires Annotatable(s, prev, first, gs, css) && k < |gs| == |css| && OnLine(s, gs[k])
    ensures var st := Stretches(s, prev, first, gs, css)[k];
      && st.chunks == css[k] && st.indent == gs[k].indent && (st.below == "" <==> CommentFor(s, gs[k]).None?)
    decreases |gs|
  {
    hide *;
    StretchesUnfold(s, prev, first, gs, css);
    if k > 0 {
      StretchIs(s, gs[0].line, false, gs[1..], css[1..], k - 1);
    } else {
      StretchSound(s, prev, first, gs[0], css[0]);
      StretchParts(s, prev, gs[0], css[0]);
    }
  }

  lemma StretchParts(s: string, prev: nat, g: Group, cs: seq<Chunk>)
    requires OnLine(s, g) && prev <= CodeEnd(s, g)
    ensures StretchOf(s, prev, g, cs).chunks == cs && StretchOf(s, prev, g, cs).indent == g.indent
  {
    hide CommentFor, MarkersAbove, LineStart;
  }
}
