/** Tidying the residue and deciding what becomes of the file. */
module Tidy {
  import opened TextSearch
  import opened Edits
  import opened Markers
  import opened Strip
  import opened StripMeaning

  predicate IsBlankLine(line: string) {
    Trim(line) == []
  }

  lemma EmptyIsBlank()
    ensures IsBlankLine("")
  {
  }

  function Unlines(lines: seq<string>): string {
    if lines == [] then [] else Unlines(lines[..|lines| - 1]) + (lines[|lines| - 1] + "\n")
  }

  /** Blank lines become empty, and one of a run is kept. */
  function Collapse(lines: seq<string>): seq<string> {
    if lines == [] then []
    else
      var rest, last := Collapse(lines[..|lines| - 1]), lines[|lines| - 1];
      if !IsBlankLine(last) then rest + [last]
      else if |lines| > 1 && IsBlankLine(lines[|lines| - 2]) then rest
      else rest + [""]
  }

  function DropFront(lines: seq<string>): seq<string> {
    if lines != [] && lines[0] == "" then DropFront(lines[1..]) else lines
  }

  function DropBack(lines: seq<string>): seq<string> {
    if lines != [] && lines[|lines| - 1] == "" then DropBack(lines[..|lines| - 1]) else lines
  }

  function TidyLines(lines: seq<string>): seq<string> {
    DropBack(DropFront(Collapse(lines)))
  }

  function TrimBreaksFront(s: string): string {
    if s != [] && s[0] == '\n' then TrimBreaksFront(s[1..]) else s
  }

  function TrimBreaksBack(s: string): string {
    if s != [] && s[|s| - 1] == '\n' then TrimBreaksBack(s[..|s| - 1]) else s
  }

  /** Lines without a break in them, blank ones empty. */
  ghost predicate CleanLines(lines: seq<string>) {
    forall i :: 0 <= i < |lines| ==> '\n' !in lines[i] && (IsBlankLine(lines[i]) <==> lines[i] == "")
  }

  method TidyText(source: string) returns (out: string)
    ensures out == Unlines(TidyLines(Lines(source)))
  {
    hide IsBlankLine, Lines, TrimBreaksBack, TrimBreaksFront, DropFront, DropBack, CleanLines;
    var lines := Lines(source);
    out := "";
    NothingWritten();
    var blankRun: nat := 0;
    for i := 0 to |lines|
      invariant out == Unlines(Collapse(lines[..i]))
      invariant blankRun > 0 <==> i > 0 && IsBlankLine(lines[i - 1])
    {
      hide Collapse, Unlines;
      OneMoreLine(lines, i);
      if IsBlankLine(lines[i]) {
        blankRun := blankRun + 1;
        if blankRun <= 1 {
          out := out + "\n";
        }
      } else {
        blankRun := 0;
        out := out + (lines[i] + "\n");
      }
    }
    assert lines[..|lines|] == lines;
    LinesHaveNoBreak(source);
    CollapseClean(lines);
    var trimmed := TrimBreaksBack(TrimBreaksFront(out));
    TrimFront(Collapse(lines));
    FrontClean(Collapse(lines));
    TrimBack(DropFront(Collapse(lines)));
    out := trimmed + if trimmed == [] then "" else "\n";
  }

  lemma NothingWritten()
    ensures Unlines(Collapse([])) == ""
  {
  }

  lemma OneMoreLine(lines: seq<string>, i: nat)
    requires i < |lines|
    ensures Unlines(Collapse(lines[..i + 1])) ==
      if !IsBlankLine(lines[i]) then Unlines(Collapse(lines[..i])) + (lines[i] + "\n")
      else if i > 0 && IsBlankLine(lines[i - 1]) then Unlines(Collapse(lines[..i]))
      else Unlines(Collapse(lines[..i])) + "\n"
  {
    hide IsBlankLine;
    var kept := Collapse(lines[..i]);
    assert lines[..i + 1][..i] == lines[..i];
    assert (kept + [lines[i]])[..|kept|] == kept && (kept + [""])[..|kept|] == kept;
    assert "" + "\n" == "\n";
  }

  lemma {:induction false} LinesHaveNoBreak(s: string)
    ensures forall line :: line in Lines(s) ==> '\n' !in line
    decreases |s|
  {
    if s != [] && LineEnd(s) < |s| {
      LinesHaveNoBreak(s[LineEnd(s) + 1..]);
    }
  }

  lemma {:induction false} CollapseClean(lines: seq<string>)
    requires forall line :: line in lines ==> '\n' !in line
    ensures CleanLines(Collapse(lines))
  {
    if lines != [] {
      CollapseClean(lines[..|lines| - 1]);
      assert lines[|lines| - 1] in lines;
    }
  }

  lemma {:induction false} FrontClean(lines: seq<string>)
    requires CleanLines(lines)
    ensures CleanLines(DropFront(lines))
    decreases lines
  {
    if lines != [] && lines[0] == "" {
      FrontClean(lines[1..]);
    }
  }

  lemma {:induction false} UnlinesFront(lines: seq<string>)
    requires lines != []
    ensures Unlines(lines) == lines[0] + "\n" + Unlines(lines[1..])
  {
    if |lines| > 1 {
      var init := lines[..|lines| - 1];
      UnlinesFront(init);
      assert lines[1..][..|lines| - 2] == init[1..];
    } else {
      assert lines[..0] == [] && lines[1..] == [];
    }
  }

  lemma {:induction false} TrimFront(lines: seq<string>)
    requires CleanLines(lines)
    ensures TrimBreaksFront(Unlines(lines)) == Unlines(DropFront(lines))
    decreases lines
  {
    if lines != [] {
      UnlinesFront(lines);
      if lines[0] == "" {
        assert Unlines(lines)[1..] == Unlines(lines[1..]);
        TrimFront(lines[1..]);
      } else {
        assert Unlines(lines)[0] == lines[0][0] && lines[0][0] in lines[0];
      }
    }
  }

  lemma {:induction false} TrimBack(lines: seq<string>)
    requires CleanLines(lines)
    ensures var t := TrimBreaksBack(Unlines(lines)); t + (if t == [] then "" else "\n") == Unlines(DropBack(lines))
    decreases lines
  {
    if lines != [] {
      var init, last := lines[..|lines| - 1], lines[|lines| - 1];
      var s := Unlines(lines);
      assert s[|s| - 1] == '\n' && s[..|s| - 1] == Unlines(init) + last;
      if last == "" {
        assert s[..|s| - 1] == Unlines(init);
        TrimBack(init);
      } else {
        assert (Unlines(init) + last)[|Unlines(init) + last| - 1] == last[|last| - 1] && last[|last| - 1] in last;
        assert TrimBreaksBack(s) == Unlines(init) + last;
      }
    }
  }

  // ----- what tidying keeps -----

  /** The lines with something on them, each with whether a blank line sets it apart from the
      one before. */
  function Solid(lines: seq<string>): seq<(string, bool)> {
    if lines == [] then []
    else
      var init, last := lines[..|lines| - 1], lines[|lines| - 1];
      Solid(init) + if IsBlankLine(last) then [] else [(last, Solid(init) != [] && IsBlankLine(init[|init| - 1]))]
  }

  /** Blank lines are empty, and none follows another. */
  ghost predicate Spaced(lines: seq<string>) {
    && (forall i :: 0 <= i < |lines| ==> (IsBlankLine(lines[i]) <==> lines[i] == ""))
    && (forall i :: 0 <= i < |lines| - 1 && lines[i] == "" ==> lines[i + 1] != "")
  }

  /** No two blank lines in a row, and none at either end. */
  ghost predicate Tidied(lines: seq<string>) {
    Spaced(lines) && (lines != [] ==> lines[0] != "" && lines[|lines| - 1] != "")
  }

  lemma {:induction false} CollapseKeeps(lines: seq<string>)
    ensures Solid(Collapse(lines)) == Solid(lines) && Spaced(Collapse(lines)) && SameEnd(lines, Collapse(lines))
  {
    hide *;
    if lines == [] {
      NothingCollapsed();
    } else {
      var init, last := lines[..|lines| - 1], lines[|lines| - 1];
      CollapseKeeps(init);
      OneMoreKept(init, last, Collapse(init));
      assert init + [last] == lines;
      CollapseUnfold(init, last);
    }
  }

  lemma NothingCollapsed()
    ensures Collapse([]) == [] && Spaced([]) && SameEnd([], [])
  {
  }

  /** Both end in a blank line, or neither does. */
  ghost predicate SameEnd(lines: seq<string>, kept: seq<string>) {
    if lines == [] then kept == [] else kept != [] && (kept[|kept| - 1] == "" <==> IsBlankLine(lines[|lines| - 1]))
  }

  /** The list after one more line. */
  function OneMore(init: seq<string>, last: string, rest: seq<string>): seq<string> {
    if !IsBlankLine(last) then rest + [last]
    else if init != [] && IsBlankLine(init[|init| - 1]) then rest
    else rest + [""]
  }

  lemma CollapseUnfold(init: seq<string>, last: string)
    ensures Collapse(init + [last]) == OneMore(init, last, Collapse(init))
  {
    hide IsBlankLine;
    assert (init + [last])[..|init|] == init;
  }

  lemma OneMoreKept(init: seq<string>, last: string, rest: seq<string>)
    requires Solid(rest) == Solid(init) && Spaced(rest) && SameEnd(init, rest)
    ensures Solid(OneMore(init, last, rest)) == Solid(init + [last])
    ensures Spaced(OneMore(init, last, rest)) && SameEnd(init + [last], OneMore(init, last, rest))
  {
    hide IsBlankLine, Solid;
    EmptyIsBlank();
    SolidAppends(init, last);
    SolidAppends(rest, last);
    SolidAppends(rest, "");
  }

  lemma SolidAppends(lines: seq<string>, line: string)
    ensures Solid(lines) != [] ==> lines != []
    ensures Solid(lines + [line])
         == Solid(lines) + if IsBlankLine(line) then [] else [(line, Solid(lines) != [] && IsBlankLine(lines[|lines| - 1]))]
  {
    hide IsBlankLine;
    assert (lines + [line])[..|lines|] == lines;
  }

  /** A blank line in front sets nothing apart. */
  lemma {:induction false} SolidFront(lines: seq<string>)
    requires lines != [] && IsBlankLine(lines[0])
    ensures Solid(lines) == Solid(lines[1..])
  {
    hide IsBlankLine, Solid;
    if |lines| > 1 {
      var init, last := lines[..|lines| - 1], lines[|lines| - 1];
      SolidFront(init);
      SolidAppends(init, last);
      SolidAppends(init[1..], last);
      assert lines == init + [last] && lines[1..] == init[1..] + [last];
    } else {
      SolidAppends([], lines[0]);
      assert lines == [] + [lines[0]] && lines[1..] == [];
    }
  }

  lemma {:induction false} FrontKeeps(lines: seq<string>)
    requires Spaced(lines)
    ensures Solid(DropFront(lines)) == Solid(lines) && Spaced(DropFront(lines))
    ensures DropFront(lines) != [] ==> DropFront(lines)[0] != ""
    decreases lines
  {
    hide IsBlankLine, Solid;
    EmptyIsBlank();
    if lines != [] && lines[0] == "" {
      SolidFront(lines);
      FrontKeeps(lines[1..]);
    }
  }

  lemma {:induction false} BackKeeps(lines: seq<string>)
    requires Spaced(lines) && (lines != [] ==> lines[0] != "")
    ensures Solid(DropBack(lines)) == Solid(lines) && Tidied(DropBack(lines))
    decreases lines
  {
    hide IsBlankLine;
    EmptyIsBlank();
    if lines != [] && lines[|lines| - 1] == "" {
      BackKeeps(lines[..|lines| - 1]);
    }
  }

  /** Main result: tidying keeps every line with something on it, in order, and whether it is set
      apart, leaves no blank line at either end or behind another, and changes nothing more when
      done again. */
  lemma TidyKeeps(lines: seq<string>)
    ensures Solid(TidyLines(lines)) == Solid(lines) && Tidied(TidyLines(lines))
    ensures TidyLines(TidyLines(lines)) == TidyLines(lines)
  {
    hide IsBlankLine, Solid, Collapse, DropFront, DropBack, Spaced;
    CollapseKeeps(lines);
    FrontKeeps(Collapse(lines));
    BackKeeps(DropFront(Collapse(lines)));
    TidyAgain(TidyLines(lines));
  }

  /** What is tidy stays as it is. */
  lemma {:induction false} TidyAgain(lines: seq<string>)
    requires Tidied(lines)
    ensures TidyLines(lines) == lines
  {
    hide IsBlankLine;
    CollapseTidy(lines);
  }

  lemma {:induction false} CollapseTidy(lines: seq<string>)
    requires Spaced(lines)
    ensures Collapse(lines) == lines
  {
    hide IsBlankLine;
    if lines != [] {
      CollapseTidy(lines[..|lines| - 1]);
      assert lines == lines[..|lines| - 1] + [lines[|lines| - 1]];
    }
  }

  // ----- the file's fate -----

  datatype Fate = Untouched | Delete | Rewrite(text: string)

  /** Nothing on the line but a line comment, if that. */
  predicate IsIdle(line: string) {
    IsBlankLine(line) || StartsWith(TrimStart(line), "//")
  }

  /** The first letter on the line that is no blank. */
  predicate FirstSolid(line: string, i: nat) {
    i < |line| && !IsSpace(line[i]) && forall j :: 0 <= j < i ==> IsSpace(line[j])
  }

  lemma IdleIs(line: string)
    ensures IsIdle(line) <==> forall i :: FirstSolid(line, i) ==> At(line, i, "//")
  {
    var n := Leading(line);
    TrimStartIs(line);
    if n < |line| {
      TrimEndLeaves(line[n..]);
      assert FirstSolid(line, n);
      AtLetters(line, n, "//");
      AtLetters(line[n..], 0, "//");
    }
  }

  lemma {:induction false} TrimEndLeaves(s: string)
    requires s != [] && !IsSpace(s[0])
    ensures TrimEnd(s) != []
  {
    if |s| > 1 && IsSpace(s[|s| - 1]) { TrimEndLeaves(s[..|s| - 1]); }
  }

  /** The number of blanks a line starts with. */
  function Leading(line: string): (n: nat)
    ensures n <= |line| && (forall j :: 0 <= j < n ==> IsSpace(line[j])) && (n < |line| ==> !IsSpace(line[n]))
  {
    if line != [] && IsSpace(line[0]) then Leading(line[1..]) + 1 else 0
  }

  lemma {:induction false} TrimStartIs(line: string)
    ensures TrimStart(line) == line[Leading(line)..]
  {
    if line != [] && IsSpace(line[0]) {
      TrimStartIs(line[1..]);
      assert line[1..][Leading(line[1..])..] == line[Leading(line)..];
    }
  }

  method AllIdle(lines: seq<string>) returns (idle: bool)
    ensures idle <==> forall line :: line in lines ==> IsIdle(line)
  {
    hide IsIdle;
    for i := 0 to |lines|
      invariant forall j :: 0 <= j < i ==> IsIdle(lines[j])
    {
      if !IsIdle(lines[i]) {
        assert lines[i] in lines;
        return false;
      }
    }
    return true;
  }

  /** The residue as it would be written. */
  ghost predicate IsResidue(source: string, spans: seq<Edit>, blockers: seq<Blocker>, annotate: bool, merged: seq<Edit>, text: string) {
    && Deletions(merged, |source|) && Apart(merged)
    && (forall i: nat :: Covered(merged, i) <==> Gone(source, spans, i))
    && exists due :: IsDue(source, blockers, annotate, due) && Ascending(due) &&
         text == Unlines(TidyLines(Lines(Splice(source, Script(source, 0, merged, due), 0))))
  }

  /** Untouched when there is nothing to strip or say; deleted when everything translated, or
      nothing but idle lines would stay; else rewritten with the residue. */
  method ProposeMigration(source: string, spans: seq<Edit>, blockers: seq<Blocker>, fully: bool, annotate: bool)
    returns (fate: Fate, ghost merged: seq<Edit>, ghost residue: string)
    requires Deletions(spans, |source|)
    ensures IsResidue(source, spans, blockers, annotate, merged, residue)
    ensures fate.Untouched? <==> spans == [] && (blockers == [] || !annotate)
    ensures fate.Delete? <==>
      spans != [] && (fully || forall line, i :: line in Lines(residue) && FirstSolid(line, i) ==> At(line, i, "//"))
    ensures fate.Rewrite? ==> fate.text == residue
  {
    hide IsIdle, Lines, Unlines, TidyLines, Splice, Script, Gone, Apart, Deletions, IsDue, Ascending, Covered;
    var stripped, spansMerged := StripTranslated(source, spans, blockers, annotate);
    var text := TidyText(stripped);
    merged, residue := spansMerged, text;
    if spans == [] && (blockers == [] || !annotate) {
      return Untouched, merged, residue;
    }
    if spans != [] && fully {
      return Delete, merged, residue;
    }
    if spans == [] {
      return Rewrite(text), merged, residue;
    }
    var idle := AllIdle(Lines(text));
    forall line ensures IsIdle(line) <==> forall i :: FirstSolid(line, i) ==> At(line, i, "//") { IdleIs(line); }
    fate := if idle then Delete else Rewrite(text);
  }

  /** Without annotations the residue is the tidied text outside the translated spans. */
  lemma PlainResidue(source: string, spans: seq<Edit>, blockers: seq<Blocker>, merged: seq<Edit>, text: string)
    requires IsResidue(source, spans, blockers, false, merged, text)
    ensures text == Unlines(TidyLines(Lines(KeptBytes(source, spans, 0))))
  {
    hide Lines, Unlines, TidyLines, Splice, Script, Gone, KeptBytes, Covered;
    var due :| IsDue(source, blockers, false, due) && Ascending(due) &&
      text == Unlines(TidyLines(Lines(Splice(source, Script(source, 0, merged, due), 0))));
    NoneDue(source, blockers, due);
    StripKeepsTheRest(source, spans, merged);
  }
}
