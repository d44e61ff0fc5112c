/** Tracking translated spans through the getter-namespace edits of the same file. */
module SpanShift {
  import opened Edits
  import opened EditEngines

  datatype Span = Span(start: nat, end: nat)

  datatype Result<+T> = Ok(value: T) | Err(message: string)

  // ----- the planner's own check -----

  /** Neighbours in the sorted list neither overlap nor share a start. */
  predicate ChecksOut(edits: seq<Edit>) {
    forall i :: 0 <= i < |edits| - 1 ==> edits[i].end <= edits[i + 1].start && edits[i].start != edits[i + 1].start
  }

  predicate InRange(edits: seq<Edit>, length: nat) {
    forall i :: 0 <= i < |edits| ==> edits[i].start <= edits[i].end <= length
  }

  /** Each in range and once, and no two of them overlap or share a start. */
  ghost predicate Separated(edits: seq<Edit>, length: nat) {
    && (forall e :: e in edits ==> e.start <= e.end <= length && multiset(edits)[e] == 1)
    && forall a, b :: a in edits && b in edits && a != b ==> a.start != b.start && (a.end <= b.start || b.end <= a.start)
  }

  /** The check of neighbours finds every clash. */
  lemma CheckedIsSeparated(edits: seq<Edit>, length: nat)
    ensures ChecksOut(Sort(edits)) && InRange(Sort(edits), length) <==> Separated(edits, length)
  {
    hide Sort;
    var s := Sort(edits);
    SortSorts(edits);
    forall e ensures e in s <==> e in edits { assert e in s <==> e in multiset(s); assert e in edits <==> e in multiset(edits); }
    if ChecksOut(s) && InRange(s, length) {
      forall i, j | 0 <= i < j < |s| ensures s[i].end <= s[j].start && s[i].start < s[j].start { FarApart(s, length, i, j); }
      SeparatedSorted(edits, s, length);
    }
    if Separated(edits, length) {
      NeighboursApart(edits, s, length);
    }
  }

  lemma {:induction false} FarApart(s: seq<Edit>, length: nat, i: nat, j: nat)
    requires ChecksOut(s) && InRange(s, length) && i < j < |s|
    ensures s[i].end <= s[j].start && s[i].start < s[j].start
    decreases j - i
  {
    assert s[i].end <= s[i + 1].start && s[i].start != s[i + 1].start;
    if i + 1 < j { FarApart(s, length, i + 1, j); }
  }

  lemma SeparatedSorted(edits: seq<Edit>, s: seq<Edit>, length: nat)
    requires multiset(s) == multiset(edits) && InRange(s, length) && forall e :: e in s <==> e in edits
    requires forall i, j :: 0 <= i < j < |s| ==> s[i].end <= s[j].start && s[i].start < s[j].start
    ensures Separated(edits, length)
  {
    forall e | e in edits ensures multiset(edits)[e] == 1 { Once(s, e); }
    forall a, b | a in edits && b in edits && a != b ensures a.start != b.start && (a.end <= b.start || b.end <= a.start) {
      var i :| 0 <= i < |s| && s[i] == a;
      var j :| 0 <= j < |s| && s[j] == b;
    }
  }

  lemma {:induction false} Once(s: seq<Edit>, e: Edit)
    requires e in s && forall i, j :: 0 <= i < j < |s| ==> s[i].start < s[j].start
    ensures multiset(s)[e] == 1
  {
    var k :| 0 <= k < |s| && s[k] == e;
    assert s == s[..k] + [e] + s[k + 1..];
    assert e !in s[..k] && e !in s[k + 1..];
  }

  lemma Twice(s: seq<Edit>, i: nat)
    requires i + 1 < |s| && s[i] == s[i + 1]
    ensures multiset(s)[s[i]] > 1
  {
    assert s == s[..i] + [s[i], s[i]] + s[i + 2..];
  }

  lemma NeighboursApart(edits: seq<Edit>, s: seq<Edit>, length: nat)
    requires Separated(edits, length) && Sorted(s) && multiset(s) == multiset(edits) && forall e :: e in s <==> e in edits
    ensures ChecksOut(s) && InRange(s, length)
  {
    forall i | 0 <= i < |s| ensures s[i].start <= s[i].end <= length { assert s[i] in edits; }
    forall i | 0 <= i < |s| - 1 ensures s[i].end <= s[i + 1].start && s[i].start != s[i + 1].start {
      assert s[i] in edits && s[i + 1] in edits && Before(s[i], s[i + 1]);
      if s[i] == s[i + 1] { Twice(s, i); }
    }
  }

  /** What passes the check is applied in full. */
  lemma {:induction false} CheckedIsOrderly(edits: seq<Edit>, from: nat, length: nat)
    requires ChecksOut(edits) && InRange(edits, length) && from <= length
    requires edits != [] ==> from <= edits[0].start
    ensures Orderly(edits, from, length)
    ensures Chosen(Sort(edits), from, length) == edits
  {
    if edits != [] {
      assert ChecksOut(edits[1..]) by {
        forall i | 0 <= i < |edits[1..]| - 1
          ensures edits[1..][i].end <= edits[1..][i + 1].start && edits[1..][i].start != edits[1..][i + 1].start
        {
          assert edits[1..][i] == edits[i + 1] && edits[1..][i + 1] == edits[i + 2];
        }
      }
      CheckedIsOrderly(edits[1..], edits[0].end, length);
    }
    OrderlySorted(edits, from, length);
    SortKeeps(edits);
    OrderlyAllChosen(edits, from, length);
  }

  // ----- the shift -----

  /** How far the edits that end at or before `position` move it. */
  function Delta(edits: seq<Edit>, position: nat): int {
    if edits == [] then 0
    else (if edits[0].end <= position then |edits[0].text| - (edits[0].end - edits[0].start) else 0)
         + Delta(edits[1..], position)
  }

  function Shift(edits: seq<Edit>, position: nat): int {
    position + Delta(edits, position)
  }

  /** The overlap test of the proposal. */
  predicate Touches(edit: Edit, span: Span) {
    || (edit.start < span.end && edit.end > span.start)
    || (edit.start == edit.end && span.start < edit.start < span.end)
  }

  predicate Clear(edits: seq<Edit>, span: Span) {
    forall i :: 0 <= i < |edits| ==> !Touches(edits[i], span)
  }

  /** Clear of every edit: each ends before the span or starts behind it. */
  lemma ClearIs(edits: seq<Edit>, span: Span, length: nat)
    requires InRange(edits, length) && span.start < span.end
    ensures Clear(edits, span) <==> forall k :: 0 <= k < |edits| ==> edits[k].end <= span.start || span.end <= edits[k].start
  {
    forall k | 0 <= k < |edits| ensures !Touches(edits[k], span) <==> edits[k].end <= span.start || span.end <= edits[k].start {}
  }

  /** No edit replaces text on both sides of `position`. */
  predicate Boundary(edits: seq<Edit>, position: nat) {
    forall i :: 0 <= i < |edits| ==> !(edits[i].start < position < edits[i].end)
  }

  function Later(edits: seq<Edit>, position: nat): seq<Edit> {
    if edits == [] then []
    else if edits[0].end <= position then Later(edits[1..], position)
    else edits
  }

  /** The text inserted exactly at `position` by edits that replace nothing. */
  function InsertedAt(edits: seq<Edit>, position: nat): Text {
    if edits == [] then []
    else (if edits[0].Inserts() && edits[0].start == position then edits[0].text else []) + InsertedAt(edits[1..], position)
  }

  /** The edited text falls apart at a boundary: what lies before it has the shifted length. */
  lemma {:induction false} SpliceAt(source: Text, edits: seq<Edit>, from: nat, position: nat) returns (head: Text)
    requires from <= position <= |source| && Orderly(edits, from, |source|) && Boundary(edits, position)
    ensures |head| + from == Shift(edits, position)
    ensures Orderly(Later(edits, position), position, |source|)
    ensures Splice(source, edits, from) == head + Splice(source, Later(edits, position), position)
    decreases |edits|
  {
    if edits == [] {
      head := source[from..position];
      assert source[from..] == source[from..position] + source[position..];
    } else if edits[0].end <= position {
      var e := edits[0];
      assert Boundary(edits[1..], position);
      var tail := SpliceAt(source, edits[1..], e.end, position);
      head := source[from..e.start] + e.text + tail;
      assert Splice(source, edits, from) == source[from..e.start] + e.text + (tail + Splice(source, Later(edits[1..], position), position));
    } else {
      head := source[from..position];
      NoDelta(edits, position, from, |source|);
      assert source[from..edits[0].start] == source[from..position] + source[position..edits[0].start];
    }
  }

  lemma NoDelta(edits: seq<Edit>, position: nat, from: nat, to: nat)
    requires Orderly(edits, from, to)
    requires edits != [] ==> position < edits[0].end
    ensures Delta(edits, position) == 0
  {
    if edits != [] {
      OrderlyBounds(edits[1..], edits[0].end, to);
      if edits[1..] != [] { NoDelta(edits[1..], position, edits[0].end, to); }
    }
  }

  /** Between the ends of a clear span only insertions at its very end happen. */
  lemma {:induction false} DeltaAcross(edits: seq<Edit>, span: Span, from: nat, to: nat)
    requires Orderly(edits, from, to) && span.start < span.end && Clear(edits, span)
    ensures Delta(edits, span.end) == Delta(edits, span.start) + |InsertedAt(edits, span.end)|
  {
    if edits != [] {
      assert Clear(edits[1..], span);
      assert !Touches(edits[0], span);
      DeltaAcross(edits[1..], span, edits[0].end, to);
    }
  }

  /** What follows the start of a clear span: its own bytes, then the insertions at its end. */
  lemma {:induction false} SpliceAcross(source: Text, edits: seq<Edit>, from: nat, span: Span)
    requires from <= span.start < span.end <= |source| && Orderly(edits, from, |source|) && Clear(edits, span)
    ensures Orderly(Later(edits, span.start), span.start, |source|)
    ensures source[span.start..span.end] + InsertedAt(edits, span.end) <= Splice(source, Later(edits, span.start), span.start)
    decreases |edits|
  {
    if edits != [] && edits[0].end <= span.start {
      assert Clear(edits[1..], span);
      SpliceAcross(source, edits[1..], edits[0].end, span);
    } else {
      if edits != [] {
        assert !Touches(edits[0], span) && edits[0].start >= span.end;
      }
      hide Splice;
      InsertionsLead(source, edits, from, span.end);
      SpliceSkips(source, edits, span.start, span.end);
    }
  }

  lemma {:induction false} InsertionsLead(source: Text, edits: seq<Edit>, from: nat, at: nat)
    requires Orderly(edits, from, |source|) && at <= |source|
    requires edits != [] ==> at <= edits[0].start
    ensures Orderly(edits, at, |source|)
    ensures InsertedAt(edits, at) <= Splice(source, edits, at)
    decreases |edits|
  {
    if edits != [] {
      var e := edits[0];
      OrderlyBounds(edits[1..], e.end, |source|);
      if e.Inserts() && e.start == at {
        InsertionsLead(source, edits[1..], at, at);
        assert Splice(source, edits, at) == e.text + Splice(source, edits[1..], at);
      } else {
        NothingInserted(edits, at);
      }
    }
  }

  lemma NothingInserted(edits: seq<Edit>, at: nat)
    requires forall i :: 0 <= i < |edits| ==> !(edits[i].Inserts() && edits[i].start == at)
    ensures InsertedAt(edits, at) == []
  {
  }

  /** Main result. In the edited text the shifted span holds the original bytes and, behind
      them, whatever was inserted exactly at its end; so it holds just the original bytes if
      and only if nothing was. The shift never leaves the text. */
  lemma ShiftTracksSpan(source: Text, edits: seq<Edit>, span: Span)
    requires Orderly(edits, 0, |source|)
    requires span.start < span.end <= |source| && Clear(edits, span)
    ensures 0 <= Shift(edits, span.start) <= Shift(edits, span.end) <= |Simultaneous(source, edits)|
    ensures Simultaneous(source, edits)[Shift(edits, span.start)..Shift(edits, span.end)]
         == source[span.start..span.end] + InsertedAt(edits, span.end)
    ensures Simultaneous(source, edits)[Shift(edits, span.start)..Shift(edits, span.end)] == source[span.start..span.end]
       <==> InsertedAt(edits, span.end) == []
  {
    hide Splice, Simultaneous, Orderly, Delta, InsertedAt, Later;
    forall i | 0 <= i < |edits| ensures !(edits[i].start < span.start < edits[i].end) {
      assert !Touches(edits[i], span);
    }
    var head := SpliceAt(source, edits, 0, span.start);
    DeltaAcross(edits, span, 0, |source|);
    SpliceAcross(source, edits, 0, span);
    SimultaneousIsSplice(source, edits);
    var kept := source[span.start..span.end] + InsertedAt(edits, span.end);
    var tail := Splice(source, Later(edits, span.start), span.start);
    assert Simultaneous(source, edits) == head + tail;
    assert tail[..|kept|] == kept;
    assert (head + tail)[|head|..|head| + |kept|] == kept;
  }

  /** The proposal's loop over the translated spans: an overlap is an error, every other span
      is shifted, and no shift falls below zero. */
  method AdjustSpans(source: Text, edits: seq<Edit>, spans: seq<Span>) returns (r: Result<seq<Span>>)
    requires ChecksOut(edits) && InRange(edits, |source|)
    requires forall i :: 0 <= i < |spans| ==> spans[i].start < spans[i].end <= |source|
    ensures r.Ok? <==> forall i, k :: 0 <= i < |spans| && 0 <= k < |edits| ==>
      edits[k].end <= spans[i].start || spans[i].end <= edits[k].start
    ensures r.Ok? ==> |r.value| == |spans|
    ensures r.Ok? ==> forall i :: 0 <= i < |spans| ==>
      && r.value[i].start == Shift(edits, spans[i].start)
      && r.value[i].end == Shift(edits, spans[i].end)
  {
    hide Splice, Simultaneous, Orderly, Delta, InsertedAt, Later, Touches, ChecksOut, InRange;
    var adjusted: seq<Span> := [];
    CheckedIsOrderly(edits, 0, |source|);
    forall i | 0 <= i < |spans| { ClearIs(edits, spans[i], |source|); }
    for i := 0 to |spans|
      invariant forall j :: 0 <= j < i ==> Clear(edits, spans[j])
      invariant |adjusted| == i
      invariant forall j :: 0 <= j < i ==>
        adjusted[j].start == Shift(edits, spans[j].start) && adjusted[j].end == Shift(edits, spans[j].end)
    {
      if !Clear(edits, spans[i]) {
        return Err("getter namespace edit overlaps a translated declaration");
      }
      ShiftTracksSpan(source, edits, spans[i]);
      adjusted := adjusted + [Span(Shift(edits, spans[i].start), Shift(edits, spans[i].end))];
    }
    return Ok(adjusted);
  }

  /** The overlap test lets an insertion at the very end through: here the shifted span
      swallows the inserted byte. */
  lemma InsertionAtEndIsSwallowed()
    ensures var source, edits, span := "ab", [Edit(1, 1, "x")], Span(0, 1);
      && ChecksOut(edits) && InRange(edits, 2) && Clear(edits, span)
      && Shift(edits, span.start) == 0 && Shift(edits, span.end) == 2
      && |Simultaneous(source, edits)| == 3
      && Simultaneous(source, edits)[0..2] == "ax"
  {
    var source, edits, span := "ab", [Edit(1, 1, "x")], Span(0, 1);
    CheckedIsOrderly(edits, 0, 2);
    SimultaneousLength(source, edits);
    ShiftTracksSpan(source, edits, span);
    assert source[0..1] + InsertedAt(edits, 1) == "ax";
  }
}
