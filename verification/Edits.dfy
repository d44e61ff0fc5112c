/** Text edits by byte range, and the three ways the program applies them. A text is a
    sequence of bytes here, one element a byte. */
module Edits {

  type Text = string

  datatype Edit = Edit(start: nat, end: nat, text: Text) {
    predicate Inserts() { start == end }
  }

  // ----- what a set of edits means -----

  /** In order, without overlap, and inside `[from, to]`. */
  ghost predicate Orderly(edits: seq<Edit>, from: nat, to: nat) {
    && (edits == [] ==> from <= to)
    && (edits != [] ==>
          && from <= edits[0].start <= edits[0].end <= to
          && Orderly(edits[1..], edits[0].end, to))
  }

  /** Byte `i` is replaced by some edit. */
  ghost predicate Covered(edits: seq<Edit>, i: nat) {
    exists k :: 0 <= k < |edits| && edits[k].start <= i < edits[k].end
  }

  /** The texts that take their place at position `i`, in the order given. */
  function TextsAt(edits: seq<Edit>, i: nat): Text {
    if edits == [] then []
    else (if edits[0].start == i then edits[0].text else []) + TextsAt(edits[1..], i)
  }

  /** Position `i` after all edits happen at once: the new texts, then byte `i` if it stays. */
  ghost function PieceAt(source: Text, edits: seq<Edit>, i: nat): Text
    requires i <= |source|
  {
    TextsAt(edits, i) + if i < |source| && !Covered(edits, i) then [source[i]] else []
  }

  /** The pieces of the positions in `[from, to)`. */
  ghost function Pieces(source: Text, edits: seq<Edit>, from: nat, to: nat): Text
    requires from <= to <= |source| + 1
    decreases |source| + 1 - from
  {
    if from == to then [] else PieceAt(source, edits, from) + Pieces(source, edits, from + 1, to)
  }

  /** All edits at once. */
  ghost function Simultaneous(source: Text, edits: seq<Edit>): Text {
    Pieces(source, edits, 0, |source| + 1)
  }

  // ----- the cursor pass -----

  /** One pass from left to right: copy up to each edit, write its text, go on behind it. */
  function Splice(source: Text, edits: seq<Edit>, from: nat): Text
    requires from <= |source| && Orderly(edits, from, |source|)
  {
    if edits == [] then source[from..]
    else source[from..edits[0].start] + edits[0].text + Splice(source, edits[1..], edits[0].end)
  }

  lemma OrderlyBounds(edits: seq<Edit>, from: nat, to: nat)
    requires Orderly(edits, from, to)
    ensures from <= to
    ensures forall k :: 0 <= k < |edits| ==> from <= edits[k].start <= edits[k].end <= to
  {
    if edits != [] {
      OrderlyBounds(edits[1..], edits[0].end, to);
    }
  }

  lemma NoTextsBefore(edits: seq<Edit>, from: nat, to: nat, i: nat)
    requires Orderly(edits, from, to) && i < from
    ensures TextsAt(edits, i) == [] && !Covered(edits, i)
  {
    OrderlyBounds(edits, from, to);
    if edits != [] {
      NoTextsBefore(edits[1..], edits[0].end, to, i);
    }
  }

  lemma {:induction false} PiecesSplit(source: Text, edits: seq<Edit>, from: nat, mid: nat, to: nat)
    requires from <= mid <= to <= |source| + 1
    ensures Pieces(source, edits, from, to) == Pieces(source, edits, from, mid) + Pieces(source, edits, mid, to)
    decreases |source| + 1 - from
  {
    if from < mid {
      PiecesSplit(source, edits, from + 1, mid, to);
    }
  }

  /** A stretch no edit touches is copied. */
  lemma {:induction false} PiecesUntouched(source: Text, edits: seq<Edit>, from: nat, to: nat)
    requires from <= to <= |source|
    requires forall i :: from <= i < to ==> TextsAt(edits, i) == [] && !Covered(edits, i)
    ensures Pieces(source, edits, from, to) == source[from..to]
    decreases |source| + 1 - from
  {
    if from < to {
      PiecesUntouched(source, edits, from + 1, to);
      assert source[from..to] == [source[from]] + source[from + 1..to];
    }
  }

  /** Bytes under one edit disappear, where no other edit starts among them. */
  lemma {:induction false} PiecesCovered(source: Text, edits: seq<Edit>, from: nat, to: nat)
    requires from <= to <= |source|
    requires forall i :: from <= i < to ==> TextsAt(edits, i) == [] && Covered(edits, i)
    ensures Pieces(source, edits, from, to) == []
    decreases |source| + 1 - from
  {
    if from < to {
      PiecesCovered(source, edits, from + 1, to);
    }
  }

  /** Two edit lists that agree from `from` on have the same pieces there. */
  lemma {:induction false} PiecesAgree(source: Text, edits: seq<Edit>, other: seq<Edit>, from: nat, to: nat)
    requires from <= to <= |source| + 1
    requires forall i :: from <= i < to ==> TextsAt(edits, i) == TextsAt(other, i) && (Covered(edits, i) <==> Covered(other, i))
    ensures Pieces(source, edits, from, to) == Pieces(source, other, from, to)
    decreases |source| + 1 - from
  {
    hide TextsAt, Covered;
    if from < to {
      assert PieceAt(source, edits, from) == PieceAt(source, other, from);
      hide PieceAt;
      PiecesAgree(source, edits, other, from + 1, to);
    }
  }

  lemma CoveredSplit(edits: seq<Edit>, i: nat)
    requires edits != []
    ensures Covered(edits, i) <==> (edits[0].start <= i < edits[0].end || Covered(edits[1..], i))
  {
    if Covered(edits[1..], i) {
      var k :| 0 <= k < |edits[1..]| && edits[1..][k].start <= i < edits[1..][k].end;
      assert edits[k + 1] == edits[1..][k];
    }
    if Covered(edits, i) && !(edits[0].start <= i < edits[0].end) {
      var k :| 0 <= k < |edits| && edits[k].start <= i < edits[k].end;
      assert edits[1..][k - 1] == edits[k];
    }
  }

  /** How the first edit of an orderly list shows at each position. */
  lemma HeadShows(edits: seq<Edit>, from: nat, to: nat, i: nat)
    requires edits != [] && Orderly(edits, from, to)
    ensures i < edits[0].start ==> TextsAt(edits, i) == [] && !Covered(edits, i)
    ensures i == edits[0].start ==> TextsAt(edits, i) == edits[0].text + TextsAt(edits[1..], i)
    ensures i == edits[0].start < edits[0].end ==> TextsAt(edits, i) == edits[0].text
    ensures edits[0].start < i < edits[0].end ==> TextsAt(edits, i) == []
    ensures edits[0].start <= i < edits[0].end ==> Covered(edits, i)
    ensures edits[0].end <= i ==> (Covered(edits, i) <==> Covered(edits[1..], i))
    ensures edits[0].start < edits[0].end <= i || edits[0].start < i ==> TextsAt(edits, i) == TextsAt(edits[1..], i)
  {
    CoveredSplit(edits, i);
    OrderlyBounds(edits[1..], edits[0].end, to);
    if i < edits[0].end { NoTextsBefore(edits[1..], edits[0].end, to, i); }
  }

  /** The cursor pass is the simultaneous substitution. */
  lemma {:induction false} SpliceIsSimultaneous(source: Text, edits: seq<Edit>, from: nat)
    requires from <= |source| && Orderly(edits, from, |source|)
    ensures Splice(source, edits, from) == Pieces(source, edits, from, |source| + 1)
    decreases |edits|
  {
    hide TextsAt, Covered, Orderly;
    var n := |source|;
    if edits == [] {
      forall i: nat ensures TextsAt(edits, i) == [] && !Covered(edits, i) { NothingShows(i); }
      PiecesUntouched(source, edits, from, n);
      PiecesSplit(source, edits, from, n, n + 1);
      assert source[from..n] == source[from..];
    } else {
      HeadPieces(source, edits, from);
      SpliceIsSimultaneous(source, edits[1..], edits[0].end);
    }
  }

  lemma SimultaneousIsSplice(source: Text, edits: seq<Edit>)
    requires Orderly(edits, 0, |source|)
    ensures Simultaneous(source, edits) == Splice(source, edits, 0)
  {
    SpliceIsSimultaneous(source, edits, 0);
  }

  lemma NothingShows(i: nat)
    ensures TextsAt([], i) == [] && !Covered([], i)
  {
  }

  lemma HeadPieces(source: Text, edits: seq<Edit>, from: nat)
    requires edits != [] && Orderly(edits, from, |source|)
    ensures from <= edits[0].start <= edits[0].end <= |source| && Orderly(edits[1..], edits[0].end, |source|)
    ensures Pieces(source, edits, from, |source| + 1)
         == source[from..edits[0].start] + edits[0].text + Pieces(source, edits[1..], edits[0].end, |source| + 1)
  {
    hide TextsAt, Covered, Pieces;
    var n, e, rest := |source|, edits[0], edits[1..];
    OrderlyBounds(rest, e.end, n);
    forall i: nat | i < e.start
      ensures TextsAt(edits, i) == [] && !Covered(edits, i)
    {
      HeadShows(edits, from, n, i);
    }
    PiecesUntouched(source, edits, from, e.start);
    PiecesSplit(source, edits, from, e.start, n + 1);
    EditPieces(source, edits, from);
  }

  lemma EditPieces(source: Text, edits: seq<Edit>, from: nat)
    requires edits != [] && Orderly(edits, from, |source|)
    ensures edits[0].start <= edits[0].end <= |source|
    ensures Pieces(source, edits, edits[0].start, |source| + 1)
         == edits[0].text + Pieces(source, edits[1..], edits[0].end, |source| + 1)
  {
    hide TextsAt, Covered, Orderly, Pieces;
    OrderlyBounds(edits, from, |source|);
    var n, e, rest := |source|, edits[0], edits[1..];
    HeadShows(edits, from, n, e.start);
    UnfoldPieces(source, edits, e.start);
    if e.start == e.end {
      AfterEdit(source, edits, from, e.start + 1);
      UnfoldPieces(source, rest, e.start);
      assert PieceAt(source, edits, e.start) == e.text + PieceAt(source, rest, e.start);
    } else {
      forall i | e.start < i < e.end
        ensures TextsAt(edits, i) == [] && Covered(edits, i)
      {
        HeadShows(edits, from, n, i);
      }
      PiecesCovered(source, edits, e.start + 1, e.end);
      PiecesSplit(source, edits, e.start + 1, e.end, n + 1);
      AfterEdit(source, edits, from, e.end);
      assert PieceAt(source, edits, e.start) == e.text;
    }
  }

  lemma UnfoldPieces(source: Text, edits: seq<Edit>, from: nat)
    requires from <= |source|
    ensures Pieces(source, edits, from, |source| + 1)
         == PieceAt(source, edits, from) + Pieces(source, edits, from + 1, |source| + 1)
  {
  }

  lemma AfterEdit(source: Text, edits: seq<Edit>, from: nat, at: nat)
    requires edits != [] && Orderly(edits, from, |source|)
    requires edits[0].end <= at <= |source| + 1 && edits[0].start < at
    ensures Pieces(source, edits, at, |source| + 1) == Pieces(source, edits[1..], at, |source| + 1)
  {
    hide TextsAt, Covered, Pieces;
    forall i | at <= i < |source| + 1
      ensures TextsAt(edits, i) == TextsAt(edits[1..], i) && (Covered(edits, i) <==> Covered(edits[1..], i))
    {
      HeadShows(edits, from, |source|, i);
    }
    PiecesAgree(source, edits, edits[1..], at, |source| + 1);
  }

  // ----- putting passes together -----

  /** Text between the cursor and the next edit can be copied ahead. */
  lemma {:induction false} SpliceSkips(source: string, edits: seq<Edit>, from: nat, mid: nat)
    requires from <= mid <= |source| && Orderly(edits, mid, |source|)
    ensures Orderly(edits, from, |source|) && Splice(source, edits, from) == source[from..mid] + Splice(source, edits, mid)
  {
    if edits == [] {
      assert source[from..] == source[from..mid] + source[mid..];
    } else {
      var e := edits[0];
      SpliceHead(source, edits, mid);
      SpliceHead(source, edits, from);
      hide Splice;
      var rest := e.text + Splice(source, edits[1..], e.end);
      assert source[from..e.start] == source[from..mid] + source[mid..e.start];
      assert (source[from..mid] + source[mid..e.start]) + rest == source[from..mid] + (source[mid..e.start] + rest);
    }
  }

  lemma OrderlyCons(e: Edit, rest: seq<Edit>, to: nat)
    requires e.start <= e.end <= to && Orderly(rest, e.end, to)
    ensures Orderly([e] + rest, e.start, to) && ([e] + rest)[0] == e && ([e] + rest)[1..] == rest
  {
    assert ([e] + rest)[1..] == rest;
  }

  lemma {:induction false} OrderlyJoins(a: seq<Edit>, b: seq<Edit>, from: nat, mid: nat, to: nat)
    requires Orderly(a, from, mid) && Orderly(b, mid, to)
    ensures Orderly(a + b, from, to)
  {
    OrderlyBounds(b, mid, to);
    if a == [] {
      assert a + b == b;
    } else {
      OrderlyJoins(a[1..], b, a[0].end, mid, to);
      assert (a + b)[1..] == a[1..] + b;
      OrderlyBounds(a, from, mid);
    }
  }

  lemma {:induction false} SpliceJoins(source: string, a: seq<Edit>, b: seq<Edit>, from: nat, mid: nat)
    requires from <= mid <= |source| && Orderly(a, from, mid) && Orderly(b, mid, |source|)
    ensures Orderly(a + b, from, |source|)
    ensures Splice(source, a + b, from) == Splice(source[..mid], a, from) + Splice(source, b, mid)
  {
    OrderlyJoins(a, b, from, mid, |source|);
    if a == [] {
      SpliceSkips(source, b, from, mid);
      assert a + b == b && source[..mid][from..] == source[from..mid];
    } else {
      SpliceJoins(source, a[1..], b, a[0].end, mid);
      SpliceHead(source[..mid], a, from);
      SpliceHead(source, a + b, from);
      OrderlyBounds(a, from, mid);
      hide Splice, Orderly;
      assert (a + b)[1..] == a[1..] + b && source[..mid][from..a[0].start] == source[from..a[0].start];
      TextsRegroup(source[from..a[0].start], a[0].text, Splice(source[..mid], a[1..], a[0].end), Splice(source, b, mid));
    }
  }

  lemma TextsRegroup(a: Text, b: Text, c: Text, d: Text)
    ensures a + (b + (c + d)) == (a + (b + c)) + d
  {
  }

  lemma SpliceHead(source: string, a: seq<Edit>, from: nat)
    requires a != [] && from <= |source| && Orderly(a, from, |source|)
    ensures Splice(source, a, from) == source[from..a[0].start] + (a[0].text + Splice(source, a[1..], a[0].end))
  {
  }

  lemma SpliceEdit(source: string, e: Edit, rest: seq<Edit>, p: nat)
    requires p <= e.start <= e.end <= |source| && Orderly(rest, e.end, |source|)
    ensures Orderly([e] + rest, p, |source|)
    ensures Splice(source, [e] + rest, p) == source[p..e.start] + e.text + Splice(source, rest, e.end)
  {
    assert ([e] + rest)[1..] == rest;
  }
}
