/** The program's edit engines: the sorting cursor pass that drops what overlaps, and
    the right-to-left replacement. Both mean `Edits.Simultaneous`. */
module EditEngines {
  import opened Edits

  // ----- ordering -----

  predicate Before(a: Edit, b: Edit) {
    a.start < b.start || (a.start == b.start && a.end <= b.end)
  }

  ghost predicate Sorted(edits: seq<Edit>) {
    forall i, j :: 0 <= i < j < |edits| ==> Before(edits[i], edits[j])
  }

  /** Stable: an edit goes behind its equals. */
  function Insert(sorted: seq<Edit>, e: Edit): seq<Edit> {
    if sorted != [] && Before(sorted[0], e) then [sorted[0]] + Insert(sorted[1..], e) else [e] + sorted
  }

  function Sort(edits: seq<Edit>): seq<Edit> {
    if edits == [] then [] else Insert(Sort(edits[..|edits| - 1]), edits[|edits| - 1])
  }

  lemma {:induction false} InsertAdds(sorted: seq<Edit>, e: Edit)
    ensures multiset(Insert(sorted, e)) == multiset(sorted) + multiset{e}
  {
    if sorted != [] && Before(sorted[0], e) {
      InsertAdds(sorted[1..], e);
      assert sorted == [sorted[0]] + sorted[1..];
    }
  }

  lemma {:induction false} InsertSorts(sorted: seq<Edit>, e: Edit)
    requires Sorted(sorted)
    ensures Sorted(Insert(sorted, e))
  {
    if sorted != [] && Before(sorted[0], e) {
      InsertSorts(sorted[1..], e);
      InsertAdds(sorted[1..], e);
      var rest := Insert(sorted[1..], e);
      forall j | 0 <= j < |rest| ensures Before(sorted[0], rest[j]) {
        assert rest[j] in multiset(rest);
        assert rest[j] == e || rest[j] in sorted[1..];
      }
    }
  }

  lemma {:induction false} SortSorts(edits: seq<Edit>)
    ensures Sorted(Sort(edits)) && multiset(Sort(edits)) == multiset(edits)
  {
    if edits != [] {
      SortSorts(edits[..|edits| - 1]);
      InsertSorts(Sort(edits[..|edits| - 1]), edits[|edits| - 1]);
      InsertAdds(Sort(edits[..|edits| - 1]), edits[|edits| - 1]);
      assert edits == edits[..|edits| - 1] + [edits[|edits| - 1]];
    }
  }

  /** Sorting leaves a sorted list alone. */
  lemma {:induction false} SortKeeps(edits: seq<Edit>)
    requires Sorted(edits)
    ensures Sort(edits) == edits
  {
    if edits != [] {
      var init, last := edits[..|edits| - 1], edits[|edits| - 1];
      SortKeeps(init);
      InsertLast(init, last);
      assert edits == init + [last];
    }
  }

  lemma {:induction false} InsertLast(sorted: seq<Edit>, e: Edit)
    requires forall i :: 0 <= i < |sorted| ==> Before(sorted[i], e)
    ensures Insert(sorted, e) == sorted + [e]
  {
    if sorted != [] {
      InsertLast(sorted[1..], e);
    }
  }

  // ----- which edits a pass takes -----

  /** What the pass skips on sight: out of range, backwards, or behind the cursor. */
  predicate Refused(e: Edit, cursor: nat, length: nat) {
    e.start < cursor || e.end < e.start || e.end > length
  }

  function Chosen(edits: seq<Edit>, cursor: nat, length: nat): seq<Edit> {
    if edits == [] then []
    else if Refused(edits[0], cursor, length) then Chosen(edits[1..], cursor, length)
    else [edits[0]] + Chosen(edits[1..], edits[0].end, length)
  }

  /** Edit `i` is taken: it is in range and no taken edit before it reaches past its start. */
  ghost predicate Taken(edits: seq<Edit>, length: nat, i: nat)
    requires i < |edits|
    decreases i
  {
    && edits[i].start <= edits[i].end <= length
    && forall j: nat :: j < i && Taken(edits, length, j) ==> edits[j].end <= edits[i].start
  }

  ghost function TakenFrom(edits: seq<Edit>, length: nat, i: nat): seq<Edit>
    requires i <= |edits|
    decreases |edits| - i
  {
    if i == |edits| then []
    else (if Taken(edits, length, i) then [edits[i]] else []) + TakenFrom(edits, length, i + 1)
  }

  lemma {:induction false} ChosenOrderly(edits: seq<Edit>, cursor: nat, length: nat)
    requires cursor <= length
    ensures Orderly(Chosen(edits, cursor, length), cursor, length)
  {
    if edits != [] {
      if Refused(edits[0], cursor, length) {
        ChosenOrderly(edits[1..], cursor, length);
      } else {
        ChosenOrderly(edits[1..], edits[0].end, length);
      }
    }
  }

  /** The cursor is all the pass needs to remember of the edits it took. */
  lemma {:induction false} ChosenAreTaken(edits: seq<Edit>, length: nat, i: nat, cursor: nat)
    requires i <= |edits| && cursor <= length
    requires forall j: nat :: j < i && Taken(edits, length, j) ==> edits[j].end <= cursor
    requires cursor == 0 || exists j: nat :: j < i && Taken(edits, length, j) && edits[j].end == cursor
    ensures Chosen(edits[i..], cursor, length) == TakenFrom(edits, length, i)
    decreases |edits| - i
  {
    if i < |edits| {
      var e := edits[i];
      assert edits[i..][0] == e && edits[i..][1..] == edits[i + 1..];
      if Refused(e, cursor, length) {
        assert !Taken(edits, length, i);
        ChosenAreTaken(edits, length, i + 1, cursor);
      } else {
        assert Taken(edits, length, i);
        ChosenAreTaken(edits, length, i + 1, e.end);
      }
    }
  }

  /** Edits in order and apart are all taken. */
  lemma {:induction false} OrderlyAllChosen(edits: seq<Edit>, from: nat, length: nat)
    requires Orderly(edits, from, length)
    ensures Chosen(edits, from, length) == edits
  {
    if edits != [] {
      OrderlyAllChosen(edits[1..], edits[0].end, length);
    }
  }

  // ----- the engines -----

  /** What a pass writes from `cursor` on. */
  ghost function Rest(source: Text, edits: seq<Edit>, cursor: nat): Text
    requires cursor <= |source|
  {
    ChosenOrderly(edits, cursor, |source|);
    Splice(source, Chosen(edits, cursor, |source|), cursor)
  }

  lemma RestStep(source: Text, edits: seq<Edit>, cursor: nat)
    requires cursor <= |source| && edits != []
    ensures Refused(edits[0], cursor, |source|) ==> Rest(source, edits, cursor) == Rest(source, edits[1..], cursor)
    ensures !Refused(edits[0], cursor, |source|) ==>
      Rest(source, edits, cursor) == source[cursor..edits[0].start] + edits[0].text + Rest(source, edits[1..], edits[0].end)
  {
    ChosenOrderly(edits, cursor, |source|);
  }

  /** The shared repair writer. */
  method ApplyEdits(source: Text, edits: seq<Edit>) returns (out: Text)
    ensures out == Simultaneous(source, Chosen(Sort(edits), 0, |source|))
  {
    hide Splice, Chosen, Simultaneous, Rest;
    var sorted := Sort(edits);
    out := [];
    var cursor := 0;
    var i := 0;
    assert sorted[0..] == sorted;
    while i < |sorted|
      invariant 0 <= i <= |sorted| && 0 <= cursor <= |source|
      invariant Rest(source, sorted, 0) == out + Rest(source, sorted[i..], cursor)
    {
      var edit := sorted[i];
      RestStep(source, sorted[i..], cursor);
      assert sorted[i..][1..] == sorted[i + 1..];
      if !Refused(edit, cursor, |source|) {
        out := out + (source[cursor..edit.start] + edit.text);
        cursor := edit.end;
      }
      i := i + 1;
    }
    assert sorted[i..] == [];
    RestEnds(source, cursor);
    out := out + source[cursor..];
    RestAll(source, sorted);
  }

  lemma RestEnds(source: Text, cursor: nat)
    requires cursor <= |source|
    ensures Rest(source, [], cursor) == source[cursor..]
  {
  }

  lemma RestAll(source: Text, sorted: seq<Edit>)
    ensures Rest(source, sorted, 0) == Simultaneous(source, Chosen(sorted, 0, |source|))
  {
    ChosenOrderly(sorted, 0, |source|);
    SpliceIsSimultaneous(source, Chosen(sorted, 0, |source|), 0);
  }

  function ReplaceRange(text: Text, start: nat, end: nat, new': Text): Text
    requires start <= end <= |text|
  {
    text[..start] + new' + text[end..]
  }

  /** Where the next edit to the left may end. */
  ghost function Reach(edits: seq<Edit>, k: nat): nat
    requires k <= |edits|
  {
    if k == 0 then 0 else edits[k - 1].end
  }

  lemma {:induction false} OrderlyFrom(edits: seq<Edit>, from: nat, to: nat, k: nat)
    requires Orderly(edits, from, to) && k <= |edits|
    ensures Orderly(edits[k..], if k == 0 then from else edits[k - 1].end, to)
    decreases |edits|
  {
    if k > 0 {
      OrderlyFrom(edits[1..], edits[0].end, to, k - 1);
      assert edits[1..][k - 1..] == edits[k..];
    }
  }

  /** The text once the edits from `k` on are done. */
  ghost function Half(source: Text, edits: seq<Edit>, k: nat): Text
    requires Orderly(edits, 0, |source|) && k <= |edits|
  {
    OrderlyFrom(edits, 0, |source|, k);
    OrderlyBounds(edits, 0, |source|);
    source[..Reach(edits, k)] + Splice(source, edits[k..], Reach(edits, k))
  }

  lemma HalfStep(source: Text, edits: seq<Edit>, k: nat)
    requires Orderly(edits, 0, |source|) && 0 < k <= |edits|
    ensures edits[k - 1].start <= edits[k - 1].end <= |Half(source, edits, k)|
    ensures Half(source, edits, k - 1)
         == ReplaceRange(Half(source, edits, k), edits[k - 1].start, edits[k - 1].end, edits[k - 1].text)
  {
    hide Simultaneous;
    var e := edits[k - 1];
    OrderlyFrom(edits, 0, |source|, k);
    OrderlyFrom(edits, 0, |source|, k - 1);
    OrderlyBounds(edits, 0, |source|);
    hide Orderly;
    var tail, reach := Splice(source, edits[k..], e.end), Reach(edits, k - 1);
    assert edits[k - 1..][0] == e && edits[k - 1..][1..] == edits[k..];
    assert Half(source, edits, k - 1) == source[..reach] + (source[reach..e.start] + e.text + tail);
    assert source[..e.start] == source[..reach] + source[reach..e.start];
    var half := Half(source, edits, k);
    assert half == source[..e.end] + tail;
    assert half[..e.start] == source[..e.start] && half[e.end..] == tail;
  }

  /** Replacing from the right keeps the offsets of everything on the left. */
  method ApplyRightToLeft(source: Text, edits: seq<Edit>) returns (out: Text)
    requires Orderly(edits, 0, |source|)
    ensures out == Simultaneous(source, edits)
  {
    hide Splice, Simultaneous, Half, Orderly;
    HalfEnds(source, edits);
    out := source;
    var k := |edits|;
    while k > 0
      invariant 0 <= k <= |edits|
      invariant out == Half(source, edits, k)
    {
      var e := edits[k - 1];
      HalfStep(source, edits, k);
      out := ReplaceRange(out, e.start, e.end, e.text);
      k := k - 1;
    }
  }

  lemma HalfEnds(source: Text, edits: seq<Edit>)
    requires Orderly(edits, 0, |source|)
    ensures Half(source, edits, |edits|) == source
    ensures Half(source, edits, 0) == Simultaneous(source, edits)
  {
    OrderlyBounds(edits, 0, |source|);
    assert edits[|edits|..] == [] && edits[0..] == edits;
    SpliceIsSimultaneous(source, edits, 0);
  }

  // ----- lengths -----

  function Added(edits: seq<Edit>): nat {
    if edits == [] then 0 else |edits[0].text| + Added(edits[1..])
  }

  function Removed(edits: seq<Edit>): int {
    if edits == [] then 0 else edits[0].end - edits[0].start + Removed(edits[1..])
  }

  lemma {:induction false} SpliceLength(source: Text, edits: seq<Edit>, from: nat)
    requires from <= |source| && Orderly(edits, from, |source|)
    ensures |Splice(source, edits, from)| + from == |source| + Added(edits) - Removed(edits)
    decreases |edits|
  {
    if edits != [] {
      OrderlyBounds(edits[1..], edits[0].end, |source|);
      SpliceLength(source, edits[1..], edits[0].end);
    }
  }

  /** The exact length of an edited text. */
  lemma SimultaneousLength(source: Text, edits: seq<Edit>)
    requires Orderly(edits, 0, |source|)
    ensures |Simultaneous(source, edits)| == |source| + Added(edits) - Removed(edits)
  {
    SpliceLength(source, edits, 0);
    SpliceIsSimultaneous(source, edits, 0);
  }

  /** Orderly lists are sorted up to equal starts, so the sorting engine and the
      right-to-left engine give the same text on them. */
  lemma EnginesAgree(source: Text, edits: seq<Edit>)
    requires Orderly(edits, 0, |source|)
    ensures Simultaneous(source, Chosen(Sort(edits), 0, |source|)) == Simultaneous(source, edits)
  {
    OrderlySorted(edits, 0, |source|);
    SortKeeps(edits);
    OrderlyAllChosen(edits, 0, |source|);
  }

  lemma {:induction false} OrderlySorted(edits: seq<Edit>, from: nat, to: nat)
    requires Orderly(edits, from, to)
    ensures Sorted(edits)
  {
    if edits != [] {
      OrderlySorted(edits[1..], edits[0].end, to);
      OrderlyBounds(edits[1..], edits[0].end, to);
      forall j | 1 <= j < |edits| ensures Before(edits[0], edits[j]) {
        assert edits[j] == edits[1..][j - 1];
      }
      forall i, j | 0 <= i < j < |edits| ensures Before(edits[i], edits[j]) {
        if i > 0 { assert edits[i] == edits[1..][i - 1] && edits[j] == edits[1..][j - 1]; }
      }
    }
  }
}
