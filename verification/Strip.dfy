/** Stripping translated declarations from Kotlin source: spans widened to their line breaks,
    merged, and skipped; what stays is copied and annotated. */
module Strip {
  import opened Options
  import opened TextSearch
  import opened Edits
  import opened EditEngines
  import opened Markers
  import MarkerBlocks

  // ----- the spans to skip -----

  /** Behind the blanks from `at` on and the line break after them. */
  function Swallow(source: string, at: nat): (r: nat)
    requires at <= |source|
    ensures at <= r <= |source|
    ensures forall i :: at <= i < r ==> source[i] == ' ' || source[i] == '\t' || (source[i] == '\n' && i == r - 1)
    decreases |source| - at
  {
    if at == |source| then at
    else if source[at] == ' ' || source[at] == '\t' then Swallow(source, at + 1)
    else if source[at] == '\n' then at + 1
    else at
  }

  /** A translated span, as the edit that deletes it. */
  ghost predicate Deletions(spans: seq<Edit>, n: nat) {
    forall i :: 0 <= i < |spans| ==> spans[i].start <= spans[i].end <= n && spans[i].text == ""
  }

  /** Byte `i` belongs to a translated span or to the blanks swallowed behind one. */
  ghost predicate Gone(source: string, spans: seq<Edit>, i: nat) {
    exists k :: 0 <= k < |spans| && spans[k].start <= i && spans[k].end <= |source| && i < Swallow(source, spans[k].end)
  }

  function Widened(source: string, span: Edit): (r: Edit)
    requires span.end <= |source|
    ensures r.start == span.start && span.end <= r.end <= |source| && r.text == span.text
  {
    Edit(span.start, Swallow(source, span.end), span.text)
  }

  /** In order with gaps between them. */
  ghost predicate Apart(spans: seq<Edit>) {
    forall i, j :: 0 <= i < j < |spans| ==> spans[i].start <= spans[i].end < spans[j].start
  }

  ghost predicate ByStart(spans: seq<Edit>) {
    forall i, j :: 0 <= i < j < |spans| ==> spans[i].start <= spans[j].start
  }

  /** Consecutive equal spans count once. */
  function Dedup(spans: seq<Edit>): seq<Edit> {
    if |spans| < 2 then spans
    else if spans[0] == spans[1] then Dedup(spans[1..])
    else [spans[0]] + Dedup(spans[1..])
  }

  lemma {:induction false} DedupKeeps(spans: seq<Edit>)
    ensures forall e :: e in Dedup(spans) <==> e in spans
    ensures Sorted(spans) ==> Sorted(Dedup(spans))
  {
    if |spans| >= 2 {
      DedupKeeps(spans[1..]);
      assert forall e :: e in spans <==> e == spans[0] || e in spans[1..];
      if Sorted(spans) && spans[0] != spans[1] {
        var rest := Dedup(spans[1..]);
        forall j | 0 <= j < |rest| ensures Before(spans[0], rest[j]) {
          assert rest[j] in spans[1..];
        }
      }
    }
  }

  /** The merged spans are apart, and cover exactly what is gone. */
  method MergeSpans(source: string, spans: seq<Edit>) returns (merged: seq<Edit>)
    requires Deletions(spans, |source|)
    ensures Deletions(merged, |source|) && Apart(merged)
    ensures forall i: nat :: Covered(merged, i) <==> Gone(source, spans, i)
  {
    var sorted := Dedup(Sort(spans));
    var widened := [];
    SortedOnce(source, spans, sorted);
    for n := 0 to |sorted|
      invariant Deletions(widened, |source|) && |widened| == n
      invariant forall k :: 0 <= k < n ==> widened[k] == Widened(source, sorted[k])
    {
      widened := widened + [Widened(source, sorted[n])];
    }
    WidenedCover(source, spans, sorted, widened);
    merged := MergeWidened(|source|, widened);
  }

  lemma SortedOnce(source: string, spans: seq<Edit>, sorted: seq<Edit>)
    requires Deletions(spans, |source|) && sorted == Dedup(Sort(spans))
    ensures Deletions(sorted, |source|) && ByStart(sorted) && forall e :: e in sorted <==> e in spans
  {
    SortSorts(spans);
    DedupKeeps(Sort(spans));
    forall e ensures e in Sort(spans) <==> e in spans {
      assert e in Sort(spans) <==> e in multiset(Sort(spans));
    }
    forall i | 0 <= i < |sorted| ensures sorted[i].start <= sorted[i].end <= |source| && sorted[i].text == "" {
      assert sorted[i] in spans;
    }
  }

  lemma WidenedCover(source: string, spans: seq<Edit>, sorted: seq<Edit>, widened: seq<Edit>)
    requires Deletions(spans, |source|) && Deletions(sorted, |source|) && (forall e :: e in sorted <==> e in spans)
    requires |widened| == |sorted| && forall k :: 0 <= k < |sorted| ==> widened[k] == Widened(source, sorted[k])
    ensures forall i: nat :: Covered(widened, i) <==> Gone(source, spans, i)
  {
    forall i: nat ensures Covered(widened, i) <==> Gone(source, spans, i) {
      if Covered(widened, i) {
        var k :| 0 <= k < |widened| && widened[k].start <= i < widened[k].end;
        assert sorted[k] in spans;
        var j :| 0 <= j < |spans| && spans[j] == sorted[k];
      }
      if Gone(source, spans, i) {
        var k :| 0 <= k < |spans| && spans[k].start <= i && spans[k].end <= |source| && i < Swallow(source, spans[k].end);
        assert spans[k] in sorted;
        var j :| 0 <= j < |sorted| && sorted[j] == spans[k];
        assert widened[j].start <= i < widened[j].end;
      }
    }
  }

  /** A span that reaches the last one is merged into it. */
  function Absorb(merged: seq<Edit>, s: Edit): seq<Edit> {
    if merged != [] && s.start <= merged[|merged| - 1].end then
      var last := merged[|merged| - 1];
      merged[..|merged| - 1] + [last.(end := AtLeast(last.end, s.end))]
    else merged + [s]
  }

  lemma AbsorbKeeps(size: nat, merged: seq<Edit>, s: Edit)
    requires Deletions(merged, size) && Apart(merged) && s.start <= s.end <= size && s.text == ""
    requires merged != [] ==> merged[|merged| - 1].start <= s.start
    ensures var next := Absorb(merged, s);
      && Deletions(next, size) && Apart(next) && next != [] && next[|next| - 1].start <= s.start
      && forall i: nat :: Covered(next, i) <==> Covered(merged, i) || s.start <= i < s.end
  {
    hide Covered;
    if merged != [] && s.start <= merged[|merged| - 1].end {
      ExtendLast(merged, s, Absorb(merged, s));
    } else {
      CoveredOneMore(merged, s);
    }
  }

  method MergeWidened(ghost size: nat, spans: seq<Edit>) returns (merged: seq<Edit>)
    requires Deletions(spans, size) && ByStart(spans)
    ensures Deletions(merged, size) && Apart(merged)
    ensures forall i: nat :: Covered(merged, i) <==> Covered(spans, i)
  {
    hide Apart, Covered, Absorb;
    merged := [];
    NothingMerged();
    for n := 0 to |spans|
      invariant Deletions(merged, size) && Apart(merged)
      invariant merged != [] && n < |spans| ==> merged[|merged| - 1].start <= spans[n].start
      invariant forall i: nat :: Covered(merged, i) <==> Covered(spans[..n], i)
    {
      var s := spans[n];
      AbsorbKeeps(size, merged, s);
      CoveredOneMore(spans[..n], s);
      assert spans[..n + 1] == spans[..n] + [s];
      merged := Absorb(merged, s);
    }
    assert spans[..|spans|] == spans;
  }

  lemma NothingMerged()
    ensures Apart([]) && forall i: nat :: !Covered([], i)
  {
  }

  lemma CoveredOneMore(spans: seq<Edit>, s: Edit)
    ensures forall i: nat :: Covered(spans + [s], i) <==> Covered(spans, i) || s.start <= i < s.end
  {
    forall i: nat ensures Covered(spans + [s], i) <==> Covered(spans, i) || s.start <= i < s.end {
      if Covered(spans, i) {
        var k :| 0 <= k < |spans| && spans[k].start <= i < spans[k].end;
        assert (spans + [s])[k] == spans[k];
      }
      assert (spans + [s])[|spans|] == s;
    }
  }

  lemma ExtendLast(spans: seq<Edit>, s: Edit, next: seq<Edit>)
    requires spans != [] && spans[|spans| - 1].start <= s.start <= spans[|spans| - 1].end
    requires var last := spans[|spans| - 1]; next == spans[..|spans| - 1] + [last.(end := AtLeast(last.end, s.end))]
    ensures forall i: nat :: Covered(next, i) <==> Covered(spans, i) || s.start <= i < s.end
  {
    var last := spans[|spans| - 1];
    CoveredOneMore(spans[..|spans| - 1], last);
    CoveredOneMore(spans[..|spans| - 1], last.(end := AtLeast(last.end, s.end)));
    assert spans == spans[..|spans| - 1] + [last];
  }

  // ----- the blockers to write -----

  /** `offset` is in a generated marker comment, or at the start of the text's first comment. */
  predicate InsideGenerated(source: string, offset: nat) {
    offset <= |source| &&
    var last := FindLast(source[..offset], "/**");
    var start := if last.Some? then last else if StartsWith(source[offset..], "/**") then Some(offset) else None;
    start.Some? && start.value <= offset && !Contains(source[start.value..offset], "*/") &&
    match FindFirst(source[offset..], "*/")
    case None => false
    case Some(close) => SaysNotlin(source[start.value..offset + close + 2])
  }

  /** A generated comment starts exactly at `offset`. */
  predicate CommentStarts(source: string, offset: nat) {
    && offset <= |source| && StartsWith(source[offset..], "/**")
    && match FindFirst(source[offset..], "*/")
       case None => false
       case Some(close) => SaysNotlin(source[offset..offset + close + 2])
  }

  /** Every comment that opens before `offset` is closed before it. */
  ghost predicate ClosedBefore(source: string, offset: nat)
    requires offset <= |source|
  {
    forall i: nat :: i <= offset && At(source[..offset], i, "/**") ==> Contains(source[i..offset], "*/")
  }

  /** An anchor exactly at a generated comment is recognised only if no comment opens before it,
      or the last that does is still open and taken for generated itself. So behind closed
      comments it is recognised exactly if there are none. */
  lemma AnchorAtComment(source: string, offset: nat)
    requires CommentStarts(source, offset)
    ensures InsideGenerated(source, offset) <==>
      match FindLast(source[..offset], "/**")
      case None => true
      case Some(start) =>
        && start <= offset && !Contains(source[start..offset], "*/")
        && SaysNotlin(source[start..offset + FindFirst(source[offset..], "*/").value + 2])
    ensures ClosedBefore(source, offset) ==> (InsideGenerated(source, offset) <==> FindLast(source[..offset], "/**").None?)
  {
    hide SaysNotlin, FindLast, FindFirst;
    assert source[offset..offset] == "" && !Contains("", "*/");
    var last := FindLast(source[..offset], "/**");
    if last.Some? { assert At(source[..offset], last.value, "/**"); }
  }

  /** An ordinary comment above is enough: the anchor at the generated one is not recognised. */
  lemma SecondCommentIsMissed()
    ensures var source := "/***/\n" + "/**\n * NOTLIN x\n */\n";
      CommentStarts(source, 6) && ClosedBefore(source, 6) && !InsideGenerated(source, 6)
  {
    hide InsideGenerated, SaysNotlin, FindLast, FindFirst;
    var front, mark := "/***/\n", "/**\n * NOTLIN x\n */\n";
    var source := front + mark;
    assert source[6..] == mark && source[..6] == front && mark[0..3] == "/**";
    FirstCloseOfMark(mark);
    MarkSays();
    assert source[6..6 + 17 + 2] == "/**\n * NOTLIN x\n */";
    FrontCloses(source, front);
    AnchorAtComment(source, 6);
  }

  lemma FirstCloseOfMark(mark: string)
    requires mark == "/**\n * NOTLIN x\n */\n"
    ensures FindFirst(mark, "*/") == Some(17)
  {
    hide FindFirst;
    assert mark[17..19] == "*/";
    forall j: nat ensures At(mark, j, "*/") ==> j == 17 { AtLetters(mark, j, "*/"); }
    assert At(mark, 17, "*/");
  }

  lemma MarkSays()
    ensures SaysNotlin("/**\n * NOTLIN x\n */")
  {
    hide SaysNotlin;
    var body := [" * NOTLIN x"];
    assert body[1..] == [];
    MarkerBlocks.DocSays("", body, " */");
    assert "/**\n" + Indented("", body) + " */" == "/**\n * NOTLIN x\n */";
  }

  lemma FrontCloses(source: string, front: string)
    requires front == "/***/\n" && 6 <= |source| && source[..6] == front
    ensures FindLast(front, "/**").Some? && ClosedBefore(source, 6)
  {
    hide FindLast;
    assert front[0..3] == "/**" && At(front, 0, "/**");
    forall i: nat | i <= 6 && At(source[..6], i, "/**") ensures Contains(source[i..6], "*/") {
      AtLetters(front, i, "/**");
      assert i == 0 && source[0..6] == front && front[3..5] == "*/";
      assert At(front, 3, "*/");
    }
  }

  /** An anchor behind the opening of a comment is recognised exactly if that comment is generated
      and closes behind the anchor; no anchor is between the two letters of a close. */
  lemma AnchorInComment(source: string, start: nat, offset: nat)
    requires offset <= |source| && FindLast(source[..offset], "/**") == Some(start)
    requires offset < |source| ==> !(source[offset - 1] == '*' && source[offset] == '/')
    ensures InsideGenerated(source, offset) <==>
      match FindFirst(source[start..], "*/")
      case None => false
      case Some(close) => offset <= start + close && SaysNotlin(source[start..start + close + 2])
  {
    hide SaysNotlin, FindLast, FindFirst;
    assert At(source[..offset], start, "/**");
    var front, back := source[start..offset], source[offset..];
    assert source[start..] == front + back;
    assert front[|front| - 1] == source[offset - 1];
    FirstSplits(front, back);
  }

  /** A close in a joined text is in the front, or else in the back. */
  lemma FirstSplits(front: string, back: string)
    requires front != [] && (back != [] ==> !(front[|front| - 1] == '*' && back[0] == '/'))
    ensures var r := FindFirst(front + back, "*/");
      if Contains(front, "*/") then r.Some? && r.value + 2 <= |front|
      else r == match FindFirst(back, "*/") case Some(close) => Some(|front| + close) case None => None
  {
    hide FindFirst;
    var whole := front + back;
    forall j: nat ensures At(whole, j, "*/") <==> if j + 2 <= |front| then At(front, j, "*/") else j >= |front| && At(back, j - |front|, "*/") {
      CloseSplits(front, back, j);
    }
    var r, close := FindFirst(whole, "*/"), FindFirst(back, "*/");
    if Contains(front, "*/") {
      var j: nat :| j <= |front| && At(front, j, "*/");
      AtLetters(front, j, "*/");
      assert At(whole, j, "*/");
    } else {
      assert forall j: nat :: At(whole, j, "*/") ==> j >= |front| && At(back, j - |front|, "*/");
      if close.Some? { assert At(whole, |front| + close.value, "*/"); }
    }
  }

  lemma CloseSplits(front: string, back: string, j: nat)
    requires front != [] && (back != [] ==> !(front[|front| - 1] == '*' && back[0] == '/'))
    ensures At(front + back, j, "*/") <==> if j + 2 <= |front| then At(front, j, "*/") else j >= |front| && At(back, j - |front|, "*/")
  {
    AtLetters(front + back, j, "*/");
    AtLetters(front, j, "*/");
    if j >= |front| { AtLetters(back, j - |front|, "*/"); }
  }

  function Live(source: string, blockers: seq<Blocker>): (r: seq<Blocker>)
    ensures forall b :: b in r <==> b in blockers && !InsideGenerated(source, b.offset)
  {
    if blockers == [] then []
    else (if InsideGenerated(source, blockers[0].offset) then [] else [blockers[0]]) + Live(source, blockers[1..])
  }

  /** Stable: a blocker goes behind those at its offset. */
  function InsertByOffset(sorted: seq<Blocker>, b: Blocker): (r: seq<Blocker>)
    ensures multiset(r) == multiset(sorted) + multiset{b}
  {
    if sorted != [] && sorted[0].offset <= b.offset then
      assert sorted == [sorted[0]] + sorted[1..];
      [sorted[0]] + InsertByOffset(sorted[1..], b)
    else [b] + sorted
  }

  lemma {:induction false} InsertByOffsetAscends(sorted: seq<Blocker>, b: Blocker)
    requires Ascending(sorted)
    ensures Ascending(InsertByOffset(sorted, b))
  {
    if sorted != [] && sorted[0].offset <= b.offset {
      InsertByOffsetAscends(sorted[1..], b);
      var rest := InsertByOffset(sorted[1..], b);
      forall j | 0 <= j < |rest| ensures sorted[0].offset <= rest[j].offset {
        assert rest[j] in multiset(rest);
        assert rest[j] == b || rest[j] in sorted[1..];
      }
    }
  }

  function SortByOffset(blockers: seq<Blocker>): (r: seq<Blocker>)
    ensures multiset(r) == multiset(blockers) && Ascending(r)
  {
    if blockers == [] then []
    else
      var init, last := blockers[..|blockers| - 1], blockers[|blockers| - 1];
      assert blockers == init + [last];
      InsertByOffsetAscends(SortByOffset(init), last);
      InsertByOffset(SortByOffset(init), last)
  }

  // ----- which blockers are due -----

  /** `due` holds the blockers at the indices `order`, by offset, and in their own order where
      offsets are equal. */
  ghost predicate InOrder(blockers: seq<Blocker>, order: seq<nat>, due: seq<Blocker>) {
    && |due| == |order| && (forall k :: 0 <= k < |order| ==> order[k] < |blockers| && due[k] == blockers[order[k]])
    && forall j, k :: 0 <= j < k < |order| ==>
      due[j].offset < due[k].offset || (due[j].offset == due[k].offset && order[j] < order[k])
  }

  /** Every blocker outside generated comments once, or none where nothing is to be annotated. */
  ghost predicate IsDue(source: string, blockers: seq<Blocker>, annotate: bool, due: seq<Blocker>) {
    exists order :: InOrder(blockers, order, due) &&
      forall i: nat :: i in order <==> annotate && i < |blockers| && !InsideGenerated(source, blockers[i].offset)
  }

  /** Where a blocker goes: behind the last one that is not after it. */
  function Slot(sorted: seq<Blocker>, b: Blocker): (at: nat)
    ensures at <= |sorted|
  {
    if sorted != [] && sorted[0].offset <= b.offset then Slot(sorted[1..], b) + 1 else 0
  }

  lemma {:induction false} InsertedAt(sorted: seq<Blocker>, b: Blocker)
    ensures InsertByOffset(sorted, b) == sorted[..Slot(sorted, b)] + [b] + sorted[Slot(sorted, b)..]
  {
    if sorted != [] && sorted[0].offset <= b.offset {
      InsertedAt(sorted[1..], b);
      Regrouped(sorted, b, Slot(sorted[1..], b));
    }
  }

  lemma Regrouped(sorted: seq<Blocker>, b: Blocker, at: nat)
    requires sorted != [] && at < |sorted|
    ensures [sorted[0]] + (sorted[1..][..at] + [b] + sorted[1..][at..]) == sorted[..at + 1] + [b] + sorted[at + 1..]
  {
  }

  lemma {:induction false} SlotSplits(sorted: seq<Blocker>, b: Blocker)
    requires Ascending(sorted)
    ensures forall k :: 0 <= k < Slot(sorted, b) ==> sorted[k].offset <= b.offset
    ensures forall k :: Slot(sorted, b) <= k < |sorted| ==> b.offset < sorted[k].offset
  {
    if sorted != [] && sorted[0].offset <= b.offset {
      SlotSplits(sorted[1..], b);
      assert forall k :: 0 < k < |sorted| ==> sorted[k] == sorted[1..][k - 1];
    }
  }

  /** All indices below `n`. */
  ghost predicate AllBelow(order: seq<nat>, n: nat) {
    forall i: nat :: i in order <==> i < n
  }

  /** Sorting is stable. */
  lemma {:induction false} SortInOrder(bs: seq<Blocker>) returns (order: seq<nat>)
    ensures InOrder(bs, order, SortByOffset(bs)) && AllBelow(order, |bs|)
  {
    hide *;
    if bs == [] {
      order := [];
      NothingSorted();
    } else {
      var n := |bs| - 1;
      order := SortInOrder(bs[..n]);
      SortUnfold(bs);
      order := InsertOne(bs, order, SortByOffset(bs[..n]));
    }
  }

  lemma NothingSorted()
    ensures InOrder([], [], SortByOffset([])) && AllBelow([], 0)
  {
  }

  lemma InsertOne(bs: seq<Blocker>, init: seq<nat>, sorted: seq<Blocker>) returns (order: seq<nat>)
    requires bs != [] && Ascending(sorted) && InOrder(bs[..|bs| - 1], init, sorted) && AllBelow(init, |bs| - 1)
    ensures InOrder(bs, order, InsertByOffset(sorted, bs[|bs| - 1])) && AllBelow(order, |bs|)
  {
    hide *;
    var last := bs[|bs| - 1];
    var at := Slot(sorted, last);
    InsertedAt(sorted, last);
    SlotSplits(sorted, last);
    SameLength(bs[..|bs| - 1], init, sorted);
    order := init[..at] + [|bs| - 1] + init[at..];
    InsertedInOrder(bs, init, sorted, at);
    IndicesIn(init, at, |bs| - 1);
  }

  lemma SortUnfold(bs: seq<Blocker>)
    requires bs != []
    ensures SortByOffset(bs) == InsertByOffset(SortByOffset(bs[..|bs| - 1]), bs[|bs| - 1])
    ensures Ascending(SortByOffset(bs[..|bs| - 1]))
  {
    hide InsertByOffset;
  }

  lemma SameLength(bs: seq<Blocker>, order: seq<nat>, due: seq<Blocker>)
    requires InOrder(bs, order, due)
    ensures |due| == |order|
  {
  }

  lemma IndicesIn(init: seq<nat>, at: nat, n: nat)
    requires at <= |init| && AllBelow(init, n)
    ensures AllBelow(init[..at] + [n] + init[at..], n + 1)
  {
    forall i: nat ensures i in init[..at] + [n] + init[at..] <==> i in init || i == n {
      assert init == init[..at] + init[at..];
    }
  }

  lemma InsertedInOrder(bs: seq<Blocker>, init: seq<nat>, sorted: seq<Blocker>, at: nat)
    requires bs != [] && InOrder(bs[..|bs| - 1], init, sorted) && at <= |sorted|
    requires (forall k :: 0 <= k < at ==> sorted[k].offset <= bs[|bs| - 1].offset)
    requires forall k :: at <= k < |sorted| ==> bs[|bs| - 1].offset < sorted[k].offset
    ensures InOrder(bs, init[..at] + [|bs| - 1] + init[at..], sorted[..at] + [bs[|bs| - 1]] + sorted[at..])
  {
    var n := |bs| - 1;
    var order, due := init[..at] + [n] + init[at..], sorted[..at] + [bs[n]] + sorted[at..];
    forall k | 0 <= k < |order| ensures order[k] < |bs| && due[k] == bs[order[k]] {
      if k < at { assert sorted[k] == bs[..n][init[k]]; } else if k > at { assert sorted[k - 1] == bs[..n][init[k - 1]]; }
    }
    forall j, k | 0 <= j < k < |order|
      ensures due[j].offset < due[k].offset || (due[j].offset == due[k].offset && order[j] < order[k])
    {
      var j', k' := if j < at then j else j - 1, if k < at then k else k - 1;
      if j != at && k != at {
        assert sorted[j'].offset < sorted[k'].offset || (sorted[j'].offset == sorted[k'].offset && init[j'] < init[k']);
      }
    }
  }

  /** `kept` is what stands at the indices, which go up. */
  ghost predicate Picked(blockers: seq<Blocker>, live: seq<nat>, kept: seq<Blocker>) {
    && |live| == |kept| && (forall k :: 0 <= k < |live| ==> live[k] < |blockers| && kept[k] == blockers[live[k]])
    && forall j, k :: 0 <= j < k < |live| ==> live[j] < live[k]
  }

  ghost predicate LiveAt(source: string, blockers: seq<Blocker>, i: nat) {
    i < |blockers| && !InsideGenerated(source, blockers[i].offset)
  }

  /** What is kept of a list, by index. */
  lemma {:induction false} LiveInOrder(source: string, blockers: seq<Blocker>) returns (live: seq<nat>)
    ensures Picked(blockers, live, Live(source, blockers))
    ensures forall i: nat :: i in live <==> LiveAt(source, blockers, i)
  {
    hide InsideGenerated;
    if blockers == [] {
      live := [];
    } else {
      hide Picked, LiveAt, Live;
      var rest := LiveInOrder(source, blockers[1..]);
      var later := Later(rest);
      live := (if InsideGenerated(source, blockers[0].offset) then [] else [0]) + later;
      PickedCons(source, blockers, rest, live);
      LiveCons(source, blockers, rest, live);
    }
  }

  function Later(rest: seq<nat>): (later: seq<nat>)
    ensures |later| == |rest| && forall k :: 0 <= k < |rest| ==> later[k] == rest[k] + 1
  {
    seq(|rest|, k requires 0 <= k < |rest| => rest[k] + 1)
  }

  lemma PickedCons(source: string, blockers: seq<Blocker>, rest: seq<nat>, live: seq<nat>)
    requires blockers != [] && Picked(blockers[1..], rest, Live(source, blockers[1..]))
    requires live == (if InsideGenerated(source, blockers[0].offset) then [] else [0]) + Later(rest)
    ensures Picked(blockers, live, Live(source, blockers))
  {
    hide InsideGenerated, Picked;
    var kept := Live(source, blockers[1..]);
    PickedLater(blockers, rest, kept);
    if InsideGenerated(source, blockers[0].offset) {
      assert live == Later(rest) && Live(source, blockers) == kept;
    } else {
      PickedFirst(blockers, Later(rest), kept);
    }
  }

  lemma PickedLater(blockers: seq<Blocker>, rest: seq<nat>, kept: seq<Blocker>)
    requires blockers != [] && Picked(blockers[1..], rest, kept)
    ensures Picked(blockers, Later(rest), kept) && forall k :: 0 <= k < |rest| ==> Later(rest)[k] > 0
  {
    forall k | 0 <= k < |rest| ensures rest[k] + 1 < |blockers| && kept[k] == blockers[rest[k] + 1] {
      assert kept[k] == blockers[1..][rest[k]];
    }
  }

  lemma PickedFirst(blockers: seq<Blocker>, later: seq<nat>, kept: seq<Blocker>)
    requires blockers != [] && Picked(blockers, later, kept) && forall k :: 0 <= k < |later| ==> later[k] > 0
    ensures Picked(blockers, [0] + later, [blockers[0]] + kept)
  {
    var live, all := [0] + later, [blockers[0]] + kept;
    forall k | 0 <= k < |live| ensures live[k] < |blockers| && all[k] == blockers[live[k]] {
      if k > 0 { assert kept[k - 1] == blockers[later[k - 1]]; }
    }
  }

  lemma LiveCons(source: string, blockers: seq<Blocker>, rest: seq<nat>, live: seq<nat>)
    requires blockers != [] && forall i: nat :: i in rest <==> LiveAt(source, blockers[1..], i)
    requires live == (if InsideGenerated(source, blockers[0].offset) then [] else [0]) + Later(rest)
    ensures forall i: nat :: i in live <==> LiveAt(source, blockers, i)
  {
    hide InsideGenerated;
    LaterIndices(rest, Later(rest));
    forall i: nat ensures i in live <==> LiveAt(source, blockers, i) {
      if i > 0 { assert i in Later(rest) <==> i - 1 in rest; }
    }
  }

  lemma LaterIndices(rest: seq<nat>, later: seq<nat>)
    requires later == Later(rest)
    ensures forall i: nat :: i in later <==> i > 0 && i - 1 in rest
  {
    forall i: nat ensures i in later <==> i > 0 && i - 1 in rest {
      if i > 0 && i - 1 in rest {
        var k :| 0 <= k < |rest| && rest[k] == i - 1;
        assert later[k] == i;
      }
    }
  }

  /** Indices into a list of indices. */
  function Through(live: seq<nat>, sorted: seq<nat>): (r: seq<nat>)
    requires forall i :: i in sorted ==> i < |live|
    ensures |r| == |sorted| && forall k :: 0 <= k < |sorted| ==> sorted[k] < |live| && r[k] == live[sorted[k]]
  {
    assert forall k :: 0 <= k < |sorted| ==> sorted[k] in sorted;
    seq(|sorted|, k requires 0 <= k < |sorted| => live[sorted[k]])
  }

  lemma ThroughHolds(live: seq<nat>, sorted: seq<nat>)
    requires AllBelow(sorted, |live|)
    ensures forall i: nat :: i in Through(live, sorted) <==> i in live
  {
    var order := Through(live, sorted);
    forall i: nat ensures i in order <==> i in live {
      if i in live {
        var k :| 0 <= k < |live| && live[k] == i;
        assert k in sorted;
        var m :| 0 <= m < |sorted| && sorted[m] == k;
        assert order[m] == i;
      }
    }
  }

  lemma ThroughInOrder(blockers: seq<Blocker>, live: seq<nat>, kept: seq<Blocker>, sorted: seq<nat>, due: seq<Blocker>)
    requires Picked(blockers, live, kept) && InOrder(kept, sorted, due) && forall i :: i in sorted ==> i < |live|
    ensures InOrder(blockers, Through(live, sorted), due)
  {
    var order := Through(live, sorted);
    forall j, k | 0 <= j < k < |order|
      ensures due[j].offset < due[k].offset || (due[j].offset == due[k].offset && order[j] < order[k])
    {
      assert sorted[j] < |live| && sorted[k] < |live|;
    }
  }

  lemma ToWriteIsDue(source: string, blockers: seq<Blocker>, annotate: bool)
    ensures IsDue(source, blockers, annotate, ToWrite(source, blockers, annotate))
  {
    hide InsideGenerated, InOrder, Live, SortByOffset, Picked, AllBelow;
    if annotate {
      var live := LiveInOrder(source, blockers);
      var kept := Live(source, blockers);
      var sorted := SortInOrder(kept);
      assert |live| == |kept| by { PickedLength(blockers, live, kept); }
      BelowMembers(sorted, |live|);
      ThroughInOrder(blockers, live, kept, sorted, SortByOffset(kept));
      ThroughHolds(live, sorted);
      assert ToWrite(source, blockers, annotate) == SortByOffset(kept);
    } else {
      NothingInOrder(blockers);
      assert ToWrite(source, blockers, annotate) == [];
    }
  }

  /** Nothing is due where nothing is to be annotated. */
  lemma NoneDue(source: string, blockers: seq<Blocker>, due: seq<Blocker>)
    requires IsDue(source, blockers, false, due)
    ensures due == []
  {
    hide InsideGenerated;
    var order :| InOrder(blockers, order, due) && forall i: nat :: i !in order;
    HeadIn(order);
  }

  lemma PickedLength(blockers: seq<Blocker>, live: seq<nat>, kept: seq<Blocker>)
    requires Picked(blockers, live, kept)
    ensures |live| == |kept|
  {
  }

  lemma BelowMembers(sorted: seq<nat>, n: nat)
    requires AllBelow(sorted, n)
    ensures forall i :: i in sorted ==> i < n
  {
  }

  lemma HeadIn(order: seq<nat>)
    ensures order != [] ==> exists i :: i in order
  {
    if order != [] { assert order[0] in order; }
  }

  lemma NothingInOrder(blockers: seq<Blocker>)
    ensures InOrder(blockers, [], [])
  {
  }

  // ----- the whole pass -----

  /** One stretch's edits, the next span's deletion, and so on; blockers in a deleted span
      go with it. */
  ghost function Script(source: string, cursor: nat, spans: seq<Edit>, blockers: seq<Blocker>): (r: seq<Edit>)
    requires cursor <= |source| && Deletions(spans, |source|) && Apart(spans) && Ascending(blockers)
    requires spans != [] ==> cursor <= spans[0].start
    ensures Orderly(r, cursor, |source|)
    decreases |spans|
  {
    if spans == [] then Plan(source, cursor, |source|, blockers)
    else
      var span := spans[0];
      var before := Plan(source, cursor, span.start, blockers);
      var left := LeftBehind(blockers, cursor, span);
      LeftAscends(blockers, cursor, span);
      var after := Script(source, span.end, spans[1..], left);
      OrderlyCons(span, after, |source|);
      OrderlyJoins(before, [span] + after, cursor, span.start, |source|);
      before + ([span] + after)
  }

  function LeftBehind(blockers: seq<Blocker>, cursor: nat, span: Edit): seq<Blocker> {
    OutOfStretch(OutOfStretch(blockers, cursor, span.start), span.start, span.end)
  }

  lemma LeftAscends(blockers: seq<Blocker>, cursor: nat, span: Edit)
    requires Ascending(blockers)
    ensures Ascending(LeftBehind(blockers, cursor, span))
  {
    StretchAscends(blockers, cursor, span.start);
    StretchAscends(OutOfStretch(blockers, cursor, span.start), span.start, span.end);
  }

  lemma ScriptUnfold(source: string, cursor: nat, spans: seq<Edit>, blockers: seq<Blocker>)
    requires cursor <= |source| && Deletions(spans, |source|) && Apart(spans) && Ascending(blockers)
    requires spans != [] && cursor <= spans[0].start
    ensures Ascending(LeftBehind(blockers, cursor, spans[0])) && Apart(spans[1..]) && Deletions(spans[1..], |source|)
    ensures spans[0].start <= spans[0].end <= |source| && spans[0].text == ""
    ensures |spans| > 1 ==> spans[0].end <= spans[1].start
    ensures Script(source, cursor, spans, blockers)
         == Plan(source, cursor, spans[0].start, blockers)
            + ([spans[0]] + Script(source, spans[0].end, spans[1..], LeftBehind(blockers, cursor, spans[0])))
  {
    hide Plan, LeftBehind, Orderly;
    LeftAscends(blockers, cursor, spans[0]);
  }

  lemma SpliceStretch(source: string, before: seq<Edit>, span: Edit, after: seq<Edit>, cursor: nat)
    requires cursor <= span.start <= span.end <= |source| && span.text == ""
    requires Orderly(before, cursor, span.start) && Orderly(after, span.end, |source|)
    ensures Orderly(before + ([span] + after), cursor, |source|)
    ensures Splice(source, before + ([span] + after), cursor)
         == Splice(source[..span.start], before, cursor) + Splice(source, after, span.end)
  {
    hide Splice, Orderly;
    OrderlyCons(span, after, |source|);
    SpliceJoins(source, before, [span] + after, cursor, span.start);
    SpliceHead(source, [span] + after, span.start);
    assert source[span.start..span.start] == "";
  }

  lemma ScriptStep(source: string, cursor: nat, spans: seq<Edit>, blockers: seq<Blocker>)
    requires cursor <= |source| && Deletions(spans, |source|) && Apart(spans) && Ascending(blockers)
    requires spans != [] && cursor <= spans[0].start
    ensures Ascending(LeftBehind(blockers, cursor, spans[0])) && Apart(spans[1..]) && Deletions(spans[1..], |source|)
    ensures spans[0].start <= spans[0].end <= |source|
    ensures |spans| > 1 ==> spans[0].end <= spans[1].start
    ensures Splice(source, Script(source, cursor, spans, blockers), cursor)
         == Splice(source[..spans[0].start], Plan(source, cursor, spans[0].start, blockers), cursor)
            + Splice(source, Script(source, spans[0].end, spans[1..], LeftBehind(blockers, cursor, spans[0])), spans[0].end)
  {
    hide Plan, LeftBehind, Splice, Script, Orderly;
    var span := spans[0];
    ScriptUnfold(source, cursor, spans, blockers);
    var before := Plan(source, cursor, span.start, blockers);
    var after := Script(source, span.end, spans[1..], LeftBehind(blockers, cursor, span));
    SpliceStretch(source, before, span, after, cursor);
  }

  /** The blockers this run writes. */
  function ToWrite(source: string, blockers: seq<Blocker>, annotate: bool): (r: seq<Blocker>)
    ensures Ascending(r)
    ensures !annotate ==> r == []
  {
    SortByOffset(if annotate then Live(source, blockers) else [])
  }

  method StripTranslated(source: string, spans: seq<Edit>, blockers: seq<Blocker>, annotate: bool)
    returns (out: string, merged: seq<Edit>)
    requires Deletions(spans, |source|)
    ensures Deletions(merged, |source|) && Apart(merged)
    ensures forall i: nat :: Covered(merged, i) <==> Gone(source, spans, i)
    ensures exists due :: IsDue(source, blockers, annotate, due) && Ascending(due) && out == Splice(source, Script(source, 0, merged, due), 0)
  {
    hide *;
    var left := ToWrite(source, blockers, annotate);
    ghost var due := left;
    ToWriteIsDue(source, blockers, annotate);
    var rest := MergeSpans(source, spans);
    merged := rest;
    ghost var all := Splice(source, Script(source, 0, merged, left), 0);
    var cursor: nat := 0;
    out := "";
    while rest != []
      invariant cursor <= |source| && Deletions(rest, |source|) && Apart(rest) && Ascending(left)
      invariant rest != [] ==> cursor <= rest[0].start
      invariant out + Splice(source, Script(source, cursor, rest, left), cursor) == all
    {
      var span := rest[0];
      ScriptStep(source, cursor, rest, left);
      var text, outside := CopyKept(left, source, cursor, span.start);
      left := LeftBehindStep(left, outside, cursor, span);
      out, cursor, rest := out + text, span.end, rest[1..];
    }
    var text, _ := CopyKept(left, source, cursor, |source|);
    ScriptEnd(source, cursor, rest, left);
    out := out + text;
  }

  function LeftBehindStep(blockers: seq<Blocker>, outside: seq<Blocker>, cursor: nat, span: Edit): (r: seq<Blocker>)
    requires outside == OutOfStretch(blockers, cursor, span.start)
    ensures r == LeftBehind(blockers, cursor, span)
  {
    OutOfStretch(outside, span.start, span.end)
  }

  lemma ScriptEnd(source: string, cursor: nat, spans: seq<Edit>, blockers: seq<Blocker>)
    requires cursor <= |source| && Ascending(blockers) && spans == [] && Deletions(spans, |source|) && Apart(spans)
    ensures Script(source, cursor, spans, blockers) == Plan(source, cursor, |source|, blockers) && source[..|source|] == source
  {
  }
}
