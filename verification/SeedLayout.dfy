/**
 The chunks of a seeded lesson fitted to the length of its video, after every question has been
 attributed to a chunk on the original times.
 */
module SeedLayout {
  import opened ChunkAttribution
  import Sorting

  function ScaledChunk(c: Chunk, k: real): Chunk { Chunk(c.id, c.start * k, c.end * k) }

  /** The factor by which everything shrinks; 1 when it already fits or the length is unknown. */
  function Factor(span: real, video: real): (k: real)
    ensures 0.0 < k <= 1.0 && (k < 1.0 <==> video > 0.0 && span > video + 0.5)
    ensures k < 1.0 ==> span * k == video
  {
    if video > 0.0 && span > video + 0.5 then video / span else 1.0
  }

  lemma ScalingKeepsOrder(k: real, a: real, b: real)
    requires k > 0.0
    ensures a <= b <==> a * k <= b * k
  {
  }

  lemma Shrinks(a: real, k: real)
    requires a >= 0.0 && 0.0 < k <= 1.0
    ensures 0.0 <= a * k <= a
  {
    ScalingKeepsOrder(k, 0.0, a);
    if a > 0.0 { ScalingKeepsOrder(a, k, 1.0); }
  }

  /** When a lesson is fitted at all, what reaches to the span then reaches exactly to the end of the video. */
  lemma SpanFillsVideo(c: Chunk, span: real, video: real)
    requires video > 0.0 && span > video + 0.5 && c.end == span
    ensures ScaledChunk(c, Factor(span, video)).end == video
  {
  }

  /** What ends within the span ends within half a second of the video. */
  lemma ScaledFits(span: real, video: real, end: real)
    requires video > 0.0 && end <= span
    ensures end * Factor(span, video) <= video + 0.5
  {
    var k := Factor(span, video);
    if span > video + 0.5 {
      ScalingKeepsOrder(k, end, span);
      assert span * k == video;
    }
  }

  /** Fitting keeps the order of all bounds, so also which chunks overlap, touch or hold each other. */
  lemma FitKeepsOrder(a: Chunk, b: Chunk, k: real)
    requires k > 0.0
    ensures var x, y := ScaledChunk(a, k), ScaledChunk(b, k);
            && (a.start <= b.start <==> x.start <= y.start)
            && (a.end <= b.start <==> x.end <= y.start)
            && (a.start <= b.end <==> x.start <= y.end)
            && (a.end <= b.end <==> x.end <= y.end)
  {
    SameOrder(k, a.start, b.start, ScaledChunk(a, k).start, ScaledChunk(b, k).start);
    SameOrder(k, a.end, b.start, ScaledChunk(a, k).end, ScaledChunk(b, k).start);
    SameOrder(k, a.start, b.end, ScaledChunk(a, k).start, ScaledChunk(b, k).end);
    SameOrder(k, a.end, b.end, ScaledChunk(a, k).end, ScaledChunk(b, k).end);
  }

  lemma SameOrder(k: real, a: real, b: real, x: real, y: real)
    requires k > 0.0 && x == a * k && y == b * k
    ensures a <= b <==> x <= y
  {
    ScalingKeepsOrder(k, a, b);
  }

  lemma Distribute(a: real, b: real, d: real, k: real)
    requires b == a + d
    ensures b * k == a * k + d * k
  {
  }

  /** Fitting only shrinks: bounds move towards 0 and no chunk gets longer. */
  lemma FitOnlyShrinks(c: Chunk, k: real)
    requires 0.0 <= c.start <= c.end && 0.0 < k <= 1.0
    ensures 0.0 <= ScaledChunk(c, k).start <= c.start
    ensures ScaledChunk(c, k).start <= ScaledChunk(c, k).end <= c.end
    ensures ScaledChunk(c, k).end - ScaledChunk(c, k).start <= c.end - c.start
  {
    var start, end, length := c.start, c.end, c.end - c.start;
    Distribute(start, end, length, k);
    Shrinks(start, k);
    Shrinks(end, k);
    Shrinks(length, k);
    var x, y, z := start * k, end * k, length * k;
    assert ScaledChunk(c, k) == Chunk(c.id, x, y);
    assert y == x + z && 0.0 <= x <= start && 0.0 <= z <= length && y <= end;
  }

  // ---- How far the timeline reaches ----

  function LastEnd(chunks: seq<Chunk>, n: nat): real
    requires n <= |chunks|
  {
    if n == 0 then 0.0
    else if chunks[n - 1].end > LastEnd(chunks, n - 1) then chunks[n - 1].end else LastEnd(chunks, n - 1)
  }

  lemma {:induction false} LastEndIsLast(chunks: seq<Chunk>, n: nat)
    requires n <= |chunks|
    ensures forall i :: 0 <= i < n ==> chunks[i].end <= LastEnd(chunks, n)
    ensures LastEnd(chunks, n) == 0.0 || exists i :: 0 <= i < n && chunks[i].end == LastEnd(chunks, n)
  {
    if n > 0 { LastEndIsLast(chunks, n - 1); }
  }

  predicate Furthest(questions: seq<real>, floor: real, span: real) {
    && span >= floor && (forall q :: q in questions ==> q <= span)
    && (span == floor || span in questions)
  }

  method Span(questions: seq<real>, totalDur: real) returns (span: real)
    ensures Furthest(questions, totalDur, span)
  {
    span := totalDur;
    for i := 0 to |questions|
      invariant Furthest(questions[..i], totalDur, span)
    {
      assert questions[..i + 1] == questions[..i] + [questions[i]];
      if questions[i] > span { span := questions[i]; }
    }
    assert questions[..|questions|] == questions;
  }

  /** One second behind the last question, or a minute when none is at 0 or later. */
  predicate CoversQuestions(questions: seq<real>, totalDur: real) {
    && (forall i :: 0 <= i < |questions| ==> questions[i] + 1.0 <= totalDur)
    && if forall i :: 0 <= i < |questions| ==> questions[i] <= -1.0 then totalDur == 60.0
       else exists i :: 0 <= i < |questions| && totalDur == questions[i] + 1.0
  }

  /** The chunks to lay out: the given ones, or one over all questions. */
  method Boundaries(given: seq<Chunk>, questions: seq<real>) returns (chunks: seq<Chunk>, totalDur: real)
    ensures given != [] ==> chunks == given && totalDur == LastEnd(given, |given|)
    ensures given == [] ==> chunks == [Chunk(0, 0.0, totalDur)] && totalDur > 0.0
    ensures given == [] ==> CoversQuestions(questions, totalDur)
    ensures forall i :: 0 <= i < |chunks| ==> chunks[i].end <= totalDur
  {
    totalDur := 0.0;
    chunks := given;
    for i := 0 to |given|
      invariant totalDur == LastEnd(given, i)
    {
      if given[i].end > totalDur { totalDur := given[i].end; }
    }
    LastEndIsLast(given, |given|);
    if |given| == 0 {
      for i := 0 to |questions|
        invariant totalDur >= 0.0 && forall k :: 0 <= k < i ==> questions[k] + 1.0 <= totalDur
        invariant totalDur == 0.0 || exists k :: 0 <= k < i && totalDur == questions[k] + 1.0
      {
        if questions[i] + 1.0 > totalDur { totalDur := questions[i] + 1.0; }
      }
      if totalDur <= 0.0 { totalDur := 60.0; }
      chunks := [Chunk(0, 0.0, totalDur)];
    }
  }

  method AttributeAll(chunks: seq<Chunk>, questions: seq<real>) returns (qChunkIdx: seq<nat>)
    requires chunks != []
    ensures |qChunkIdx| == |questions|
    ensures forall i :: 0 <= i < |questions| ==> Attributed(chunks, questions[i], qChunkIdx[i])
  {
    qChunkIdx := [];
    for i := 0 to |questions|
      invariant |qChunkIdx| == i
      invariant forall k :: 0 <= k < i ==> Attributed(chunks, questions[k], qChunkIdx[k])
    {
      var idx := AttributeQuestion(chunks, questions[i]);
      qChunkIdx := qChunkIdx + [idx];
    }
  }

  /** One factor for every chunk. */
  ghost predicate ScaledBy(chunks: seq<Chunk>, original: seq<Chunk>, k: real) {
    |chunks| == |original| && forall i :: 0 <= i < |chunks| ==> chunks[i] == ScaledChunk(original[i], k)
  }

  method Fit(chunks: array<Chunk>, totalDur: real, span: real, video: real) returns (fitted: real)
    modifies chunks
    ensures ScaledBy(chunks[..], old(chunks[..]), Factor(span, video))
    ensures fitted == totalDur * Factor(span, video)
  {
    fitted := totalDur;
    if video > 0.0 && span > video + 0.5 {
      var k := video / span;
      for i := 0 to chunks.Length
        invariant forall j :: 0 <= j < i ==> chunks[j] == ScaledChunk(old(chunks[j]), k)
        invariant forall j :: i <= j < chunks.Length ==> chunks[j] == old(chunks[j])
      {
        chunks[i] := Chunk(chunks[i].id, chunks[i].start * k, chunks[i].end * k);
      }
      fitted := totalDur * k;
    }
  }

  lemma AllFit(chunks: seq<Chunk>, original: seq<Chunk>, span: real, video: real)
    requires video > 0.0 && ScaledBy(chunks, original, Factor(span, video))
    requires forall i :: 0 <= i < |original| ==> original[i].end <= span
    ensures forall i :: 0 <= i < |chunks| ==> chunks[i].end <= video + 0.5
  {
    forall i | 0 <= i < |chunks| ensures chunks[i].end <= video + 0.5 {
      ScaledFits(span, video, original[i].end);
    }
  }

  /**
   The layout of a lesson: a stable sort, the attribution of every question by the original times,
   one factor for all, and with a known video length nothing more than half a second past its end.
   */
  method LayOut(given: seq<Chunk>, questions: seq<real>, video: real)
    returns (chunks: array<Chunk>, totalDur: real, qChunkIdx: seq<nat>,
             ghost original: seq<Chunk>, ghost whole: real, ghost span: real)
    ensures fresh(chunks)
    ensures given != [] ==> original == Sorting.Sort(given, StartsBefore) && whole == LastEnd(given, |given|)
    ensures given == [] ==> original == [Chunk(0, 0.0, whole)] && whole > 0.0 && CoversQuestions(questions, whole)
    ensures Furthest(questions, whole, span)
    ensures InOrder(original) && ScaledBy(chunks[..], original, Factor(span, video))
    ensures totalDur == whole * Factor(span, video)
    ensures |qChunkIdx| == |questions|
    ensures forall i :: 0 <= i < |questions| ==> Attributed(original, questions[i], qChunkIdx[i])
    ensures video > 0.0 ==>
              totalDur <= video + 0.5 && forall i :: 0 <= i < |chunks[..]| ==> chunks[..][i].end <= video + 0.5
  {
    var list;
    list, totalDur := Boundaries(given, questions);
    whole := totalDur;
    var reach := Span(questions, totalDur);
    span := reach;
    var sorted := Sorting.Sort(list, StartsBefore);
    original := sorted;
    SortedListFits(list, whole);
    SortOfOne(Chunk(0, 0.0, whole));
    qChunkIdx := AttributeAll(sorted, questions);
    chunks := new Chunk[|sorted|](i requires 0 <= i < |sorted| => sorted[i]);
    assert chunks[..] == sorted;
    totalDur := Fit(chunks, totalDur, reach, video);
    if video > 0.0 {
      ScaledFits(span, video, whole);
      AllFit(chunks[..], original, span, video);
    }
  }

  lemma SortOfOne(c: Chunk)
    ensures Sorting.Sort([c], StartsBefore) == [c]
  {
    Sorting.SortedStays([c], StartsBefore);
  }

  lemma SortedListFits(list: seq<Chunk>, whole: real)
    requires forall i :: 0 <= i < |list| ==> list[i].end <= whole
    ensures var sorted := Sorting.Sort(list, StartsBefore);
            InOrder(sorted) && forall i :: 0 <= i < |sorted| ==> sorted[i].end <= whole
  {
    StartsBeforeIsOrder();
    Sorting.SortSorts(list, StartsBefore);
    Sorting.SortKeepsElements(list, StartsBefore);
    var sorted := Sorting.Sort(list, StartsBefore);
    forall i | 0 <= i < |sorted| ensures sorted[i].end <= whole {
      assert sorted[i] in multiset(list);
    }
  }
}
