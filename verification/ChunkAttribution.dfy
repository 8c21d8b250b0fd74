/**
 Which chunk of a lesson a moment belongs to: the loop of the seeder and the function the service
 asks for live lessons.
 */
module ChunkAttribution {
  import opened Common
  import Sorting

  datatype Chunk = Chunk(id: Uuid, start: real, end: real)

  predicate Covers(c: Chunk, seconds: real) { c.start <= seconds < c.end }

  /** The first chunk around that time; else the last one begun; else the first. */
  predicate Attributed(chunks: seq<Chunk>, seconds: real, idx: nat) {
    && idx < |chunks|
    && if exists k :: 0 <= k < |chunks| && Covers(chunks[k], seconds) then
         Covers(chunks[idx], seconds) && forall k :: 0 <= k < idx ==> !Covers(chunks[k], seconds)
       else if exists k :: 0 <= k < |chunks| && chunks[k].start <= seconds then
         chunks[idx].start <= seconds && forall k :: idx < k < |chunks| ==> chunks[k].start > seconds
       else idx == 0
  }

  lemma AttributionIsUnique(chunks: seq<Chunk>, seconds: real, i: nat, j: nat)
    requires Attributed(chunks, seconds, i) && Attributed(chunks, seconds, j)
    ensures i == j
  {
  }

  predicate StartsBefore(a: Chunk, b: Chunk) { a.start < b.start }

  predicate InOrder(chunks: seq<Chunk>) { Sorting.Sorted(chunks, StartsBefore) }

  /** On a sorted list the last chunk begun is the latest one begun. */
  lemma LastBegunIsLatest(chunks: seq<Chunk>, seconds: real, idx: nat)
    requires InOrder(chunks) && Attributed(chunks, seconds, idx)
    requires !exists k :: 0 <= k < |chunks| && Covers(chunks[k], seconds)
    ensures forall k :: 0 <= k < |chunks| && chunks[k].start <= seconds ==> chunks[k].start <= chunks[idx].start
  {
  }

  /** Chunks that follow each other without gap or overlap, as the seeder lays them out. */
  predicate Tiled(chunks: seq<Chunk>) {
    && (forall k :: 0 <= k < |chunks| ==> chunks[k].start < chunks[k].end)
    && forall k :: 0 <= k < |chunks| - 1 ==> chunks[k].end == chunks[k + 1].start
  }

  lemma {:induction false} TiledInOrder(chunks: seq<Chunk>, i: nat, j: nat)
    requires Tiled(chunks) && i < j < |chunks|
    ensures chunks[i].end <= chunks[j].start
  {
    if i + 1 < j { TiledInOrder(chunks, i, j - 1); }
  }

  lemma {:induction false} SomeChunkHolds(chunks: seq<Chunk>, seconds: real, j: nat) returns (i: nat)
    requires Tiled(chunks) && j < |chunks| && chunks[0].start <= seconds < chunks[j].end
    ensures i <= j && chunks[i].start <= seconds < chunks[i].end
  {
    if chunks[j].start <= seconds { i := j; } else { i := SomeChunkHolds(chunks, seconds, j - 1); }
  }

  /** On chunks without gap or overlap a moment belongs to the chunk around it, or to the nearest one. */
  lemma TiledAttribution(chunks: seq<Chunk>, seconds: real, idx: nat)
    requires Tiled(chunks) && idx < |chunks|
    ensures Attributed(chunks, seconds, idx)
            <==> if seconds < chunks[0].start then idx == 0
                 else if seconds >= chunks[|chunks| - 1].end then idx == |chunks| - 1
                 else chunks[idx].start <= seconds < chunks[idx].end
  {
    var n := |chunks|;
    forall i, j | 0 <= i < j < n ensures chunks[i].end <= chunks[j].start { TiledInOrder(chunks, i, j); }
    if chunks[0].start <= seconds < chunks[n - 1].end {
      var i := SomeChunkHolds(chunks, seconds, n - 1);
      assert Covers(chunks[i], seconds);
    } else if seconds >= chunks[0].start {
      assert chunks[n - 1].start <= seconds;
    } else {
      assert Attributed(chunks, seconds, 0);
    }
  }

  /** Before chunk j nothing covers the moment, and idx is the last one begun, or still the first. */
  predicate Scanned(chunks: seq<Chunk>, seconds: real, j: nat, idx: nat) {
    && idx < |chunks| && j <= |chunks|
    && (forall k :: 0 <= k < j ==> !Covers(chunks[k], seconds))
    && (forall k :: idx < k < j ==> chunks[k].start > seconds)
    && (idx == 0 || chunks[idx].start <= seconds)
    && (forall k :: 0 <= k < j && chunks[k].start <= seconds ==> chunks[idx].start <= seconds)
  }

  lemma ScanStep(chunks: seq<Chunk>, seconds: real, j: nat, idx: nat)
    requires Scanned(chunks, seconds, j, idx) && j < |chunks|
    ensures if Covers(chunks[j], seconds) then Attributed(chunks, seconds, j)
            else Scanned(chunks, seconds, j + 1, if chunks[j].start <= seconds then j else idx)
  {
  }

  lemma ScanEnds(chunks: seq<Chunk>, seconds: real, idx: nat)
    requires Scanned(chunks, seconds, |chunks|, idx)
    ensures Attributed(chunks, seconds, idx)
  {
  }

  /** The loop of the seeder. */
  method AttributeQuestion(chunks: seq<Chunk>, seconds: real) returns (idx: nat)
    requires chunks != []
    ensures Attributed(chunks, seconds, idx)
  {
    idx := 0;
    for j := 0 to |chunks|
      invariant Scanned(chunks, seconds, j, idx)
    {
      var c := chunks[j];
      ScanStep(chunks, seconds, j, idx);
      if c.start <= seconds && seconds < c.end { return j; }
      if c.start <= seconds { idx := j; }
    }
    ScanEnds(chunks, seconds, idx);
  }

  lemma StartsBeforeIsOrder()
    ensures Sorting.IsOrder(StartsBefore)
  {
  }

  /** What sort.Slice may leave: sorted, the same chunks, and no promise about chunks that start together. */
  predicate SortsTo(chunks: seq<Chunk>, sorted: seq<Chunk>) {
    InOrder(sorted) && multiset(sorted) == multiset(chunks)
  }

  method SortByStart(chunks: array<Chunk>)
    modifies chunks
    ensures SortsTo(old(chunks[..]), chunks[..])
  {
    StartsBeforeIsOrder();
    var sorted := Sorting.Sort(chunks[..], StartsBefore);
    Sorting.SortSorts(chunks[..], StartsBefore);
    Sorting.SortKeepsElements(chunks[..], StartsBefore);
    for i := 0 to chunks.Length
      invariant chunks[..i] == sorted[..i]
    {
      chunks[i] := sorted[i];
    }
    assert chunks[..] == sorted;
  }

  /** The service's decision for a live lesson; sorts the slice it is given. */
  method ChunkForSeconds(chunks: array<Chunk>, seconds: real) returns (best: Option<Uuid>)
    modifies chunks
    ensures SortsTo(old(chunks[..]), chunks[..])
    ensures best.None? <==> chunks.Length == 0
    ensures best.Some? ==> exists idx: nat :: Attributed(chunks[..], seconds, idx) && best.value == chunks[idx].id
    // Whenever the sort leaves the slice alone, the answer is the chunk attributed on the slice as given.
    ensures chunks[..] == old(chunks[..]) ==>
              forall i: nat :: Attributed(old(chunks[..]), seconds, i) ==> best == Some(old(chunks[..])[i].id)
  {
    if chunks.Length == 0 { return None; }
    SortByStart(chunks);
    ghost var s, idx := chunks[..], 0;
    var id := chunks[0].id;
    for j := 0 to chunks.Length
      invariant chunks[..] == s && Scanned(s, seconds, j, idx) && id == s[idx].id
    {
      var c := chunks[j];
      ScanStep(s, seconds, j, idx);
      if c.start <= seconds && seconds < c.end { return Some(c.id); }
      if c.start <= seconds {
        id := c.id;
        idx := j;
      }
    }
    ScanEnds(s, seconds, idx);
    best := Some(id);
  }

  predicate DistinctStarts(chunks: seq<Chunk>) {
    forall i, j :: 0 <= i < j < |chunks| ==> chunks[i].start != chunks[j].start
  }

  lemma SameFirst(a: seq<Chunk>, b: seq<Chunk>)
    requires InOrder(a) && InOrder(b) && multiset(a) == multiset(b) && DistinctStarts(a) && a != [] && b != []
    ensures a[0] == b[0]
  {
    assert a[0] in multiset(b) && b[0] in multiset(a);
    var j :| 0 <= j < |b| && b[j] == a[0];
    var i :| 0 <= i < |a| && a[i] == b[0];
    assert j == 0 || !StartsBefore(b[j], b[0]);
    assert i == 0 || !StartsBefore(a[i], a[0]);
    assert a[i].start == a[0].start;
  }

  lemma RestOf(a: seq<Chunk>)
    requires a != []
    ensures multiset(a[1..]) == multiset(a) - multiset{a[0]}
    ensures InOrder(a) ==> InOrder(a[1..])
    ensures DistinctStarts(a) ==> DistinctStarts(a[1..])
  {
    assert a == [a[0]] + a[1..];
  }

  /** With distinct starts there is one sorted order, so both sorts and both loops agree. */
  lemma {:induction false} SortedOrderIsUnique(a: seq<Chunk>, b: seq<Chunk>)
    requires InOrder(a) && InOrder(b) && multiset(a) == multiset(b) && DistinctStarts(a)
    ensures a == b
  {
    assert |multiset(a)| == |a| && |multiset(b)| == |b|;
    if a != [] {
      SameFirst(a, b);
      RestOf(a);
      RestOf(b);
      SortedOrderIsUnique(a[1..], b[1..]);
      assert a == [a[0]] + a[1..] && b == [b[0]] + b[1..];
    }
  }

  // ---- Exactly when the seeder and the service agree ----

  predicate Covered(chunks: seq<Chunk>, seconds: real) { exists k :: 0 <= k < |chunks| && Covers(chunks[k], seconds) }

  predicate Begun(chunks: seq<Chunk>, seconds: real) { exists k :: 0 <= k < |chunks| && chunks[k].start <= seconds }

  /**
   The chunks that compete for a moment, whatever the order of the list: of those around it the
   earliest begun, else of those begun the latest, else the earliest of all.
   */
  predicate Candidate(chunks: seq<Chunk>, seconds: real, c: Chunk) {
    && c in chunks
    && if Covered(chunks, seconds) then
         Covers(c, seconds) && forall d :: d in chunks && Covers(d, seconds) ==> c.start <= d.start
       else if Begun(chunks, seconds) then
         c.start <= seconds && forall d :: d in chunks && d.start <= seconds ==> d.start <= c.start
       else forall d :: d in chunks ==> c.start <= d.start
  }

  lemma SortedHasSame(chunks: seq<Chunk>, sorted: seq<Chunk>, c: Chunk)
    requires SortsTo(chunks, sorted)
    ensures c in chunks <==> c in sorted
  {
    assert c in multiset(chunks) <==> c in multiset(sorted);
  }

  lemma SortedCompetesSame(chunks: seq<Chunk>, sorted: seq<Chunk>, seconds: real)
    requires SortsTo(chunks, sorted)
    ensures Covered(chunks, seconds) <==> Covered(sorted, seconds)
    ensures Begun(chunks, seconds) <==> Begun(sorted, seconds)
    ensures forall c :: Candidate(chunks, seconds, c) <==> Candidate(sorted, seconds, c)
  {
    forall c ensures c in chunks <==> c in sorted { SortedHasSame(chunks, sorted, c); }
    forall k | 0 <= k < |chunks| ensures chunks[k] in sorted { assert chunks[k] in chunks; }
    forall k | 0 <= k < |sorted| ensures sorted[k] in chunks { assert sorted[k] in sorted; }
  }

  /** The attributed chunk of a sorted list is a candidate. */
  lemma AttributedCompetes(sorted: seq<Chunk>, seconds: real, i: nat)
    requires InOrder(sorted) && Attributed(sorted, seconds, i)
    ensures Candidate(sorted, seconds, sorted[i])
  {
    forall d | d in sorted && !Covered(sorted, seconds) && !Begun(sorted, seconds)
      ensures sorted[i].start <= d.start
    {
      var k :| 0 <= k < |sorted| && sorted[k] == d;
      assert k == 0 || !StartsBefore(sorted[k], sorted[0]);
    }
    if Covered(sorted, seconds) {
      forall d | d in sorted && Covers(d, seconds) ensures sorted[i].start <= d.start {
        var k :| 0 <= k < |sorted| && sorted[k] == d;
        assert k == i || !StartsBefore(sorted[k], sorted[i]);
      }
    } else if Begun(sorted, seconds) {
      LastBegunIsLatest(sorted, seconds, i);
    }
  }

  function Swapped(s: seq<Chunk>, i: nat, m: nat): seq<Chunk>
    requires i < |s| && m < |s|
  {
    s[i := s[m]][m := s[i]]
  }

  /** Swapping two chunks that start together keeps the list sorted. */
  lemma SwappedSortsTo(chunks: seq<Chunk>, s: seq<Chunk>, i: nat, m: nat)
    requires SortsTo(chunks, s) && i < |s| && m < |s| && s[i].start == s[m].start
    ensures SortsTo(chunks, Swapped(s, i, m))
    ensures forall k :: 0 <= k < |s| ==> Swapped(s, i, m)[k].start == s[k].start
  {
    var b := Swapped(s, i, m);
    forall j, k | 0 <= j < k < |b| ensures !StartsBefore(b[k], b[j]) { assert !StartsBefore(s[k], s[j]); }
  }

  /** A candidate that changes places with the attributed chunk is attributed instead. */
  lemma SwappedAttributes(s: seq<Chunk>, seconds: real, i: nat, m: nat)
    requires Attributed(s, seconds, i) && m < |s| && s[m].start == s[i].start
    requires Covers(s[i], seconds) ==> Covers(s[m], seconds)
    requires Covered(s, seconds) <==> Covered(Swapped(s, i, m), seconds)
    requires Begun(s, seconds) <==> Begun(Swapped(s, i, m), seconds)
    ensures Attributed(Swapped(s, i, m), seconds, i)
  {
    var b := Swapped(s, i, m);
    forall k | 0 <= k < i && Covered(b, seconds) ensures !Covers(b[k], seconds) { assert !Covers(s[k], seconds); }
  }

  /** Every candidate is attributed after some sort. */
  lemma CandidateCanWin(chunks: seq<Chunk>, s: seq<Chunk>, seconds: real, i: nat, c: Chunk) returns (b: seq<Chunk>)
    requires SortsTo(chunks, s) && Attributed(s, seconds, i) && Candidate(chunks, seconds, c)
    ensures SortsTo(chunks, b) && Attributed(b, seconds, i) && b[i] == c
  {
    SortedCompetesSame(chunks, s, seconds);
    AttributedCompetes(s, seconds, i);
    SortedHasSame(chunks, s, c);
    var m :| 0 <= m < |s| && s[m] == c;
    b := Swapped(s, i, m);
    SwappedSortsTo(chunks, s, i, m);
    SortedCompetesSame(s, b, seconds);
    SwappedAttributes(s, seconds, i, m);
  }

  /** The service may answer with any candidate. */
  ghost predicate AllSortsAgree(chunks: seq<Chunk>, seconds: real, id: Uuid) {
    forall sorted: seq<Chunk>, j: nat ::
      SortsTo(chunks, sorted) && Attributed(sorted, seconds, j) ==> sorted[j].id == id
  }

  predicate OneCandidate(chunks: seq<Chunk>, seconds: real, id: Uuid) {
    forall c :: c in chunks && Candidate(chunks, seconds, c) ==> c.id == id
  }

  /**
   The seeder attributes on the list as it numbered it, sorted; the service reads that list back and
   sorts it again.  They agree, whatever that sort does, exactly when all candidates are one chunk.
   */
  lemma SeederAgreesWithServiceIff(stored: seq<Chunk>, seconds: real, i: nat)
    requires InOrder(stored) && Attributed(stored, seconds, i)
    ensures AllSortsAgree(stored, seconds, stored[i].id) <==> OneCandidate(stored, seconds, stored[i].id)
  {
    if AllSortsAgree(stored, seconds, stored[i].id) {
      forall c | c in stored && Candidate(stored, seconds, c) ensures c.id == stored[i].id {
        var b := CandidateCanWin(stored, stored, seconds, i, c);
        assert SortsTo(stored, b) && Attributed(b, seconds, i);
      }
    }
    if OneCandidate(stored, seconds, stored[i].id) {
      forall sorted: seq<Chunk>, j: nat | SortsTo(stored, sorted) && Attributed(sorted, seconds, j)
        ensures sorted[j].id == stored[i].id
      {
        AttributedCompetes(sorted, seconds, j);
        SortedCompetesSame(stored, sorted, seconds);
      }
    }
  }

  /** On a sorted list the candidates are the chunks that start with the attributed one and cover what it covers. */
  lemma CandidatesTie(s: seq<Chunk>, seconds: real, i: nat, c: Chunk)
    requires InOrder(s) && Attributed(s, seconds, i)
    ensures Candidate(s, seconds, c)
            <==> c in s && c.start == s[i].start && (Covers(s[i], seconds) ==> Covers(c, seconds))
  {
    AttributedCompetes(s, seconds, i);
    if c in s && c.start == s[i].start && Covers(c, seconds) { assert Covered(s, seconds); }
  }

  /** With distinct starts there is one candidate, and even one order, so both attribute the same chunk. */
  lemma SeederAgreesWithService(seeded: seq<Chunk>, stored: seq<Chunk>, seconds: real, i: nat, j: nat)
    requires InOrder(seeded) && InOrder(stored) && multiset(seeded) == multiset(stored) && DistinctStarts(seeded)
    requires Attributed(seeded, seconds, i) && Attributed(stored, seconds, j)
    ensures i == j && seeded[i] == stored[j] && OneCandidate(seeded, seconds, seeded[i].id)
  {
    SortedOrderIsUnique(seeded, stored);
    AttributionIsUnique(seeded, seconds, i, j);
    forall c | c in seeded && Candidate(seeded, seconds, c) ensures c.id == seeded[i].id {
      CandidatesTie(seeded, seconds, i, c);
      var k :| 0 <= k < |seeded| && seeded[k] == c;
      assert k == i;
    }
  }

  /**
   A sort that leaves what is sorted alone, as the modelled one and any stable one does, makes the
   service answer with the seeder's chunk on every stored list, chunks that start together included.
   */
  lemma SortedSliceAgrees(stored: seq<Chunk>, seconds: real, i: nat, j: nat)
    requires InOrder(stored) && Attributed(stored, seconds, i)
    requires Attributed(Sorting.Sort(stored, StartsBefore), seconds, j)
    ensures Sorting.Sort(stored, StartsBefore) == stored && i == j
  {
    Sorting.SortedStays(stored, StartsBefore);
    AttributionIsUnique(stored, seconds, i, j);
  }

  /**
   Two chunks that start together, stored in the order the seeder attributed them in: what is
   documented of the sort of the service lets it turn them round, and then the other one is the answer.
   */
  lemma TiesCanDisagree()
    ensures exists stored: seq<Chunk>, sorted: seq<Chunk>, seconds: real, i: nat, j: nat ::
      && InOrder(stored) && Attributed(stored, seconds, i)
      && SortsTo(stored, sorted) && Attributed(sorted, seconds, j) && sorted[j].id != stored[i].id
  {
    var x, y := Chunk(1, 0.0, 10.0), Chunk(2, 0.0, 20.0);
    var stored, sorted := [x, y], [y, x];
    assert Covers(stored[0], 5.0) && Covers(sorted[0], 5.0);
    assert Attributed(stored, 5.0, 0) && Attributed(sorted, 5.0, 0) && stored[0].id != sorted[0].id;
    assert multiset(stored) == multiset{x, y} && multiset(sorted) == multiset{x, y};
    assert SortsTo(stored, sorted);
  }
}
