/**
 Speech-to-text of a long video: the audio is cut into WAV chunks, each is transcribed on its own,
 and text and segments are put back together.  Seconds are reals.
 */
module Stitching {
  import opened Common
  import opened Text

  datatype Seg = Seg(start: real, end: real, text: string)

  datatype Error = SttFailed | EmptyTranscript

  /** A chunk: the size of its file, if it is there, and what the recogniser made of it. */
  datatype Chunk = Chunk(size: Option<int>, reply: Reply)

  datatype Reply = Heard(text: string, segs: seq<Seg>) | Failed(error: Error)

  datatype Transcript = Transcript(text: string, segs: seq<Seg>)

  const WAV_BYTES_PER_SECOND := 32000
  const WAV_HEADER_BYTES := 44

  function WavDurationSeconds(size: Option<int>): (seconds: real)
    ensures seconds >= 0.0
    ensures seconds == 0.0 <==> size.None? || size.value <= 44
    ensures size.Some? && size.value >= 44 ==> seconds * 32000.0 == (size.value - 44) as real
  {
    if size.None? || size.value - WAV_HEADER_BYTES <= 0 then 0.0
    else (size.value - WAV_HEADER_BYTES) as real / WAV_BYTES_PER_SECOND as real
  }

  predicate AllHeard(chunks: seq<Chunk>) { forall i :: 0 <= i < |chunks| ==> chunks[i].reply.Heard? }

  function TextOf(c: Chunk): string { if c.reply.Heard? then c.reply.text else "" }

  function SegsOf(c: Chunk): seq<Seg> { if c.reply.Heard? then c.reply.segs else [] }

  // ---- Segments ----

  function Offset(chunks: seq<Chunk>, n: nat): real
    requires n <= |chunks|
  {
    if n == 0 then 0.0 else Offset(chunks, n - 1) + WavDurationSeconds(chunks[n - 1].size)
  }

  function Shifted(s: Seg, d: real): Seg { Seg(s.start + d, s.end + d, s.text) }

  function ShiftedAll(segs: seq<Seg>, d: real): (r: seq<Seg>)
    ensures |r| == |segs|
  {
    if segs == [] then [] else ShiftedAll(segs[..|segs| - 1], d) + [Shifted(segs[|segs| - 1], d)]
  }

  lemma {:induction false} ShiftedEach(segs: seq<Seg>, d: real)
    ensures forall i :: 0 <= i < |segs| ==> ShiftedAll(segs, d)[i] == Shifted(segs[i], d)
  {
    if segs != [] { ShiftedEach(segs[..|segs| - 1], d); }
  }

  function Stitched(chunks: seq<Chunk>, n: nat): seq<Seg>
    requires n <= |chunks|
  {
    if n == 0 then [] else Stitched(chunks, n - 1) + ShiftedAll(SegsOf(chunks[n - 1]), Offset(chunks, n - 1))
  }

  lemma {:induction false} StitchedGrows(chunks: seq<Chunk>, m: nat, n: nat)
    requires m <= n <= |chunks|
    ensures Stitched(chunks, m) <= Stitched(chunks, n)
  {
    if m < n { StitchedGrows(chunks, m, n - 1); }
  }

  lemma InLaterPart(a: seq<Seg>, b: seq<Seg>, whole: seq<Seg>, j: nat)
    requires a + b <= whole && j < |b|
    ensures |a| + j < |whole| && whole[|a| + j] == b[j]
  {
  }

  /** Behind the segments of the chunks before it, segment j of chunk i is in its place. */
  lemma StitchedAt(chunks: seq<Chunk>, i: nat, j: nat)
    requires i < |chunks| && j < |SegsOf(chunks[i])|
    ensures |Stitched(chunks, i)| + j < |Stitched(chunks, |chunks|)|
    ensures Stitched(chunks, |chunks|)[|Stitched(chunks, i)| + j] == Shifted(SegsOf(chunks[i])[j], Offset(chunks, i))
  {
    StitchedGrows(chunks, i + 1, |chunks|);
    ShiftedEach(SegsOf(chunks[i]), Offset(chunks, i));
    InLaterPart(Stitched(chunks, i), ShiftedAll(SegsOf(chunks[i]), Offset(chunks, i)), Stitched(chunks, |chunks|), j);
  }

  lemma ShiftedBack(s: Seg, d: real)
    ensures Shifted(Shifted(s, d), -d) == s
  {
  }

  /** The number of segments of the first n chunks. */
  function Count(chunks: seq<Chunk>, n: nat): nat
    requires n <= |chunks|
  {
    if n == 0 then 0 else Count(chunks, n - 1) + |SegsOf(chunks[n - 1])|
  }

  lemma {:induction false} StitchedLength(chunks: seq<Chunk>, n: nat)
    requires n <= |chunks|
    ensures |Stitched(chunks, n)| == Count(chunks, n)
  {
    if n > 0 { StitchedLength(chunks, n - 1); }
  }

  /** Segment j of chunk i is in its place, and taking off the offset of its chunk gives it back. */
  lemma StitchedRecovers(chunks: seq<Chunk>, i: nat, j: nat)
    requires i < |chunks| && j < |SegsOf(chunks[i])|
    ensures |Stitched(chunks, |chunks|)| == Count(chunks, |chunks|) && |Stitched(chunks, i)| == Count(chunks, i)
    ensures Count(chunks, i) + j < Count(chunks, |chunks|)
    ensures Shifted(Stitched(chunks, |chunks|)[Count(chunks, i) + j], -Offset(chunks, i)) == SegsOf(chunks[i])[j]
  {
    StitchedLength(chunks, i);
    StitchedLength(chunks, |chunks|);
    StitchedAt(chunks, i, j);
    ShiftedBack(SegsOf(chunks[i])[j], Offset(chunks, i));
  }

  /** And there are no other segments: every place belongs to one of some chunk. */
  lemma {:induction false} EveryPlaceIsTaken(chunks: seq<Chunk>, n: nat, place: nat) returns (i: nat, j: nat)
    requires n <= |chunks| && place < Count(chunks, n)
    ensures i < n && j < |SegsOf(chunks[i])| && place == Count(chunks, i) + j
  {
    if place < Count(chunks, n - 1) {
      i, j := EveryPlaceIsTaken(chunks, n - 1, place);
    } else {
      i, j := n - 1, place - Count(chunks, n - 1);
    }
  }

  predicate Ordered(segs: seq<Seg>) { forall i, j :: 0 <= i < j < |segs| ==> segs[i].start <= segs[j].start }

  predicate Apart(segs: seq<Seg>) { forall i, j :: 0 <= i < j < |segs| ==> segs[i].end <= segs[j].start }

  predicate Within(segs: seq<Seg>, from: real, to: real) {
    forall i :: 0 <= i < |segs| ==> from <= segs[i].start <= segs[i].end <= to
  }

  /** The segments of every chunk lie within the chunk. */
  predicate EachWithin(chunks: seq<Chunk>) {
    forall i :: 0 <= i < |chunks| ==> Within(SegsOf(chunks[i]), 0.0, WavDurationSeconds(chunks[i].size))
  }

  /** Segment j of chunk i lies between the offsets of chunk i and chunk i + 1. */
  lemma SegmentsStayInTheirChunk(chunks: seq<Chunk>, i: nat, j: nat)
    requires EachWithin(chunks) && i < |chunks| && j < |SegsOf(chunks[i])|
    ensures |Stitched(chunks, i)| + j < |Stitched(chunks, |chunks|)|
    ensures var s := Stitched(chunks, |chunks|)[|Stitched(chunks, i)| + j];
            Offset(chunks, i) <= s.start <= s.end <= Offset(chunks, i + 1)
  {
    StitchedAt(chunks, i, j);
    assert Within(SegsOf(chunks[i]), 0.0, WavDurationSeconds(chunks[i].size));
  }

  /** Appending what lies behind keeps the order, and keeps segments apart. */
  lemma AppendKeeps(a: seq<Seg>, b: seq<Seg>, from: real, middle: real, to: real)
    requires from <= middle <= to && Within(a, from, middle) && Within(b, middle, to)
    ensures Within(a + b, from, to)
    ensures Ordered(a) && Ordered(b) ==> Ordered(a + b)
    ensures Apart(a) && Apart(b) ==> Apart(a + b)
  {
  }

  lemma ShiftKeeps(segs: seq<Seg>, length: real, d: real)
    requires Within(segs, 0.0, length)
    ensures Within(ShiftedAll(segs, d), d, d + length)
    ensures Ordered(segs) ==> Ordered(ShiftedAll(segs, d))
    ensures Apart(segs) ==> Apart(ShiftedAll(segs, d))
  {
    ShiftedEach(segs, d);
  }

  /** What is kept by one more chunk holds for the whole list. */
  datatype Order = InOrder | NoOverlap

  predicate Holds(segs: seq<Seg>, o: Order) { if o.InOrder? then Ordered(segs) else Apart(segs) }

  lemma StitchStep(a: seq<Seg>, segs: seq<Seg>, offset: real, length: real, o: Order)
    requires offset >= 0.0 && length >= 0.0 && Within(a, 0.0, offset) && Within(segs, 0.0, length)
    requires Holds(a, o) && Holds(segs, o)
    ensures Within(a + ShiftedAll(segs, offset), 0.0, offset + length)
    ensures Holds(a + ShiftedAll(segs, offset), o)
  {
    ShiftKeeps(segs, length, offset);
    AppendKeeps(a, ShiftedAll(segs, offset), 0.0, offset, offset + length);
  }

  predicate EachHolds(chunks: seq<Chunk>, o: Order) { forall i :: 0 <= i < |chunks| ==> Holds(SegsOf(chunks[i]), o) }

  /**
   Chunks whose segments are in order stitch to a list in order, chunks without overlap to one
   without overlap, and all of it lies within the total length.
   */
  lemma {:induction false} StitchedIsOrdered(chunks: seq<Chunk>, n: nat, o: Order)
    requires n <= |chunks| && EachWithin(chunks) && EachHolds(chunks, o)
    ensures Offset(chunks, n) >= 0.0 && Within(Stitched(chunks, n), 0.0, Offset(chunks, n))
    ensures Holds(Stitched(chunks, n), o)
  {
    if n > 0 {
      StitchedIsOrdered(chunks, n - 1, o);
      var segs := SegsOf(chunks[n - 1]);
      assert Holds(segs, o);
      StitchStep(Stitched(chunks, n - 1), segs, Offset(chunks, n - 1), WavDurationSeconds(chunks[n - 1].size), o);
    }
  }

  // ---- Text ----

  /** The trimmed texts of the first n chunks that are not blank. */
  function Pieces(chunks: seq<Chunk>, n: nat): seq<string>
    requires n <= |chunks|
  {
    if n == 0 then []
    else
      var t := Trim(TextOf(chunks[n - 1]), Go);
      if t == "" then Pieces(chunks, n - 1) else Pieces(chunks, n - 1) + [t]
  }

  /** The first n pieces with single spaces between them. */
  function Spaced(pieces: seq<string>, n: nat): string
    requires n <= |pieces|
  {
    if n == 0 then "" else if n == 1 then pieces[0] else Spaced(pieces, n - 1) + " " + pieces[n - 1]
  }

  lemma {:induction false} SpacedPrefix(pieces: seq<string>, p: string, n: nat)
    requires n <= |pieces|
    ensures Spaced(pieces + [p], n) == Spaced(pieces, n)
  {
    if n > 0 { SpacedPrefix(pieces, p, n - 1); }
  }

  lemma {:induction false} PiecesAreClean(chunks: seq<Chunk>, n: nat)
    requires n <= |chunks|
    ensures forall p :: p in Pieces(chunks, n) ==> p != "" && Trimmed(p, Go)
  {
    if n > 0 {
      PiecesAreClean(chunks, n - 1);
      TrimCleans(TextOf(chunks[n - 1]), Go);
    }
  }

  /** The joined text needs no trimming, and is empty only without pieces. */
  lemma {:induction false} SpacedIsTrimmed(pieces: seq<string>, n: nat)
    requires n <= |pieces| && forall p :: p in pieces ==> p != "" && Trimmed(p, Go)
    ensures Trimmed(Spaced(pieces, n), Go) && (Spaced(pieces, n) == "" <==> n == 0)
  {
    if n > 0 {
      SpacedIsTrimmed(pieces, n - 1);
      assert pieces[n - 1] in pieces;
    }
  }

  /** The text as it is put together, chunk by chunk. */
  function Joined(chunks: seq<Chunk>, n: nat): string
    requires n <= |chunks|
  {
    if n == 0 then "" else WithPiece(Joined(chunks, n - 1), Trim(TextOf(chunks[n - 1]), Go))
  }

  function WithPiece(text: string, t: string): string {
    if t == "" then text else if text == "" then t else text + " " + t
  }

  lemma SpacedSnoc(pieces: seq<string>, t: string)
    requires t != "" && forall p :: p in pieces ==> p != "" && Trimmed(p, Go)
    ensures Spaced(pieces + [t], |pieces| + 1) == WithPiece(Spaced(pieces, |pieces|), t)
  {
    SpacedPrefix(pieces, t, |pieces|);
    SpacedIsTrimmed(pieces, |pieces|);
  }

  /** The text is the space-join of the non-blank trimmed pieces. */
  lemma {:induction false} JoinedIsSpaced(chunks: seq<Chunk>, n: nat)
    requires n <= |chunks|
    ensures Joined(chunks, n) == Spaced(Pieces(chunks, n), |Pieces(chunks, n)|)
  {
    if n > 0 {
      JoinedIsSpaced(chunks, n - 1);
      PiecesAreClean(chunks, n - 1);
      var before, t := Pieces(chunks, n - 1), Trim(TextOf(chunks[n - 1]), Go);
      if t != "" {
        SpacedSnoc(before, t);
        assert Pieces(chunks, n) == before + [t] && |before + [t]| == |before| + 1;
      }
    }
  }

  /** The visible characters of the texts of the first n chunks. */
  function HeardText(chunks: seq<Chunk>, n: nat): string
    requires n <= |chunks|
  {
    if n == 0 then "" else HeardText(chunks, n - 1) + Visible(TextOf(chunks[n - 1]), Go)
  }

  lemma WithPieceKeeps(text: string, t: string)
    ensures Visible(WithPiece(text, t), Go) == Visible(text, Go) + Visible(t, Go)
  {
    if t != "" && text != "" {
      VisibleConcat(text + " ", t, Go);
      VisibleConcat(text, " ", Go);
    }
  }

  /** White space aside, the joined text is what was heard, chunk after chunk. */
  lemma {:induction false} JoinedKeepsText(chunks: seq<Chunk>, n: nat)
    requires n <= |chunks|
    ensures Visible(Joined(chunks, n), Go) == HeardText(chunks, n)
  {
    if n > 0 {
      JoinedKeepsText(chunks, n - 1);
      TrimCleans(TextOf(chunks[n - 1]), Go);
      WithPieceKeeps(Joined(chunks, n - 1), Trim(TextOf(chunks[n - 1]), Go));
    }
  }

  lemma JoinedIsTrimmed(chunks: seq<Chunk>)
    ensures var text := Joined(chunks, |chunks|);
            Trim(text, Go) == text && (text == "" <==> Pieces(chunks, |chunks|) == [])
  {
    JoinedIsSpaced(chunks, |chunks|);
    PiecesAreClean(chunks, |chunks|);
    SpacedIsTrimmed(Pieces(chunks, |chunks|), |Pieces(chunks, |chunks|)|);
    TrimCleans(Joined(chunks, |chunks|), Go);
  }

  // ---- The loop ----

  /** Shifts the segments of one chunk in place. */
  method Shift(segs: array<Seg>, offset: real)
    modifies segs
    ensures segs[..] == ShiftedAll(old(segs[..]), offset)
  {
    for j := 0 to segs.Length
      invariant forall k :: 0 <= k < j ==> segs[k] == Shifted(old(segs[k]), offset)
      invariant forall k :: j <= k < segs.Length ==> segs[k] == old(segs[k])
    {
      segs[j] := Seg(segs[j].start + offset, segs[j].end + offset, segs[j].text);
    }
    ShiftedEach(old(segs[..]), offset);
    assert segs[..] == ShiftedAll(old(segs[..]), offset);
  }

  method ShiftedBy(reply: seq<Seg>, offset: real) returns (shifted: seq<Seg>)
    ensures shifted == ShiftedAll(reply, offset)
  {
    var segs := new Seg[|reply|](j requires 0 <= j < |reply| => reply[j]);
    assert segs[..] == reply;
    Shift(segs, offset);
    shifted := segs[..];
  }

  /** Adds the text of one chunk. */
  method AddText(textBuf: string, text: string) returns (longer: string)
    ensures longer == WithPiece(textBuf, Trim(text, Go))
  {
    longer := textBuf;
    var t := Trim(text, Go);
    if t != "" {
      if |longer| > 0 { longer := longer + " "; }
      longer := longer + t;
    }
  }

  /** Everything the loop has put together after n chunks. */
  ghost predicate SoFar(chunks: seq<Chunk>, n: nat, textBuf: string, allSegs: seq<Seg>, offset: real)
    requires n <= |chunks|
  {
    textBuf == Joined(chunks, n) && allSegs == Stitched(chunks, n) && offset == Offset(chunks, n)
  }

  method AddChunk(chunks: seq<Chunk>, n: nat, textBuf: string, allSegs: seq<Seg>, offset: real)
    returns (textBuf': string, allSegs': seq<Seg>, offset': real)
    requires n < |chunks| && chunks[n].reply.Heard? && SoFar(chunks, n, textBuf, allSegs, offset)
    ensures SoFar(chunks, n + 1, textBuf', allSegs', offset')
  {
    var segs := ShiftedBy(chunks[n].reply.segs, offset);
    allSegs' := allSegs + segs;
    textBuf' := AddText(textBuf, chunks[n].reply.text);
    offset' := offset + WavDurationSeconds(chunks[n].size);
  }

  /**
   Fails with the first chunk that fails, and when no chunk has any text; otherwise gives the
   non-blank texts joined by spaces and all segments shifted by the length of the chunks before.
   */
  method Stitch(chunks: seq<Chunk>) returns (r: Result<Transcript, Error>)
    ensures !AllHeard(chunks) ==>
              exists i :: 0 <= i < |chunks| && chunks[i].reply.Failed? && r == Err(chunks[i].reply.error)
                          && forall k :: 0 <= k < i ==> chunks[k].reply.Heard?
    ensures AllHeard(chunks) ==>
              var pieces := Pieces(chunks, |chunks|);
              r == if pieces == [] then Err(EmptyTranscript)
                   else Ok(Transcript(Spaced(pieces, |pieces|), Stitched(chunks, |chunks|)))
  {
    var textBuf, allSegs, offset := "", [], 0.0;
    for i := 0 to |chunks|
      invariant forall k :: 0 <= k < i ==> chunks[k].reply.Heard?
      invariant SoFar(chunks, i, textBuf, allSegs, offset)
    {
      if chunks[i].reply.Failed? { return Err(chunks[i].reply.error); }
      textBuf, allSegs, offset := AddChunk(chunks, i, textBuf, allSegs, offset);
    }
    JoinedIsSpaced(chunks, |chunks|);
    JoinedIsTrimmed(chunks);
    var transcript := Trim(textBuf, Go);
    if transcript == "" { return Err(EmptyTranscript); }
    r := Ok(Transcript(transcript, allSegs));
  }
}
