/**
 The transcript of a seeded lesson as timed segments: cut into sentences, laid end to end over the
 duration in proportion to their length.  Seconds are reals.
 */
module SeedSegments {
  import opened Common
  import opened Text

  datatype Segment = Segment(start: real, end: real, text: string)

  // ---- Sentences ----

  predicate Ends(c: char) { c == '.' || c == '!' || c == '?' || c == '\n' }

  /** Where the sentence begins that is open after n characters. */
  function From(text: string, n: nat): (from: nat)
    requires n <= |text|
    ensures from <= n
  {
    if n == 0 then 0 else if Ends(text[n - 1]) then n else From(text, n - 1)
  }

  function WithPiece(out: seq<string>, piece: string): seq<string> {
    var p := Trim(piece, Go);
    if p == "" then out else out + [p]
  }

  /** The sentences complete after n characters, trimmed, without the blank ones. */
  function Complete(text: string, n: nat): seq<string>
    requires n <= |text|
  {
    if n == 0 then []
    else if Ends(text[n - 1]) then WithPiece(Complete(text, n - 1), text[From(text, n - 1)..n])
    else Complete(text, n - 1)
  }

  function Sentences(text: string): seq<string> {
    WithPiece(Complete(text, |text|), text[From(text, |text|)..])
  }

  /** Every piece goes up to the first end of a sentence and no further. */
  lemma {:induction false} NoEndWithin(text: string, n: nat)
    requires n <= |text|
    ensures forall k :: From(text, n) <= k < n ==> text[k] !in ".!?\n"
    ensures From(text, n) > 0 ==> text[From(text, n) - 1] in ".!?\n"
  {
    if n > 0 && !Ends(text[n - 1]) { NoEndWithin(text, n - 1); }
  }

  /** At most the last character ends a sentence. */
  predicate EndsLate(p: string) { forall k :: 0 <= k < |p| - 1 ==> p[k] !in ".!?\n" }

  lemma TrimmedEndsLate(text: string, from: nat, to: nat)
    requires from <= to <= |text| && forall k :: from <= k < to - 1 ==> text[k] !in ".!?\n"
    ensures EndsLate(Trim(text[from..to], Go))
  {
    var a, b := TrimBounds(text[from..to], Go);
    assert forall k :: a <= k < b ==> text[from..to][k] == text[from + k];
  }

  lemma {:induction false} CompleteEndsLate(text: string, n: nat)
    requires n <= |text|
    ensures forall p :: p in Complete(text, n) ==> EndsLate(p)
  {
    if n > 0 {
      CompleteEndsLate(text, n - 1);
      NoEndWithin(text, n - 1);
      TrimmedEndsLate(text, From(text, n - 1), n);
    }
  }

  /** No sentence goes on behind a full stop, exclamation mark, question mark or line break. */
  lemma SentencesEndLate(text: string)
    ensures forall p :: p in Sentences(text) ==> EndsLate(p)
  {
    CompleteEndsLate(text, |text|);
    NoEndWithin(text, |text|);
    TrimmedEndsLate(text, From(text, |text|), |text|);
    assert text[From(text, |text|)..|text|] == text[From(text, |text|)..];
  }

  // ---- No text is lost ----

  /** The visible characters of the first n pieces. */
  function Shown(pieces: seq<string>, n: nat): string
    requires n <= |pieces|
  {
    if n == 0 then "" else Shown(pieces, n - 1) + Visible(pieces[n - 1], Go)
  }

  lemma {:induction false} ShownPrefix(pieces: seq<string>, p: string, n: nat)
    requires n <= |pieces|
    ensures Shown(pieces + [p], n) == Shown(pieces, n)
  {
    if n > 0 { ShownPrefix(pieces, p, n - 1); }
  }

  lemma WithPieceShows(out: seq<string>, piece: string)
    ensures var r := WithPiece(out, piece); Shown(r, |r|) == Shown(out, |out|) + Visible(piece, Go)
    ensures (forall p :: p in out ==> p != "" && Trimmed(p, Go)) ==>
              forall p :: p in WithPiece(out, piece) ==> p != "" && Trimmed(p, Go)
  {
    TrimCleans(piece, Go);
    ShownPrefix(out, Trim(piece, Go), |out|);
  }

  lemma VisibleSplit(text: string, from: nat, to: nat)
    requires from <= to <= |text|
    ensures Visible(text[..to], Go) == Visible(text[..from], Go) + Visible(text[from..to], Go)
  {
    VisibleConcat(text[..from], text[from..to], Go);
    assert text[..from] + text[from..to] == text[..to];
  }

  lemma {:induction false} CompleteShows(text: string, n: nat)
    requires n <= |text|
    ensures Shown(Complete(text, n), |Complete(text, n)|) == Visible(text[..From(text, n)], Go)
    ensures forall p :: p in Complete(text, n) ==> p != "" && Trimmed(p, Go)
  {
    if n > 0 {
      CompleteShows(text, n - 1);
      if Ends(text[n - 1]) {
        var from := From(text, n - 1);
        WithPieceShows(Complete(text, n - 1), text[from..n]);
        VisibleSplit(text, from, n);
      }
    }
  }

  /** Sentences are trimmed and not blank, and together hold every visible character in order. */
  lemma SentencesKeepText(text: string)
    ensures Shown(Sentences(text), |Sentences(text)|) == Visible(text, Go)
    ensures forall p :: p in Sentences(text) ==> p != "" && Trimmed(p, Go)
  {
    var from := From(text, |text|);
    CompleteShows(text, |text|);
    WithPieceShows(Complete(text, |text|), text[from..]);
    VisibleSplit(text, from, |text|);
    assert text[..|text|] == text && text[from..|text|] == text[from..];
  }

  method SplitSentences(text: string) returns (out: seq<string>)
    ensures out == Sentences(text)
  {
    out := [];
    var b := "";
    for n := 0 to |text|
      invariant b == text[From(text, n)..n]
      invariant out == Complete(text, n)
    {
      b := b + [text[n]];
      assert b == text[From(text, n)..n + 1];
      if Ends(text[n]) {
        var s := Trim(b, Go);
        if s != "" { out := out + [s]; }
        b := "";
      }
    }
    assert b == text[From(text, |text|)..];
    var s := Trim(b, Go);
    if s != "" { out := out + [s]; }
  }

  // ---- Segments ----

  function Runes(pieces: seq<string>, n: nat): nat
    requires n <= |pieces|
  {
    if n == 0 then 0 else Runes(pieces, n - 1) + |pieces[n - 1]|
  }

  /** Adjacent, in order, from 0 to the end, and as long as their share of the text. */
  predicate Tiles(segs: seq<Segment>, pieces: seq<string>, total: real) {
    && |segs| == |pieces| > 0
    && segs[0].start == 0.0 && segs[|segs| - 1].end == total
    && (forall i :: 0 <= i < |segs| - 1 ==> segs[i].end == segs[i + 1].start)
    && (forall i :: 0 <= i < |segs| ==> HasShare(segs[i], pieces[i], total, Runes(pieces, |pieces|)))
  }

  predicate HasShare(s: Segment, piece: string, total: real, sum: nat) {
    s.start < s.end && s.text == piece && (s.end - s.start) * sum as real == total * |piece| as real
  }

  lemma {:induction false} RunesGrow(pieces: seq<string>, m: nat, n: nat)
    requires m <= n <= |pieces|
    ensures Runes(pieces, m) <= Runes(pieces, n)
  {
    if m < n { RunesGrow(pieces, m, n - 1); }
  }

  function Share(total: real, runes: nat, sum: nat): real
    requires sum > 0
  {
    total * runes as real / sum as real
  }

  lemma SegmentHasShare(total: real, a: nat, b: nat, sum: nat, text: string)
    requires total > 0.0 && sum > 0 && b == a + |text| && text != ""
    ensures HasShare(Segment(Share(total, a, sum), Share(total, b, sum), text), text, total, sum)
  {
  }

  lemma ShareEnds(total: real, sum: nat)
    requires sum > 0
    ensures Share(total, 0, sum) == 0.0 && Share(total, sum, sum) == total
  {
  }

  function SegmentAt(pieces: seq<string>, total: real, sum: nat, k: nat): Segment
    requires k < |pieces| && sum > 0
  {
    Segment(Share(total, Runes(pieces, k), sum), Share(total, Runes(pieces, k + 1), sum), pieces[k])
  }

  ghost predicate Placed(segs: seq<Segment>, pieces: seq<string>, total: real, sum: nat) {
    sum > 0 && |segs| == |pieces| && forall k :: 0 <= k < |segs| ==> segs[k] == SegmentAt(pieces, total, sum, k)
  }

  lemma SegmentsHaveShares(segs: seq<Segment>, pieces: seq<string>, total: real, sum: nat, k: nat)
    requires total > 0.0 && Placed(segs, pieces, total, sum) && k < |segs| && pieces[k] != ""
    ensures HasShare(segs[k], pieces[k], total, sum)
  {
    SegmentHasShare(total, Runes(pieces, k), Runes(pieces, k + 1), sum, pieces[k]);
  }

  lemma SegmentsTouch(segs: seq<Segment>, pieces: seq<string>, total: real, sum: nat, k: nat)
    requires Placed(segs, pieces, total, sum) && k < |segs| - 1
    ensures segs[k].end == segs[k + 1].start
  {
  }

  lemma SegmentsSpan(segs: seq<Segment>, pieces: seq<string>, total: real, sum: nat)
    requires Placed(segs, pieces, total, sum) && pieces != [] && sum == Runes(pieces, |pieces|)
    ensures segs[0].start == 0.0 && segs[|segs| - 1].end == total
  {
    ShareEnds(total, sum);
    assert segs[0] == SegmentAt(pieces, total, sum, 0);
    assert segs[|segs| - 1] == SegmentAt(pieces, total, sum, |pieces| - 1);
  }

  lemma SegmentsTile(segs: seq<Segment>, pieces: seq<string>, total: real, sum: nat)
    requires total > 0.0 && pieces != [] && (forall p :: p in pieces ==> p != "") && sum == Runes(pieces, |pieces|)
    requires Placed(segs, pieces, total, sum)
    ensures Tiles(segs, pieces, total)
  {
    SegmentsSpan(segs, pieces, total, sum);
    forall k | 0 <= k < |segs| ensures HasShare(segs[k], pieces[k], total, sum) {
      assert pieces[k] in pieces;
      SegmentsHaveShares(segs, pieces, total, sum, k);
    }
    forall k | 0 <= k < |segs| - 1 ensures segs[k].end == segs[k + 1].start {
      SegmentsTouch(segs, pieces, total, sum, k);
    }
  }

  method CountRunes(pieces: seq<string>) returns (totalChars: nat)
    ensures totalChars == Runes(pieces, |pieces|)
  {
    totalChars := 0;
    for i := 0 to |pieces|
      invariant totalChars == Runes(pieces, i)
    {
      totalChars := totalChars + |pieces[i]|;
    }
  }

  lemma SomeRunes(pieces: seq<string>)
    requires pieces != [] && pieces[0] != ""
    ensures Runes(pieces, |pieces|) > 0
  {
    assert Runes(pieces, 1) == Runes(pieces, 0) + |pieces[0]|;
    RunesGrow(pieces, 1, |pieces|);
  }

  /** None when there is no duration or no sentence. */
  method DeriveSeedSegments(transcript: string, total: real) returns (r: Option<seq<Segment>>)
    ensures r.None? <==> total <= 0.0 || Sentences(transcript) == []
    ensures r.Some? ==> Tiles(r.value, Sentences(transcript), total)
  {
    if total <= 0.0 { return None; }
    var pieces := SplitSentences(transcript);
    if |pieces| == 0 { return None; }
    SentencesKeepText(transcript);
    var totalChars := CountRunes(pieces);
    assert pieces[0] in pieces;
    SomeRunes(pieces);
    if totalChars == 0 { return None; }
    var segs := Place(pieces, total, totalChars);
    SegmentsTile(segs, pieces, total, totalChars);
    r := Some(segs);
  }

  method Place(pieces: seq<string>, total: real, totalChars: nat) returns (segs: seq<Segment>)
    requires totalChars > 0
    ensures Placed(segs, pieces, total, totalChars)
  {
    segs := [];
    var cumChars := 0;
    for i := 0 to |pieces|
      invariant cumChars == Runes(pieces, i) && |segs| == i
      invariant forall k :: 0 <= k < i ==> segs[k] == SegmentAt(pieces, total, totalChars, k)
    {
      var start := Share(total, cumChars, totalChars);
      cumChars := cumChars + |pieces[i]|;
      var end := Share(total, cumChars, totalChars);
      segs := segs + [Segment(start, end, pieces[i])];
    }
  }
}
