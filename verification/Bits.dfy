/** Packed bitmaps: bit i lives in byte i/8 at position i%8. */
module Bits {

  /** 1 << k */
  function Mask(k: nat): bv8
    requires k < 8
  {
    match k
    case 0 => 1 case 1 => 2 case 2 => 4 case 3 => 8 case 4 => 16 case 5 => 32 case 6 => 64 case _ => 128
  }

  /** (1 << k) - 1 */
  function LowMask(k: nat): bv8
    requires k < 8
  {
    Mask(k) - 1
  }

  predicate HasBit(b: bv8, k: nat)
    requires k < 8
  {
    b & Mask(k) != 0
  }

  lemma SetBitInByte(b: bv8, k: nat, j: nat)
    requires k < 8 && j < 8
    ensures HasBit(b | Mask(k), j) <==> HasBit(b, j) || j == k
  {
  }

  lemma LowBitsOfByte(b: bv8, k: nat, j: nat)
    requires k < 8 && j < 8
    ensures HasBit(b & LowMask(k), j) <==> HasBit(b, j) && j < k
  {
  }

  function Bit(b: bv8, k: nat): nat
    requires k < 8
  {
    if HasBit(b, k) then 1 else 0
  }

  function OnesCount(b: bv8): nat {
    Bit(b, 0) + Bit(b, 1) + Bit(b, 2) + Bit(b, 3) + Bit(b, 4) + Bit(b, 5) + Bit(b, 6) + Bit(b, 7)
  }

  predicate IsMarked(bm: seq<bv8>, i: nat) { i / 8 < |bm| && HasBit(bm[i / 8], i % 8) }

  /** The numbers below n whose bits are set. */
  function MarkedBelow(bm: seq<bv8>, n: nat): set<nat> {
    set i: nat | i < n && IsMarked(bm, i)
  }

  function Marked(bm: seq<bv8>): set<nat> { MarkedBelow(bm, 8 * |bm|) }

  lemma NextBit(bm: seq<bv8>, i: nat, k: nat)
    requires i < |bm| && k < 8
    ensures |MarkedBelow(bm, 8 * i + k + 1)| == |MarkedBelow(bm, 8 * i + k)| + Bit(bm[i], k)
  {
    var n := 8 * i + k;
    assert n / 8 == i && n % 8 == k;
    assert MarkedBelow(bm, n + 1) == if IsMarked(bm, n) then MarkedBelow(bm, n) + {n} else MarkedBelow(bm, n);
  }

  /** Counting a whole byte at once counts its eight bits. */
  lemma NextByte(bm: seq<bv8>, i: nat)
    requires i < |bm|
    ensures |MarkedBelow(bm, 8 * i + 8)| == |MarkedBelow(bm, 8 * i)| + OnesCount(bm[i])
  {
    NextBit(bm, i, 0); NextBit(bm, i, 1); NextBit(bm, i, 2); NextBit(bm, i, 3);
    NextBit(bm, i, 4); NextBit(bm, i, 5); NextBit(bm, i, 6); NextBit(bm, i, 7);
  }

  /** Counting the masked last byte counts only the bits below the bound. */
  lemma {:induction false} LowBits(bm: seq<bv8>, i: nat, rem: nat)
    requires i < |bm| && rem < 8
    ensures |MarkedBelow(bm, 8 * i + rem)| == |MarkedBelow(bm, 8 * i)| + OnesCount(bm[i] & LowMask(rem))
  {
    var low := bm[i := bm[i] & LowMask(rem)];
    forall j: nat | 8 * i <= j < 8 * i + 8 ensures IsMarked(low, j) <==> IsMarked(bm, j) && j < 8 * i + rem {
      LowBitsOfByte(bm[i], rem, j % 8);
    }
    NextByte(low, i);
    assert MarkedBelow(low, 8 * i) == MarkedBelow(bm, 8 * i);
    assert MarkedBelow(low, 8 * i + 8) == MarkedBelow(bm, 8 * i + rem);
  }

  lemma SetBitMarks(bm: seq<bv8>, i: nat)
    requires i / 8 < |bm|
    ensures Marked(bm[i / 8 := bm[i / 8] | Mask(i % 8)]) == Marked(bm) + {i}
  {
    var set1 := bm[i / 8 := bm[i / 8] | Mask(i % 8)];
    forall j: nat ensures IsMarked(set1, j) <==> IsMarked(bm, j) || j == i {
      if j / 8 == i / 8 { SetBitInByte(bm[i / 8], i % 8, j % 8); }
    }
    assert forall j :: j in Marked(set1) <==> j in Marked(bm) + {i};
  }

  /** `bm[i/8] |= 1 << (i%8)`; reports whether the bit was clear. */
  method SetBit(bm: array<bv8>, i: nat) returns (added: bool)
    requires i / 8 < bm.Length
    modifies bm
    ensures added <==> i !in Marked(old(bm[..]))
    ensures Marked(bm[..]) == Marked(old(bm[..])) + {i}
  {
    added := bm[i / 8] & Mask(i % 8) == 0;
    if added {
      SetBitMarks(bm[..], i);
      ghost var was := bm[..];
      bm[i / 8] := bm[i / 8] | Mask(i % 8);
      assert bm[..] == was[i / 8 := was[i / 8] | Mask(i % 8)];
    }
  }

  /** Popcount over all bytes. */
  method CountOnes(bm: array<bv8>) returns (count: nat)
    ensures count == |Marked(bm[..])|
  {
    count := 0;
    assert MarkedBelow(bm[..], 0) == {};
    for i := 0 to bm.Length
      invariant count == |MarkedBelow(bm[..], 8 * i)|
    {
      NextByte(bm[..], i);
      count := count + OnesCount(bm[i]);
    }
  }
}
