/**
 The chunked value store on top of a flat ordered key space: a value is cut into chunks under
 (ns, "c", key, index), with their number under (ns, "m", key); raw records live under (ns, "r", key).
 */
module ChunkedStore {
  import opened Common

  /** Tuple elements; packing tuples to bytes is injective and concatenates, so keys are kept as tuples. */
  datatype Element = Text(text: string) | Number(number: nat)

  type Tuple = seq<Element>

  type Data = map<Tuple, Bytes>

  const MAX_VALUE_BYTES := 90_000
  const TWO_TO_32 := 0x1_0000_0000

  function MetaKey(ns: string, key: Tuple): Tuple { [Text(ns), Text("m")] + key }

  function ChunkKey(ns: string, key: Tuple, idx: nat): Tuple { [Text(ns), Text("c")] + key + [Number(idx)] }

  function RawKey(ns: string, key: Tuple): Tuple { [Text(ns), Text("r")] + key }

  predicate IsChunkOf(k: Tuple, ns: string, key: Tuple) {
    k != [] && k[|k| - 1].Number? && k == ChunkKey(ns, key, k[|k| - 1].number)
  }

  predicate Belongs(k: Tuple, ns: string, key: Tuple) { k == MetaKey(ns, key) || IsChunkOf(k, ns, key) }

  /** No two logical keys share a record, and none shares one with a raw key. */
  lemma KeysAreApart(ns: string, key: Tuple, ns2: string, key2: Tuple, idx: nat)
    ensures Belongs(MetaKey(ns, key), ns2, key2) <==> ns == ns2 && key == key2
    ensures Belongs(ChunkKey(ns, key, idx), ns2, key2) <==> ns == ns2 && key == key2
    ensures !Belongs(RawKey(ns, key), ns2, key2)
    ensures RawKey(ns, key) == RawKey(ns2, key2) <==> ns == ns2 && key == key2
  {
    assert MetaKey(ns, key)[2..] == key && MetaKey(ns2, key2)[2..] == key2;
    assert RawKey(ns, key)[2..] == key && RawKey(ns2, key2)[2..] == key2;
    var c, c2 := ChunkKey(ns, key, idx), ChunkKey(ns2, key2, idx);
    assert c[2..|c| - 1] == key && c2[2..|c2| - 1] == key2;
    assert c[0] == Text(ns) && c2[0] == Text(ns2) && c[|c| - 1] == Number(idx);
    assert MetaKey(ns, key)[0] == Text(ns) && MetaKey(ns2, key2)[0] == Text(ns2);
    assert RawKey(ns, key)[0] == Text(ns) && RawKey(ns2, key2)[0] == Text(ns2);
    assert MetaKey(ns, key)[1] == Text("m") && RawKey(ns, key)[1] == Text("r") && c[1] == Text("c");
    assert "m"[0] == 'm' && "c"[0] == 'c' && "r"[0] == 'r';
    assert forall j: nat :: ChunkKey(ns2, key2, j)[1] == Text("c");
    assert MetaKey(ns2, key2)[1] == Text("m");
  }

  lemma ChunkKeysDiffer(ns: string, key: Tuple, i: nat, j: nat)
    ensures ChunkKey(ns, key, i) == ChunkKey(ns, key, j) <==> i == j
    ensures IsChunkOf(ChunkKey(ns, key, i), ns, key)
  {
  }

  // ---- Encoding the number of chunks ----

  /** Four little-endian bytes of the number modulo 2^32. */
  function PutUint32(n: nat): (b: Bytes)
    ensures |b| == 4 && Uint32(b) == n % 0x1_0000_0000
  {
    var m := n % TWO_TO_32;
    var m1 := m / 256;
    var m2 := m1 / 256;
    [m % 256, m1 % 256, m2 % 256, m2 / 256]
  }

  /** Metadata is only ever written by PutUint32, so the other lengths do not occur. */
  function Uint32(b: Bytes): nat {
    if |b| != 4 then 0 else b[0] as int + 256 * b[1] as int + 65536 * b[2] as int + 16777216 * b[3] as int
  }

  // ---- Chunks ----

  function Split(value: Bytes): (chunks: seq<Bytes>)
    ensures forall i :: 0 <= i < |chunks| ==> 0 < |chunks[i]| <= 90_000
  {
    if value == [] then []
    else if |value| <= MAX_VALUE_BYTES then [value]
    else [value[..MAX_VALUE_BYTES]] + Split(value[MAX_VALUE_BYTES..])
  }

  function Join(chunks: seq<Bytes>): Bytes {
    if chunks == [] then [] else chunks[0] + Join(chunks[1..])
  }

  lemma {:induction false} JoinSplit(value: Bytes)
    ensures Join(Split(value)) == value
    ensures value != [] ==> |value| <= 90_000 * |Split(value)| < |value| + 90_000
  {
    if |value| > MAX_VALUE_BYTES {
      var rest := value[MAX_VALUE_BYTES..];
      JoinSplit(rest);
      assert Split(value)[1..] == Split(rest);
      assert value == value[..MAX_VALUE_BYTES] + rest;
    } else if value != [] {
      assert Join([value]) == value + Join([]);
    }
  }

  lemma {:induction false} JoinAppend(chunks: seq<Bytes>, last: Bytes)
    ensures Join(chunks + [last]) == Join(chunks) + last
  {
    if chunks == [] {
      assert [last][1..] == [] && Join([last]) == last + Join([]);
    } else {
      JoinAppend(chunks[1..], last);
      assert (chunks + [last])[1..] == chunks[1..] + [last];
    }
  }

  // ---- The three operations on the key space ----

  function WithoutChunks(d: Data, ns: string, key: Tuple, n: nat): Data {
    if n == 0 then d else WithoutChunks(d, ns, key, n - 1) - {ChunkKey(ns, key, n - 1)}
  }

  /** Delete, also the first half of Set: the metadata and as many chunks as it counts. */
  function Cleared(d: Data, ns: string, key: Tuple): Data {
    if MetaKey(ns, key) !in d then d
    else WithoutChunks(d - {MetaKey(ns, key)}, ns, key, Uint32(d[MetaKey(ns, key)]))
  }

  function WithChunks(d: Data, ns: string, key: Tuple, chunks: seq<Bytes>, n: nat): Data
    requires n <= |chunks|
  {
    if n == 0 then d else WithChunks(d, ns, key, chunks, n - 1)[ChunkKey(ns, key, n - 1) := chunks[n - 1]]
  }

  function Put(d: Data, ns: string, key: Tuple, value: Bytes): Data {
    var chunks := Split(value);
    WithChunks(Cleared(d, ns, key)[MetaKey(ns, key) := PutUint32(|chunks|)], ns, key, chunks, |chunks|)
  }

  /** The chunks 0..n-1 put together, a missing one counting as empty. */
  function Gather(d: Data, ns: string, key: Tuple, n: nat): Bytes {
    if n == 0 then []
    else
      var k := ChunkKey(ns, key, n - 1);
      Gather(d, ns, key, n - 1) + if k in d then d[k] else []
  }

  /** What Get returns; an absent key and an empty value both read as None. */
  function Lookup(d: Data, ns: string, key: Tuple): Option<Bytes> {
    if MetaKey(ns, key) !in d then None
    else
      var n := Uint32(d[MetaKey(ns, key)]);
      if n == 1 then (if ChunkKey(ns, key, 0) in d then Some(d[ChunkKey(ns, key, 0)]) else None)
      else if Gather(d, ns, key, n) == [] then None else Some(Gather(d, ns, key, n))
  }

  // ---- What is stored for one key ----

  /** No metadata and no chunk, or the metadata of the value and exactly its chunks. */
  ghost predicate Stored(d: Data, ns: string, key: Tuple, value: Option<Bytes>) {
    match value
    case None => forall k :: k in d ==> !Belongs(k, ns, key)
    case Some(v) =>
      && MetaKey(ns, key) in d && d[MetaKey(ns, key)] == PutUint32(|Split(v)|)
      && (forall i: nat :: ChunkKey(ns, key, i) in d <==> i < |Split(v)|)
      && (forall i: nat :: i < |Split(v)| ==> d[ChunkKey(ns, key, i)] == Split(v)[i])
  }

  /** The number of chunks survives its 32-bit encoding. */
  predicate Fits(v: Bytes) { |Split(v)| < TWO_TO_32 }

  lemma FitsIff(v: Bytes)
    ensures Fits(v) <==> |v| <= 90_000 * 0xFFFF_FFFF
  {
    JoinSplit(v);
  }

  lemma {:induction false} WithChunksEffect(d: Data, ns: string, key: Tuple, chunks: seq<Bytes>, n: nat, k: Tuple)
    requires n <= |chunks|
    ensures var t := WithChunks(d, ns, key, chunks, n);
            if IsChunkOf(k, ns, key) && k[|k| - 1].number < n then k in t && t[k] == chunks[k[|k| - 1].number]
            else (k in t <==> k in d) && (k in t ==> t[k] == d[k])
  {
    if n > 0 {
      WithChunksEffect(d, ns, key, chunks, n - 1, k);
      ChunkKeysDiffer(ns, key, n - 1, n - 1);
      if IsChunkOf(k, ns, key) { ChunkKeysDiffer(ns, key, k[|k| - 1].number, n - 1); }
    }
  }

  lemma {:induction false} WithoutChunksEffect(d: Data, ns: string, key: Tuple, n: nat, k: Tuple)
    ensures var t := WithoutChunks(d, ns, key, n);
            && (k in t <==> k in d && !(IsChunkOf(k, ns, key) && k[|k| - 1].number < n))
            && (k in t ==> t[k] == d[k])
  {
    if n > 0 {
      WithoutChunksEffect(d, ns, key, n - 1, k);
      ChunkKeysDiffer(ns, key, n - 1, n - 1);
      if IsChunkOf(k, ns, key) { ChunkKeysDiffer(ns, key, k[|k| - 1].number, n - 1); }
    }
  }

  lemma MetaIsNoChunk(ns: string, key: Tuple)
    ensures !IsChunkOf(MetaKey(ns, key), ns, key)
  {
  }

  lemma ClearedEffect(d: Data, ns: string, key: Tuple, k: Tuple)
    ensures var t := Cleared(d, ns, key);
            && (!Belongs(k, ns, key) ==> (k in t <==> k in d))
            && (k in t ==> k in d && t[k] == d[k])
            && (MetaKey(ns, key) in d ==>
                  (k in t <==> k in d && k != MetaKey(ns, key)
                               && !(IsChunkOf(k, ns, key) && k[|k| - 1].number < Uint32(d[MetaKey(ns, key)]))))
  {
    if MetaKey(ns, key) in d {
      WithoutChunksEffect(d - {MetaKey(ns, key)}, ns, key, Uint32(d[MetaKey(ns, key)]), k);
    }
  }

  lemma ChunksAreCounted(d: Data, ns: string, key: Tuple, v: Bytes, k: Tuple)
    requires Stored(d, ns, key, Some(v)) && k in d
    ensures IsChunkOf(k, ns, key) ==> k[|k| - 1].number < |Split(v)|
  {
  }

  /** A delete removes every record of the key exactly when the chunk count fits its encoding. */
  lemma ClearedStoresNothingIffFits(d: Data, ns: string, key: Tuple, v: Bytes)
    requires Stored(d, ns, key, Some(v))
    ensures Stored(Cleared(d, ns, key), ns, key, None) <==> Fits(v)
  {
    var t, n := Cleared(d, ns, key), |Split(v)|;
    if Fits(v) {
      forall k: Tuple | k in t ensures !Belongs(k, ns, key) {
        ClearedEffect(d, ns, key, k);
        ChunksAreCounted(d, ns, key, v, k);
      }
    } else {
      var last := ChunkKey(ns, key, n - 1);
      ChunkKeysDiffer(ns, key, n - 1, n - 1);
      MetaIsNoChunk(ns, key);
      ClearedEffect(d, ns, key, last);
      assert last in t;
    }
  }

  lemma ClearedStoresNothing(d: Data, ns: string, key: Tuple, value: Option<Bytes>)
    requires Stored(d, ns, key, value) && (value.Some? ==> Fits(value.value))
    ensures Stored(Cleared(d, ns, key), ns, key, None)
  {
    if value.Some? {
      ClearedStoresNothingIffFits(d, ns, key, value.value);
    } else if MetaKey(ns, key) in d {
      assert Belongs(MetaKey(ns, key), ns, key);
    }
  }

  /** After a Set exactly the new chunks are there, however many the old value had. */
  lemma PutStores(d: Data, ns: string, key: Tuple, was: Option<Bytes>, value: Bytes)
    requires Stored(d, ns, key, was) && (was.Some? ==> Fits(was.value))
    ensures Stored(Put(d, ns, key, value), ns, key, Some(value))
  {
    var chunks := Split(value);
    ClearedStoresNothing(d, ns, key, was);
    var base := Cleared(d, ns, key)[MetaKey(ns, key) := PutUint32(|chunks|)];
    MetaIsNoChunk(ns, key);
    WithChunksEffect(base, ns, key, chunks, |chunks|, MetaKey(ns, key));
    forall i: nat
      ensures ChunkKey(ns, key, i) in Put(d, ns, key, value) <==> i < |chunks|
      ensures i < |chunks| ==> Put(d, ns, key, value)[ChunkKey(ns, key, i)] == chunks[i]
    {
      ChunkKeysDiffer(ns, key, i, i);
      WithChunksEffect(base, ns, key, chunks, |chunks|, ChunkKey(ns, key, i));
    }
  }

  /** Neither operation touches a record of another key. */
  lemma OthersUntouched(d: Data, ns: string, key: Tuple, value: Bytes, k: Tuple)
    requires !Belongs(k, ns, key)
    ensures k in Put(d, ns, key, value) <==> k in d
    ensures k in Cleared(d, ns, key) <==> k in d
    ensures k in d ==> Put(d, ns, key, value)[k] == d[k] && Cleared(d, ns, key)[k] == d[k]
  {
    var chunks := Split(value);
    ClearedEffect(d, ns, key, k);
    WithChunksEffect(Cleared(d, ns, key)[MetaKey(ns, key) := PutUint32(|chunks|)], ns, key, chunks, |chunks|, k);
  }

  lemma {:induction false} GatherStored(d: Data, ns: string, key: Tuple, v: Bytes, n: nat)
    requires Stored(d, ns, key, Some(v)) && n <= |Split(v)|
    ensures Gather(d, ns, key, n) == Join(Split(v)[..n])
  {
    if n > 0 {
      GatherStored(d, ns, key, v, n - 1);
      assert Split(v)[..n] == Split(v)[..n - 1] + [Split(v)[n - 1]];
      JoinAppend(Split(v)[..n - 1], Split(v)[n - 1]);
    } else {
      assert Split(v)[..0] == [];
    }
  }

  lemma {:induction false} JoinLength(chunks: seq<Bytes>, n: nat)
    requires n <= |chunks| && forall i :: 0 <= i < |chunks| ==> chunks[i] != []
    ensures |Join(chunks[..n])| <= |Join(chunks)|
    ensures |Join(chunks[..n])| == |Join(chunks)| <==> n == |chunks|
    ensures Join(chunks[..n]) == [] <==> n == 0
  {
    if n == 0 {
      assert chunks[..0] == [];
      if chunks != [] { assert Join(chunks)[0] == chunks[0][0]; }
    } else {
      JoinLength(chunks[1..], n - 1);
      assert chunks[..n][1..] == chunks[1..][..n - 1];
      assert chunks[..n][0] == chunks[0];
    }
  }

  lemma LookupStored(d: Data, ns: string, key: Tuple, v: Bytes)
    requires Stored(d, ns, key, Some(v))
    ensures var whole := Join(Split(v)[..|Split(v)| % TWO_TO_32]);
            Lookup(d, ns, key) == if whole == [] then None else Some(whole)
  {
    var n := |Split(v)| % TWO_TO_32;
    GatherStored(d, ns, key, v, n);
    if n == 1 {
      var first := d[ChunkKey(ns, key, 0)];
      assert first == Split(v)[0];
      assert Gather(d, ns, key, 1) == Gather(d, ns, key, 0) + first;
      assert Gather(d, ns, key, 1) == first;
    }
  }

  /**
   Get returns the stored value, an empty one reading as absent, exactly when the number of chunks
   fits its 32-bit encoding.
   */
  lemma RoundTripIffFits(d: Data, ns: string, key: Tuple, v: Bytes)
    requires Stored(d, ns, key, Some(v))
    ensures Lookup(d, ns, key) == (if v == [] then None else Some(v)) <==> Fits(v)
  {
    var chunks := Split(v);
    LookupStored(d, ns, key, v);
    JoinSplit(v);
    JoinLength(chunks, |chunks| % TWO_TO_32);
    if Fits(v) { assert chunks[..|chunks| % TWO_TO_32] == chunks; }
  }

  // ---- Runs over many keys ----

  datatype Operation =
    | SetOp(ns: string, key: Tuple, value: Bytes)
    | DeleteOp(ns: string, key: Tuple)
    | RawOp(ns: string, key: Tuple, value: Bytes)

  function Apply(d: Data, op: Operation): Data {
    match op
    case SetOp(ns, key, value) => Put(d, ns, key, value)
    case DeleteOp(ns, key) => Cleared(d, ns, key)
    case RawOp(ns, key, value) => d[RawKey(ns, key) := value]
  }

  function Run(ops: seq<Operation>): Data {
    if ops == [] then map[] else Apply(Run(ops[..|ops| - 1]), ops[|ops| - 1])
  }

  /** The plain map the store stands for: the last value set and not deleted since. */
  function LastSet(ops: seq<Operation>, ns: string, key: Tuple): Option<Bytes> {
    if ops == [] then None
    else
      match ops[|ops| - 1]
      case SetOp(n, k, value) => if n == ns && k == key then Some(value) else LastSet(ops[..|ops| - 1], ns, key)
      case DeleteOp(n, k) => if n == ns && k == key then None else LastSet(ops[..|ops| - 1], ns, key)
      case RawOp(_, _, _) => LastSet(ops[..|ops| - 1], ns, key)
  }

  function LastRaw(ops: seq<Operation>, ns: string, key: Tuple): Option<Bytes> {
    if ops == [] then None
    else
      var op := ops[|ops| - 1];
      if op.RawOp? && op.ns == ns && op.key == key then Some(op.value) else LastRaw(ops[..|ops| - 1], ns, key)
  }

  lemma OthersStayStored(d: Data, t: Data, ns: string, key: Tuple, value: Option<Bytes>)
    requires Stored(d, ns, key, value)
    requires forall k :: Belongs(k, ns, key) ==> (k in t <==> k in d) && (k in d ==> t[k] == d[k])
    ensures Stored(t, ns, key, value)
  {
  }

  lemma OtherKeyUntouched(ns: string, key: Tuple, ns2: string, key2: Tuple, k: Tuple)
    requires Belongs(k, ns, key) && (ns != ns2 || key != key2)
    ensures !Belongs(k, ns2, key2)
  {
    KeysAreApart(ns, key, ns2, key2, if IsChunkOf(k, ns, key) then k[|k| - 1].number else 0);
  }

  predicate AllFit(ops: seq<Operation>) { forall op :: op in ops && op.SetOp? ==> Fits(op.value) }

  lemma {:induction false} LastSetFits(ops: seq<Operation>, ns: string, key: Tuple)
    requires AllFit(ops)
    ensures LastSet(ops, ns, key).Some? ==> Fits(LastSet(ops, ns, key).value)
  {
    if ops != [] { LastSetFits(ops[..|ops| - 1], ns, key); }
  }

  /**
   After any run of sets, deletes and raw writes every key holds exactly its last value: no stale
   chunk survives a shorter value, and operations on one key leave all others alone.
   */
  lemma {:induction false} StoreRefinesMap(ops: seq<Operation>, ns: string, key: Tuple)
    requires AllFit(ops)
    ensures Stored(Run(ops), ns, key, LastSet(ops, ns, key))
  {
    if ops != [] {
      var before, op := ops[..|ops| - 1], ops[|ops| - 1];
      StoreRefinesMap(before, ns, key);
      LastSetFits(before, ns, key);
      var d, t := Run(before), Run(ops);
      if !op.RawOp? && op.ns == ns && op.key == key {
        if op.SetOp? {
          PutStores(d, ns, key, LastSet(before, ns, key), op.value);
        } else {
          ClearedStoresNothing(d, ns, key, LastSet(before, ns, key));
        }
      } else {
        forall k | Belongs(k, ns, key) ensures (k in t <==> k in d) && (k in d ==> t[k] == d[k]) {
          match op
          case SetOp(n, kk, value) => OtherKeyUntouched(ns, key, n, kk, k); OthersUntouched(d, n, kk, value, k);
          case DeleteOp(n, kk) => OtherKeyUntouched(ns, key, n, kk, k); OthersUntouched(d, n, kk, [], k);
          case RawOp(n, kk, _) => KeysAreApart(n, kk, ns, key, 0);
        }
        OthersStayStored(d, t, ns, key, LastSet(before, ns, key));
      }
    }
  }

  lemma {:induction false} RawRecordsUntouched(ops: seq<Operation>, ns: string, key: Tuple)
    ensures var d := Run(ops); var k := RawKey(ns, key);
            (if k in d then Some(d[k]) else None) == LastRaw(ops, ns, key)
  {
    if ops != [] {
      var before, op := ops[..|ops| - 1], ops[|ops| - 1];
      RawRecordsUntouched(before, ns, key);
      KeysAreApart(ns, key, op.ns, op.key, 0);
      if !op.RawOp? {
        OthersUntouched(Run(before), op.ns, op.key, if op.SetOp? then op.value else [], RawKey(ns, key));
      }
    }
  }

  /** Get returns the last value set, an empty one reading as absent. */
  lemma GetReturnsLastSet(ops: seq<Operation>, ns: string, key: Tuple)
    requires AllFit(ops)
    ensures var last := LastSet(ops, ns, key);
            Lookup(Run(ops), ns, key) == if last == Some([]) then None else last
  {
    StoreRefinesMap(ops, ns, key);
    LastSetFits(ops, ns, key);
    var last := LastSet(ops, ns, key);
    if last.Some? { RoundTripIffFits(Run(ops), ns, key, last.value); }
    assert Belongs(MetaKey(ns, key), ns, key);
  }

  // ---- The transactions ----

  lemma SplitStep(data: Bytes, end: nat)
    requires data != [] && end == if MAX_VALUE_BYTES < |data| then MAX_VALUE_BYTES else |data|
    ensures Split(data) == [data[..end]] + Split(data[end..])
  {
    if end == |data| {
      assert data[..end] == data && data[end..] == [];
    }
  }

  /** Cuts the value front to back. */
  method SplitBytes(value: Bytes) returns (chunks: seq<Bytes>)
    ensures chunks == Split(value)
  {
    chunks := [];
    var data := value;
    while |data| > 0
      invariant Split(value) == chunks + Split(data)
      decreases |data|
    {
      var end := if MAX_VALUE_BYTES < |data| then MAX_VALUE_BYTES else |data|;
      SplitStep(data, end);
      assert chunks + ([data[..end]] + Split(data[end..])) == (chunks + [data[..end]]) + Split(data[end..]);
      chunks := chunks + [data[..end]];
      data := data[end..];
    }
  }

  class KVSvc {
    var data: Data

    method Clear(ns: string, key: Tuple)
      modifies this
      ensures data == Cleared(old(data), ns, key)
    {
      if MetaKey(ns, key) in data {
        var n := Uint32(data[MetaKey(ns, key)]);
        data := data - {MetaKey(ns, key)};
        for i := 0 to n
          invariant data == WithoutChunks(old(data) - {MetaKey(ns, key)}, ns, key, i)
        {
          data := data - {ChunkKey(ns, key, i)};
        }
      }
    }

    method Set(ns: string, key: Tuple, value: Bytes)
      modifies this
      ensures data == Put(old(data), ns, key, value)
    {
      Clear(ns, key);
      var chunks := SplitBytes(value);
      data := data[MetaKey(ns, key) := PutUint32(|chunks|)];
      ghost var base := data;
      for i := 0 to |chunks|
        invariant data == WithChunks(base, ns, key, chunks, i)
      {
        data := data[ChunkKey(ns, key, i) := chunks[i]];
      }
    }

    method Get(ns: string, key: Tuple) returns (value: Option<Bytes>)
      ensures value == Lookup(data, ns, key)
    {
      if MetaKey(ns, key) !in data { return None; }
      var n := Uint32(data[MetaKey(ns, key)]);
      if n == 1 {
        return if ChunkKey(ns, key, 0) in data then Some(data[ChunkKey(ns, key, 0)]) else None;
      }
      var out: Bytes := [];
      for i := 0 to n
        invariant out == Gather(data, ns, key, i)
      {
        out := out + if ChunkKey(ns, key, i) in data then data[ChunkKey(ns, key, i)] else [];
      }
      value := if out == [] then None else Some(out);
    }

    method Delete(ns: string, key: Tuple)
      modifies this
      ensures data == Cleared(old(data), ns, key)
    {
      Clear(ns, key);
    }
  }
}
