/**
 The CoreML Blob v2 weight file: a 64-byte header followed by 64-aligned records, each a
 64-byte metadata block and the raw payload.
 */
module WeightBlob {
  import opened Bytes

  const ALIGNMENT := 64
  const HEADER_BYTES := 64
  const METADATA_BYTES := 64
  const SENTINEL := 0xDEAD_BEEF
  const VERSION := 2
  const FLOAT16 := 1

  /** A tensor record as a reader of the file would describe it. */
  datatype Record = Record(offset: nat, dataType: nat, payload: seq<byte>)

  /** `bytes` stores `r`: an aligned metadata block at its offset describes exactly its payload. */
  predicate Stores(bytes: seq<byte>, r: Record)
  {
    var body := r.offset + METADATA_BYTES;
    && HEADER_BYTES <= r.offset && r.offset % ALIGNMENT == 0
    && body + |r.payload| <= |bytes|
    && FromLE(bytes[r.offset..r.offset + 4]) == SENTINEL
    && FromLE(bytes[r.offset + 4..r.offset + 8]) == r.dataType
    && FromLE(bytes[r.offset + 8..r.offset + 16]) == |r.payload|
    && FromLE(bytes[r.offset + 16..r.offset + 24]) == body
    && bytes[body..body + |r.payload|] == r.payload
  }

  /** The first two header fields: record count and format version. */
  predicate HeaderSays(bytes: seq<byte>, count: nat)
  {
    && HEADER_BYTES <= |bytes|
    && FromLE(bytes[0..4]) == count
    && FromLE(bytes[4..8]) == VERSION
  }

  /** The bytes up to the next multiple of the alignment. */
  function Aligned(bytes: seq<byte>): (r: seq<byte>)
    ensures |r| % ALIGNMENT == 0 && |bytes| <= |r| < |bytes| + ALIGNMENT
    ensures bytes <= r
  {
    var remainder := |bytes| % ALIGNMENT;
    if remainder != 0 then bytes + Zeros(ALIGNMENT - remainder) else bytes
  }

  function Metadata(dataType: nat, payloadLen: nat, payloadOffset: nat): (m: seq<byte>)
    ensures |m| == METADATA_BYTES
  {
    ToLE(SENTINEL, 4) + ToLE(dataType, 4) + ToLE(payloadLen, 8) + ToLE(payloadOffset, 8) + Zeros(40)
  }

  /** The file after one successful push. */
  function Pushed(bytes: seq<byte>, count: nat, dataType: nat, payload: seq<byte>): (r: seq<byte>)
    requires HEADER_BYTES <= |bytes|
    ensures |r| == |Aligned(bytes)| + METADATA_BYTES + |payload|
  {
    var at := |Aligned(bytes)|;
    Splice(Aligned(bytes) + Metadata(dataType, |payload|, at + METADATA_BYTES) + payload, 0, ToLE(count + 1, 4))
  }

  /** Whether a push is accepted. */
  predicate Accepts(bytes: seq<byte>, count: nat, payload: seq<byte>)
  {
    && payload != []
    && count + 1 < U32_LIMIT
    && |Aligned(bytes)| + METADATA_BYTES < U64_LIMIT
    && |payload| < U64_LIMIT
  }

  lemma MetadataFields(dataType: nat, payloadLen: nat, payloadOffset: nat)
    requires dataType < U32_LIMIT && payloadLen < U64_LIMIT && payloadOffset < U64_LIMIT
    ensures var m := Metadata(dataType, payloadLen, payloadOffset);
            && FromLE(m[0..4]) == SENTINEL && FromLE(m[4..8]) == dataType
            && FromLE(m[8..16]) == payloadLen && FromLE(m[16..24]) == payloadOffset
  {
    var m := Metadata(dataType, payloadLen, payloadOffset);
    WidthRoundTrip(SENTINEL);
    WidthRoundTrip(dataType);
    WidthRoundTrip(payloadLen);
    WidthRoundTrip(payloadOffset);
    var a, b, c, d := ToLE(SENTINEL, 4), ToLE(dataType, 4), ToLE(payloadLen, 8), ToLE(payloadOffset, 8);
    FourFields(a, b, c, d, Zeros(40));
  }

  lemma FourFields(a: seq<byte>, b: seq<byte>, c: seq<byte>, d: seq<byte>, e: seq<byte>)
    requires |a| == |b| == 4 && |c| == |d| == 8
    ensures var m := a + b + c + d + e; m[0..4] == a && m[4..8] == b && m[8..16] == c && m[16..24] == d
  {
  }

  /** Nothing past the count field of the old file changes. */
  lemma PushedKeeps(bytes: seq<byte>, count: nat, dataType: nat, payload: seq<byte>, lo: nat, hi: nat)
    requires HEADER_BYTES <= |bytes| && 4 <= lo <= hi <= |bytes|
    ensures Pushed(bytes, count, dataType, payload)[lo..hi] == bytes[lo..hi]
  {
    var at := |Aligned(bytes)|;
    var s := Aligned(bytes) + Metadata(dataType, |payload|, at + METADATA_BYTES) + payload;
    SpliceElsewhere(s, 0, ToLE(count + 1, 4), lo, hi);
    assert s[lo..hi] == bytes[lo..hi];
  }

  /** A file with the same bytes where a record lies stores that record too. */
  lemma SameRecord(bytes: seq<byte>, other: seq<byte>, r: Record)
    requires Stores(bytes, r) && r.offset + METADATA_BYTES + |r.payload| <= |other|
    requires var end := r.offset + METADATA_BYTES + |r.payload|; other[r.offset..end] == bytes[r.offset..end]
    ensures Stores(other, r)
  {
    var at, end := r.offset, r.offset + METADATA_BYTES + |r.payload|;
    SameSlice(bytes, other, at, end, 0, 4);
    SameSlice(bytes, other, at, end, 4, 8);
    SameSlice(bytes, other, at, end, 8, 16);
    SameSlice(bytes, other, at, end, 16, 24);
    SameSlice(bytes, other, at, end, METADATA_BYTES, METADATA_BYTES + |r.payload|);
  }

  lemma SameSlice(a: seq<byte>, b: seq<byte>, lo: nat, hi: nat, i: nat, j: nat)
    requires lo <= hi <= |a| && hi <= |b| && a[lo..hi] == b[lo..hi] && i <= j <= hi - lo
    ensures a[lo + i..lo + j] == b[lo + i..lo + j]
  {
    SubSlice(a, lo, hi, i, j);
    SubSlice(b, lo, hi, i, j);
  }

  /** Every record stored before a push is still stored after it. */
  lemma PushedKeepsRecord(bytes: seq<byte>, count: nat, dataType: nat, payload: seq<byte>, r: Record)
    requires HEADER_BYTES <= |bytes| && Stores(bytes, r)
    ensures Stores(Pushed(bytes, count, dataType, payload), r)
  {
    PushedKeeps(bytes, count, dataType, payload, r.offset, r.offset + METADATA_BYTES + |r.payload|);
    SameRecord(bytes, Pushed(bytes, count, dataType, payload), r);
  }

  /** A metadata block and a payload in place make a stored record. */
  lemma StoresFromParts(bytes: seq<byte>, r: Record)
    requires HEADER_BYTES <= r.offset && r.offset % ALIGNMENT == 0
    requires r.dataType < U32_LIMIT && |r.payload| < U64_LIMIT && r.offset + METADATA_BYTES < U64_LIMIT
    requires r.offset + METADATA_BYTES + |r.payload| <= |bytes|
    requires bytes[r.offset..r.offset + METADATA_BYTES] == Metadata(r.dataType, |r.payload|, r.offset + METADATA_BYTES)
    requires bytes[r.offset + METADATA_BYTES..r.offset + METADATA_BYTES + |r.payload|] == r.payload
    ensures Stores(bytes, r)
  {
    MetadataFields(r.dataType, |r.payload|, r.offset + METADATA_BYTES);
    var end := r.offset + METADATA_BYTES;
    SubSlice(bytes, r.offset, end, 0, 4);
    SubSlice(bytes, r.offset, end, 4, 8);
    SubSlice(bytes, r.offset, end, 8, 16);
    SubSlice(bytes, r.offset, end, 16, 24);
  }

  /** What a push leaves behind the aligned old file. */
  lemma PushedTail(bytes: seq<byte>, count: nat, dataType: nat, payload: seq<byte>)
    requires HEADER_BYTES <= |bytes|
    ensures var at := |Aligned(bytes)|; var body := at + METADATA_BYTES;
            var r := Pushed(bytes, count, dataType, payload);
            && r[at..body] == Metadata(dataType, |payload|, body)
            && r[body..body + |payload|] == payload
  {
    var at := |Aligned(bytes)|;
    var body := at + METADATA_BYTES;
    var m := Metadata(dataType, |payload|, body);
    var s := Aligned(bytes) + m + payload;
    SpliceElsewhere(s, 0, ToLE(count + 1, 4), at, body);
    SpliceElsewhere(s, 0, ToLE(count + 1, 4), body, body + |payload|);
    assert s[at..body] == m;
    assert s[body..body + |payload|] == payload;
  }

  /** A push stores its payload behind everything already there and counts it in the header. */
  lemma PushedStores(bytes: seq<byte>, count: nat, dataType: nat, payload: seq<byte>)
    requires HeaderSays(bytes, count) && Accepts(bytes, count, payload) && dataType < U32_LIMIT
    ensures Stores(Pushed(bytes, count, dataType, payload), Record(|Aligned(bytes)|, dataType, payload))
    ensures HeaderSays(Pushed(bytes, count, dataType, payload), count + 1)
  {
    PushedTail(bytes, count, dataType, payload);
    StoresFromParts(Pushed(bytes, count, dataType, payload), Record(|Aligned(bytes)|, dataType, payload));
    WidthRoundTrip(count + 1);
    PushedKeeps(bytes, count, dataType, payload, 4, 8);
  }

  /** Fills the zeroed metadata block field by field. */
  method FillMetadata(dataType: nat, payloadLen: nat, payloadOffset: nat) returns (meta: seq<byte>)
    ensures meta == Metadata(dataType, payloadLen, payloadOffset)
  {
    var a, b, c, d := ToLE(SENTINEL, 4), ToLE(dataType, 4), ToLE(payloadLen, 8), ToLE(payloadOffset, 8);
    meta := Zeros(METADATA_BYTES);
    SpliceZeros([], a, 64);
    assert [] + meta == meta && [] + a + Zeros(60) == a + Zeros(60);
    meta := Splice(meta, 0, a);
    SpliceZeros(a, b, 60);
    meta := Splice(meta, 4, b);
    SpliceZeros(a + b, c, 56);
    meta := Splice(meta, 8, c);
    SpliceZeros(a + b + c, d, 48);
    meta := Splice(meta, 16, d);
  }

  /** Bytes appended at the end disturb neither the header nor any record. */
  lemma ExtendedKeeps(bytes: seq<byte>, longer: seq<byte>)
    requires bytes <= longer
    ensures forall count :: HeaderSays(bytes, count) ==> HeaderSays(longer, count)
    ensures forall r :: Stores(bytes, r) ==> Stores(longer, r)
  {
    if HEADER_BYTES <= |bytes| {
      PrefixSlice(bytes, longer, 0, 4);
      PrefixSlice(bytes, longer, 4, 8);
    }
    forall r | Stores(bytes, r)
      ensures Stores(longer, r)
    {
      PrefixSlice(bytes, longer, r.offset, r.offset + METADATA_BYTES + |r.payload|);
      SameRecord(bytes, longer, r);
    }
  }

  lemma SentinelBytes()
    ensures ToLE(0xDEAD_BEEF, 4) == [0xEF, 0xBE, 0xAD, 0xDE]
  {
    assert ToLE(0xDE, 1) == [0xDE] + ToLE(0, 0);
    assert ToLE(0xDEAD, 2) == [0xAD] + ToLE(0xDE, 1);
    assert ToLE(0xDE_ADBE, 3) == [0xBE] + ToLE(0xDEAD, 2);
    assert ToLE(0xDEAD_BEEF, 4) == [0xEF] + ToLE(0xDE_ADBE, 3);
  }

  /** The metadata block of a half-precision record at offset 64, byte by byte. */
  lemma FirstMetadata(len: nat)
    ensures Metadata(FLOAT16, len, 128) ==
            [0xEF, 0xBE, 0xAD, 0xDE] + [1, 0, 0, 0] + ToLE(len, 8) + [128, 0, 0, 0, 0, 0, 0, 0] + Zeros(40)
  {
    hide ToLE, FromLE, Zeros;
    SmallBytes(1, 3);
    SmallBytes(128, 7);
    SentinelBytes();
    FewZeros();
  }

  lemma FewZeros()
    ensures [1] + Zeros(3) == [1, 0, 0, 0] && [128] + Zeros(7) == [128, 0, 0, 0, 0, 0, 0, 0]
  {
  }

  /** The first record of a fresh file: the count becomes 1, the block and the payload follow the header. */
  lemma FirstRecordBytes(start: seq<byte>, tail: seq<byte>, payload: seq<byte>)
    requires |tail| == 60 && start == [0, 0, 0, 0] + tail
    ensures Pushed(start, 0, FLOAT16, payload) == [1, 0, 0, 0] + tail + Metadata(FLOAT16, |payload|, 128) + payload
  {
    hide ToLE, Metadata, Splice;
    SmallBytes(1, 3);
    assert [1] + Zeros(3) == [1, 0, 0, 0];
    SpliceFront([0, 0, 0, 0], tail, Metadata(FLOAT16, |payload|, 128), payload, [1, 0, 0, 0]);
  }

  lemma SpliceFront(count: seq<byte>, tail: seq<byte>, meta: seq<byte>, payload: seq<byte>, next: seq<byte>)
    requires |count| == |next|
    ensures Splice(count + tail + meta + payload, 0, next) == next + tail + meta + payload
  {
  }

  class BlobV2Builder {
    var bytes: seq<byte>
    var count: nat

    ghost predicate Valid()
      reads this
    {
      HeaderSays(bytes, count)
    }

    constructor ()
      ensures Valid() && count == 0 && |bytes| == HEADER_BYTES
      ensures bytes == [0, 0, 0, 0, 2, 0, 0, 0] + Zeros(56)
    {
      bytes := Splice(Zeros(HEADER_BYTES), 4, ToLE(VERSION, 4));
      count := 0;
      new;
      WidthRoundTrip(VERSION);
      WidthRoundTrip(0);
      SpliceElsewhere(Zeros(HEADER_BYTES), 4, ToLE(VERSION, 4), 0, 4);
      assert bytes[4..8] == ToLE(VERSION, 4);
      assert bytes[0..4] == Zeros(HEADER_BYTES)[0..4] == ToLE(0, 4);
      SmallBytes(2, 3);
    }

    /** Pads the byte vector to a multiple of the alignment. */
    method AlignVec()
      modifies this`bytes
      ensures bytes == Aligned(old(bytes))
    {
      var remainder := |bytes| % ALIGNMENT;
      if remainder != 0 {
        bytes := bytes + Zeros(ALIGNMENT - remainder);
      }
    }

    /** Writes the metadata block and the payload behind the aligned bytes, then the new count. */
    method WriteRecord(dataType: nat, payload: seq<byte>) returns (offset: nat)
      requires HEADER_BYTES <= |bytes| && |bytes| % ALIGNMENT == 0
      modifies this
      ensures offset == old(|bytes|) && count == old(count) + 1
      ensures bytes == Pushed(old(bytes), old(count), dataType, payload)
    {
      offset := |bytes|;
      var payloadOffset := offset + METADATA_BYTES;
      var meta := FillMetadata(dataType, |payload|, payloadOffset);
      bytes := bytes + meta;
      bytes := bytes + payload;
      count := count + 1;
      bytes := Splice(bytes, 0, ToLE(count, 4));
    }

    /**
     Appends one record. On success every record the file stored is still stored, the new one
     is stored at the returned offset behind all of them, and the header counts it. A refusal
     leaves the count and every stored record alone.
     */
    method Push(dataType: nat, payload: seq<byte>) returns (ok: bool, offset: nat)
      requires Valid() && dataType < U32_LIMIT
      modifies this
      ensures Valid()
      ensures ok <==> Accepts(old(bytes), old(count), payload)
      ensures ok ==> bytes == Pushed(old(bytes), old(count), dataType, payload) && count == old(count) + 1
      ensures ok ==> old(|bytes|) <= offset && Stores(bytes, Record(offset, dataType, payload))
      ensures !ok ==> count == old(count) && old(bytes) <= bytes
      ensures forall r :: Stores(old(bytes), r) ==> Stores(bytes, r)
    {
      if payload == [] || count == U32_LIMIT - 1 {
        return false, 0;
      }
      AlignVec();
      var payloadOffset := |bytes| + METADATA_BYTES;
      if payloadOffset >= U64_LIMIT || |payload| >= U64_LIMIT {
        ExtendedKeeps(old(bytes), bytes);
        return false, 0;
      }
      offset := WriteRecord(dataType, payload);
      ok := true;
      assert Pushed(Aligned(old(bytes)), old(count), dataType, payload) == bytes;
      assert bytes == Pushed(old(bytes), old(count), dataType, payload);
      PushedStores(old(bytes), old(count), dataType, payload);
      forall r | Stores(old(bytes), r)
        ensures Stores(bytes, r)
      {
        PushedKeepsRecord(old(bytes), old(count), dataType, payload, r);
      }
    }

    /** Appends half-precision values as one little-endian record. */
    method PushFp16(values: seq<nat>) returns (ok: bool, offset: nat)
      requires Valid() && forall v :: v in values ==> v < U16_LIMIT
      modifies this
      ensures Valid()
      ensures ok <==> Accepts(old(bytes), old(count), Fp16Bytes(values))
      ensures ok ==> bytes == Pushed(old(bytes), old(count), FLOAT16, Fp16Bytes(values)) && count == old(count) + 1
      ensures ok ==> old(|bytes|) <= offset && Stores(bytes, Record(offset, FLOAT16, Fp16Bytes(values)))
      ensures forall r :: Stores(old(bytes), r) ==> Stores(bytes, r)
    {
      var payload := [];
      if values == [] {
        return false, 0;
      }
      if |values| * 2 >= U64_LIMIT {
        return false, 0;
      }
      for i := 0 to |values|
        invariant payload == Fp16Bytes(values[..i])
      {
        payload := payload + ToLE(values[i], 2);
        assert values[..i + 1][..i] == values[..i];
      }
      assert values[..|values|] == values;
      ok, offset := Push(FLOAT16, payload);
    }
  }

  /** The little-endian bytes of a list of 16-bit values. */
  function Fp16Bytes(values: seq<nat>): (s: seq<byte>)
    ensures |s| == 2 * |values|
  {
    if values == [] then [] else Fp16Bytes(values[..|values| - 1]) + ToLE(values[|values| - 1], 2)
  }

  // ----- Whole build sequences -----

  datatype Item = Item(dataType: nat, payload: seq<byte>)

  /** The file after pushing a list of items, and the offset each push returned. */
  datatype Built = Built(bytes: seq<byte>, offsets: seq<nat>)

  predicate AllAccepted(bytes: seq<byte>, count: nat, items: seq<Item>)
    requires HEADER_BYTES <= |bytes|
    decreases |items|
  {
    items == [] ||
    (&& items[0].dataType < U32_LIMIT
     && Accepts(bytes, count, items[0].payload)
     && AllAccepted(Pushed(bytes, count, items[0].dataType, items[0].payload), count + 1, items[1..]))
  }

  function PushAll(bytes: seq<byte>, count: nat, items: seq<Item>): (r: Built)
    requires HEADER_BYTES <= |bytes|
    ensures |r.offsets| == |items| && HEADER_BYTES <= |r.bytes|
    decreases |items|
  {
    if items == [] then Built(bytes, [])
    else
      var rest := PushAll(Pushed(bytes, count, items[0].dataType, items[0].payload), count + 1, items[1..]);
      Built(rest.bytes, [|Aligned(bytes)|] + rest.offsets)
  }

  function RecordAt(r: Built, items: seq<Item>, i: nat): Record
    requires i < |items| == |r.offsets|
  {
    Record(r.offsets[i], items[i].dataType, items[i].payload)
  }

  /** Each item is stored at its offset behind `bytes`, and the records follow one another. */
  ghost predicate AllStored(start: nat, items: seq<Item>, r: Built)
    requires |items| == |r.offsets|
  {
    && (forall i :: 0 <= i < |items| ==> Stores(r.bytes, RecordAt(r, items, i)) && start <= r.offsets[i])
    && (forall i, j :: 0 <= i < j < |items| ==>
          r.offsets[i] + METADATA_BYTES + |items[i].payload| <= r.offsets[j])
  }

  lemma {:induction false} PushAllKeepsRecord(bytes: seq<byte>, count: nat, items: seq<Item>, r: Record)
    requires HEADER_BYTES <= |bytes| && Stores(bytes, r)
    ensures Stores(PushAll(bytes, count, items).bytes, r)
    decreases |items|
  {
    if items != [] {
      PushedKeepsRecord(bytes, count, items[0].dataType, items[0].payload, r);
      PushAllKeepsRecord(Pushed(bytes, count, items[0].dataType, items[0].payload), count + 1, items[1..], r);
    }
  }

  /**
   After any sequence of accepted pushes every offset ever returned still locates its record with
   its exact bytes, records lie one after another without overlap, and the header counts them all.
   */
  lemma {:induction false} PushAllStores(bytes: seq<byte>, count: nat, items: seq<Item>)
    requires HeaderSays(bytes, count) && AllAccepted(bytes, count, items)
    ensures var r := PushAll(bytes, count, items);
            && HeaderSays(r.bytes, count + |items|)
            && AllStored(|bytes|, items, r)
    decreases |items|
  {
    if items != [] {
      var it := items[0];
      var next := Pushed(bytes, count, it.dataType, it.payload);
      PushedStores(bytes, count, it.dataType, it.payload);
      PushAllStores(next, count + 1, items[1..]);
      PushAllKeepsRecord(next, count + 1, items[1..], Record(|Aligned(bytes)|, it.dataType, it.payload));
      ConsBuilt(|bytes|, |next|, items, PushAll(bytes, count, items), PushAll(next, count + 1, items[1..]));
    }
  }

  /** Adding the first item in front of a correctly built rest. */
  lemma ConsBuilt(start: nat, next: nat, items: seq<Item>, r: Built, rest: Built)
    requires items != [] && |rest.offsets| == |items| - 1
    requires r.bytes == rest.bytes && |r.offsets| == |items| && r.offsets[1..] == rest.offsets
    requires start <= r.offsets[0] && r.offsets[0] + METADATA_BYTES + |items[0].payload| <= next
    requires Stores(r.bytes, RecordAt(r, items, 0))
    requires AllStored(next, items[1..], rest)
    ensures AllStored(start, items, r)
  {
    forall i | 0 <= i < |items|
      ensures Stores(r.bytes, RecordAt(r, items, i)) && start <= r.offsets[i]
    {
      if i > 0 {
        assert RecordAt(r, items, i) == RecordAt(rest, items[1..], i - 1);
        assert next <= rest.offsets[i - 1];
      }
    }
    forall i, j | 0 <= i < j < |items|
      ensures r.offsets[i] + METADATA_BYTES + |items[i].payload| <= r.offsets[j]
    {
      assert next <= rest.offsets[j - 1] == r.offsets[j];
      if i > 0 {
        assert items[1..][i - 1] == items[i] && rest.offsets[i - 1] == r.offsets[i];
      }
    }
  }
}
