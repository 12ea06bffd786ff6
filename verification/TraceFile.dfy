/**
 One owner's append-only trace file: a 32-byte header naming the record size, then fixed-size
 records that begin with their run id, possibly followed by part of a record. Recovery cuts a
 file back to the last record whose run is known.
 */
module TraceFile {
  import opened Arithmetic
  import opened Bytes

  const HEADER_BYTES := 32

  // ----- Whole records -----

  /** The size of `n` records: `n * rb`. */
  function Size(rb: nat, n: nat): nat
  {
    if n == 0 then 0 else Size(rb, n - 1) + rb
  }

  /** The complete records in `len` bytes: `len / rb`, a partial trailing record not counted. */
  function Whole(rb: nat, len: nat): nat
    requires rb >= 1
  {
    if len < rb then 0 else 1 + Whole(rb, len - rb)
  }

  lemma {:induction false} SizeIsProduct(rb: nat, n: nat)
    ensures Size(rb, n) == n * rb
  {
    if n > 0 {
      SizeIsProduct(rb, n - 1);
    }
  }

  lemma WholeIsQuotient(rb: nat, len: nat, q: nat)
    requires rb >= 1 && q == len / rb
    ensures Whole(rb, len) == q
  {
    var n := Whole(rb, len);
    WholeBounds(rb, len);
    SizeIsProduct(rb, n);
    assert len == rb * n + (len - n * rb);
    DivUnique(len, rb, n, len - n * rb);
  }

  lemma {:induction false} SizeAdd(rb: nat, m: nat, n: nat)
    ensures Size(rb, m + n) == Size(rb, m) + Size(rb, n)
  {
    if n > 0 {
      SizeAdd(rb, m, n - 1);
    }
  }

  lemma SizeMono(rb: nat, m: nat, n: nat)
    requires m <= n
    ensures Size(rb, m) <= Size(rb, n)
  {
    SizeAdd(rb, m, n - m);
  }

  lemma {:induction false} WholeAppend(rb: nat, m: nat, len: nat)
    requires rb >= 1 && Size(rb, m) <= len
    ensures Whole(rb, len) == m + Whole(rb, len - Size(rb, m))
    decreases m
  {
    if m > 0 {
      WholeAppend(rb, m - 1, len - rb);
    }
  }

  lemma {:induction false} WholeBounds(rb: nat, len: nat)
    requires rb >= 1
    ensures Size(rb, Whole(rb, len)) <= len < Size(rb, Whole(rb, len)) + rb
  {
    if len >= rb {
      WholeBounds(rb, len - rb);
    }
  }

  // ----- The run-id column -----

  /** What a reader of eight bytes gets at the start of `p`: fewer only at the end of the file. */
  function FirstEight(p: seq<byte>): seq<byte>
  {
    if |p| < 8 then p else p[..8]
  }

  /** The first eight bytes of every complete record, in file order. */
  function Heads(rb: nat, p: seq<byte>): (h: seq<seq<byte>>)
    requires rb >= 1
    ensures |h| == Whole(rb, |p|)
    decreases |p|
  {
    if |p| < rb then [] else [FirstEight(p)] + Heads(rb, p[rb..])
  }

  function RunIds(heads: seq<seq<byte>>): (c: seq<nat>)
    ensures |c| == |heads|
  {
    seq(|heads|, k requires 0 <= k < |heads| => FromLE(heads[k]))
  }

  /** The run id of every complete record, in file order. */
  function Column(rb: nat, p: seq<byte>): (c: seq<nat>)
    requires rb >= 1
    ensures |c| == Whole(rb, |p|)
  {
    RunIds(Heads(rb, p))
  }

  /** Where a record starts, eight bytes can be read. */
  predicate Reads(rb: nat, p: seq<byte>, k: nat)
  {
    Size(rb, k) + 8 <= |p|
  }

  /** Every complete record's run id can be read; only record sizes below eight can miss that. */
  predicate Readable(rb: nat, p: seq<byte>)
    requires rb >= 1
  {
    Whole(rb, |p|) == 0 || Reads(rb, p, Whole(rb, |p|) - 1)
  }

  lemma WideReadable(rb: nat, p: seq<byte>)
    requires rb >= 8
    ensures Readable(rb, p)
  {
    WholeBounds(rb, |p|);
  }

  lemma {:induction false} HeadAt(rb: nat, p: seq<byte>, k: nat)
    requires rb >= 1 && k < Whole(rb, |p|) && Reads(rb, p, k)
    ensures Heads(rb, p)[k] == p[Size(rb, k)..Size(rb, k) + 8]
    decreases k
  {
    if k > 0 {
      HeadAt(rb, p[rb..], k - 1);
      HeadShift(rb, p, Size(rb, k - 1));
      assert Heads(rb, p)[k] == Heads(rb, p[rb..])[k - 1];
    }
  }

  lemma HeadShift(rb: nat, p: seq<byte>, at: nat)
    requires rb + at + 8 <= |p|
    ensures p[rb..][at..at + 8] == p[at + rb..at + rb + 8]
  {
    assert p[rb..] == p[rb..|p|];
    SubSlice(p, rb, |p|, at, at + 8);
  }

  lemma SplitAppend(a: seq<byte>, b: seq<byte>, n: nat)
    requires 8 <= n <= |a|
    ensures (a + b)[n..] == a[n..] + b && (a + b)[..8] == a[..8]
  {
  }

  lemma {:induction false} HeadsAppend(rb: nat, a: seq<byte>, m: nat, b: seq<byte>)
    requires rb >= 8 && |a| == Size(rb, m)
    ensures Heads(rb, a + b) == Heads(rb, a) + Heads(rb, b)
    ensures |Heads(rb, a)| == m
    decreases m
  {
    if m == 0 {
      assert a + b == b;
    } else {
      var rest := a[rb..];
      HeadsAppend(rb, rest, m - 1, b);
      SplitAppend(a, b, rb);
      assert Heads(rb, a) == [a[..8]] + Heads(rb, rest);
      assert Heads(rb, a + b) == [a[..8]] + Heads(rb, rest + b);
    }
  }

  lemma {:induction false} HeadsPrefix(rb: nat, p: seq<byte>, w: nat)
    requires rb >= 8 && w <= |p|
    ensures Heads(rb, p[..w]) <= Heads(rb, p)
    decreases w
  {
    if w >= rb {
      HeadsPrefix(rb, p[rb..], w - rb);
      assert p[..w][rb..] == p[rb..][..w - rb];
      assert p[..w][..8] == p[..8];
    }
  }

  /** Appending to whole records appends to the column. */
  lemma ColumnAppend(rb: nat, a: seq<byte>, m: nat, b: seq<byte>)
    requires rb >= 8 && |a| == Size(rb, m)
    ensures Column(rb, a + b) == Column(rb, a) + Column(rb, b)
    ensures |Column(rb, a)| == m
  {
    HeadsAppend(rb, a, m, b);
    RunIdsAppend(Heads(rb, a), Heads(rb, b));
  }

  lemma RunIdsAppend(g: seq<seq<byte>>, h: seq<seq<byte>>)
    ensures RunIds(g + h) == RunIds(g) + RunIds(h)
  {
  }

  /** A byte prefix has a prefix of the column. */
  lemma ColumnPrefix(rb: nat, p: seq<byte>, w: nat)
    requires rb >= 8 && w <= |p|
    ensures Column(rb, p[..w]) <= Column(rb, p)
  {
    HeadsPrefix(rb, p, w);
    var g, h := Heads(rb, p[..w]), Heads(rb, p);
    assert h == g + h[|g|..];
    RunIdsAppend(g, h[|g|..]);
  }

  // ----- Recovery of one file -----

  /** `keep` cuts right after the last known id, or at 0 when there is none. */
  predicate LastKnown(c: seq<nat>, known: set<nat>, keep: nat)
  {
    && keep <= |c|
    && (keep == 0 || c[keep - 1] in known)
    && forall k :: keep <= k < |c| ==> c[k] !in known
  }

  function Keep(c: seq<nat>, known: set<nat>): (keep: nat)
    ensures LastKnown(c, known, keep)
  {
    if c == [] then 0
    else if c[|c| - 1] in known then |c|
    else
      var shorter := Keep(c[..|c| - 1], known);
      assert c[..|c| - 1][..shorter] == c[..shorter];
      shorter
  }

  lemma LastKnownUnique(c: seq<nat>, known: set<nat>, a: nat, b: nat)
    requires LastKnown(c, known, a) && LastKnown(c, known, b)
    ensures a == b
  {
  }

  /** What recovery leaves of a payload: all of it when it holds no complete record. */
  function CutPayload(rb: nat, p: seq<byte>, known: set<nat>): (r: seq<byte>)
    requires rb >= 1
    ensures r <= p
  {
    var keep := Keep(Column(rb, p), known);
    SizeMono(rb, keep, Whole(rb, |p|));
    WholeBounds(rb, |p|);
    if Whole(rb, |p|) == 0 then p else p[..Size(rb, keep)]
  }

  function RecordBytes(bytes: seq<byte>): nat
    requires |bytes| >= HEADER_BYTES
  {
    FromLE(bytes[24..28])
  }

  /** A recovered file; short headers and zero record sizes are left alone. */
  function Recovered(bytes: seq<byte>, known: set<nat>): (r: seq<byte>)
    ensures r <= bytes
  {
    if |bytes| < HEADER_BYTES || RecordBytes(bytes) == 0 then bytes
    else
      var r := bytes[..HEADER_BYTES] + CutPayload(RecordBytes(bytes), bytes[HEADER_BYTES..], known);
      assert bytes == bytes[..HEADER_BYTES] + bytes[HEADER_BYTES..];
      r
  }

  /** Recovery raises on this file: the run id of its last record is cut off. */
  predicate Raises(bytes: seq<byte>)
  {
    && |bytes| >= HEADER_BYTES && RecordBytes(bytes) != 0
    && !Readable(RecordBytes(bytes), bytes[HEADER_BYTES..])
  }

  lemma HeadInFile(rb: nat, bytes: seq<byte>, k: nat, at: nat)
    requires rb >= 1 && |bytes| >= HEADER_BYTES && k < Whole(rb, |bytes| - HEADER_BYTES)
    requires at == HEADER_BYTES + Size(rb, k) && Reads(rb, bytes[HEADER_BYTES..], k)
    ensures at + 8 <= |bytes| && bytes[at..at + 8] == Heads(rb, bytes[HEADER_BYTES..])[k]
  {
    HeadAt(rb, bytes[HEADER_BYTES..], k);
    HeadShift(HEADER_BYTES, bytes, Size(rb, k));
  }

  /** Seeks to a record and reads its run id; fails when fewer than eight bytes are left. */
  method ReadRun(bytes: seq<byte>, rb: nat, k: nat) returns (ok: bool, rid: nat)
    requires rb >= 1 && |bytes| >= HEADER_BYTES && k < Whole(rb, |bytes| - HEADER_BYTES)
    ensures ok <==> Reads(rb, bytes[HEADER_BYTES..], k)
    ensures ok ==> rid == Column(rb, bytes[HEADER_BYTES..])[k]
  {
    var at := HEADER_BYTES + k * rb;
    SizeIsProduct(rb, k);
    if at + 8 > |bytes| {
      return false, 0;
    }
    HeadInFile(rb, bytes, k, at);
    var head := bytes[at..at + 8];
    return true, FromLE(head);
  }

  /** The backward walk: reads one run id per step from the end of the file. */
  method WalkBack(bytes: seq<byte>, rb: nat, n: nat, known: set<nat>) returns (ok: bool, keep: nat)
    requires |bytes| >= HEADER_BYTES && rb >= 1 && n == Whole(rb, |bytes| - HEADER_BYTES)
    ensures ok <==> Readable(rb, bytes[HEADER_BYTES..])
    ensures ok ==> keep == Keep(Column(rb, bytes[HEADER_BYTES..]), known)
  {
    ghost var p := bytes[HEADER_BYTES..];
    ghost var c := Column(rb, p);
    keep := n;
    while keep > 0
      invariant keep <= n && (keep < n ==> Readable(rb, p))
      invariant forall k :: keep <= k < n ==> c[k] !in known
    {
      var read, rid := ReadRun(bytes, rb, keep - 1);
      SizeMono(rb, keep - 1, n - 1);
      if !read {
        return false, keep;
      }
      if rid in known {
        break;
      }
      keep := keep - 1;
    }
    ok := true;
    LastKnownUnique(c, known, keep, Keep(c, known));
  }

  lemma PrefixParts(bytes: seq<byte>, a: nat, n: nat)
    requires a <= n <= |bytes|
    ensures bytes[..n] == bytes[..a] + bytes[a..][..n - a]
  {
  }

  /** One file's recovery; on a failure the file is not touched. */
  method RecoverFile(bytes: seq<byte>, known: set<nat>) returns (ok: bool, r: seq<byte>)
    ensures ok <==> !Raises(bytes)
    ensures r == if ok then Recovered(bytes, known) else bytes
  {
    ok, r := true, bytes;
    if |bytes| < HEADER_BYTES {
      return;
    }
    var rb := FromLE(bytes[24..28]);
    if rb == 0 {
      return;
    }
    var n := CompleteRecords(rb, |bytes| - HEADER_BYTES);
    ghost var p := bytes[HEADER_BYTES..];
    if n == 0 {
      assert bytes == bytes[..HEADER_BYTES] + p;
      return;
    }
    var keep;
    ok, keep := WalkBack(bytes, rb, n, known);
    if !ok {
      return;
    }
    var size := RecordsEnd(rb, keep);
    SizeMono(rb, keep, n);
    WholeBounds(rb, |p|);
    PrefixParts(bytes, HEADER_BYTES, size);
    if size != |bytes| {
      r := bytes[..size];
    } else {
      assert bytes == bytes[..size];
    }
  }

  /** The number of complete records, by division. */
  method CompleteRecords(rb: nat, len: nat) returns (n: nat)
    requires rb >= 1
    ensures n == Whole(rb, len)
  {
    n := len / rb;
    WholeIsQuotient(rb, len, n);
  }

  /** Where the first `keep` records end in the file. */
  method RecordsEnd(rb: nat, keep: nat) returns (size: nat)
    ensures size == HEADER_BYTES + Size(rb, keep)
  {
    size := HEADER_BYTES + keep * rb;
    SizeIsProduct(rb, keep);
  }

  /** The first `n` files recovered, the others as they were. */
  ghost function RecoverFirst(dir: seq<seq<byte>>, known: set<nat>, n: nat): (r: seq<seq<byte>>)
    requires n <= |dir|
    ensures |r| == |dir| && r[n..] == dir[n..]
    ensures forall i :: 0 <= i < n ==> r[i] == Recovered(dir[i], known)
  {
    if n == 0 then dir else RecoverFirst(dir, known, n - 1)[n - 1 := Recovered(dir[n - 1], known)]
  }

  ghost function ChangedSlots(was: seq<seq<byte>>, now: seq<seq<byte>>): set<int>
    requires |was| == |now|
  {
    set i | 0 <= i < |was| && was[i] != now[i]
  }

  lemma ChangedSlotsStep(was: seq<seq<byte>>, now: seq<seq<byte>>, n: nat, r: seq<byte>)
    requires n < |was| == |now| && was[n] == now[n]
    ensures |ChangedSlots(was, now[n := r])| == |ChangedSlots(was, now)| + if was[n] != r then 1 else 0
  {
    var small := ChangedSlots(was, now);
    assert ChangedSlots(was, now[n := r]) == if was[n] != r then small + {n as int} else small;
  }

  /**
   Recovers every file of a directory in place and counts the files it changed. An unreadable file
   stops it: the files before it are recovered, it and those behind it are not.
   */
  method TruncateOrphanRuns(dir: array<seq<byte>>, known: set<nat>) returns (ok: bool, changed: nat, ghost done: nat)
    modifies dir
    ensures done <= dir.Length && dir[..] == RecoverFirst(old(dir[..]), known, done)
    ensures forall i :: 0 <= i < done ==> !Raises(old(dir[i]))
    ensures if ok then done == dir.Length else done < dir.Length && Raises(old(dir[done]))
    ensures changed == |ChangedSlots(old(dir[..]), dir[..])|
  {
    changed, done := 0, 0;
    ghost var was := dir[..];
    for i := 0 to dir.Length
      invariant done == i && dir[..] == RecoverFirst(was, known, i)
      invariant forall j :: 0 <= j < i ==> !Raises(was[j])
      invariant changed == |ChangedSlots(was, dir[..])|
    {
      ghost var before := dir[..];
      ghost var rest := was[i..];
      assert before[i] == rest[0] == was[i];
      var read, r := RecoverFile(dir[i], known);
      if !read {
        return false, changed, done;
      }
      ChangedSlotsStep(was, before, i, r);
      if r != dir[i] {
        dir[i] := r;
        changed := changed + 1;
      }
      assert dir[..] == before[i := r];
      done := i + 1;
    }
    return true, changed, done;
  }
}
