/**
 The manifest builder and its encoder, which fills one zeroed buffer in place.
 */
module ManifestWriter {
  import opened Bytes
  import opened Packing
  import opened ManifestReader
  import opened ManifestImage

  // ----- Sorting sections by kind -----

  ghost predicate DistinctKinds(ps: seq<Part>)
  {
    forall i, j :: 0 <= i < j < |ps| ==> ps[i].kind != ps[j].kind
  }

  ghost predicate SortedByKind(ps: seq<Part>)
  {
    forall i, j :: 0 <= i < j < |ps| ==> ps[i].kind < ps[j].kind
  }

  function InsertPart(p: Part, ps: seq<Part>): (r: seq<Part>)
    ensures multiset(r) == multiset(ps) + multiset{p} && |r| == |ps| + 1
  {
    if ps == [] then [p]
    else if p.kind < ps[0].kind then [p] + ps
    else
      assert ps == [ps[0]] + ps[1..];
      [ps[0]] + InsertPart(p, ps[1..])
  }

  function SortParts(ps: seq<Part>): (r: seq<Part>)
    ensures multiset(r) == multiset(ps) && |r| == |ps|
  {
    if ps == [] then []
    else
      assert ps == [ps[0]] + ps[1..];
      InsertPart(ps[0], SortParts(ps[1..]))
  }

  lemma InsertedFrom(p: Part, ps: seq<Part>, j: nat)
    requires j <= |ps|
    ensures InsertPart(p, ps)[j] == p || InsertPart(p, ps)[j] in ps
  {
    assert InsertPart(p, ps)[j] in multiset(InsertPart(p, ps));
  }

  lemma {:induction false} InsertSorted(p: Part, ps: seq<Part>)
    requires SortedByKind(ps) && forall q :: q in ps ==> q.kind != p.kind
    ensures SortedByKind(InsertPart(p, ps))
    decreases |ps|
  {
    if ps != [] && p.kind >= ps[0].kind {
      InsertSorted(p, ps[1..]);
      var rest := InsertPart(p, ps[1..]);
      forall j | 0 <= j < |rest|
        ensures ps[0].kind < rest[j].kind
      {
        InsertedFrom(p, ps[1..], j);
        assert ps[0] in ps;
      }
    }
  }

  lemma {:induction false} SortIsSorted(ps: seq<Part>)
    requires DistinctKinds(ps)
    ensures SortedByKind(SortParts(ps))
    decreases |ps|
  {
    if ps != [] {
      SortIsSorted(ps[1..]);
      forall q | q in SortParts(ps[1..])
        ensures q.kind != ps[0].kind
      {
        assert q in multiset(SortParts(ps[1..]));
        assert q in ps[1..];
      }
      InsertSorted(ps[0], SortParts(ps[1..]));
    }
  }

  lemma FirstIsLeast(a: seq<Part>, b: seq<Part>)
    requires SortedByKind(a) && SortedByKind(b) && multiset(a) == multiset(b) && a != []
    ensures b != [] && a[0] == b[0]
  {
    assert a[0] in multiset(a);
    assert b != [];
    assert b[0] in multiset(b);
    var i :| 0 <= i < |b| && b[i] == a[0];
    var j :| 0 <= j < |a| && a[j] == b[0];
  }

  lemma SameTails(p: Part, a: seq<Part>, b: seq<Part>)
    requires multiset([p] + a) == multiset([p] + b)
    ensures multiset(a) == multiset(b)
  {
    assert multiset([p] + a) == multiset{p} + multiset(a);
    assert multiset([p] + b) == multiset{p} + multiset(b);
    assert multiset(a) == multiset([p] + a) - multiset{p};
  }

  lemma {:induction false} SortedUnique(a: seq<Part>, b: seq<Part>)
    requires SortedByKind(a) && SortedByKind(b) && multiset(a) == multiset(b)
    ensures a == b
    decreases |a|
  {
    if a != [] {
      FirstIsLeast(a, b);
      assert a == [a[0]] + a[1..] && b == [b[0]] + b[1..];
      SameTails(a[0], a[1..], b[1..]);
      SortedUnique(a[1..], b[1..]);
    } else {
      assert |multiset(b)| == 0;
    }
  }

  /** The order in which sections were added does not matter. */
  lemma InsertionOrderIrrelevant(a: seq<Part>, b: seq<Part>)
    requires DistinctKinds(a) && DistinctKinds(b) && multiset(a) == multiset(b)
    ensures SortParts(a) == SortParts(b)
  {
    SortIsSorted(a);
    SortIsSorted(b);
    SortedUnique(SortParts(a), SortParts(b));
  }

  // ----- Writing into the buffer -----

  method PutBytes(out: array<byte>, at: nat, part: seq<byte>)
    requires at + |part| <= out.Length
    modifies out
    ensures out[..] == Splice(old(out[..]), at, part)
  {
    ghost var s := out[..];
    for k := 0 to |part|
      invariant out[..] == Splice(s, at, part[..k])
    {
      out[at + k] := part[k];
      SpliceNext(s, at, part, k);
    }
    assert part[..|part|] == part;
  }

  lemma SpliceNext(s: seq<byte>, at: nat, part: seq<byte>, k: nat)
    requires at + |part| <= |s| && k < |part|
    ensures Splice(s, at, part[..k])[at + k := part[k]] == Splice(s, at, part[..k + 1])
  {
  }

  lemma SpliceAdjacent(s: seq<byte>, at: nat, a: seq<byte>, b: seq<byte>)
    requires at + |a| + |b| <= |s|
    ensures Splice(Splice(s, at, a), at + |a|, b) == Splice(s, at, a + b)
  {
    var t := Splice(s, at, a);
    assert t[..at + |a|] == s[..at] + a;
    assert t[at + |a| + |b|..] == s[at + |a| + |b|..];
  }

  /** Field `i` of a packed block written behind the fields before it. */
  lemma SpliceField(s: seq<byte>, at: nat, fs: seq<Num>, i: nat)
    requires i < |fs| && at + Offset(fs, i + 1) <= |s|
    ensures |Pack(fs[..i])| == Offset(fs, i) && |Pack(fs[..i + 1])| == Offset(fs, i + 1)
    ensures Splice(Splice(s, at, Pack(fs[..i])), at + Offset(fs, i), ToLE(fs[i].value, fs[i].width))
            == Splice(s, at, Pack(fs[..i + 1]))
  {
    PackLength(fs, i);
    PackLength(fs, i + 1);
    PackSnoc(fs[..i], fs[i]);
    assert fs[..i + 1] == fs[..i] + [fs[i]];
    SpliceAdjacent(s, at, Pack(fs[..i]), ToLE(fs[i].value, fs[i].width));
  }

  /** A zero field over zero bytes needs no write. */
  lemma SpliceZeroField(s: seq<byte>, at: nat, fs: seq<Num>, i: nat)
    requires i < |fs| && at + Offset(fs, i + 1) <= |s| && fs[i].value == 0
    requires s[at + Offset(fs, i)..at + Offset(fs, i + 1)] == Zeros(fs[i].width)
    ensures |Pack(fs[..i])| == Offset(fs, i) && |Pack(fs[..i + 1])| == Offset(fs, i + 1)
    ensures Splice(s, at, Pack(fs[..i])) == Splice(s, at, Pack(fs[..i + 1]))
  {
    SpliceField(s, at, fs, i);
    ZeroField(fs[i].width);
    var t := Splice(s, at, Pack(fs[..i]));
    SpliceElsewhere(s, at, Pack(fs[..i]), at + Offset(fs, i), at + Offset(fs, i + 1));
    SpliceSame(t, at + Offset(fs, i), Zeros(fs[i].width));
  }

  lemma SpliceSame(s: seq<byte>, at: nat, part: seq<byte>)
    requires at + |part| <= |s| && s[at..at + |part|] == part
    ensures Splice(s, at, part) == s
  {
  }

  /** `put_u16`, `put_u32` and `put_u64`: the next field of the block `fs` at `start`. */
  method PutField(out: array<byte>, at: nat, value: nat, width: nat, ghost s: seq<byte>, ghost start: nat,
                  ghost fs: seq<Num>, ghost i: nat)
    requires i < |fs| && fs[i] == Num(value, width) && at == start + Offset(fs, i) && |s| == out.Length
    requires start + Offset(fs, i + 1) <= |s|
    requires |Pack(fs[..i])| == Offset(fs, i) && out[..] == Splice(s, start, Pack(fs[..i]))
    modifies out
    ensures |Pack(fs[..i + 1])| == Offset(fs, i + 1) && out[..] == Splice(s, start, Pack(fs[..i + 1]))
  {
    SpliceField(s, start, fs, i);
    PutBytes(out, at, ToLE(value, width));
  }

  /** One section entry over zeroed bytes; the two reserved words are left as they are. */
  method PutSectionEntry(out: array<byte>, at: nat, crc: Crc, p: Part, off: nat)
    requires at + SECTION_ENTRY_BYTES <= out.Length
    requires out[..][at..at + SECTION_ENTRY_BYTES] == Zeros(SECTION_ENTRY_BYTES)
    modifies out
    ensures out[..] == Splice(old(out[..]), at, EntryBytes(crc, p, off))
  {
    ghost var s, fs := out[..], EntryFields(crc, p, off);
    EntryOffsets(fs);
    PackLength(fs, 0);
    SpliceSame(s, at, []);
    PutField(out, at, p.kind, 2, s, at, fs, 0);
    PutField(out, at + 2, p.flags, 2, s, at, fs, 1);
    ZeroBytes(s, at, SECTION_ENTRY_BYTES, 4, 4);
    SpliceZeroField(s, at, fs, 2);
    PutField(out, at + 8, off, 8, s, at, fs, 3);
    PutField(out, at + 16, |p.payload|, 8, s, at, fs, 4);
    PutField(out, at + 24, crc(p.payload), 4, s, at, fs, 5);
    ZeroBytes(s, at, SECTION_ENTRY_BYTES, 28, 4);
    PackLength(fs, 7);
    SpliceZeroField(s, at, fs, 6);
    assert fs[..7] == fs;
  }

  lemma ZeroBytes(s: seq<byte>, at: nat, n: nat, k: nat, w: nat)
    requires at + n <= |s| && s[at..at + n] == Zeros(n) && k + w <= n
    ensures s[at + k..at + k + w] == Zeros(w)
  {
    SubSlice(s, at, at + n, k, k + w);
    assert Zeros(n)[k..k + w] == Zeros(w);
  }

  method PutFileEntry(out: array<byte>, at: nat, f: File)
    requires at + FILE_ENTRY_BYTES <= out.Length
    modifies out
    ensures out[..] == Splice(old(out[..]), at, FileBytes(f))
  {
    ghost var s, fs := out[..], FileFields(f);
    FileOffsets(fs);
    PackLength(fs, 0);
    PackLength(fs, 5);
    SpliceSame(s, at, []);
    PutField(out, at, f.id, 4, s, at, fs, 0);
    PutField(out, at + 4, f.name, 4, s, at, fs, 1);
    PutField(out, at + 8, f.bytes, 8, s, at, fs, 2);
    PutField(out, at + 16, f.kind, 4, s, at, fs, 3);
    PutField(out, at + 20, 0, 4, s, at, fs, 4);
    assert fs[..5] == fs;
  }

  /** The checksummed part of the header. */
  method PutHead(out: array<byte>, b: Build)
    requires out.Length >= HEADER_BYTES && |Head(b)| == CRC_AT
    modifies out
    ensures out[..] == Splice(old(out[..]), 0, Head(b))
  {
    ghost var s0, fs := out[..], HeadFields(b);
    PutBytes(out, 0, Magic());
    ghost var s := out[..];
    PutVersions(out, b, fs);
    PutCounts(out, b, s, fs);
    HeadOffsets(b);
    SpliceAdjacent(s0, 0, Magic(), Pack(fs));
  }

  method PutVersions(out: array<byte>, b: Build, ghost fs: seq<Num>)
    requires out.Length >= HEADER_BYTES && fs == HeadFields(b)
    modifies out
    ensures |Pack(fs[..6])| == 16 && out[..] == Splice(old(out[..]), 10, Pack(fs[..6]))
  {
    ghost var s := out[..];
    HeadOffsets(b);
    PackLength(fs, 0);
    SpliceSame(s, 10, []);
    PutField(out, 10, FORMAT_MAJOR, 2, s, 10, fs, 0);
    PutField(out, 12, FORMAT_MINOR, 2, s, 10, fs, 1);
    PutField(out, 14, HEADER_BYTES, 4, s, 10, fs, 2);
    PutField(out, 18, b.minMajor, 2, s, 10, fs, 3);
    PutField(out, 20, b.minMinor, 2, s, 10, fs, 4);
    PutField(out, 22, b.flags, 4, s, 10, fs, 5);
  }

  method PutCounts(out: array<byte>, b: Build, ghost s: seq<byte>, ghost fs: seq<Num>)
    requires out.Length == |s| >= HEADER_BYTES && fs == HeadFields(b)
    requires |Pack(fs[..6])| == 16 && out[..] == Splice(s, 10, Pack(fs[..6]))
    modifies out
    ensures |Pack(fs)| == 48 && out[..] == Splice(s, 10, Pack(fs))
  {
    HeadOffsets(b);
    PackLength(fs, 11);
    PutField(out, 26, b.generation, 8, s, 10, fs, 6);
    PutField(out, 34, |b.parts|, 4, s, 10, fs, 7);
    PutField(out, 38, |b.files| + 1, 4, s, 10, fs, 8);
    PutField(out, 42, HEADER_BYTES, 8, s, 10, fs, 9);
    PutField(out, 50, FileTableAt(b), 8, s, 10, fs, 10);
    assert fs[..11] == fs;
  }

  // ----- Filling zones block by block -----

  /** A zone whose first `i` blocks are written and whose rest is still zero. */
  ghost function Done(bs: seq<seq<byte>>, i: nat): (z: seq<byte>)
    requires i <= |bs|
    ensures |z| == |Concat(bs)|
  {
    ConcatMono(bs, i);
    Concat(bs[..i]) + Zeros(|Concat(bs)| - |Concat(bs[..i])|)
  }

  lemma {:induction false} ConcatMono(bs: seq<seq<byte>>, i: nat)
    requires i <= |bs|
    ensures |Concat(bs[..i])| <= |Concat(bs)|
  {
    ConcatAll(bs);
    if i < |bs| {
      ConcatSlice(bs, |bs|, i);
    }
  }

  lemma DoneStep(bs: seq<seq<byte>>, i: nat)
    requires i < |bs|
    ensures var at := |Concat(bs[..i])|;
            && at + |bs[i]| <= |Concat(bs)|
            && Done(bs, i)[at..at + |bs[i]|] == Zeros(|bs[i]|)
            && Splice(Done(bs, i), at, bs[i]) == Done(bs, i + 1)
  {
    ConcatSlice(bs, |bs|, i);
    ConcatAll(bs);
    ConcatSnoc(bs, i);
    FillStep(Concat(bs[..i]), bs[i], |Concat(bs)| - |Concat(bs[..i])|);
  }

  lemma FillStep(front: seq<byte>, part: seq<byte>, n: nat)
    requires |part| <= n
    ensures (front + Zeros(n))[|front|..|front| + |part|] == Zeros(|part|)
    ensures Splice(front + Zeros(n), |front|, part) == (front + part) + Zeros(n - |part|)
  {
    SpliceZeros(front, part, n);
  }

  lemma DoneEnds(bs: seq<seq<byte>>)
    ensures Done(bs, 0) == Zeros(|Concat(bs)|) && Done(bs, |bs|) == Concat(bs)
  {
    ConcatAll(bs);
    assert Concat(bs[..0]) == [];
  }

  lemma SpliceFront(h: seq<byte>, rest: seq<byte>, k: nat, part: seq<byte>)
    requires k + |part| <= |h|
    ensures Splice(h + rest, k, part) == Splice(h, k, part) + rest
  {
    assert (h + rest)[..k] == h[..k];
    assert (h + rest)[k + |part|..] == h[k + |part|..] + rest;
  }

  lemma SpliceFirst(h: seq<byte>, s: seq<byte>, f: seq<byte>, p: seq<byte>, t: seq<byte>, part: seq<byte>, k: nat)
    requires k + |part| <= |h|
    ensures Splice(h + s + f + p + t, k, part) == Splice(h, k, part) + s + f + p + t
  {
    var rest, g := s + f + p + t, Splice(h, k, part);
    FiveParts(h, s, f, p, t);
    FiveParts(g, s, f, p, t);
    SpliceFront(h, rest, k, part);
  }

  lemma SpliceSecond(h: seq<byte>, s: seq<byte>, f: seq<byte>, p: seq<byte>, t: seq<byte>, part: seq<byte>, k: nat)
    requires k + |part| <= |s|
    ensures Splice(h + s + f + p + t, |h| + k, part) == h + Splice(s, k, part) + f + p + t
    ensures (h + s + f + p + t)[|h| + k..|h| + k + |part|] == s[k..k + |part|]
  {
    FiveParts(h, s, f, p, t);
    SpliceIn(h, s, f + p + t, k, part);
    FiveParts(h, Splice(s, k, part), f, p, t);
    SliceIn(h, s, f + p + t, k, k + |part|);
  }

  lemma SpliceThird(h: seq<byte>, s: seq<byte>, f: seq<byte>, p: seq<byte>, t: seq<byte>, part: seq<byte>, k: nat)
    requires k + |part| <= |f|
    ensures Splice(h + s + f + p + t, |h| + |s| + k, part) == h + s + Splice(f, k, part) + p + t
  {
    FiveParts(h, s, f, p, t);
    SpliceIn(h + s, f, p + t, k, part);
    FiveParts(h, s, Splice(f, k, part), p, t);
  }

  lemma EntryLengths(crc: Crc, b: Build, i: nat)
    requires i <= |b.parts|
    ensures |Concat(Entries(crc, b.parts, PayloadAt(b))[..i])| == i * SECTION_ENTRY_BYTES
  {
    ConcatLength(Entries(crc, b.parts, PayloadAt(b)), i, SECTION_ENTRY_BYTES);
  }

  method PutPayloadBlock(out: array<byte>, at: nat, payload: seq<byte>,
                         ghost front: seq<byte>, ghost ps: seq<seq<byte>>, ghost t: seq<byte>, ghost i: nat)
    requires i < |ps| && ps[i] == payload && at == |front| + |Concat(ps[..i])|
    requires out[..] == front + Done(ps, i) + t
    modifies out
    ensures out[..] == front + Done(ps, i + 1) + t
  {
    DoneStep(ps, i);
    SpliceIn(front, Done(ps, i), t, |Concat(ps[..i])|, ps[i]);
    PutBytes(out, at, payload);
  }

  method PutEntryBlock(out: array<byte>, at: nat, payloadAt: nat, crc: Crc, p: Part,
                       ghost h: seq<byte>, ghost es: seq<seq<byte>>, ghost f: seq<byte>, ghost z: seq<byte>,
                       ghost t: seq<byte>, ghost i: nat)
    requires i < |es| && es[i] == EntryBytes(crc, p, payloadAt) && at == |h| + |Concat(es[..i])|
    requires out[..] == h + Done(es, i) + f + z + t
    modifies out
    ensures out[..] == h + Done(es, i + 1) + f + z + t
  {
    DoneStep(es, i);
    SpliceSecond(h, Done(es, i), f, z, t, es[i], |Concat(es[..i])|);
    PutSectionEntry(out, at, crc, p, payloadAt);
  }

  /** One section: its table entry, then its payload. */
  method PutSection(out: array<byte>, at: nat, payloadAt: nat, crc: Crc, p: Part,
                    ghost h: seq<byte>, ghost es: seq<seq<byte>>, ghost f: seq<byte>, ghost ps: seq<seq<byte>>,
                    ghost t: seq<byte>, ghost i: nat)
    requires i < |es| == |ps| && es[i] == EntryBytes(crc, p, payloadAt) && ps[i] == p.payload
    requires at == |h| + |Concat(es[..i])| && payloadAt == |h| + |Concat(es)| + |f| + |Concat(ps[..i])|
    requires out[..] == h + Done(es, i) + f + Done(ps, i) + t
    modifies out
    ensures out[..] == h + Done(es, i + 1) + f + Done(ps, i + 1) + t
  {
    PutEntryBlock(out, at, payloadAt, crc, p, h, es, f, Done(ps, i), t, i);
    PutPayloadBlock(out, payloadAt, p.payload, h + Done(es, i + 1) + f, ps, t, i);
  }

  /** The blocks of the section table and of the payloads, for payloads that start at `base`. */
  ghost predicate AreBlocksOf(crc: Crc, parts: seq<Part>, base: nat, es: seq<seq<byte>>, ps: seq<seq<byte>>)
  {
    && |es| == |parts| == |ps|
    && forall i :: 0 <= i < |parts| ==> BlocksAt(crc, parts, base, es, ps, i)
  }

  ghost predicate BlocksAt(crc: Crc, parts: seq<Part>, base: nat, es: seq<seq<byte>>, ps: seq<seq<byte>>, i: nat)
    requires i < |es| == |parts| == |ps|
  {
    && es[i] == EntryBytes(crc, parts[i], base + |Concat(ps[..i])|) && ps[i] == parts[i].payload
    && |Concat(es[..i])| == i * SECTION_ENTRY_BYTES
  }

  lemma BlocksOfBuild(crc: Crc, b: Build)
    ensures AreBlocksOf(crc, b.parts, PayloadAt(b), Entries(crc, b.parts, PayloadAt(b)), PayloadList(b.parts))
  {
    var es, ps := Entries(crc, b.parts, PayloadAt(b)), PayloadList(b.parts);
    forall i | 0 <= i < |b.parts|
      ensures BlocksAt(crc, b.parts, PayloadAt(b), es, ps, i)
    {
      EntriesAt(crc, b.parts, PayloadAt(b), i);
      EntryLengths(crc, b, i);
    }
  }

  /** Fills the section table and the payloads side by side, advancing the payload offset. */
  method PutSections(out: array<byte>, crc: Crc, parts: seq<Part>, base: nat,
                     ghost h: seq<byte>, ghost es: seq<seq<byte>>, ghost f: seq<byte>, ghost ps: seq<seq<byte>>,
                     ghost t: seq<byte>)
    requires AreBlocksOf(crc, parts, base, es, ps) && |h| == HEADER_BYTES && base == |h| + |Concat(es)| + |f|
    requires out[..] == h + Done(es, 0) + f + Done(ps, 0) + t
    modifies out
    ensures out[..] == h + Concat(es) + f + Concat(ps) + t
  {
    var payloadAt := base;
    for i := 0 to |parts|
      invariant payloadAt == base + |Concat(ps[..i])|
      invariant out[..] == h + Done(es, i) + f + Done(ps, i) + t
    {
      assert BlocksAt(crc, parts, base, es, ps, i);
      PutSection(out, HEADER_BYTES + i * SECTION_ENTRY_BYTES, payloadAt, crc, parts[i], h, es, f, ps, t, i);
      ConcatSnoc(ps, i);
      payloadAt := payloadAt + |parts[i].payload|;
    }
    DoneEnds(es);
    DoneEnds(ps);
  }

  lemma FileEntryAt(b: Build, i: nat)
    requires Fits(b) && i <= |b.files|
    ensures FileEntries(AllFiles(b))[i] == FileBytes(AllFiles(b)[i])
    ensures |Concat(FileEntries(AllFiles(b))[..i])| == i * FILE_ENTRY_BYTES
  {
    ConcatLength(FileEntries(AllFiles(b)), i, FILE_ENTRY_BYTES);
  }

  method PutFileBlock(out: array<byte>, at: nat, entry: File, ghost h: seq<byte>, ghost s: seq<byte>,
                      ghost fs: seq<seq<byte>>, ghost p: seq<byte>, ghost t: seq<byte>, ghost i: nat)
    requires i < |fs| && fs[i] == FileBytes(entry) && at == |h| + |s| + |Concat(fs[..i])|
    requires out[..] == h + s + Done(fs, i) + p + t
    modifies out
    ensures out[..] == h + s + Done(fs, i + 1) + p + t
  {
    DoneStep(fs, i);
    SpliceThird(h, s, Done(fs, i), p, t, fs[i], |Concat(fs[..i])|);
    PutFileEntry(out, at, entry);
  }

  /** Fills the file table: the self entry, then the external files. */
  method PutFiles(out: array<byte>, b: Build, ghost h: seq<byte>, ghost s: seq<byte>, ghost p: seq<byte>,
                  ghost t: seq<byte>)
    requires Fits(b) && |h| + |s| == FileTableAt(b)
    requires out[..] == h + s + Done(FileEntries(AllFiles(b)), 0) + p + t
    modifies out
    ensures out[..] == h + s + FileZone(b) + p + t
  {
    ghost var fs := FileEntries(AllFiles(b));
    FileEntryAt(b, 0);
    PutFileBlock(out, FileTableAt(b), File(0, 0, Total(b), KIND_MANIFEST), h, s, fs, p, t, 0);
    for i := 0 to |b.files|
      invariant out[..] == h + s + Done(fs, i + 1) + p + t
    {
      FileEntryAt(b, i + 1);
      PutFileBlock(out, FileTableAt(b) + (i + 1) * FILE_ENTRY_BYTES, b.files[i], h, s, fs, p, t, i + 1);
    }
    DoneEnds(fs);
  }

  // ----- The whole buffer -----

  /** Writing zeros over zeros changes nothing. */
  method PutZeros(out: array<byte>, at: nat, width: nat)
    requires at + width <= out.Length && out[..][at..at + width] == Zeros(width)
    modifies out
    ensures out[..] == old(out[..])
  {
    ZeroField(width);
    SpliceSame(out[..], at, Zeros(width));
    PutBytes(out, at, ToLE(0, width));
  }

  lemma ZerosFive(a: nat, b: nat, c: nat, d: nat, e: nat)
    ensures Zeros(a + b + c + d + e) == Zeros(a) + Zeros(b) + Zeros(c) + Zeros(d) + Zeros(e)
  {
  }

  /** The header zone before its checksum. */
  method PutHeader(out: array<byte>, b: Build, ghost s: seq<byte>, ghost f: seq<byte>, ghost p: seq<byte>,
                   ghost t: seq<byte>)
    requires out[..] == Zeros(HEADER_BYTES) + s + f + p + t
    modifies out
    ensures |Head(b)| == CRC_AT && out[..] == (Head(b) + Zeros(6)) + s + f + p + t
  {
    HeadOffsets(b);
    SpliceFirst(Zeros(HEADER_BYTES), s, f, p, t, Head(b), 0);
    SpliceZeros([], Head(b), HEADER_BYTES);
    assert [] + Zeros(HEADER_BYTES) == Zeros(HEADER_BYTES) && [] + Head(b) == Head(b);
    PutHead(out, b);
    assert out[..][62..64] == Zeros(2);
    PutZeros(out, 62, 2);
  }

  /** The checksum of the first 58 bytes, behind them. */
  method PutChecksum(out: array<byte>, crc: Crc, head: seq<byte>, ghost s: seq<byte>, ghost f: seq<byte>,
                     ghost p: seq<byte>, ghost t: seq<byte>)
    requires |head| == CRC_AT && out[..] == (head + Zeros(6)) + s + f + p + t
    modifies out
    ensures out[..] == (head + ToLE(crc(head), 4) + Zeros(2)) + s + f + p + t
  {
    assert out[..][..CRC_AT] == head;
    assert out[..CRC_AT] == head;
    var sum := crc(out[..CRC_AT]);
    SpliceFirst(head + Zeros(6), s, f, p, t, ToLE(sum, 4), CRC_AT);
    SpliceZeros(head, ToLE(sum, 4), 6);
    PutBytes(out, CRC_AT, ToLE(sum, 4));
  }

  method PutTrailer(out: array<byte>, ghost front: seq<byte>)
    requires out[..] == front + Zeros(TRAILER_BYTES)
    modifies out
    ensures out[..] == front + TrailerZone()
  {
    var at := out.Length - TRAILER_BYTES;
    SpliceZeros(front, TrailerMagic(), TRAILER_BYTES);
    PutBytes(out, at, TrailerMagic());
    assert front + TrailerMagic() + Zeros(8) == front + TrailerZone();
    assert out[..][at + 8..at + 12] == Zeros(4);
    PutZeros(out, at + 8, 4);
    assert out[..][at + 12..at + 16] == Zeros(4);
    PutZeros(out, at + 12, 4);
  }

  /** Fills a zeroed buffer with the image of a builder. */
  method WriteImage(crc: Crc, b: Build) returns (out: array<byte>)
    requires Fits(b)
    ensures fresh(out) && out[..] == Image(crc, b)
  {
    ZonesTile(crc, b);
    ghost var es, fs, ps := Entries(crc, b.parts, PayloadAt(b)), FileEntries(AllFiles(b)), PayloadList(b.parts);
    DoneEnds(es);
    DoneEnds(fs);
    DoneEnds(ps);
    ghost var t := Zeros(TRAILER_BYTES);
    out := new byte[Total(b)](_ => 0);
    ZerosFive(HEADER_BYTES, |Concat(es)|, |Concat(fs)|, |Concat(ps)|, TRAILER_BYTES);
    assert out[..] == Zeros(Total(b));
    PutHeader(out, b, Done(es, 0), Done(fs, 0), Done(ps, 0), t);
    BlocksOfBuild(crc, b);
    PutSections(out, crc, b.parts, PayloadAt(b), Head(b) + Zeros(6), es, Done(fs, 0), ps, t);
    PutFiles(out, b, Head(b) + Zeros(6), SectionZone(crc, b), Payloads(b.parts), t);
    PutChecksum(out, crc, Head(b), SectionZone(crc, b), FileZone(b), Payloads(b.parts), t);
    PutTrailer(out, HeaderZone(crc, b) + SectionZone(crc, b) + FileZone(b) + Payloads(b.parts));
  }

  // ----- The builder -----

  function Sorted(b: Build): Build
  {
    b.(parts := SortParts(b.parts))
  }

  class ManifestBuilder {
    var flags: u32
    var generation: u64
    var minMajor: u16
    var minMinor: u16
    var parts: seq<Part>
    var files: seq<File>

    function Value(): Build
      reads this
    {
      Build(flags, generation, minMajor, minMinor, parts, files)
    }

    ghost predicate Valid()
      reads this
    {
      && DistinctKinds(parts)
      && BuildOk(Value().(parts := []))
    }

    constructor (generation: u64)
      requires generation != 0
      ensures Valid() && Value() == Build(0, generation, FORMAT_MAJOR, FORMAT_MINOR, [], [])
    {
      this.generation := generation;
      flags, minMajor, minMinor, parts, files := 0, FORMAT_MAJOR, FORMAT_MINOR, [], [];
    }

    method SetFlags(flags: u32)
      requires Valid()
      modifies this`flags
      ensures Valid() && Value() == old(Value()).(flags := flags)
    {
      this.flags := flags;
    }

    method SetMinReader(major: u16, minor: u16)
      requires Valid()
      modifies this`minMajor, this`minMinor
      ensures Valid() && Value() == old(Value()).(minMajor := major, minMinor := minor)
    {
      minMajor, minMinor := major, minor;
    }

    /** Adds a section; a kind that is already there is refused and nothing changes. */
    method AddSection(kind: u16, entryFlags: u16, payload: seq<byte>) returns (ok: bool)
      requires Valid()
      modifies this`parts
      ensures Valid()
      ensures ok <==> forall i :: 0 <= i < |old(parts)| ==> old(parts)[i].kind != kind
      ensures Value() == old(Value()).(parts := old(parts) + if ok then [Part(kind, entryFlags, payload)] else [])
    {
      for i := 0 to |parts|
        invariant parts == old(parts)
        invariant forall j :: 0 <= j < i ==> parts[j].kind != kind
      {
        if parts[i].kind == kind {
          return false;
        }
      }
      parts := parts + [Part(kind, entryFlags, payload)];
      return true;
    }

    /** Adds an external file behind the self entry; its id is its position in the file table. */
    method AddFile(name: u32, bytes: u64, kind: u32) returns (r: Result<u32>)
      requires Valid()
      modifies this`files
      ensures Valid()
      ensures r.Ok? <==> KIND_MANIFEST < kind <= KIND_PROVENANCE && |old(files)| + 1 < U32_LIMIT
      ensures r.Ok? ==> r.value == |old(files)| + 1
      ensures r.Ok? ==> Value() == old(Value()).(files := old(files) + [File(r.value, name, bytes, kind)])
      ensures r.Err? ==> Value() == old(Value())
    {
      if kind == KIND_MANIFEST || kind > KIND_PROVENANCE {
        return Err("invalid external file kind");
      }
      if |files| + 1 >= U32_LIMIT {
        return Err("too many files");
      }
      var id: u32 := |files| + 1;
      files := files + [File(id, name, bytes, kind)];
      return Ok(id);
    }

    /**
     Encodes the builder. It succeeds exactly when the sizes fit and the minimum reader is at most
     1.0: the final self-check refuses nothing else.
     */
    method Encode(crc: Crc) returns (r: Result<seq<byte>>)
      requires Valid()
      ensures r.Ok? <==> Fits(Sorted(Value())) && ReaderSuffices(minMajor, minMinor)
      ensures r.Ok? ==> r.value == Image(crc, Sorted(Value()))
    {
      var b := Sorted(Value());
      SortIsSorted(parts);
      if |b.parts| >= U32_LIMIT {
        return Err("too many sections");
      }
      if |b.files| + 1 >= U32_LIMIT {
        return Err("too many files");
      }
      if Total(b) >= MAX_LEN {
        return Err("manifest size overflow");
      }
      var out := WriteImage(crc, b);
      ImageRoundTrip(crc, b);
      ZonesTile(crc, b);
      var check, _, _ := Parse(crc, out[..]);
      if check.Err? {
        return Err(check.error);
      }
      return Ok(out[..]);
    }
  }

  /** `new`: a zero generation is refused. */
  method NewBuilder(generation: u64) returns (r: Result<ManifestBuilder>)
    ensures r.Ok? <==> generation != 0
    ensures r.Ok? ==> fresh(r.value) && r.value.Valid()
    ensures r.Ok? ==> r.value.Value() == Build(0, generation, FORMAT_MAJOR, FORMAT_MINOR, [], [])
  {
    if generation == 0 {
      return Err("zero generation");
    }
    var b := new ManifestBuilder(generation);
    return Ok(b);
  }

  /** Builders that differ only in the order of their sections encode to the same bytes. */
  lemma EncodingIgnoresOrder(crc: Crc, b: Build, c: Build)
    requires DistinctKinds(b.parts) && DistinctKinds(c.parts) && multiset(b.parts) == multiset(c.parts)
    requires c.(parts := b.parts) == b
    ensures Fits(Sorted(b)) <==> Fits(Sorted(c))
    ensures Fits(Sorted(b)) ==> Image(crc, Sorted(b)) == Image(crc, Sorted(c))
  {
    InsertionOrderIrrelevant(b.parts, c.parts);
    assert Sorted(b) == Sorted(c);
  }
}
