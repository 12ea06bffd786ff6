/**
 The bytes that a manifest builder stands for, and the proof that the reader recovers the builder
 from them.
 */
module ManifestImage {
  import opened Bytes
  import opened Packing
  import opened ManifestReader

  /** A section to write. */
  datatype Part = Part(kind: u16, flags: u16, payload: seq<byte>)

  datatype Build = Build(
    flags: u32, generation: u64, minMajor: u16, minMinor: u16, parts: seq<Part>, files: seq<File>)

  // ----- Zones -----

  function PayloadList(ps: seq<Part>): (l: seq<seq<byte>>)
    ensures |l| == |ps| && forall i :: 0 <= i < |ps| ==> l[i] == ps[i].payload
  {
    seq(|ps|, i requires 0 <= i < |ps| => ps[i].payload)
  }

  function Payloads(ps: seq<Part>): seq<byte>
  {
    Concat(PayloadList(ps))
  }

  /** How far into the payloads part `i` starts. */
  function PayloadStart(ps: seq<Part>, i: nat): nat
    requires i <= |ps|
  {
    |Concat(PayloadList(ps)[..i])|
  }

  function EntryFields(crc: Crc, p: Part, at: nat): seq<Num>
  {
    [Num(p.kind, 2), Num(p.flags, 2), Num(0, 4), Num(at, 8), Num(|p.payload|, 8), Num(crc(p.payload), 4), Num(0, 4)]
  }

  function EntryBytes(crc: Crc, p: Part, at: nat): (e: seq<byte>)
    ensures |e| == SECTION_ENTRY_BYTES
  {
    EntryOffsets(EntryFields(crc, p, at));
    Pack(EntryFields(crc, p, at))
  }

  /** The section table entries when payloads start at `base`. */
  function Entries(crc: Crc, ps: seq<Part>, base: nat): (l: seq<seq<byte>>)
    ensures |l| == |ps|
    ensures forall i :: 0 <= i < |l| ==> |l[i]| == SECTION_ENTRY_BYTES
  {
    seq(|ps|, i requires 0 <= i < |ps| => EntryBytes(crc, ps[i], base + PayloadStart(ps, i)))
  }

  function FileFields(f: File): seq<Num>
  {
    [Num(f.id, 4), Num(f.name, 4), Num(f.bytes, 8), Num(f.kind, 4), Num(0, 4)]
  }

  function FileBytes(f: File): (e: seq<byte>)
    ensures |e| == FILE_ENTRY_BYTES
  {
    FileOffsets(FileFields(f));
    Pack(FileFields(f))
  }

  function FileEntries(fs: seq<File>): (l: seq<seq<byte>>)
    ensures |l| == |fs|
    ensures forall i :: 0 <= i < |l| ==> |l[i]| == FILE_ENTRY_BYTES
  {
    seq(|fs|, i requires 0 <= i < |fs| => FileBytes(fs[i]))
  }

  function FileTableAt(b: Build): nat
  {
    HEADER_BYTES + |b.parts| * SECTION_ENTRY_BYTES
  }

  function PayloadAt(b: Build): nat
  {
    FileTableAt(b) + (|b.files| + 1) * FILE_ENTRY_BYTES
  }

  function Total(b: Build): nat
  {
    PayloadAt(b) + |Payloads(b.parts)| + TRAILER_BYTES
  }

  /** The size checks of the writer. */
  predicate Fits(b: Build)
  {
    |b.parts| < U32_LIMIT && |b.files| + 1 < U32_LIMIT && Total(b) < MAX_LEN
  }

  function HeadFields(b: Build): seq<Num>
  {
    [Num(FORMAT_MAJOR, 2), Num(FORMAT_MINOR, 2), Num(HEADER_BYTES, 4), Num(b.minMajor, 2), Num(b.minMinor, 2),
     Num(b.flags, 4), Num(b.generation, 8), Num(|b.parts|, 4), Num(|b.files| + 1, 4),
     Num(HEADER_BYTES, 8), Num(FileTableAt(b), 8)]
  }

  /** The checksummed part of the header. */
  function Head(b: Build): seq<byte>
  {
    Magic() + Pack(HeadFields(b))
  }

  function HeaderZone(crc: Crc, b: Build): seq<byte>
  {
    Head(b) + ToLE(crc(Head(b)), 4) + Zeros(2)
  }

  /** The file table: the manifest itself, then the external files. */
  function AllFiles(b: Build): seq<File>
    requires Fits(b)
  {
    [File(0, 0, Total(b), KIND_MANIFEST)] + b.files
  }

  function TrailerZone(): (t: seq<byte>)
    ensures |t| == TRAILER_BYTES
  {
    TrailerMagic() + Zeros(8)
  }

  function SectionZone(crc: Crc, b: Build): seq<byte>
  {
    Concat(Entries(crc, b.parts, PayloadAt(b)))
  }

  function FileZone(b: Build): seq<byte>
    requires Fits(b)
  {
    Concat(FileEntries(AllFiles(b)))
  }

  /** The written file: five zones with no gap or overlap. */
  function Image(crc: Crc, b: Build): seq<byte>
    requires Fits(b)
  {
    HeaderZone(crc, b) + SectionZone(crc, b) + FileZone(b) + Payloads(b.parts) + TrailerZone()
  }

  // ----- Sizes -----

  lemma EntryOffsets(fs: seq<Num>)
    requires |fs| == 7 && fs[0].width == fs[1].width == 2 && fs[2].width == 4 && fs[3].width == fs[4].width == 8
    requires fs[5].width == fs[6].width == 4
    ensures Offset(fs, 0) == 0 && Offset(fs, 1) == 2 && Offset(fs, 2) == 4 && Offset(fs, 3) == 8
    ensures Offset(fs, 4) == 16 && Offset(fs, 5) == 24 && Offset(fs, 6) == 28 && |Pack(fs)| == 32
  {
    assert Offset(fs, 2) == Offset(fs, 1) + 2;
    assert Offset(fs, 4) == Offset(fs, 3) + 8;
    assert Offset(fs, 6) == Offset(fs, 5) + 4;
    PackLength(fs, 7);
    assert fs[..7] == fs;
  }

  lemma FileOffsets(fs: seq<Num>)
    requires |fs| == 5 && fs[0].width == fs[1].width == 4 && fs[2].width == 8 && fs[3].width == fs[4].width == 4
    ensures Offset(fs, 0) == 0 && Offset(fs, 1) == 4 && Offset(fs, 2) == 8 && Offset(fs, 3) == 16
    ensures Offset(fs, 4) == 20 && |Pack(fs)| == 24
  {
    assert Offset(fs, 2) == Offset(fs, 1) + 4;
    assert Offset(fs, 4) == Offset(fs, 3) + 4;
    PackLength(fs, 5);
    assert fs[..5] == fs;
  }

  lemma HeadOffsets(b: Build)
    ensures var fs := HeadFields(b);
            && Offset(fs, 0) == 0 && Offset(fs, 1) == 2 && Offset(fs, 2) == 4 && Offset(fs, 3) == 8
            && Offset(fs, 4) == 10 && Offset(fs, 5) == 12 && Offset(fs, 6) == 16 && Offset(fs, 7) == 24
            && Offset(fs, 8) == 28 && Offset(fs, 9) == 32 && Offset(fs, 10) == 40
            && |Pack(fs)| == 48 && |Head(b)| == CRC_AT
  {
    var fs := HeadFields(b);
    assert Offset(fs, 2) == Offset(fs, 1) + 2;
    assert Offset(fs, 4) == Offset(fs, 3) + 2;
    assert Offset(fs, 6) == Offset(fs, 5) + 4;
    assert Offset(fs, 8) == Offset(fs, 7) + 4;
    assert Offset(fs, 10) == Offset(fs, 9) + 8;
    PackLength(fs, 11);
    assert fs[..11] == fs;
  }

  lemma ConcatAll(bs: seq<seq<byte>>)
    ensures Concat(bs[..|bs|]) == Concat(bs)
  {
    assert bs[..|bs|] == bs;
  }

  /** The zones tile the file at the offsets the header announces. */
  lemma ZonesTile(crc: Crc, b: Build)
    requires Fits(b)
    ensures |HeaderZone(crc, b)| == HEADER_BYTES
    ensures HEADER_BYTES + |SectionZone(crc, b)| == FileTableAt(b)
    ensures FileTableAt(b) + |FileZone(b)| == PayloadAt(b)
    ensures PayloadAt(b) + |Payloads(b.parts)| + TRAILER_BYTES == Total(b) == |Image(crc, b)|
  {
    HeadOffsets(b);
    var es, fs := Entries(crc, b.parts, PayloadAt(b)), FileEntries(AllFiles(b));
    ConcatLength(es, |es|, SECTION_ENTRY_BYTES);
    ConcatAll(es);
    ConcatLength(fs, |fs|, FILE_ENTRY_BYTES);
    ConcatAll(fs);
  }

  lemma TablesStart(crc: Crc, b: Build)
    requires Fits(b)
    ensures |HeaderZone(crc, b)| == HEADER_BYTES
    ensures |HeaderZone(crc, b)| + |SectionZone(crc, b)| == FileTableAt(b)
  {
    ZonesTile(crc, b);
  }

  lemma EntriesAt(crc: Crc, ps: seq<Part>, base: nat, i: nat)
    requires i < |ps|
    ensures Entries(crc, ps, base)[i] == EntryBytes(crc, ps[i], base + PayloadStart(ps, i))
  {
  }

  // ----- Reading the image back -----

  /** Bytes of block `i` of a zone are found behind the zones and blocks before it. */
  lemma BlockInZone(a: seq<byte>, bs: seq<seq<byte>>, c: seq<byte>, i: nat)
    requires i < |bs|
    ensures var at := |a| + |Concat(bs[..i])|;
            at + |bs[i]| <= |a + Concat(bs) + c| && (a + Concat(bs) + c)[at..at + |bs[i]|] == bs[i]
  {
    ConcatSlice(bs, |bs|, i);
    ConcatAll(bs);
    var at := |Concat(bs[..i])|;
    SliceIn(a, Concat(bs), c, at, at + |bs[i]|);
  }

  lemma FiveParts(h: seq<byte>, s: seq<byte>, f: seq<byte>, p: seq<byte>, t: seq<byte>)
    ensures h + s + f + p + t == h + s + (f + p + t)
    ensures h + s + f + p + t == (h + s) + f + (p + t)
    ensures h + s + f + p + t == h + (s + f + p + t)
  {
    assert (s + f + p + t)[|s|..] == f + p + t;
  }

  lemma BlockInSecond(h: seq<byte>, es: seq<seq<byte>>, f: seq<byte>, p: seq<byte>, t: seq<byte>, i: nat)
    requires i < |es|
    ensures var at, all := |h| + |Concat(es[..i])|, h + Concat(es) + f + p + t;
            at + |es[i]| <= |all| && all[at..at + |es[i]|] == es[i]
  {
    FiveParts(h, Concat(es), f, p, t);
    BlockInZone(h, es, f + p + t, i);
  }

  lemma BlockInThird(h: seq<byte>, s: seq<byte>, fs: seq<seq<byte>>, p: seq<byte>, t: seq<byte>, i: nat)
    requires i < |fs|
    ensures var at, all := |h| + |s| + |Concat(fs[..i])|, h + s + Concat(fs) + p + t;
            at + |fs[i]| <= |all| && all[at..at + |fs[i]|] == fs[i]
  {
    FiveParts(h, s, Concat(fs), p, t);
    BlockInZone(h + s, fs, p + t, i);
  }

  lemma EntryInImage(crc: Crc, b: Build, i: nat)
    requires Fits(b) && i < |b.parts|
    ensures var at := HEADER_BYTES + i * SECTION_ENTRY_BYTES;
            && at + SECTION_ENTRY_BYTES <= |Image(crc, b)|
            && Image(crc, b)[at..at + SECTION_ENTRY_BYTES] == Entries(crc, b.parts, PayloadAt(b))[i]
  {
    TablesStart(crc, b);
    var entries := Entries(crc, b.parts, PayloadAt(b));
    EntryInParts(HeaderZone(crc, b), entries, FileZone(b), Payloads(b.parts), TrailerZone(), i);
  }

  lemma EntryInParts(h: seq<byte>, es: seq<seq<byte>>, f: seq<byte>, p: seq<byte>, t: seq<byte>, i: nat)
    requires i < |es| && |h| == HEADER_BYTES && forall k :: 0 <= k < |es| ==> |es[k]| == SECTION_ENTRY_BYTES
    ensures var at, all := HEADER_BYTES + i * SECTION_ENTRY_BYTES, h + Concat(es) + f + p + t;
            at + SECTION_ENTRY_BYTES <= |all| && all[at..at + SECTION_ENTRY_BYTES] == es[i]
  {
    ConcatLength(es, i, SECTION_ENTRY_BYTES);
    BlockInSecond(h, es, f, p, t, i);
  }

  lemma FileInImage(crc: Crc, b: Build, i: nat)
    requires Fits(b) && i <= |b.files|
    ensures var at := FileTableAt(b) + i * FILE_ENTRY_BYTES;
            && at + FILE_ENTRY_BYTES <= |Image(crc, b)|
            && Image(crc, b)[at..at + FILE_ENTRY_BYTES] == FileEntries(AllFiles(b))[i]
  {
    TablesStart(crc, b);
    var h, s, fs := HeaderZone(crc, b), SectionZone(crc, b), FileEntries(AllFiles(b));
    var p, t := Payloads(b.parts), TrailerZone();
    var all := h + s + Concat(fs) + p + t;
    FileInParts(h, s, fs, p, t, FileTableAt(b), i);
    assert Image(crc, b) == all;
  }

  lemma FileInParts(h: seq<byte>, s: seq<byte>, fs: seq<seq<byte>>, p: seq<byte>, t: seq<byte>, table: nat, i: nat)
    requires i < |fs| && |h| + |s| == table && forall k :: 0 <= k < |fs| ==> |fs[k]| == FILE_ENTRY_BYTES
    ensures var at, all := table + i * FILE_ENTRY_BYTES, h + s + Concat(fs) + p + t;
            at + FILE_ENTRY_BYTES <= |all| && all[at..at + FILE_ENTRY_BYTES] == fs[i]
  {
    ConcatLength(fs, i, FILE_ENTRY_BYTES);
    BlockInThird(h, s, fs, p, t, i);
  }

  lemma PayloadInImage(crc: Crc, b: Build, i: nat)
    requires Fits(b) && i < |b.parts|
    ensures var at, p := PayloadAt(b) + PayloadStart(b.parts, i), b.parts[i].payload;
            && at + |p| <= |Image(crc, b)| - TRAILER_BYTES
            && Image(crc, b)[at..at + |p|] == p
  {
    ZonesTile(crc, b);
    var bs := PayloadList(b.parts);
    ConcatSlice(bs, |bs|, i);
    ConcatAll(bs);
    BlockInZone(HeaderZone(crc, b) + SectionZone(crc, b) + FileZone(b), bs, TrailerZone(), i);
  }

  /** A packed section entry reads back as the entry it was made from. */
  lemma EntryReads(crc: Crc, s: seq<byte>, table: nat, i: nat, p: Part, off: u64)
    requires SectionFits(s, table, i) && |p.payload| < U64_LIMIT
    requires var at := table + i * SECTION_ENTRY_BYTES; s[at..at + SECTION_ENTRY_BYTES] == EntryBytes(crc, p, off)
    ensures SectionAt(s, table, i) == Section(p.kind, p.flags, off, |p.payload|, crc(p.payload))
    ensures ReservedZero(s, table, i)
  {
    var at, fs := table + i * SECTION_ENTRY_BYTES, EntryFields(crc, p, off);
    EntryOffsets(fs);
    Pow256Widths();
    ReadNum(s, at, fs, 0, 0);
    ReadNum(s, at, fs, 1, 2);
    ReadNum(s, at, fs, 2, 4);
    ReadNum(s, at, fs, 3, 8);
    ReadNum(s, at, fs, 4, 16);
    ReadNum(s, at, fs, 5, 24);
    ReadNum(s, at, fs, 6, 28);
  }

  lemma FileReads(s: seq<byte>, table: nat, i: nat, f: File)
    requires FileFits(s, table, i)
    requires var at := table + i * FILE_ENTRY_BYTES; s[at..at + FILE_ENTRY_BYTES] == FileBytes(f)
    ensures FileAt(s, table, i) == f && U32At(s, table + i * FILE_ENTRY_BYTES + 20) == 0
  {
    var at, fs := table + i * FILE_ENTRY_BYTES, FileFields(f);
    FileOffsets(fs);
    Pow256Widths();
    ReadNum(s, at, fs, 0, 0);
    ReadNum(s, at, fs, 1, 4);
    ReadNum(s, at, fs, 2, 8);
    ReadNum(s, at, fs, 3, 16);
    ReadNum(s, at, fs, 4, 20);
  }

  /** The header that the image announces. */
  function HeaderFor(b: Build): Header
    requires Fits(b)
  {
    Header(FORMAT_MAJOR, FORMAT_MINOR, b.minMajor, b.minMinor, b.flags, b.generation,
           |b.parts|, |b.files| + 1, HEADER_BYTES, FileTableAt(b))
  }

  lemma HeadReads(s: seq<byte>, b: Build)
    requires Fits(b) && |s| >= HEADER_BYTES && |Head(b)| == CRC_AT && s[..CRC_AT] == Head(b)
    ensures HeaderOf(s) == HeaderFor(b) && U32At(s, 14) == HEADER_BYTES && s[..10] == Magic()
  {
    var fs := HeadFields(b);
    HeadOffsets(b);
    Pow256Widths();
    assert s[10..58] == Pack(fs) by {
      assert s[..58][10..] == s[10..58];
    }
    assert s[..10] == s[..58][..10];
    ReadNum(s, 10, fs, 0, 0);
    ReadNum(s, 10, fs, 1, 2);
    ReadNum(s, 10, fs, 2, 4);
    ReadNum(s, 10, fs, 3, 8);
    ReadNum(s, 10, fs, 4, 10);
    ReadNum(s, 10, fs, 5, 12);
    ReadNum(s, 10, fs, 6, 16);
    ReadNum(s, 10, fs, 7, 24);
    ReadNum(s, 10, fs, 8, 28);
    ReadNum(s, 10, fs, 9, 32);
    ReadNum(s, 10, fs, 10, 40);
  }

  lemma WordAt(s: seq<byte>, at: nat, v: u32)
    requires at + 4 <= |s| && s[at..at + 4] == ToLE(v, 4)
    ensures U32At(s, at) == v
  {
    WidthRoundTrip(v);
    ReadersAgree(s, at);
  }

  /** The header zone in place: the announced header, with its checksum. */
  lemma HeaderInImage(crc: Crc, b: Build)
    requires Fits(b)
    ensures |Image(crc, b)| >= HEADER_BYTES + TRAILER_BYTES
    ensures HeaderOf(Image(crc, b)) == HeaderFor(b)
    ensures HeaderOk(crc, Image(crc, b)) <==> b.generation != 0 && ReaderSuffices(b.minMajor, b.minMinor)
  {
    ZonesTile(crc, b);
    var s := Image(crc, b);
    assert s[..64] == HeaderZone(crc, b);
    HeaderReads(crc, s, b);
  }

  lemma HeaderReads(crc: Crc, s: seq<byte>, b: Build)
    requires Fits(b) && |s| >= HEADER_BYTES && s[..64] == HeaderZone(crc, b)
    ensures HeaderOf(s) == HeaderFor(b)
    ensures HeaderOk(crc, s) <==> b.generation != 0 && ReaderSuffices(b.minMajor, b.minMinor)
  {
    HeadOffsets(b);
    HeaderSlices(s, Head(b), ToLE(crc(Head(b)), 4));
    HeadReads(s, b);
    WordAt(s, CRC_AT, crc(Head(b)));
  }

  lemma HeaderSlices(s: seq<byte>, head: seq<byte>, sum: seq<byte>)
    requires |s| >= 64 && |head| == 58 && |sum| == 4 && s[..64] == head + sum + Zeros(2)
    ensures s[..58] == head && s[58..62] == sum && U16At(s, 62) == 0
  {
    assert s[..58] == s[..64][..58];
    assert s[58..62] == s[..64][58..62];
    assert s[62] == s[..64][62] && s[63] == s[..64][63];
  }

  lemma TrailerInImage(crc: Crc, b: Build)
    requires Fits(b)
    ensures |Image(crc, b)| >= TRAILER_BYTES && TrailerOk(Image(crc, b))
  {
    var front := HeaderZone(crc, b) + SectionZone(crc, b) + FileZone(b) + Payloads(b.parts);
    TrailerBehind(front);
  }

  lemma TrailerBehind(front: seq<byte>)
    ensures TrailerOk(front + TrailerZone())
  {
    var s, n := front + TrailerZone(), |front|;
    assert s[n..n + 8] == TrailerMagic();
    assert forall k :: n + 8 <= k < n + 16 ==> s[k] == Zeros(8)[k - n - 8];
  }

  // ----- The round trip -----

  /** What the sections of the image read as. */
  function SectionsFor(crc: Crc, b: Build): (r: seq<Section>)
    requires Fits(b)
    ensures |r| == |b.parts|
  {
    seq(|b.parts|, i requires 0 <= i < |b.parts| => SectionFor(crc, b, i))
  }

  function SectionFor(crc: Crc, b: Build, i: nat): Section
    requires Fits(b) && i < |b.parts|
  {
    var p := b.parts[i];
    PayloadBounds(b.parts, i);
    Section(p.kind, p.flags, PayloadAt(b) + PayloadStart(b.parts, i), |p.payload|, crc(p.payload))
  }

  lemma PayloadBounds(ps: seq<Part>, i: nat)
    requires i < |ps|
    ensures PayloadStart(ps, i) + |ps[i].payload| <= |Payloads(ps)|
  {
    ConcatSlice(PayloadList(ps), |ps|, i);
    ConcatAll(PayloadList(ps));
  }

  /** What a builder guarantees: a generation, distinct sorted kinds, dense ids and external file kinds. */
  ghost predicate BuildOk(b: Build)
  {
    && b.generation != 0
    && (forall i, j :: 0 <= i < j < |b.parts| ==> b.parts[i].kind < b.parts[j].kind)
    && (forall i :: 0 <= i < |b.files| ==> b.files[i].id == i + 1 && KIND_MANIFEST < b.files[i].kind <= KIND_PROVENANCE)
  }

  lemma SectionReadsBack(crc: Crc, b: Build, s: seq<byte>, i: nat)
    requires Fits(b) && i < |b.parts| && SectionFits(s, HEADER_BYTES, i)
    requires var at := HEADER_BYTES + i * SECTION_ENTRY_BYTES;
             s[at..at + SECTION_ENTRY_BYTES] == Entries(crc, b.parts, PayloadAt(b))[i]
    ensures SectionAt(s, HEADER_BYTES, i) == SectionFor(crc, b, i) && ReservedZero(s, HEADER_BYTES, i)
  {
    PayloadBounds(b.parts, i);
    EntryReads(crc, s, HEADER_BYTES, i, b.parts[i], PayloadAt(b) + PayloadStart(b.parts, i));
  }

  lemma SectionIsOk(crc: Crc, b: Build, s: seq<byte>, i: nat)
    requires Fits(b) && i < |b.parts| && |s| == Total(b)
    requires var at, p := PayloadAt(b) + PayloadStart(b.parts, i), b.parts[i].payload;
             at + |p| <= |s| - TRAILER_BYTES && s[at..at + |p|] == p
    ensures SectionOk(crc, s, HeaderFor(b), SectionFor(crc, b, i))
  {
  }

  lemma FileReadsBack(b: Build, s: seq<byte>, table: nat, i: nat)
    requires Fits(b) && i <= |b.files| && FileFits(s, table, i)
    requires var at := table + i * FILE_ENTRY_BYTES;
             s[at..at + FILE_ENTRY_BYTES] == FileEntries(AllFiles(b))[i]
    ensures FileAt(s, table, i) == AllFiles(b)[i] && U32At(s, table + i * FILE_ENTRY_BYTES + 20) == 0
  {
    FileReads(s, table, i, AllFiles(b)[i]);
  }

  lemma SectionsReadBack(crc: Crc, b: Build)
    requires Fits(b)
    ensures TablesOk(Image(crc, b), HeaderFor(b)) && |Image(crc, b)| == Total(b)
    ensures AllReserved(Image(crc, b), HEADER_BYTES, |b.parts|)
    ensures Sections(Image(crc, b), HEADER_BYTES, |b.parts|) == SectionsFor(crc, b)
  {
    ZonesTile(crc, b);
    forall i | 0 <= i < |b.parts|
      ensures SectionAt(Image(crc, b), HEADER_BYTES, i) == SectionsFor(crc, b)[i]
      ensures ReservedZero(Image(crc, b), HEADER_BYTES, i)
    {
      EntryInImage(crc, b, i);
      SectionReadsBack(crc, b, Image(crc, b), i);
    }
  }

  lemma SectionListOk(crc: Crc, b: Build)
    requires Fits(b) && BuildOk(b)
    ensures |Image(crc, b)| >= TRAILER_BYTES
    ensures ListOk(crc, Image(crc, b), HeaderFor(b), SectionsFor(crc, b))
  {
    ZonesTile(crc, b);
    forall i | 0 <= i < |b.parts|
      ensures SectionOk(crc, Image(crc, b), HeaderFor(b), SectionsFor(crc, b)[i])
    {
      PayloadInImage(crc, b, i);
      SectionIsOk(crc, b, Image(crc, b), i);
    }
  }

  lemma FileIsOk(b: Build, s: seq<byte>, table: nat, i: nat)
    requires Fits(b) && BuildOk(b) && i <= |b.files| && FileFits(s, table, i)
    requires FileAt(s, table, i) == AllFiles(b)[i] && U32At(s, table + i * FILE_ENTRY_BYTES + 20) == 0
    ensures FileOk(s, table, i)
  {
  }

  lemma FilesReadBack(crc: Crc, b: Build)
    requires Fits(b) && BuildOk(b)
    ensures TablesOk(Image(crc, b), HeaderFor(b)) && |Image(crc, b)| == Total(b)
    ensures FilesOk(Image(crc, b), FileTableAt(b), |b.files| + 1)
    ensures Files(Image(crc, b), FileTableAt(b), |b.files| + 1) == AllFiles(b)
  {
    ZonesTile(crc, b);
    var s, table := Image(crc, b), FileTableAt(b);
    forall i | 0 <= i <= |b.files|
      ensures FileAt(s, table, i) == AllFiles(b)[i] && FileOk(s, table, i)
    {
      FileInImage(crc, b, i);
      FileReadsBack(b, s, table, i);
      FileIsOk(b, s, table, i);
    }
  }

  /** What parsing the image of a builder yields. */
  function ViewOf(crc: Crc, b: Build): Manifest
    requires Fits(b)
  {
    Manifest(HeaderFor(b), SectionsFor(crc, b), AllFiles(b), Image(crc, b))
  }

  /**
   The image of a builder is accepted exactly when the minimum reader is at most 1.0, and then it
   reads back as the builder's fields, its sections and its files behind the self entry.
   */
  lemma ImageRoundTrip(crc: Crc, b: Build)
    requires Fits(b) && BuildOk(b)
    ensures WellFormed(crc, Image(crc, b)) <==> ReaderSuffices(b.minMajor, b.minMinor)
    ensures |Image(crc, b)| >= HEADER_BYTES && TablesOk(Image(crc, b), HeaderOf(Image(crc, b)))
    ensures View(Image(crc, b)) == ViewOf(crc, b)
  {
    HeaderInImage(crc, b);
    TrailerInImage(crc, b);
    SectionsReadBack(crc, b);
    SectionListOk(crc, b);
    FilesReadBack(crc, b);
    assert SelfOk(AllFiles(b), Total(b));
  }

  /** Every section of the builder is found in its image under its kind, with its payload. */
  lemma PayloadRoundTrip(crc: Crc, b: Build, m: Manifest, i: nat)
    requires Fits(b) && BuildOk(b) && m == ViewOf(crc, b) && i < |b.parts|
    ensures FindSection(m, b.parts[i].kind) == Ok(b.parts[i].payload)
  {
    hide ListOk, FindSection, Image, BuildOk, Fits;
    SectionListOk(crc, b);
    PayloadInImage(crc, b, i);
    var e := SectionFor(crc, b, i);
    assert m.sections[i] == e;
    FindPayload(crc, m, i, e.offset, b.parts[i].payload);
  }

  lemma FindPayload(crc: Crc, m: Manifest, i: nat, at: nat, p: seq<byte>)
    requires |m.bytes| >= TRAILER_BYTES && ListOk(crc, m.bytes, m.header, m.sections) && i < |m.sections|
    requires m.sections[i].offset == at && m.sections[i].length == |p|
    requires at + |p| <= |m.bytes| && m.bytes[at..at + |p|] == p
    ensures FindSection(m, m.sections[i].kind) == Ok(p)
  {
    FindListed(crc, m, i);
  }
}
