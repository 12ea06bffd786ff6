/**
 The `.logan` v1 manifest as its parser reads it: which byte strings are accepted, and what the
 accepted ones say.
 */
module ManifestReader {
  import opened Bytes
  import opened Packing

  const HEADER_BYTES := 64
  const CRC_AT := 58
  const SECTION_ENTRY_BYTES := 32
  const FILE_ENTRY_BYTES := 24
  const TRAILER_BYTES := 16
  const FORMAT_MAJOR := 1
  const FORMAT_MINOR := 0
  const KIND_MANIFEST := 0
  const KIND_PROVENANCE := 4

  /** "LOGANMODEL" */
  function Magic(): (m: seq<byte>)
    ensures |m| == 10
  {
    [76, 79, 71, 65, 78, 77, 79, 68, 69, 76]
  }

  /** "LOGANEND" */
  function TrailerMagic(): (m: seq<byte>)
    ensures |m| == 8
  {
    [76, 79, 71, 65, 78, 69, 78, 68]
  }

  /** The checksum; nothing but its range is used. */
  type Crc = seq<byte> -> u32

  datatype Header = Header(
    formatMajor: u16, formatMinor: u16, minMajor: u16, minMinor: u16, flags: u32, generation: u64,
    sectionCount: u32, fileCount: u32, sectionTable: u64, fileTable: u64)

  datatype Section = Section(kind: u16, flags: u16, offset: u64, length: u64, crc: u32)

  datatype File = File(id: u32, name: u32, bytes: u64, kind: u32)

  datatype Manifest = Manifest(header: Header, sections: seq<Section>, files: seq<File>, bytes: seq<byte>)

  datatype Result<T> = Ok(value: T) | Err(error: string)

  // ----- What the bytes say -----

  function HeaderOf(s: seq<byte>): Header
    requires |s| >= HEADER_BYTES
  {
    Header(U16At(s, 10), U16At(s, 12), U16At(s, 18), U16At(s, 20), U32At(s, 22), U64At(s, 26),
           U32At(s, 34), U32At(s, 38), U64At(s, 42), U64At(s, 50))
  }

  predicate SectionFits(s: seq<byte>, table: nat, i: nat)
  {
    table + i * SECTION_ENTRY_BYTES + SECTION_ENTRY_BYTES <= |s|
  }

  predicate FileFits(s: seq<byte>, table: nat, i: nat)
  {
    table + i * FILE_ENTRY_BYTES + FILE_ENTRY_BYTES <= |s|
  }

  /** Entry `i` of the section table at `table`. */
  function SectionAt(s: seq<byte>, table: nat, i: nat): Section
    requires SectionFits(s, table, i)
  {
    var at := table + i * SECTION_ENTRY_BYTES;
    Section(U16At(s, at), U16At(s, at + 2), U64At(s, at + 8), U64At(s, at + 16), U32At(s, at + 24))
  }

  /** Entry `i` of the file table at `table`. */
  function FileAt(s: seq<byte>, table: nat, i: nat): File
    requires FileFits(s, table, i)
  {
    var at := table + i * FILE_ENTRY_BYTES;
    File(U32At(s, at), U32At(s, at + 4), U64At(s, at + 8), U32At(s, at + 16))
  }

  // ----- Which bytes are accepted -----

  predicate ReaderSuffices(major: u16, minor: u16)
  {
    major < FORMAT_MAJOR || (major == FORMAT_MAJOR && minor <= FORMAT_MINOR)
  }

  predicate HeaderOk(crc: Crc, s: seq<byte>)
    requires |s| >= HEADER_BYTES
  {
    var h := HeaderOf(s);
    && s[..10] == Magic()
    && h.formatMajor == FORMAT_MAJOR && U32At(s, 14) == HEADER_BYTES
    && ReaderSuffices(h.minMajor, h.minMinor)
    && h.generation != 0 && U16At(s, 62) == 0
    && crc(s[..CRC_AT]) == U32At(s, CRC_AT)
  }

  /** Both tables lie inside the file, behind the header. */
  predicate TablesOk(s: seq<byte>, h: Header)
  {
    && HEADER_BYTES <= h.sectionTable && h.sectionTable + h.sectionCount * SECTION_ENTRY_BYTES <= |s|
    && HEADER_BYTES <= h.fileTable && h.fileTable + h.fileCount * FILE_ENTRY_BYTES <= |s|
  }

  predicate TrailerOk(s: seq<byte>)
    requires |s| >= TRAILER_BYTES
  {
    s[|s| - 16..|s| - 8] == TrailerMagic() && U32At(s, |s| - 4) == 0
  }

  predicate RangesOverlap(a: nat, b: nat, c: nat, d: nat)
  {
    a < d && c < b
  }

  /** One section: behind the header, before the trailer, clear of both tables, with its checksum. */
  predicate SectionOk(crc: Crc, s: seq<byte>, h: Header, e: Section)
    requires |s| >= TRAILER_BYTES
  {
    var end := e.offset + e.length;
    && HEADER_BYTES <= e.offset && end <= |s| - TRAILER_BYTES
    && !RangesOverlap(e.offset, end, h.sectionTable, h.sectionTable + h.sectionCount * SECTION_ENTRY_BYTES)
    && !RangesOverlap(e.offset, end, h.fileTable, h.fileTable + h.fileCount * FILE_ENTRY_BYTES)
    && crc(s[e.offset..end]) == e.crc
  }

  predicate ReservedZero(s: seq<byte>, table: nat, i: nat)
    requires SectionFits(s, table, i)
  {
    var at := table + i * SECTION_ENTRY_BYTES;
    U32At(s, at + 4) == 0 && U32At(s, at + 28) == 0
  }

  function Sections(s: seq<byte>, table: nat, n: nat): (r: seq<Section>)
    requires table + n * SECTION_ENTRY_BYTES <= |s|
    ensures |r| == n && forall i :: 0 <= i < n ==> r[i] == SectionAt(s, table, i)
  {
    seq(n, i requires 0 <= i < n => SectionAt(s, table, i))
  }

  function Files(s: seq<byte>, table: nat, n: nat): (r: seq<File>)
    requires table + n * FILE_ENTRY_BYTES <= |s|
    ensures |r| == n && forall i :: 0 <= i < n ==> r[i] == FileAt(s, table, i)
  {
    seq(n, i requires 0 <= i < n => FileAt(s, table, i))
  }

  /** Each section in place and checksummed, strictly ordered by kind. */
  ghost predicate ListOk(crc: Crc, s: seq<byte>, h: Header, es: seq<Section>)
    requires |s| >= TRAILER_BYTES
  {
    && (forall i :: 0 <= i < |es| ==> SectionOk(crc, s, h, es[i]))
    && (forall i, j :: 0 <= i < j < |es| ==> es[i].kind < es[j].kind)
  }

  ghost predicate AllReserved(s: seq<byte>, table: nat, n: nat)
    requires table + n * SECTION_ENTRY_BYTES <= |s|
  {
    forall i :: 0 <= i < n ==> ReservedZero(s, table, i)
  }

  ghost predicate SectionsOk(crc: Crc, s: seq<byte>, h: Header)
    requires |s| >= TRAILER_BYTES && TablesOk(s, h)
  {
    && AllReserved(s, h.sectionTable, h.sectionCount)
    && ListOk(crc, s, h, Sections(s, h.sectionTable, h.sectionCount))
  }

  /** A file entry has its index as id, a known kind and no reserved bits. */
  predicate FileOk(s: seq<byte>, table: nat, i: nat)
    requires FileFits(s, table, i)
  {
    var f := FileAt(s, table, i);
    f.id == i && f.kind <= KIND_PROVENANCE && U32At(s, table + i * FILE_ENTRY_BYTES + 20) == 0
  }

  ghost predicate FilesOk(s: seq<byte>, table: nat, n: nat)
    requires table + n * FILE_ENTRY_BYTES <= |s|
  {
    forall i :: 0 <= i < n ==> FileOk(s, table, i)
  }

  /** The first manifest-kind file, if any, has the size of the whole. */
  predicate SelfOk(files: seq<File>, size: nat)
  {
    if files == [] then true
    else if files[0].kind == KIND_MANIFEST then files[0].bytes == size
    else SelfOk(files[1..], size)
  }

  ghost predicate WellFormed(crc: Crc, s: seq<byte>)
  {
    && |s| >= HEADER_BYTES + TRAILER_BYTES
    && HeaderOk(crc, s)
    && var h := HeaderOf(s);
    && TablesOk(s, h) && TrailerOk(s)
    && SectionsOk(crc, s, h)
    && FilesOk(s, h.fileTable, h.fileCount)
    && SelfOk(Files(s, h.fileTable, h.fileCount), |s|)
  }

  /** What an accepted manifest says. */
  function View(s: seq<byte>): Manifest
    requires |s| >= HEADER_BYTES && TablesOk(s, HeaderOf(s))
  {
    var h := HeaderOf(s);
    Manifest(h, Sections(s, h.sectionTable, h.sectionCount), Files(s, h.fileTable, h.fileCount), s)
  }

  // ----- The parser -----

  /** Rust slices are shorter than 2^63 bytes. */
  const MAX_LEN := 0x8000_0000_0000_0000

  method CheckedTable(len: nat, offset: u64, count: u32, entryBytes: nat) returns (r: Result<nat>)
    requires len < MAX_LEN && 1 <= entryBytes <= SECTION_ENTRY_BYTES
    ensures r.Ok? <==> offset + count * entryBytes <= len
    ensures r.Ok? ==> r.value == offset + count * entryBytes
  {
    var size := count * entryBytes;
    if size >= U64_LIMIT {
      return Err("table size overflow");
    }
    if offset + size >= U64_LIMIT {
      return Err("table end overflow");
    }
    if offset + size > len {
      return Err("truncated table");
    }
    return Ok(offset + size);
  }

  method ParseHeader(crc: Crc, s: seq<byte>) returns (r: Result<Header>)
    requires |s| >= HEADER_BYTES
    ensures r.Ok? <==> HeaderOk(crc, s)
    ensures r.Ok? ==> r.value == HeaderOf(s)
  {
    if s[..10] != Magic() {
      return Err("manifest magic");
    }
    var h := HeaderOf(s);
    if h.formatMajor != FORMAT_MAJOR {
      return Err("unsupported major version");
    }
    if U32At(s, 14) != HEADER_BYTES {
      return Err("manifest header size");
    }
    if h.minMajor > FORMAT_MAJOR || (h.minMajor == FORMAT_MAJOR && h.minMinor > FORMAT_MINOR) {
      return Err("requires a newer reader");
    }
    if h.generation == 0 {
      return Err("zero generation");
    }
    if U16At(s, 62) != 0 {
      return Err("manifest header reserved field");
    }
    if crc(s[..CRC_AT]) != U32At(s, CRC_AT) {
      return Err("manifest header checksum mismatch");
    }
    return Ok(h);
  }

  /** One section entry, given the kind before it, if any. */
  method ParseSection(crc: Crc, s: seq<byte>, h: Header, i: nat, lastKind: int) returns (r: Result<Section>)
    requires HEADER_BYTES + TRAILER_BYTES <= |s| < MAX_LEN && TablesOk(s, h) && i < h.sectionCount
    ensures SectionFits(s, h.sectionTable, i)
    ensures var e := SectionAt(s, h.sectionTable, i);
            && (r.Ok? <==> ReservedZero(s, h.sectionTable, i) && lastKind < e.kind && SectionOk(crc, s, h, e))
            && (r.Ok? ==> r.value == e)
  {
    assert SectionFits(s, h.sectionTable, i);
    var at := h.sectionTable + i * SECTION_ENTRY_BYTES;
    var e := SectionAt(s, h.sectionTable, i);
    if U32At(s, at + 4) != 0 || U32At(s, at + 28) != 0 {
      return Err("section reserved field");
    }
    if e.kind <= lastKind {
      return Err("section table must be strictly ordered by kind");
    }
    var end := e.offset + e.length;
    if end >= U64_LIMIT {
      return Err("section range overflow");
    }
    if end > |s| - TRAILER_BYTES {
      return Err("truncated section payload");
    }
    if RangesOverlap(e.offset, end, h.sectionTable, h.sectionTable + h.sectionCount * SECTION_ENTRY_BYTES)
      || RangesOverlap(e.offset, end, h.fileTable, h.fileTable + h.fileCount * FILE_ENTRY_BYTES)
      || e.offset < HEADER_BYTES
    {
      return Err("section overlaps metadata");
    }
    if crc(s[e.offset..end]) != e.crc {
      return Err("section checksum mismatch");
    }
    return Ok(e);
  }

  method ParseSections(crc: Crc, s: seq<byte>, h: Header) returns (r: Result<seq<Section>>)
    requires HEADER_BYTES + TRAILER_BYTES <= |s| < MAX_LEN && TablesOk(s, h)
    ensures r.Ok? <==> SectionsOk(crc, s, h)
    ensures r.Ok? ==> r.value == Sections(s, h.sectionTable, h.sectionCount)
  {
    hide ReservedZero, SectionOk, SectionAt;
    var sections: seq<Section> := [];
    var lastKind: int := -1;
    for i := 0 to h.sectionCount
      invariant |sections| == i && AllReserved(s, h.sectionTable, i) && ListOk(crc, s, h, sections)
      invariant forall j :: 0 <= j < i ==> sections[j] == SectionAt(s, h.sectionTable, j)
      invariant lastKind == if i == 0 then -1 else sections[i - 1].kind
    {
      var e := ParseSection(crc, s, h, i, lastKind);
      if e.Err? {
        FailedSection(crc, s, h, Sections(s, h.sectionTable, h.sectionCount), i);
        return Err(e.error);
      }
      ListStep(crc, s, h, sections, e.value);
      sections := sections + [e.value];
      lastKind := e.value.kind;
    }
    assert sections == Sections(s, h.sectionTable, h.sectionCount);
    return Ok(sections);
  }

  lemma ListStep(crc: Crc, s: seq<byte>, h: Header, es: seq<Section>, e: Section)
    requires |s| >= TRAILER_BYTES && ListOk(crc, s, h, es) && SectionOk(crc, s, h, e)
    requires es != [] ==> es[|es| - 1].kind < e.kind
    ensures ListOk(crc, s, h, es + [e])
  {
  }

  lemma FailedSection(crc: Crc, s: seq<byte>, h: Header, es: seq<Section>, i: nat)
    requires |s| >= TRAILER_BYTES && TablesOk(s, h) && i < |es| == h.sectionCount
    requires !(
               && ReservedZero(s, h.sectionTable, i) && SectionOk(crc, s, h, es[i])
               && (i > 0 ==> es[i - 1].kind < es[i].kind))
    ensures !(AllReserved(s, h.sectionTable, h.sectionCount) && ListOk(crc, s, h, es))
  {
  }

  method ParseFiles(s: seq<byte>, h: Header) returns (r: Result<seq<File>>)
    requires |s| < MAX_LEN && TablesOk(s, h)
    ensures r.Ok? <==> FilesOk(s, h.fileTable, h.fileCount)
    ensures r.Ok? ==> r.value == Files(s, h.fileTable, h.fileCount)
  {
    var files: seq<File> := [];
    for i := 0 to h.fileCount
      invariant |files| == i && FilesOk(s, h.fileTable, i)
      invariant forall j :: 0 <= j < i ==> files[j] == FileAt(s, h.fileTable, j)
    {
      assert FileFits(s, h.fileTable, i);
      var f := FileAt(s, h.fileTable, i);
      if !FileOk(s, h.fileTable, i) {
        assert !FilesOk(s, h.fileTable, h.fileCount);
      }
      if f.id != i {
        return Err("file table must be ordered densely by file_id");
      }
      if U32At(s, h.fileTable + i * FILE_ENTRY_BYTES + 20) != 0 {
        return Err("file reserved field");
      }
      if f.kind > KIND_PROVENANCE {
        return Err("unknown file kind");
      }
      files := files + [f];
    }
    return Ok(files);
  }

  method CheckSelf(files: seq<File>, size: nat) returns (ok: bool)
    ensures ok <==> SelfOk(files, size)
  {
    for i := 0 to |files|
      invariant SelfOk(files, size) <==> SelfOk(files[i..], size)
    {
      if files[i].kind == KIND_MANIFEST {
        return files[i].bytes == size;
      }
      assert files[i..][1..] == files[i + 1..];
    }
    return true;
  }

  /**
   Parses a manifest: it accepts exactly the well-formed byte strings and returns what they say.
   The vectors are reserved only once the tables are known to fit, so neither reservation exceeds
   the input.
   */
  method Parse(crc: Crc, s: seq<byte>) returns (r: Result<Manifest>, reservedSections: nat, reservedFiles: nat)
    requires |s| < MAX_LEN
    ensures r.Ok? <==> WellFormed(crc, s)
    ensures r.Ok? ==> r.value == View(s)
    ensures reservedSections * SECTION_ENTRY_BYTES <= |s| && reservedFiles * FILE_ENTRY_BYTES <= |s|
  {
    reservedSections, reservedFiles := 0, 0;
    if |s| < HEADER_BYTES + TRAILER_BYTES {
      return Err("truncated manifest"), 0, 0;
    }
    var header := ParseHeader(crc, s);
    if header.Err? {
      return Err(header.error), 0, 0;
    }
    var h := header.value;
    var sectionEnd := CheckedTable(|s|, h.sectionTable, h.sectionCount, SECTION_ENTRY_BYTES);
    if sectionEnd.Err? {
      return Err(sectionEnd.error), 0, 0;
    }
    var fileEnd := CheckedTable(|s|, h.fileTable, h.fileCount, FILE_ENTRY_BYTES);
    if fileEnd.Err? {
      return Err(fileEnd.error), 0, 0;
    }
    if h.sectionTable < HEADER_BYTES || h.fileTable < HEADER_BYTES {
      return Err("table overlaps fixed header"), 0, 0;
    }
    if s[|s| - 16..|s| - 8] != TrailerMagic() || U32At(s, |s| - 4) != 0 {
      return Err("manifest trailer"), 0, 0;
    }
    reservedSections := h.sectionCount;
    var sections := ParseSections(crc, s, h);
    if sections.Err? {
      return Err(sections.error), reservedSections, 0;
    }
    reservedFiles := h.fileCount;
    var files := ParseFiles(s, h);
    if files.Err? {
      return Err(files.error), reservedSections, reservedFiles;
    }
    var self := CheckSelf(files.value, |s|);
    if !self {
      return Err("manifest file table size"), reservedSections, reservedFiles;
    }
    return Ok(Manifest(h, sections.value, files.value, s)), reservedSections, reservedFiles;
  }

  // ----- What acceptance guarantees -----

  /** The payload of the first section of a kind, if there is one. */
  function FindSection(m: Manifest, kind: u16): (r: Result<seq<byte>>)
  {
    FindFrom(m, kind, 0)
  }

  function FindFrom(m: Manifest, kind: u16, i: nat): Result<seq<byte>>
    requires i <= |m.sections|
    decreases |m.sections| - i
  {
    if i == |m.sections| then Err("no such section")
    else if m.sections[i].kind != kind then FindFrom(m, kind, i + 1)
    else
      var e := m.sections[i];
      if e.offset + e.length <= |m.bytes| then Ok(m.bytes[e.offset..e.offset + e.length]) else Err("range")
  }

  lemma {:induction false} FindFromSkips(m: Manifest, kind: u16, i: nat, j: nat)
    requires i <= j <= |m.sections| && forall k :: i <= k < j ==> m.sections[k].kind != kind
    ensures FindFrom(m, kind, i) == FindFrom(m, kind, j)
    decreases j - i
  {
    if i < j {
      FindFromSkips(m, kind, i + 1, j);
    }
  }

  lemma FindListed(crc: Crc, m: Manifest, i: nat)
    requires |m.bytes| >= TRAILER_BYTES && ListOk(crc, m.bytes, m.header, m.sections) && i < |m.sections|
    ensures var e := m.sections[i];
            && SectionOk(crc, m.bytes, m.header, e)
            && FindSection(m, e.kind) == Ok(m.bytes[e.offset..e.offset + e.length])
  {
    FindFromSkips(m, m.sections[i].kind, 0, i);
  }

  /**
   In an accepted manifest every listed section is found under its kind, with exactly the listed
   range, which is checksummed and lies between header and trailer, clear of both tables.
   */
  lemma AcceptedSections(crc: Crc, s: seq<byte>, m: Manifest, i: nat)
    requires WellFormed(crc, s) && m == View(s) && i < |m.sections|
    ensures var e := m.sections[i];
            && HEADER_BYTES <= e.offset && e.offset + e.length <= |s| - TRAILER_BYTES
            && FindSection(m, e.kind) == Ok(s[e.offset..e.offset + e.length])
            && crc(s[e.offset..e.offset + e.length]) == e.crc
            && forall at :: e.offset <= at < e.offset + e.length ==> ClearOfTables(m.header, at)
  {
    FindListed(crc, m, i);
  }

  predicate ClearOfTables(h: Header, at: int)
  {
    && !(h.sectionTable <= at < h.sectionTable + h.sectionCount * SECTION_ENTRY_BYTES)
    && !(h.fileTable <= at < h.fileTable + h.fileCount * FILE_ENTRY_BYTES)
  }

  /** A kind that is not listed is not found. */
  lemma {:induction false} MissingSection(m: Manifest, kind: u16)
    requires forall k :: 0 <= k < |m.sections| ==> m.sections[k].kind != kind
    ensures FindSection(m, kind).Err?
  {
    FindFromSkips(m, kind, 0, |m.sections|);
  }

  lemma {:induction false} KindAtLeast(es: seq<Section>, i: nat)
    requires i < |es| && forall j, k :: 0 <= j < k < |es| ==> es[j].kind < es[k].kind
    ensures es[i].kind >= i
    decreases i
  {
    if i > 0 {
      KindAtLeast(es, i - 1);
    }
  }

  /** Section `i` is the only one of the kind. */
  ghost predicate OnlyOfKind(es: seq<Section>, kind: u16, i: nat)
  {
    i < |es| && es[i].kind == kind && forall k :: 0 <= k < |es| && es[k].kind == kind ==> k == i
  }

  lemma ListedLookup(crc: Crc, m: Manifest, kind: u16)
    requires |m.bytes| >= TRAILER_BYTES && ListOk(crc, m.bytes, m.header, m.sections)
    ensures |m.sections| <= U16_LIMIT
    ensures FindSection(m, kind).Ok? <==> exists i :: OnlyOfKind(m.sections, kind, i)
  {
    hide SectionOk, FindSection;
    if m.sections != [] {
      KindAtLeast(m.sections, |m.sections| - 1);
    }
    if k :| 0 <= k < |m.sections| && m.sections[k].kind == kind {
      FindListed(crc, m, k);
      assert OnlyOfKind(m.sections, kind, k);
    } else {
      MissingSection(m, kind);
    }
  }

  /**
   Lookup by kind in an accepted manifest succeeds exactly for the kinds with one entry and no
   second, and whatever the header counts there are at most 65536 sections.
   */
  lemma AcceptedLookup(crc: Crc, s: seq<byte>, m: Manifest, kind: u16)
    requires WellFormed(crc, s) && m == View(s)
    ensures |m.sections| <= U16_LIMIT
    ensures FindSection(m, kind).Ok? <==> exists i :: OnlyOfKind(m.sections, kind, i)
  {
    ListedLookup(crc, m, kind);
  }
}
