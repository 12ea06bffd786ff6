/**
 Where a written manifest keeps each field: the byte ranges of the header, of every section entry and of
 every file entry.
 */
module ManifestLayout {
  import opened Bytes
  import opened Packing
  import opened ManifestReader
  import opened ManifestImage
  import opened ManifestTamper

  lemma HeaderFields(s: seq<byte>)
    requires |s| >= 64
    ensures var h := HeaderOf(s);
            && FromLE(s[10..12]) == h.formatMajor && FromLE(s[12..14]) == h.formatMinor
            && FromLE(s[18..20]) == h.minMajor && FromLE(s[20..22]) == h.minMinor
            && FromLE(s[22..26]) == h.flags && FromLE(s[26..34]) == h.generation
            && FromLE(s[34..38]) == h.sectionCount && FromLE(s[38..42]) == h.fileCount
            && FromLE(s[42..50]) == h.sectionTable && FromLE(s[50..58]) == h.fileTable
  {
    hide FromLE, U16At, U32At, U64At;
    ReadersAgree(s, 10);
    ReadersAgree(s, 12);
    ReadersAgree(s, 18);
    ReadersAgree(s, 20);
    ReadersAgree(s, 22);
    ReadersAgree(s, 26);
    TableWords(s);
  }

  /** The header of a written manifest, field by field; the tables follow it without a gap. */
  lemma HeaderLayout(crc: Crc, b: Build, s: seq<byte>)
    requires Fits(b) && s == Image(crc, b)
    ensures |s| >= 80
    ensures FromLE(s[10..12]) == 1 && FromLE(s[12..14]) == 0
    ensures FromLE(s[18..20]) == b.minMajor && FromLE(s[20..22]) == b.minMinor
    ensures FromLE(s[22..26]) == b.flags && FromLE(s[26..34]) == b.generation
    ensures FromLE(s[34..38]) == |b.parts| && FromLE(s[38..42]) == |b.files| + 1
    ensures FromLE(s[42..50]) == 64 && FromLE(s[50..58]) == 64 + 32 * |b.parts|
    ensures s[..10] == Magic() && s[14..18] == [64, 0, 0, 0]
    ensures s[58..62] == ToLE(crc(s[..58]), 4) && s[62..64] == [0, 0]
  {
    FixedImage(crc, b);
    ImageHead(crc, b);
    hide Image, FromLE, ToLE, Fits, Total;
    HeaderKept(crc, b, s);
    HeaderFields(s);
  }

  lemma SectionWords(s: seq<byte>, i: nat, at: nat)
    requires at == 64 + 32 * i && SectionFits(s, 64, i)
    ensures var e := SectionAt(s, 64, i);
            && FromLE(s[at..at + 2]) == e.kind && FromLE(s[at + 2..at + 4]) == e.flags
            && FromLE(s[at + 8..at + 16]) == e.offset && FromLE(s[at + 16..at + 24]) == e.length
            && FromLE(s[at + 24..at + 28]) == e.crc
  {
    hide FromLE, U16At, U32At, U64At;
    ReadersAgree(s, at);
    ReadersAgree(s, at + 2);
    ReadersAgree(s, at + 8);
    ReadersAgree(s, at + 16);
    ReadersAgree(s, at + 24);
  }

  lemma SectionIs(crc: Crc, b: Build, i: nat, start: nat)
    requires Fits(b) && i < |b.parts| && start == PayloadAt(b) + PayloadStart(b.parts, i)
    ensures var p := b.parts[i]; SectionFor(crc, b, i) == Section(p.kind, p.flags, start, |p.payload|, crc(p.payload))
  {
  }

  /** Bytes of the payloads before part `i`. */
  function Before(ps: seq<Part>, i: nat): nat
    requires i <= |ps|
  {
    if i == 0 then 0 else Before(ps, i - 1) + |ps[i - 1].payload|
  }

  lemma {:induction false} StartIsSum(ps: seq<Part>, i: nat)
    requires i <= |ps|
    ensures PayloadStart(ps, i) == Before(ps, i)
    decreases i
  {
    if i > 0 {
      StartIsSum(ps, i - 1);
      ConcatSnoc(PayloadList(ps), i - 1);
    }
  }

  /** A section entry of a written manifest: its payload follows the payloads before it, behind both tables. */
  lemma SectionLayout(crc: Crc, b: Build, s: seq<byte>, i: nat, at: nat, start: nat)
    requires Fits(b) && s == Image(crc, b) && i < |b.parts| && at == 64 + 32 * i
    requires start == 64 + 32 * |b.parts| + 24 * (|b.files| + 1) + Before(b.parts, i)
    ensures at + 32 <= |s|
    ensures FromLE(s[at..at + 2]) == b.parts[i].kind && FromLE(s[at + 2..at + 4]) == b.parts[i].flags
    ensures FromLE(s[at + 8..at + 16]) == start && FromLE(s[at + 16..at + 24]) == |b.parts[i].payload|
    ensures FromLE(s[at + 24..at + 28]) == crc(b.parts[i].payload)
  {
    StartIsSum(b.parts, i);
    SectionIs(crc, b, i, start);
    hide Image, FromLE, Fits, Total, Entries, SectionFor, SectionAt, ReservedZero, PayloadStart, Before;
    EntryInImage(crc, b, i);
    SectionReadsBack(crc, b, s, i);
    SectionWords(s, i, at);
  }

  lemma FileFieldsAt(s: seq<byte>, table: nat, i: nat, at: nat)
    requires at == table + 24 * i && FileFits(s, table, i)
    ensures var f := FileAt(s, table, i);
            && FromLE(s[at..at + 4]) == f.id && FromLE(s[at + 4..at + 8]) == f.name
            && FromLE(s[at + 8..at + 16]) == f.bytes && FromLE(s[at + 16..at + 20]) == f.kind
  {
    hide FromLE, U16At, U32At, U64At;
    ReadersAgree(s, at);
    ReadersAgree(s, at + 4);
    ReadersAgree(s, at + 8);
    ReadersAgree(s, at + 16);
  }

  lemma FileEntryAt(crc: Crc, b: Build, s: seq<byte>, i: nat, at: nat, f: File)
    requires Fits(b) && s == Image(crc, b) && i <= |b.files| && at == FileTableAt(b) + 24 * i && f == AllFiles(b)[i]
    ensures at + 24 <= |s|
    ensures FromLE(s[at..at + 4]) == f.id && FromLE(s[at + 4..at + 8]) == f.name
    ensures FromLE(s[at + 8..at + 16]) == f.bytes && FromLE(s[at + 16..at + 20]) == f.kind
  {
    hide Image, FromLE, Fits, Total, FileEntries, AllFiles, FileAt, FileTableAt;
    FileInImage(crc, b, i);
    FileReadsBack(b, s, FileTableAt(b), i);
    FileFieldsAt(s, FileTableAt(b), i, at);
  }

  /** The file entries of a written manifest: first the manifest itself with its size, then the files. */
  lemma FileLayout(crc: Crc, b: Build, s: seq<byte>, i: nat, at: nat)
    requires Fits(b) && s == Image(crc, b) && i <= |b.files| && at == 64 + 32 * |b.parts| + 24 * i
    ensures at + 24 <= |s|
    ensures i == 0 ==> FromLE(s[at..at + 4]) == 0 && FromLE(s[at + 4..at + 8]) == 0
                       && FromLE(s[at + 8..at + 16]) == |s| && FromLE(s[at + 16..at + 20]) == 0
    ensures i > 0 ==> var f := b.files[i - 1];
                      && FromLE(s[at..at + 4]) == f.id && FromLE(s[at + 4..at + 8]) == f.name
                      && FromLE(s[at + 8..at + 16]) == f.bytes && FromLE(s[at + 16..at + 20]) == f.kind
  {
    hide Image, FromLE, Fits, Total;
    ImageHead(crc, b);
    FileEntryAt(crc, b, s, i, at, AllFiles(b)[i]);
  }
}
