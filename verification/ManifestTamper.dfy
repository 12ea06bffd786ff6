/**
 What the manifest reader refuses: the fixed bytes of every accepted string, and every kind of damage
 to a written image that a checksum, a reserved word, the dense ids or the recorded size give away.
 */
module ManifestTamper {
  import opened Bytes
  import opened Packing
  import opened ManifestReader
  import opened ManifestImage

  // ----- Little-endian words are determined by their bytes -----

  lemma {:induction false} FromLEInjective(a: seq<byte>, b: seq<byte>)
    requires |a| == |b| && FromLE(a) == FromLE(b)
    ensures a == b
    decreases |a|
  {
    if a != [] {
      assert a[0] == b[0] && FromLE(a[1..]) == FromLE(b[1..]);
      FromLEInjective(a[1..], b[1..]);
      assert a == [a[0]] + a[1..] && b == [b[0]] + b[1..];
    }
  }

  lemma WordIs(s: seq<byte>, at: nat, w: seq<byte>)
    ensures |w| == 2 && at + 2 <= |s| ==> (U16At(s, at) == FromLE(w) <==> s[at..at + 2] == w)
    ensures |w| == 4 && at + 4 <= |s| ==> (U32At(s, at) == FromLE(w) <==> s[at..at + 4] == w)
    ensures |w| == 8 && at + 8 <= |s| ==> (U64At(s, at) == FromLE(w) <==> s[at..at + 8] == w)
  {
    ReadersAgree(s, at);
    if |w| in {2, 4, 8} && at + |w| <= |s| && FromLE(s[at..at + |w|]) == FromLE(w) {
      FromLEInjective(s[at..at + |w|], w);
    }
  }

  // ----- The fixed bytes -----

  /** "LOGANMODEL", version 1, header size 64, a reader of at most 1.0, a generation, the checksum of bytes 0 to 58. */
  ghost predicate HeaderBytes(crc: Crc, s: seq<byte>)
    requires |s| >= 64
  {
    && s[..10] == ['L' as int, 'O' as int, 'G' as int, 'A' as int, 'N' as int,
                   'M' as int, 'O' as int, 'D' as int, 'E' as int, 'L' as int]
    && s[10..12] == [1, 0] && s[14..18] == [64, 0, 0, 0]
    && (s[18..20] == [0, 0] || (s[18..20] == [1, 0] && s[20..22] == [0, 0]))
    && s[26..34] != Zeros(8)
    && s[58..62] == ToLE(crc(s[..58]), 4) && s[62..64] == [0, 0]
  }

  lemma ShortWords(s: seq<byte>)
    requires |s| >= 64
    ensures U16At(s, 10) == 1 <==> s[10..12] == [1, 0]
    ensures U16At(s, 18) == 0 <==> s[18..20] == [0, 0]
    ensures U16At(s, 18) == 1 <==> s[18..20] == [1, 0]
    ensures U16At(s, 20) == 0 <==> s[20..22] == [0, 0]
    ensures U16At(s, 62) == 0 <==> s[62..64] == [0, 0]
  {
    hide U16At, FromLE, Zeros;
    ShortWord(1);
    ShortWord(0);
    WordIs(s, 10, [1, 0]);
    WordIs(s, 18, [0, 0]);
    WordIs(s, 18, [1, 0]);
    WordIs(s, 20, [0, 0]);
    WordIs(s, 62, [0, 0]);
  }

  lemma ShortWord(v: byte)
    ensures FromLE([v, 0]) == v
  {
    SmallBytes(v, 1);
    assert [v] + Zeros(1) == [v, 0];
  }

  lemma LongWords(crc: Crc, s: seq<byte>)
    requires |s| >= 64
    ensures U32At(s, 14) == 64 <==> s[14..18] == [64, 0, 0, 0]
    ensures U64At(s, 26) == 0 <==> s[26..34] == Zeros(8)
    ensures U32At(s, 58) == crc(s[..58]) <==> s[58..62] == ToLE(crc(s[..58]), 4)
  {
    hide U32At, U64At, FromLE, ToLE, Zeros;
    LowByte(64);
    ZeroBytes(8);
    WidthRoundTrip(crc(s[..58]));
    WordIs(s, 14, [64, 0, 0, 0]);
    WordIs(s, 26, Zeros(8));
    WordIs(s, 58, ToLE(crc(s[..58]), 4));
  }

  lemma LowByte(v: byte)
    ensures FromLE([v, 0, 0, 0]) == v
  {
    SmallBytes(v, 3);
    assert [v] + Zeros(3) == [v, 0, 0, 0];
  }

  lemma HeaderOkBytes(crc: Crc, s: seq<byte>)
    requires |s| >= 64
    ensures HeaderOk(crc, s) <==> HeaderBytes(crc, s)
  {
    hide FromLE, ToLE, U16At, U32At, U64At, Zeros;
    ShortWords(s);
    LongWords(crc, s);
  }

  /** "LOGANEND" sixteen bytes before the end, and four zeros at the end. */
  predicate TrailerBytes(s: seq<byte>)
    requires |s| >= 16
  {
    var n := |s|;
    && s[n - 16..n - 8] == ['L' as int, 'O' as int, 'G' as int, 'A' as int,
                            'N' as int, 'E' as int, 'N' as int, 'D' as int]
    && s[n - 4..] == [0, 0, 0, 0]
  }

  lemma TrailerOkBytes(s: seq<byte>)
    requires |s| >= 16
    ensures TrailerOk(s) <==> TrailerBytes(s)
  {
    SmallBytes(0, 3);
    assert [0] + Zeros(3) == [0, 0, 0, 0];
    WordIs(s, |s| - 4, [0, 0, 0, 0]);
    assert s[|s| - 4..] == s[|s| - 4..|s| - 4 + 4];
  }

  /** Every accepted string has these bytes, both tables behind the header and inside the string. */
  lemma AcceptedBytes(crc: Crc, s: seq<byte>)
    requires WellFormed(crc, s)
    ensures |s| >= 80 && HeaderBytes(crc, s) && TrailerBytes(s)
    ensures 64 <= FromLE(s[42..50]) && FromLE(s[42..50]) + 32 * FromLE(s[34..38]) <= |s|
    ensures 64 <= FromLE(s[50..58]) && FromLE(s[50..58]) + 24 * FromLE(s[38..42]) <= |s|
  {
    HeaderOkBytes(crc, s);
    TrailerOkBytes(s);
    ReadersAgree(s, 34);
    ReadersAgree(s, 38);
    ReadersAgree(s, 42);
    ReadersAgree(s, 50);
  }

  lemma TableWords(s: seq<byte>)
    requires |s| >= 64
    ensures var h := HeaderOf(s);
            && h.sectionCount == FromLE(s[34..38]) && h.sectionTable == FromLE(s[42..50])
            && h.fileCount == FromLE(s[38..42]) && h.fileTable == FromLE(s[50..58])
  {
    hide FromLE, U16At, U32At, U64At;
    ReadersAgree(s, 34);
    ReadersAgree(s, 38);
    ReadersAgree(s, 42);
    ReadersAgree(s, 50);
  }

  lemma FileWords(s: seq<byte>, table: nat, i: nat, at: nat)
    requires at == table + 24 * i && FileFits(s, table, i) && FileOk(s, table, i)
    ensures FromLE(s[at..at + 4]) == i && FromLE(s[at + 16..at + 20]) <= 4 && FromLE(s[at + 20..at + 24]) == 0
  {
    hide FromLE, U16At, U32At, U64At;
    ReadersAgree(s, at);
    ReadersAgree(s, at + 16);
    ReadersAgree(s, at + 20);
  }

  /** Every file entry has its index as id, a kind of at most 4 and four zeros at its end. */
  lemma AcceptedFileEntry(crc: Crc, s: seq<byte>, i: nat, at: nat)
    requires WellFormed(crc, s) && i < FromLE(s[38..42]) && at == FromLE(s[50..58]) + 24 * i
    ensures at + 24 <= |s| && FromLE(s[at..at + 4]) == i && FromLE(s[at + 16..at + 20]) <= 4
    ensures FromLE(s[at + 20..at + 24]) == 0
  {
    hide FromLE, U16At, U32At, U64At, FileOk, HeaderOk, TrailerOk, SectionsOk, SelfOk, Files, HeaderOf;
    TableWords(s);
    FileWords(s, FromLE(s[50..58]), i, at);
  }

  lemma KindWord(s: seq<byte>, table: nat, i: nat, at: nat)
    requires at == table + 32 * i && SectionFits(s, table, i)
    ensures SectionAt(s, table, i).kind == FromLE(s[at..at + 2])
  {
    hide FromLE, U16At, U32At, U64At;
    ReadersAgree(s, at);
  }

  lemma KindsRise(crc: Crc, s: seq<byte>, h: Header, i: nat, j: nat)
    requires |s| >= 16 && TablesOk(s, h) && SectionsOk(crc, s, h) && i < j < h.sectionCount
    ensures SectionFits(s, h.sectionTable, i) && SectionFits(s, h.sectionTable, j)
    ensures SectionAt(s, h.sectionTable, i).kind < SectionAt(s, h.sectionTable, j).kind
  {
    hide SectionOk, SectionAt;
    var es := Sections(s, h.sectionTable, h.sectionCount);
    assert es[i].kind < es[j].kind;
  }

  /** Section kinds increase along the table. */
  lemma AcceptedOrder(crc: Crc, s: seq<byte>, i: nat, j: nat, a: nat, b: nat)
    requires WellFormed(crc, s) && i < j < FromLE(s[34..38])
    requires a == FromLE(s[42..50]) + 32 * i && b == FromLE(s[42..50]) + 32 * j
    ensures a + 32 <= b && b + 32 <= |s| && FromLE(s[a..a + 2]) < FromLE(s[b..b + 2])
  {
    hide FromLE, U16At, U32At, U64At, FilesOk, HeaderOk, TrailerOk, SectionsOk, SelfOk, SectionAt, HeaderOf;
    TableWords(s);
    KindsRise(crc, s, HeaderOf(s), i, j);
    KindWord(s, HeaderOf(s).sectionTable, i, a);
    KindWord(s, HeaderOf(s).sectionTable, j, b);
  }

  // ----- Damage to an image -----

  /** `s` has the length of the image and its bytes outside `lo..hi`. */
  predicate DamagedAt(s: seq<byte>, image: seq<byte>, lo: nat, hi: nat)
  {
    lo <= hi <= |s| == |image| && s[..lo] == image[..lo] && s[hi..] == image[hi..]
  }

  lemma Undamaged(s: seq<byte>, image: seq<byte>, lo: nat, hi: nat, a: nat, b: nat)
    requires DamagedAt(s, image, lo, hi) && a <= b <= |s| && (b <= lo || hi <= a)
    ensures s[a..b] == image[a..b]
  {
    if b <= lo {
      assert s[a..b] == s[..lo][a..b] && image[a..b] == image[..lo][a..b];
    } else {
      assert s[hi..] == s[hi..|s|] && image[hi..] == image[hi..|s|];
      SubSlice(s, hi, |s|, a - hi, b - hi);
      SubSlice(image, hi, |s|, a - hi, b - hi);
    }
  }

  lemma ImageHead(crc: Crc, b: Build)
    requires Fits(b)
    ensures var image := Image(crc, b);
            && |image| == Total(b) >= 80 && image[..64] == HeaderZone(crc, b)
            && |Head(b)| == 58 && image[..58] == Head(b) && image[58..62] == ToLE(crc(Head(b)), 4)
            && image[62..64] == [0, 0]
  {
    ZonesTile(crc, b);
    HeadOffsets(b);
    var image := Image(crc, b);
    assert image[..64] == HeaderZone(crc, b);
    HeaderSlices(image, Head(b), ToLE(crc(Head(b)), 4));
    assert image[62..64] == image[..64][62..64];
  }

  /** Header bytes whose checksum is another one: refused, whatever the bytes say. */
  lemma HeaderDamageRefused(crc: Crc, b: Build, s: seq<byte>)
    requires Fits(b) && DamagedAt(s, Image(crc, b), 0, 58) && crc(s[..58]) != crc(Image(crc, b)[..58])
    ensures !WellFormed(crc, s)
  {
    ImageHead(crc, b);
    Undamaged(s, Image(crc, b), 0, 58, 58, 62);
    WidthRoundTrip(crc(s[..58]));
    WidthRoundTrip(crc(Head(b)));
    if WellFormed(crc, s) {
      AcceptedBytes(crc, s);
    }
  }

  lemma FixedHead(s: seq<byte>, b: Build)
    requires Fits(b) && |s| >= 64 && |Head(b)| == 58 && s[..58] == Head(b)
    ensures s[..10] == Magic() && s[10..12] == [1, 0] && s[14..18] == [64, 0, 0, 0]
  {
    assert HeaderFor(b).formatMajor == 1;
    hide Head, Fits, HeaderFor;
    HeadReads(s, b);
    SmallBytes(1, 1);
    SmallBytes(64, 3);
    assert [1] + Zeros(1) == [1, 0] && [64] + Zeros(3) == [64, 0, 0, 0];
    WordIs(s, 10, [1, 0]);
    WordIs(s, 14, [64, 0, 0, 0]);
  }

  /** The fixed bytes of an image. */
  lemma FixedImage(crc: Crc, b: Build)
    requires Fits(b)
    ensures var s := Image(crc, b);
            && |s| >= 64 && s[..10] == Magic() && s[10..12] == [1, 0] && s[14..18] == [64, 0, 0, 0]
            && s[58..62] == ToLE(crc(s[..58]), 4) && s[62..64] == [0, 0]
  {
    hide Image, Head, HeaderZone, Fits, Total;
    ImageHead(crc, b);
    FixedHead(Image(crc, b), b);
  }

  lemma DamageShows(s: seq<byte>, image: seq<byte>, lo: nat, hi: nat)
    requires DamagedAt(s, image, lo, hi) && s != image
    ensures s[lo..hi] != image[lo..hi]
  {
    assert s == s[..lo] + s[lo..hi] + s[hi..];
    assert image == image[..lo] + image[lo..hi] + image[hi..];
  }

  lemma TwoSlices(s: seq<byte>, lo: nat, mid: nat, hi: nat)
    requires lo <= mid <= hi <= |s|
    ensures s[lo..hi] == s[lo..mid] + s[mid..hi]
  {
  }

  /** Any change of the stored checksum and the reserved word behind it is refused. */
  lemma ChecksumDamageRefused(crc: Crc, b: Build, s: seq<byte>)
    requires Fits(b) && DamagedAt(s, Image(crc, b), 58, 64) && s != Image(crc, b)
    ensures !WellFormed(crc, s)
  {
    var image := Image(crc, b);
    FixedImage(crc, b);
    DamageShows(s, image, 58, 64);
    TwoSlices(s, 58, 62, 64);
    TwoSlices(image, 58, 62, 64);
    if WellFormed(crc, s) {
      AcceptedBytes(crc, s);
    }
  }

  /** Any change of the magic and the major version, or of the header size, is refused. */
  lemma FixedDamageRefused(crc: Crc, b: Build, s: seq<byte>, lo: nat, hi: nat)
    requires Fits(b) && s != Image(crc, b) && ((lo == 0 && hi == 12) || (lo == 14 && hi == 18))
    requires DamagedAt(s, Image(crc, b), lo, hi)
    ensures !WellFormed(crc, s)
  {
    var image := Image(crc, b);
    FixedImage(crc, b);
    hide Image, WellFormed;
    DamageShows(s, image, lo, hi);
    TwoSlices(image, 0, 10, 12);
    TwoSlices(s, 0, 10, 12);
    if WellFormed(crc, s) {
      AcceptedBytes(crc, s);
    }
  }

  // ----- Trailer -----

  lemma TrailerRefused(crc: Crc, s: seq<byte>, image: seq<byte>, lo: nat, hi: nat)
    requires DamagedAt(s, image, lo, hi) && s != image && |s| >= 16 && TrailerOk(image)
    requires (lo == |s| - 16 && hi == lo + 8) || (lo == |s| - 4 && hi == lo + 4)
    ensures !WellFormed(crc, s)
  {
    hide WellFormed, TrailerOk, HeaderBytes;
    TrailerOkBytes(image);
    DamageShows(s, image, lo, hi);
    Tail(s, image, |s| - 4);
    if WellFormed(crc, s) {
      AcceptedBytes(crc, s);
    }
  }

  lemma Tail(s: seq<byte>, image: seq<byte>, at: nat)
    requires at <= |s| == |image|
    ensures s[at..] == s[at..|s|] && image[at..] == image[at..|s|]
  {
  }

  /** Any change of the trailer's magic or of its last four bytes is refused. */
  lemma TrailerDamageRefused(crc: Crc, b: Build, s: seq<byte>, lo: nat, hi: nat)
    requires Fits(b) && s != Image(crc, b)
    requires (lo == Total(b) - 16 && hi == lo + 8) || (lo == Total(b) - 4 && hi == lo + 4)
    requires DamagedAt(s, Image(crc, b), lo, hi)
    ensures !WellFormed(crc, s)
  {
    hide Image, WellFormed, Total;
    ImageHead(crc, b);
    TrailerInImage(crc, b);
    TrailerRefused(crc, s, Image(crc, b), lo, hi);
  }

  // ----- Sections -----

  /** What stays of the header when the first 64 bytes do. */
  lemma HeaderKept(crc: Crc, b: Build, s: seq<byte>)
    requires Fits(b) && |s| >= 64 && s[..64] == Image(crc, b)[..64]
    ensures HeaderOf(s) == HeaderFor(b)
  {
    ImageHead(crc, b);
    HeaderReads(crc, s, b);
  }

  /** What acceptance says of one section entry and of one file entry. */
  lemma AcceptedSection(crc: Crc, b: Build, s: seq<byte>, i: nat)
    requires Fits(b) && i < |b.parts| && WellFormed(crc, s) && HeaderOf(s) == HeaderFor(b)
    ensures SectionFits(s, 64, i) && ReservedZero(s, 64, i) && SectionOk(crc, s, HeaderFor(b), SectionAt(s, 64, i))
  {
    assert Sections(s, 64, |b.parts|)[i] == SectionAt(s, 64, i);
  }

  lemma AcceptedFile(crc: Crc, b: Build, s: seq<byte>, i: nat)
    requires Fits(b) && i <= |b.files| && WellFormed(crc, s) && HeaderOf(s) == HeaderFor(b)
    ensures FileFits(s, FileTableAt(b), i) && FileOk(s, FileTableAt(b), i)
    ensures i == 0 && FileAt(s, FileTableAt(b), 0).kind == KIND_MANIFEST ==>
              FileAt(s, FileTableAt(b), 0).bytes == |s|
  {
    var files := Files(s, FileTableAt(b), |b.files| + 1);
    assert SelfOk(files, |s|) && files[0] == FileAt(s, FileTableAt(b), 0);
  }

  lemma HeaderOutside(crc: Crc, b: Build, s: seq<byte>, lo: nat, hi: nat)
    requires Fits(b) && DamagedAt(s, Image(crc, b), lo, hi) && 64 <= lo
    ensures |s| == Total(b) >= 80 && HeaderOf(s) == HeaderFor(b)
  {
    ImageHead(crc, b);
    Undamaged(s, Image(crc, b), lo, hi, 0, 64);
    assert s[..64] == s[0..64] && Image(crc, b)[..64] == Image(crc, b)[0..64];
    HeaderKept(crc, b, s);
  }

  lemma PayloadRefused(crc: Crc, b: Build, s: seq<byte>, i: nat, payload: seq<byte>)
    requires Fits(b) && i < |b.parts| && |s| >= 64 && HeaderOf(s) == HeaderFor(b) && SectionFits(s, 64, i)
    requires var e := SectionAt(s, 64, i);
             && e.crc == crc(payload) && e.offset + e.length <= |s|
             && crc(s[e.offset..e.offset + e.length]) != crc(payload)
    ensures !WellFormed(crc, s)
  {
    hide WellFormed, HeaderFor, SectionAt;
    if WellFormed(crc, s) {
      AcceptedSection(crc, b, s, i);
    }
  }

  /** A payload whose checksum is another one: refused. */
  lemma PayloadDamageRefused(crc: Crc, b: Build, s: seq<byte>, i: nat, at: nat, end: nat)
    requires Fits(b) && i < |b.parts|
    requires at == PayloadAt(b) + PayloadStart(b.parts, i) && end == at + |b.parts[i].payload|
    requires DamagedAt(s, Image(crc, b), at, end) && crc(s[at..end]) != crc(b.parts[i].payload)
    ensures !WellFormed(crc, s)
  {
    hide Image, WellFormed, PayloadStart, HeaderOf, HeaderFor, SectionAt, Total, ReservedZero, Entries;
    var entry := 64 + 32 * i;
    EntryBeforePayloads(b, i);
    HeaderOutside(crc, b, s, at, end);
    EntryInImage(crc, b, i);
    Undamaged(s, Image(crc, b), at, end, entry, entry + 32);
    SectionReadsBack(crc, b, s, i);
    PayloadRefused(crc, b, s, i, b.parts[i].payload);
  }

  lemma EntryBeforePayloads(b: Build, i: nat)
    requires i < |b.parts|
    ensures 64 + 32 * i + 32 <= FileTableAt(b) <= PayloadAt(b)
  {
  }

  /** Equal words have equal bytes. */
  lemma EqualWords(s: seq<byte>, t: seq<byte>, at: nat)
    requires at + 4 <= |s| && at + 4 <= |t|
    ensures U32At(s, at) == U32At(t, at) ==> s[at..at + 4] == t[at..at + 4]
  {
    ReadersAgree(s, at);
    ReadersAgree(t, at);
    if U32At(s, at) == U32At(t, at) {
      FromLEInjective(s[at..at + 4], t[at..at + 4]);
    }
  }

  lemma SectionWordRefused(crc: Crc, b: Build, s: seq<byte>, image: seq<byte>, i: nat, at: nat)
    requires Fits(b) && i < |b.parts| && |s| >= 64 && HeaderOf(s) == HeaderFor(b)
    requires SectionFits(image, 64, i) && ReservedZero(image, 64, i)
    requires at == 64 + 32 * i + 4 || at == 64 + 32 * i + 28
    requires DamagedAt(s, image, at, at + 4) && s != image
    ensures !WellFormed(crc, s)
  {
    hide WellFormed, HeaderFor, HeaderOf, SectionAt, SectionOk;
    DamageShows(s, image, at, at + 4);
    EqualWords(s, image, at);
    if WellFormed(crc, s) {
      AcceptedSection(crc, b, s, i);
    }
  }

  /** A reserved word of a section entry that is changed: refused. */
  lemma SectionReservedRefused(crc: Crc, b: Build, s: seq<byte>, i: nat, at: nat)
    requires Fits(b) && i < |b.parts| && s != Image(crc, b)
    requires at == 64 + 32 * i + 4 || at == 64 + 32 * i + 28
    requires DamagedAt(s, Image(crc, b), at, at + 4)
    ensures !WellFormed(crc, s)
  {
    hide Image, WellFormed, HeaderOf, HeaderFor, SectionAt, Total, Entries, ReservedZero, PayloadStart;
    HeaderOutside(crc, b, s, at, at + 4);
    EntryInImage(crc, b, i);
    SectionReadsBack(crc, b, Image(crc, b), i);
    SectionWordRefused(crc, b, s, Image(crc, b), i, at);
  }

  // ----- Files -----

  lemma FileRefused(crc: Crc, b: Build, s: seq<byte>, image: seq<byte>, i: nat, at: nat)
    requires Fits(b) && i <= |b.files| && |s| >= 64 && HeaderOf(s) == HeaderFor(b)
    requires var table := FileTableAt(b);
             && FileFits(image, table, i) && FileAt(image, table, i).id == i && U32At(image, table + i * 24 + 20) == 0
             && (at == table + 24 * i || at == table + 24 * i + 20)
    requires DamagedAt(s, image, at, at + 4) && s != image
    ensures !WellFormed(crc, s)
  {
    hide WellFormed, HeaderFor, HeaderOf, FileTableAt, Fits;
    DamageShows(s, image, at, at + 4);
    EqualWords(s, image, at);
    if WellFormed(crc, s) {
      AcceptedFile(crc, b, s, i);
    }
  }

  lemma TablesBehindHeader(b: Build)
    ensures FileTableAt(b) >= 64
  {
  }

  lemma SelfFile(b: Build)
    requires Fits(b)
    ensures AllFiles(b)[0] == File(0, 0, Total(b), KIND_MANIFEST)
  {
  }

  lemma FileId(b: Build, i: nat)
    requires Fits(b) && BuildOk(b) && i <= |b.files|
    ensures AllFiles(b)[i].id == i
  {
  }

  lemma ImageFileEntry(crc: Crc, b: Build, i: nat, table: nat)
    requires Fits(b) && BuildOk(b) && i <= |b.files| && table == FileTableAt(b)
    ensures var image := Image(crc, b);
            FileFits(image, table, i) && FileAt(image, table, i).id == i && U32At(image, table + i * 24 + 20) == 0
  {
    hide Image, FileAt, Total, FileEntries, AllFiles, Fits, BuildOk, FileTableAt, U32At;
    FileId(b, i);
    FileInImage(crc, b, i);
    FileReadsBack(b, Image(crc, b), table, i);
  }

  /** A changed id or reserved word of a file entry: refused. */
  lemma FileDamageRefused(crc: Crc, b: Build, s: seq<byte>, i: nat, at: nat)
    requires Fits(b) && BuildOk(b) && i <= |b.files| && s != Image(crc, b)
    requires at == FileTableAt(b) + 24 * i || at == FileTableAt(b) + 24 * i + 20
    requires DamagedAt(s, Image(crc, b), at, at + 4)
    ensures !WellFormed(crc, s)
  {
    hide *;
    TablesBehindHeader(b);
    HeaderOutside(crc, b, s, at, at + 4);
    ImageFileEntry(crc, b, i, FileTableAt(b));
    FileRefused(crc, b, s, Image(crc, b), i, at);
  }

  lemma SelfEntry(crc: Crc, b: Build, s: seq<byte>, at: nat)
    requires Fits(b) && at == FileTableAt(b) && at + 24 <= |s| && at + 24 <= |Image(crc, b)|
    requires s[at..at + 24] == Image(crc, b)[at..at + 24]
    ensures FileFits(s, at, 0) && FileAt(s, at, 0) == File(0, 0, Total(b), KIND_MANIFEST)
  {
    hide Image, FileAt, Total, FileEntries, AllFiles, Fits, FileTableAt;
    SelfFile(b);
    FileInImage(crc, b, 0);
    FileReadsBack(b, s, at, 0);
  }

  lemma PrefixParts(s: seq<byte>, t: seq<byte>, lo: nat, hi: nat)
    requires s <= t && lo <= hi <= |s|
    ensures s[lo..hi] == t[lo..hi]
  {
  }

  lemma PrefixEqual(s: seq<byte>, t: seq<byte>)
    requires s <= t
    ensures |s| == |t| ==> s == t
  {
  }

  lemma PrefixSlices(s: seq<byte>, t: seq<byte>, lo: nat, hi: nat)
    requires (s <= t || t <= s) && lo <= hi <= |s| && hi <= |t|
    ensures s[lo..hi] == t[lo..hi]
  {
    if s <= t {
      PrefixParts(s, t, lo, hi);
    } else {
      PrefixParts(t, s, lo, hi);
    }
  }

  lemma HeadKept(crc: Crc, b: Build, s: seq<byte>)
    requires Fits(b) && |s| >= 64 && (s <= Image(crc, b) || Image(crc, b) <= s)
    ensures HeaderOf(s) == HeaderFor(b)
  {
    hide Image, HeaderFor, HeaderOf, Total, Head, HeaderZone, Fits;
    ImageHead(crc, b);
    PrefixSlices(s, Image(crc, b), 0, 64);
    HeaderKept(crc, b, s);
  }

  lemma SelfEntryKept(crc: Crc, b: Build, s: seq<byte>, at: nat)
    requires Fits(b) && at == FileTableAt(b) && at + 24 <= |s| && (s <= Image(crc, b) || Image(crc, b) <= s)
    ensures FileFits(s, at, 0) && FileAt(s, at, 0) == File(0, 0, Total(b), KIND_MANIFEST)
  {
    hide Image, FileAt, Total, FileTableAt, Fits, FileEntries, AllFiles;
    FileInImage(crc, b, 0);
    PrefixSlices(s, Image(crc, b), at, at + 24);
    SelfEntry(crc, b, s, at);
  }

  /** Bytes cut off or added at the end: refused, for the self entry names the size. */
  lemma SizeDamageRefused(crc: Crc, b: Build, s: seq<byte>)
    requires Fits(b) && s != Image(crc, b) && (s <= Image(crc, b) || Image(crc, b) <= s)
    ensures !WellFormed(crc, s)
  {
    ImageHead(crc, b);
    assert WellFormed(crc, s) ==> |s| >= 64;
    hide Image, WellFormed, Fits, HeaderFor, HeaderOf, FileAt, Total, FileTableAt;
    if s <= Image(crc, b) {
      PrefixEqual(s, Image(crc, b));
    } else {
      PrefixEqual(Image(crc, b), s);
    }
    if WellFormed(crc, s) {
      HeadKept(crc, b, s);
      AcceptedFile(crc, b, s, 0);
      SelfEntryKept(crc, b, s, FileTableAt(b));
    }
  }
}
