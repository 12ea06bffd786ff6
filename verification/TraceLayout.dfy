/**
 The trace files as their writer lays them out, field by field: what recovery and the run-id column
 find in such bytes, and the corpus's recovery step as it is made on files.
 */
module TraceLayout {
  import opened Bytes
  import opened TraceFile
  import opened TraceCorpus

  /** The fields of a header as the writer has them. */
  datatype Fields = Fields(
    magic: seq<byte>, version: nat, owner: nat, hidden: nat, experts: nat, k: nat, recordBytes: nat)

  predicate FieldsOk(f: Fields)
  {
    && |f.magic| == 8 && f.version < U32_LIMIT && f.owner < U16_LIMIT && f.hidden < U16_LIMIT
    && f.experts < U16_LIMIT && f.k < U16_LIMIT && 0 < f.recordBytes < U32_LIMIT
  }

  /** Magic, version, four 16-bit fields, header size, record size and a reserved word, little-endian. */
  function Header(f: Fields): (h: seq<byte>)
    requires FieldsOk(f)
    ensures |h| == 32
  {
    f.magic + ToLE(f.version, 4) + ToLE(f.owner, 2) + ToLE(f.hidden, 2) + ToLE(f.experts, 2) + ToLE(f.k, 2)
    + ToLE(32, 4) + ToLE(f.recordBytes, 4) + ToLE(0, 4)
  }

  lemma HeaderNamesSize(f: Fields, payload: seq<byte>)
    requires FieldsOk(f)
    ensures |Header(f) + payload| == 32 + |payload| && RecordBytes(Header(f) + payload) == f.recordBytes
  {
    var before := f.magic + ToLE(f.version, 4) + ToLE(f.owner, 2) + ToLE(f.hidden, 2) + ToLE(f.experts, 2)
                  + ToLE(f.k, 2) + ToLE(32, 4);
    assert Header(f) + payload == before + ToLE(f.recordBytes, 4) + (ToLE(0, 4) + payload);
    MiddlePart(before, ToLE(f.recordBytes, 4), ToLE(0, 4) + payload);
    WidthRoundTrip(f.recordBytes);
  }

  /** Recovery of a written file: it raises exactly for an unreadable payload, and else cuts the payload only. */
  lemma RecoveredLayout(f: Fields, payload: seq<byte>, known: set<nat>)
    requires FieldsOk(f)
    ensures Raises(Header(f) + payload) <==> !Readable(f.recordBytes, payload)
    ensures Recovered(Header(f) + payload, known) == Header(f) + CutPayload(f.recordBytes, payload, known)
  {
    var bytes := Header(f) + payload;
    HeaderNamesSize(f, payload);
    assert bytes[..32] == Header(f) && bytes[32..] == payload;
  }

  /** The recovery of one written file. */
  method RecoverLayout(f: Fields, payload: seq<byte>, known: set<nat>) returns (ok: bool, r: seq<byte>)
    requires FieldsOk(f)
    ensures ok <==> Readable(f.recordBytes, payload)
    ensures r == Header(f) + if ok then CutPayload(f.recordBytes, payload, known) else payload
  {
    RecoveredLayout(f, payload, known);
    ok, r := RecoverFile(Header(f) + payload, known);
  }

  // ----- Records -----

  /** A record as the writer lays it out: the run id in eight bytes, then the rest. */
  datatype Rec = Rec(run: nat, rest: seq<byte>)

  predicate RecsOk(rb: nat, recs: seq<Rec>)
  {
    rb >= 8 && forall i :: 0 <= i < |recs| ==> recs[i].run < U64_LIMIT && |recs[i].rest| == rb - 8
  }

  function Laid(recs: seq<Rec>): seq<byte>
  {
    if recs == [] then []
    else Laid(recs[..|recs| - 1]) + (ToLE(recs[|recs| - 1].run, 8) + recs[|recs| - 1].rest)
  }

  function RunsOf(recs: seq<Rec>): (r: seq<nat>)
    ensures |r| == |recs| && forall i :: 0 <= i < |r| ==> r[i] == recs[i].run
  {
    seq(|recs|, i requires 0 <= i < |recs| => recs[i].run)
  }

  lemma OneRecord(rb: nat, r: Rec, partial: seq<byte>)
    requires RecsOk(rb, [r]) && |partial| < rb
    ensures var b := ToLE(r.run, 8) + r.rest; |b| == rb && Column(rb, b) == [r.run]
    ensures Column(rb, partial) == []
  {
    assert [r][0] == r;
    var b := ToLE(r.run, 8) + r.rest;
    WidthRoundTrip(r.run);
    assert b[..8] == ToLE(r.run, 8) && b[rb..] == [];
    assert Heads(rb, b) == [b[..8]] + Heads(rb, b[rb..]);
  }

  /** The column of written records, with part of one more behind them, is their run ids. */
  lemma {:induction false} ColumnOfRecords(rb: nat, recs: seq<Rec>, partial: seq<byte>)
    requires RecsOk(rb, recs) && |partial| < rb
    ensures |Laid(recs)| == Size(rb, |recs|) && Column(rb, Laid(recs)) == RunsOf(recs)
    ensures Column(rb, Laid(recs) + partial) == RunsOf(recs)
    decreases |recs|
  {
    var none: seq<byte> := [];
    if recs == [] {
      assert none + partial == partial;
      assert Heads(rb, none) == [] && Heads(rb, partial) == [];
    } else {
      var most, r := recs[..|recs| - 1], recs[|recs| - 1];
      ColumnOfRecords(rb, most, none);
      OneRecord(rb, r, partial);
      ColumnAppend(rb, Laid(most), |most|, ToLE(r.run, 8) + r.rest);
      assert RunsOf(recs) == RunsOf(most) + [r.run];
      ColumnAppend(rb, Laid(recs), |recs|, partial);
    }
  }

  // ----- The corpus on disk -----

  /** A head file: its header and its payload. */
  function OnDisk(fs: seq<Fields>, files: seq<seq<byte>>, o: nat): seq<byte>
    requires o < |fs| == |files| && FieldsOk(fs[o])
  {
    Header(fs[o]) + files[o]
  }

  predicate HeadersOk(c: Setup, fs: seq<Fields>)
  {
    |fs| == c.owners && forall o :: 0 <= o < |fs| ==> FieldsOk(fs[o]) && fs[o].recordBytes == c.recordBytes
  }

  /** One recovery step of the corpus is the recovery of one file, which never raises. */
  lemma RecoveryStepOnDisk(c: Setup, s: State, fs: seq<Fields>)
    requires Proper(c) && HeadersOk(c, fs) && |s.files| == c.owners
    requires (s.phase.Recovering? || s.phase.Failed?) && At(s.phase) < |s.files|
    ensures var o, t := At(s.phase), ApplyRecover(c, s);
            && !Raises(OnDisk(fs, s.files, o))
            && OnDisk(fs, t.files, o) == Recovered(OnDisk(fs, s.files, o), Ids(s.index))
            && forall p :: 0 <= p < |s.files| && p != o ==> OnDisk(fs, t.files, p) == OnDisk(fs, s.files, p)
  {
    var o := At(s.phase);
    WideReadable(c.recordBytes, s.files[o]);
    RecoveredLayout(fs[o], s.files[o], Ids(s.index));
  }

  /** Recovering a directory of written files in place cuts every payload and raises for none. */
  method RecoverDirectory(c: Setup, fs: seq<Fields>, ghost files: seq<seq<byte>>, dir: array<seq<byte>>,
                          known: set<nat>)
    returns (ok: bool, changed: nat)
    requires Proper(c) && HeadersOk(c, fs) && |files| == dir.Length == c.owners
    requires forall o :: 0 <= o < dir.Length ==> dir[o] == OnDisk(fs, files, o)
    modifies dir
    ensures ok
    ensures forall o :: 0 <= o < dir.Length ==>
              dir[o] == Header(fs[o]) + CutPayload(c.recordBytes, files[o], known)
  {
    ghost var was := dir[..];
    forall o | 0 <= o < dir.Length
      ensures !Raises(was[o]) && Recovered(was[o], known) == Header(fs[o]) + CutPayload(c.recordBytes, files[o], known)
    {
      WideReadable(c.recordBytes, files[o]);
      RecoveredLayout(fs[o], files[o], known);
    }
    ghost var done;
    ok, changed, done := TruncateOrphanRuns(dir, known);
    assert ok;
    forall o | 0 <= o < dir.Length
      ensures dir[o] == Header(fs[o]) + CutPayload(c.recordBytes, files[o], known)
    {
      assert dir[..][o] == RecoverFirst(was, known, done)[o];
    }
  }
}
