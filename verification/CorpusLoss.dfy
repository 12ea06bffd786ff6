/**
 What a first run started over leftover bytes can cost: an indexed run whose records recovery
 erases. The records of such a run never come back while every later run starts behind whole
 records, and what a misframed start can forge instead.
 */
module CorpusLoss {
  import opened Bytes
  import opened TraceFile
  import opened TraceCorpus

  // ----- A run whose records are gone -----

  /** The file ends with what `ch` has written, behind whole records without run `r`. */
  ghost predicate Frames(rb: nat, file: seq<byte>, ch: Child, o: nat, r: nat)
    requires rb >= 8
  {
    && o < |ch.streams| && o < |ch.written| && ch.written[o] <= |ch.streams[o]|
    && ch.entry.run != r && IsStream(rb, ch.entry.run, ch.streams[o])
    && exists n :: Behind(rb, file, n, ch.streams[o][..ch.written[o]], r)
  }

  /** `file` is `n` whole records without run `r`, then `tail`. */
  ghost predicate Behind(rb: nat, file: seq<byte>, n: nat, tail: seq<byte>, r: nat)
    requires rb >= 8
  {
    Size(rb, n) <= |file| && file[Size(rb, n)..] == tail && r !in Column(rb, file[..Size(rb, n)])
  }

  /** Run `r` is indexed, owner `o` has no record of it, and no child is about to write one. */
  ghost predicate Lost(c: Setup, s: State, o: nat, r: nat)
    requires Proper(c)
  {
    && o < |s.files| && r in Ids(s.index) && r !in Column(c.recordBytes, s.files[o])
    && (s.phase.Running? ==> Frames(c.recordBytes, s.files[o], s.phase.child, o, r))
    && (!s.phase.Down? ==> AllSpent(s.orphans))
    && (forall i :: 0 <= i < |s.orphans| ==>
          Spent(s.orphans[i]) || Frames(c.recordBytes, s.files[o], s.orphans[i], o, r))
    && (forall i, j :: 0 <= i < j < |s.orphans| ==> Spent(s.orphans[i]) || Spent(s.orphans[j]))
  }

  /** An intact corpus holds every indexed run in every file. */
  lemma {:induction false} ExpectedHolds(index: seq<Entry>, r: nat)
    requires IndexOk(index) && r in Ids(index)
    ensures r in Expected(index)
  {
    var n := |index| - 1;
    if index[n].run == r {
      assert EntryOk(index[n]);
      assert Expected(index)[|Expected(index)| - 1] == r;
    } else {
      var i :| 0 <= i < |index| && index[i].run == r;
      assert index[..n][i].run == r;
      ExpectedHolds(index[..n], r);
    }
  }

  lemma LostNotIntact(c: Setup, s: State, o: nat, r: nat)
    requires Proper(c) && Lost(c, s, o, r)
    ensures !Intact(c, s)
  {
    if Intact(c, s) {
      assert FileGood(c, s.index, s.last, s.files[o]);
      FileParts(c, s.index, s.last, s.files[o]);
      ExpectedHolds(s.index, r);
    }
  }

  /** Appending to a framed file adds records of the child's own run only. */
  lemma FrameGrows(rb: nat, file: seq<byte>, ch: Child, o: nat, n: nat, r: nat)
    requires rb >= 8 && Frames(rb, file, ch, o, r) && ch.written[o] <= n <= |ch.streams[o]|
    ensures Frames(rb, Longer(file, ch, o, n), Further(ch, o, n), o, r)
    ensures r !in Column(rb, Longer(file, ch, o, n))
  {
    var stream, longer := ch.streams[o], Longer(file, ch, o, n);
    var m :| Behind(rb, file, m, stream[..ch.written[o]], r);
    var base := file[..Size(rb, m)];
    assert longer[..Size(rb, m)] == base && longer[Size(rb, m)..] == stream[..n];
    assert Behind(rb, longer, m, stream[..n], r);
    assert longer == base + stream[..n];
    ColumnAppend(rb, base, m, stream[..n]);
    ColumnPrefix(rb, stream, n);
  }

  /** A start behind whole records frames the new run. */
  lemma FrameStarts(c: Setup, s: State, step: Step, o: nat, r: nat)
    requires Proper(c) && Lost(c, s, o, r) && Enabled(c, s, step) && step.Start? && o < c.owners
    requires HoldsWhole(c, s, o)
    ensures Lost(c, Apply(c, s, step), o, r)
  {
    var rb, file, t := c.recordBytes, s.files[o], Apply(c, s, step);
    var n := Whole(rb, |file|);
    assert file[..Size(rb, n)] == file && file[Size(rb, n)..] == [];
    assert Behind(rb, file, n, t.phase.child.streams[o][..0], r);
  }

  lemma CutStaysLost(rb: nat, p: seq<byte>, known: set<nat>, r: nat)
    requires rb >= 8 && r !in Column(rb, p)
    ensures r !in Column(rb, CutPayload(rb, p, known))
  {
    var cut := CutPayload(rb, p, known);
    assert cut == p[..|cut|];
    ColumnPrefix(rb, p, |cut|);
  }

  /** A file of owner `o` holds whole records only. */
  predicate HoldsWhole(c: Setup, s: State, o: nat)
    requires Proper(c)
  {
    o < |s.files| && |s.files[o]| == Size(c.recordBytes, Whole(c.recordBytes, |s.files[o]|))
  }

  lemma LostOrphanAppend(c: Setup, s: State, step: Step, o: nat, r: nat)
    requires Proper(c) && Lost(c, s, o, r) && Enabled(c, s, step) && step.OrphanAppend?
    ensures Lost(c, Apply(c, s, step), o, r)
  {
    var i, t := step.orphan, Apply(c, s, step);
    if Spent(s.orphans[i]) {
      SpentAppends(s, i, step.owner, step.upTo);
    } else {
      if step.owner == o {
        FrameGrows(c.recordBytes, s.files[o], s.orphans[i], o, step.upTo, r);
      }
      assert Frames(c.recordBytes, t.files[o], t.orphans[i], o, r);
      forall j | 0 <= j < |t.orphans|
        ensures Spent(t.orphans[j]) || Frames(c.recordBytes, t.files[o], t.orphans[j], o, r)
      {
        assert j != i ==> Spent(s.orphans[j]);
      }
    }
  }

  lemma LostOrphanEnds(c: Setup, s: State, step: Step, o: nat, r: nat)
    requires Proper(c) && Lost(c, s, o, r) && Enabled(c, s, step) && step.OrphanEnds?
    ensures Lost(c, Apply(c, s, step), o, r)
  {
    var i, t := step.orphan, Apply(c, s, step);
    forall j | 0 <= j < |t.orphans|
      ensures t.orphans[j] == s.orphans[if j < i then j else j + 1]
    {
    }
  }

  /** Every step leaves a lost run lost, given that runs start behind whole records. */
  lemma LostStays(c: Setup, s: State, step: Step, o: nat, r: nat)
    requires Proper(c) && Lost(c, s, o, r) && o < c.owners && Enabled(c, s, step) && !Overlaps(s, step)
    requires step.Start? ==> HoldsWhole(c, s, o)
    ensures Lost(c, Apply(c, s, step), o, r)
  {
    match step
    case RecoverOne => CutStaysLost(c.recordBytes, s.files[o], Ids(s.index), r);
    case Start(_, _) => FrameStarts(c, s, step, o, r);
    case Append(p, n) =>
      if p == o {
        FrameGrows(c.recordBytes, s.files[o], s.phase.child, o, n, r);
      }
    case OrphanAppend(_, _, _) => LostOrphanAppend(c, s, step, o, r);
    case OrphanEnds(_) => LostOrphanEnds(c, s, step, o, r);
    case ExitOk => IdsSnoc(s.index, s.phase.child.entry);
    case Crash =>
    case Restart =>
    case Fail =>
  }

  /** Every run starts with whole records in the file of owner `o`. */
  ghost predicate StartsFramed(c: Setup, s: State, steps: seq<Step>, o: nat)
    requires Proper(c) && IsRun(c, s, steps)
    decreases |steps|
  {
    steps != [] ==>
      (steps[0].Start? ==> HoldsWhole(c, s, o)) && StartsFramed(c, Apply(c, s, steps[0]), steps[1..], o)
  }

  /** No state of the execution is intact or holds a record of run `r` for owner `o`. */
  ghost predicate NeverFound(c: Setup, s: State, steps: seq<Step>, o: nat, r: nat)
    requires Proper(c) && IsRun(c, s, steps)
    decreases |steps|
  {
    && !Intact(c, s) && (o < |s.files| ==> r !in Column(c.recordBytes, s.files[o]))
    && (steps != [] ==> NeverFound(c, Apply(c, s, steps[0]), steps[1..], o, r))
  }

  lemma {:induction false} LostForGood(c: Setup, s: State, steps: seq<Step>, o: nat, r: nat)
    requires Proper(c) && Lost(c, s, o, r) && o < c.owners && IsRun(c, s, steps) && Sole(c, s, steps)
    requires StartsFramed(c, s, steps, o)
    ensures NeverFound(c, s, steps, o, r)
    decreases |steps|
  {
    LostNotIntact(c, s, o, r);
    if steps != [] {
      LostStays(c, s, steps[0], o, r);
      LostForGood(c, Apply(c, s, steps[0]), steps[1..], o, r);
    }
  }

  // ----- Such a run is reachable -----

  /** The eight little-endian bytes of a run id, twice: a run of `tokens` 4 with eight-byte records. */
  function TwoRecords(run: nat): (s: seq<byte>)
    ensures |s| == 16
  {
    ToLE(run, 8) + ToLE(run, 8)
  }

  /** Two heads, then less than a record. */
  lemma TwoHeads(a: seq<byte>, b: seq<byte>, rest: seq<byte>)
    requires |a| == |b| == 8 && |rest| < 8
    ensures Column(8, a + b + rest) == [FromLE(a), FromLE(b)]
  {
    var s := a + b + rest;
    assert s[..8] == a && s[8..][..8] == b && s[8..][8..] == rest;
    assert Heads(8, rest) == [];
    assert Heads(8, s[8..]) == [b];
    assert Heads(8, s) == [a] + [b];
  }

  lemma TwoRecordsAreStream(run: nat)
    requires run < U64_LIMIT
    ensures Column(8, TwoRecords(run)) == [run, run] && IsStream(8, run, TwoRecords(run))
  {
    WidthRoundTrip(run);
    TwoHeads(ToLE(run, 8), ToLE(run, 8), []);
    assert TwoRecords(run) == ToLE(run, 8) + ToLE(run, 8) + [];
  }

  const ONE := Setup(8, 1)

  /** A run named by its id only: its entry, its bytes, and the child that has written `w` of them. */
  function Short(run: nat): Entry
  {
    Entry("val", run, 4)
  }

  function ShortChild(run: nat, w: nat): Child
  {
    Child(Short(run), [TwoRecords(run)], [w])
  }

  lemma ShortIds(run: nat)
    ensures Ids([]) == {} && Ids([Short(run)]) == {run}
  {
    IdsSnoc([], Short(run));
    assert [] + [Short(run)] == [Short(run)];
  }

  /** A state of the corpus with one owner. */
  function OneFile(index: seq<Entry>, file: seq<byte>, last: nat, orphans: seq<Child>, phase: Phase): State
  {
    State(index, [file], last, orphans, phase)
  }

  /** A run that gets `n` bytes out. */
  function Try(run: nat, n: nat): seq<Step>
  {
    [Start(Short(run), [TwoRecords(run)])] + [Append(0, n)]
  }

  lemma Tries(index: seq<Entry>, file: seq<byte>, last: nat, run: nat, n: nat)
    requires 0 < run < U64_LIMIT && run !in Ids(index) && n <= 16
    ensures Reaches(ONE, OneFile(index, file, last, [], Idle), Try(run, n),
                    OneFile(index, file + TwoRecords(run)[..n], run, [], Running(ShortChild(run, n))))
  {
    var idle := OneFile(index, file, last, [], Idle);
    var started := OneFile(index, file, run, [], Running(ShortChild(run, 0)));
    var longer := file + TwoRecords(run)[..n];
    TwoRecordsAreStream(run);
    assert Repeat(0, 1) == [0];
    OneStep(ONE, idle, Start(Short(run), [TwoRecords(run)]), started);
    var w: seq<nat> := [0];
    assert w[0 := n] == [n];
    assert TwoRecords(run)[0..n] == TwoRecords(run)[..n];
    assert [file][0 := longer] == [longer];
    var written := OneFile(index, longer, run, [], Running(ShortChild(run, n)));
    OneStep(ONE, started, Append(0, n), written);
    Compose(ONE, idle, [Start(Short(run), [TwoRecords(run)])], started, [Append(0, n)], written);
  }

  /** One owner's file is recovered, then the pass ends. */
  lemma Recoveries(index: seq<Entry>, file: seq<byte>, last: nat, phase: Phase)
    requires phase == Recovering(0) || phase == Failed(0)
    ensures Reaches(ONE, OneFile(index, file, last, [], phase), [RecoverOne] + [RecoverOne],
                    OneFile(index, CutPayload(8, file, Ids(index)), last, [], Idle))
  {
    var r := CutPayload(8, file, Ids(index));
    var s, t := OneFile(index, file, last, [], phase), OneFile(index, r, last, [], Advance(phase));
    var u := OneFile(index, r, last, [], Idle);
    assert [file][0 := r] == [r];
    OneStep(ONE, s, RecoverOne, t);
    OneStep(ONE, t, RecoverOne, u);
    Compose(ONE, s, [RecoverOne], t, [RecoverOne], u);
  }

  // ----- Heads of two records -----

  lemma FromTwoBytes(a: byte, b: byte)
    ensures FromLE([a, b] + Zeros(6)) == a + 256 * b
  {
    ZeroBytes(6);
    var s := [a, b] + Zeros(6);
    assert s[1..] == [b] + Zeros(6) && s[1..][1..] == Zeros(6);
  }

  lemma {:induction false} HighByte(n: nat, b: byte)
    ensures ToLE(b * Pow256(n), n + 1) == Zeros(n) + [b]
  {
    if n > 0 {
      var v := b * Pow256(n - 1);
      assert b * Pow256(n) == 256 * v;
      HighByte(n - 1, b);
      assert [0] + Zeros(n - 1) == Zeros(n);
    }
  }

  // ----- The first run dies after one byte -----

  function LossSteps(): seq<Step>
  {
    [Restart] + Try(7, 1) + [Crash] + [OrphanEnds(0)] + [Restart] + Try(8, 16) + [ExitOk] + [Crash] + [Restart]
    + ([RecoverOne] + [RecoverOne])
  }

  /** One stray byte in front shifts run 8's ids to 2055 and 2048, and recovery knows neither. */
  lemma ShiftedRunIsCut()
    ensures Column(8, [7] + TwoRecords(8)) == [2055, 2048]
    ensures CutPayload(8, [7] + TwoRecords(8), {8}) == []
  {
    SmallBytes(8, 7);
    var a, b, rest: seq<byte> := [7, 8] + Zeros(6), [0, 8] + Zeros(6), [0];
    assert Zeros(7) == Zeros(6) + [0] && Zeros(7) == [0] + Zeros(6);
    var p: seq<byte> := [7] + TwoRecords(8);
    assert p == a + b + rest;
    FromTwoBytes(7, 8);
    FromTwoBytes(0, 8);
    TwoHeads(a, b, rest);
    LastKnownUnique(Column(8, p), {8}, Keep(Column(8, p), {8}), 0);
  }

  /** The state after run 7's child has died with one byte written. */
  lemma FirstRunDies()
    ensures Reaches(ONE, Initial(ONE), [Restart] + Try(7, 1) + [Crash] + [OrphanEnds(0)] + [Restart],
                    OneFile([], [7], 7, [], Idle))
  {
    var s0, s1 := Initial(ONE), OneFile([], [], 0, [], Idle);
    var s2, s3 := OneFile([], [7], 7, [], Running(ShortChild(7, 1))), OneFile([], [7], 7, [ShortChild(7, 1)], Down);
    var s4, s5 := OneFile([], [7], 7, [], Down), OneFile([], [7], 7, [], Idle);
    assert s0 == OneFile([], [], 0, [], Down);
    OneStep(ONE, s0, Restart, s1);
    ShortIds(7);
    Tries([], [], 0, 7, 1);
    SmallBytes(7, 7);
    assert [] + TwoRecords(7)[..1] == [7];
    Compose(ONE, s0, [Restart], s1, Try(7, 1), s2);
    OneStep(ONE, s2, Crash, s3);
    Compose(ONE, s0, [Restart] + Try(7, 1), s2, [Crash], s3);
    OneStep(ONE, s3, OrphanEnds(0), s4);
    Compose(ONE, s0, [Restart] + Try(7, 1) + [Crash], s3, [OrphanEnds(0)], s4);
    OneStep(ONE, s4, Restart, s5);
    Compose(ONE, s0, [Restart] + Try(7, 1) + [Crash] + [OrphanEnds(0)], s4, [Restart], s5);
  }

  /** Run 8 is collected behind the stray byte and indexed. */
  lemma SecondRunIndexed()
    ensures Reaches(ONE, OneFile([], [7], 7, [], Idle), Try(8, 16) + [ExitOk],
                    OneFile([Short(8)], [7] + TwoRecords(8), 8, [], Idle))
  {
    var s, file := OneFile([], [7], 7, [], Idle), [7] + TwoRecords(8);
    var t, u := OneFile([], file, 8, [], Running(ShortChild(8, 16))), OneFile([Short(8)], file, 8, [], Idle);
    ShortIds(8);
    Tries([], [7], 7, 8, 16);
    assert TwoRecords(8)[..16] == TwoRecords(8);
    SizeIsProduct(8, 2);
    assert [] + [Short(8)] == [Short(8)];
    OneStep(ONE, t, ExitOk, u);
    Compose(ONE, s, Try(8, 16), t, [ExitOk], u);
  }

  /** The next collector erases it. */
  lemma RestartErases()
    ensures Reaches(ONE, OneFile([Short(8)], [7] + TwoRecords(8), 8, [], Idle),
                    [Crash] + [Restart] + ([RecoverOne] + [RecoverOne]), OneFile([Short(8)], [], 8, [], Idle))
  {
    var index, file := [Short(8)], [7] + TwoRecords(8);
    var s, t := OneFile(index, file, 8, [], Idle), OneFile(index, file, 8, [], Down);
    var u := OneFile(index, file, 8, [], Recovering(0));
    OneStep(ONE, s, Crash, t);
    OneStep(ONE, t, Restart, u);
    Compose(ONE, s, [Crash], t, [Restart], u);
    ShortIds(8);
    ShiftedRunIsCut();
    Recoveries(index, file, 8, Recovering(0));
    Compose(ONE, s, [Crash] + [Restart], u, [RecoverOne] + [RecoverOne], OneFile(index, [], 8, [], Idle));
  }

  lemma LossReaches()
    ensures Reaches(ONE, Initial(ONE), LossSteps(), OneFile([Short(8)], [], 8, [], Idle))
  {
    hide Reaches, Try, OneFile, Initial;
    FirstRunDies();
    SecondRunIndexed();
    RestartErases();
    var s, t := OneFile([], [7], 7, [], Idle), OneFile([Short(8)], [7] + TwoRecords(8), 8, [], Idle);
    var first, second := [Restart] + Try(7, 1) + [Crash] + [OrphanEnds(0)] + [Restart], Try(8, 16) + [ExitOk];
    var third := [Crash] + [Restart] + ([RecoverOne] + [RecoverOne]);
    Compose(ONE, Initial(ONE), first, s, second, t);
    Compose(ONE, Initial(ONE), first + second, t, third, OneFile([Short(8)], [], 8, [], Idle));
    assert LossSteps() == first + second + third;
  }

  /**
   A first run that dies after one byte costs the run after it: once that run is indexed, the next
   recovery erases both its records, and no execution in which runs start behind whole records
   brings them back or makes the corpus intact again.
   */
  lemma FirstCrashLosesNextRun()
    ensures var t := OneFile([Short(8)], [], 8, [], Idle);
            && Reaches(ONE, Initial(ONE), LossSteps(), t)
            && forall steps :: IsRun(ONE, t, steps) && Sole(ONE, t, steps) && StartsFramed(ONE, t, steps, 0) ==>
                                 NeverFound(ONE, t, steps, 0, 8)
  {
    LossReaches();
    var t := OneFile([Short(8)], [], 8, [], Idle);
    ShortIds(8);
    assert Lost(ONE, t, 0, 8);
    forall steps | IsRun(ONE, t, steps) && Sole(ONE, t, steps) && StartsFramed(ONE, t, steps, 0)
      ensures NeverFound(ONE, t, steps, 0, 8)
    {
      LostForGood(ONE, t, steps, 0, 8);
    }
  }

  // ----- A start over a partial record can forge the lost run -----

  /** A run id whose last little-endian byte is 8 and whose others are zero. */
  const FORGER := 0x0800_0000_0000_0000

  /** A run that gets `n` bytes out and fails, and the recovery that follows. */
  function FailedTry(run: nat, n: nat): seq<Step>
  {
    Try(run, n) + [Fail] + ([RecoverOne] + [RecoverOne])
  }

  lemma Fails(file: seq<byte>, last: nat, run: nat, n: nat)
    requires 0 < run < U64_LIMIT && run != 8 && n <= 16
    ensures Reaches(ONE, OneFile([Short(8)], file, last, [], Idle), FailedTry(run, n),
                    OneFile([Short(8)], CutPayload(8, file + TwoRecords(run)[..n], {8}), run, [], Idle))
  {
    var index, longer := [Short(8)], file + TwoRecords(run)[..n];
    var s, t := OneFile(index, file, last, [], Idle), OneFile(index, longer, run, [], Running(ShortChild(run, n)));
    var u, v := OneFile(index, longer, run, [], Failed(0)), OneFile(index, CutPayload(8, longer, {8}), run, [], Idle);
    ShortIds(8);
    Tries(index, file, last, run, n);
    OneStep(ONE, t, Fail, u);
    Compose(ONE, s, Try(run, n), t, [Fail], u);
    Recoveries(index, longer, run, Failed(0));
    Compose(ONE, s, Try(run, n) + [Fail], u, [RecoverOne] + [RecoverOne], v);
  }

  /** The forger's bytes behind one byte 8 are run 8's records and a byte more, which recovery cuts off. */
  lemma ForgedRunIsKept()
    ensures CutPayload(8, [8] + TwoRecords(FORGER), {8}) == TwoRecords(8)
  {
    Pow256Widths();
    assert Pow256(8) == 256 * Pow256(7);
    HighByte(7, 8);
    SmallBytes(8, 7);
    var p: seq<byte> := [8] + TwoRecords(FORGER);
    var head := ToLE(8, 8);
    assert p == head + head + [8];
    WidthRoundTrip(8);
    TwoHeads(head, head, [8]);
    LastKnownUnique(Column(8, p), {8}, Keep(Column(8, p), {8}), 2);
    SizeIsProduct(8, 2);
    assert p[..16] == TwoRecords(8);
  }

  lemma ForgedIsGood()
    ensures Good(ONE, OneFile([Short(8)], TwoRecords(8), FORGER, [], Idle))
  {
    var index, file := [Short(8)], TwoRecords(8);
    ExpectedSnoc([], Short(8));
    assert [] + [Short(8)] == index;
    TwoRecordsAreStream(8);
    SizeIsProduct(8, 2);
    assert Expected(index) == [8, 8];
    assert file[..16] == file && file[16..] == [];
    ShortIds(8);
    assert FileGood(ONE, index, FORGER, file);
  }

  /**
   Without whole records in front of every start the loss can be masked: two failed runs leave bytes
   that recovery takes for the two records of run 8, and the corpus counts as good.
   */
  lemma LostRunCanBeForged()
    ensures var s, t := OneFile([Short(8)], [], 8, [], Idle), OneFile([Short(8)], TwoRecords(8), FORGER, [], Idle);
            Reaches(ONE, s, FailedTry(264, 1) + FailedTry(FORGER, 16), t) && Good(ONE, t)
  {
    var index := [Short(8)];
    var s, t := OneFile(index, [], 8, [], Idle), OneFile(index, [8], 264, [], Idle);
    Fails([], 8, 264, 1);
    assert [] + TwoRecords(264)[..1] == [8];
    Fails([8], 264, FORGER, 16);
    assert TwoRecords(FORGER)[..16] == TwoRecords(FORGER);
    ForgedRunIsKept();
    ForgedIsGood();
    Compose(ONE, s, FailedTry(264, 1), t, FailedTry(FORGER, 16), OneFile(index, TwoRecords(8), FORGER, [], Idle));
  }
}
