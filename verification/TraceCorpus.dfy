/**
 The trace corpus as a state machine: a collector that starts child runs, the children that
 append to one file per owner, an index that lists finished runs, crashes at any point, children
 that outlive their collector, and the recovery that cuts unindexed records off.
 */
module TraceCorpus {
  import opened Bytes
  import opened TraceFile

  /** An index entry of a finished run. */
  datatype Entry = Entry(bank: string, run: nat, tokens: nat)

  datatype Setup = Setup(recordBytes: nat, owners: nat)

  predicate Proper(c: Setup)
  {
    c.recordBytes >= 8
  }

  /** A child process: its entry-to-be, the bytes it will write per owner, how many are written. */
  datatype Child = Child(entry: Entry, streams: seq<seq<byte>>, written: seq<nat>)

  /** What the collector is doing. */
  datatype Phase =
    | Down
    | Recovering(at: nat)
    | Idle
    | Running(child: Child)
    | Failed(at: nat)

  /**
   `orphans` are children whose collector died; they go on writing. `last` records the run started
   most recently; no step consults it.
   */
  datatype State = State(index: seq<Entry>, files: seq<seq<byte>>, last: nat, orphans: seq<Child>, phase: Phase)

  datatype Step =
    | Restart
    | RecoverOne
    | Start(entry: Entry, streams: seq<seq<byte>>)
    | Append(owner: nat, upTo: nat)
    | ExitOk
    | Fail
    | Crash
    | OrphanAppend(orphan: nat, owner: nat, upTo: nat)
    | OrphanEnds(orphan: nat)

  // ----- The records an index stands for -----

  function Ids(index: seq<Entry>): set<nat>
  {
    set i | 0 <= i < |index| :: index[i].run
  }

  function Repeat(x: nat, n: nat): (s: seq<nat>)
    ensures |s| == n && forall i :: 0 <= i < n ==> s[i] == x
  {
    seq(n, _ => x)
  }

  /** One record per decoded token that has both a predecessor and a successor. */
  function RunRecords(e: Entry): nat
  {
    if e.tokens >= 2 then e.tokens - 2 else 0
  }

  /** The run-id column of the indexed runs in order. */
  function Expected(index: seq<Entry>): seq<nat>
  {
    if index == [] then []
    else
      var e := index[|index| - 1];
      Expected(index[..|index| - 1]) + Repeat(e.run, RunRecords(e))
  }

  predicate EntryOk(e: Entry)
  {
    e.tokens >= 4 && e.run > 0
  }

  ghost predicate IndexOk(index: seq<Entry>)
  {
    && (forall i :: 0 <= i < |index| ==> EntryOk(index[i]))
    && (forall i, j :: 0 <= i < j < |index| ==> index[i].run != index[j].run)
  }

  lemma {:induction false} ExpectedInIds(index: seq<Entry>)
    ensures forall k :: 0 <= k < |Expected(index)| ==> Expected(index)[k] in Ids(index)
  {
    if index != [] {
      ExpectedInIds(index[..|index| - 1]);
      assert Ids(index[..|index| - 1]) <= Ids(index);
      assert index[|index| - 1].run in Ids(index);
    }
  }

  lemma ExpectedNonEmpty(index: seq<Entry>)
    requires index != [] && IndexOk(index)
    ensures |Expected(index)| >= 2
  {
    assert EntryOk(index[|index| - 1]);
  }

  lemma ExpectedSnoc(index: seq<Entry>, e: Entry)
    ensures Expected(index + [e]) == Expected(index) + Repeat(e.run, RunRecords(e))
  {
    assert (index + [e])[..|index|] == index;
  }

  lemma IdsSnoc(index: seq<Entry>, e: Entry)
    ensures Ids(index + [e]) == Ids(index) + {e.run}
  {
    var longer := index + [e];
    assert longer[|index|].run == e.run;
    assert forall i :: 0 <= i < |index| ==> longer[i] == index[i];
    assert forall x :: x in Ids(index) ==> exists i :: 0 <= i < |longer| && longer[i].run == x;
  }

  // ----- Steps -----

  ghost predicate AllAre(c: seq<nat>, x: nat)
  {
    forall k :: 0 <= k < |c| ==> c[k] == x
  }

  /** A run's record stream for one owner. */
  ghost predicate IsStream(rb: nat, run: nat, s: seq<byte>)
    requires rb >= 8
  {
    AllAre(Column(rb, s), run)
  }

  ghost predicate AllStreams(rb: nat, run: nat, streams: seq<seq<byte>>)
    requires rb >= 8
  {
    forall o :: 0 <= o < |streams| ==> IsStream(rb, run, streams[o])
  }

  /** Every stream holds `n` records and is written out. */
  predicate AllWritten(rb: nat, n: nat, ch: Child)
  {
    && |ch.streams| == |ch.written|
    && forall o :: 0 <= o < |ch.streams| ==> ch.written[o] == |ch.streams[o]| == Size(rb, n)
  }

  /** The child may append up to position `n` of its stream for owner `o`. */
  predicate CanAppend(files: seq<seq<byte>>, ch: Child, o: nat, n: nat)
  {
    && o < |files| && o < |ch.written| && o < |ch.streams|
    && ch.written[o] <= n <= |ch.streams[o]|
  }

  /** A collector starts whenever none is running: it does not look for a child of its predecessor. */
  ghost predicate Enabled(c: Setup, s: State, step: Step)
    requires Proper(c)
  {
    match step
    case Restart => s.phase.Down?
    case RecoverOne => s.phase.Recovering? || s.phase.Failed?
    case Start(e, streams) =>
      && s.phase.Idle? && EntryOk(e) && e.run !in Ids(s.index)
      && |streams| == c.owners && AllStreams(c.recordBytes, e.run, streams)
    case Append(o, n) => s.phase.Running? && CanAppend(s.files, s.phase.child, o, n)
    case ExitOk => s.phase.Running? && AllWritten(c.recordBytes, RunRecords(s.phase.child.entry), s.phase.child)
    case Fail => s.phase.Running?
    case Crash => !s.phase.Down?
    case OrphanAppend(i, o, n) => i < |s.orphans| && CanAppend(s.files, s.orphans[i], o, n)
    case OrphanEnds(i) => i < |s.orphans|
  }

  function At(p: Phase): nat
    requires p.Recovering? || p.Failed?
  {
    p.at
  }

  function Advance(p: Phase): (q: Phase)
    requires p.Recovering? || p.Failed?
  {
    if p.Recovering? then Recovering(p.at + 1) else Failed(p.at + 1)
  }

  /** The file after the child's append, and the child after it. */
  function Longer(file: seq<byte>, ch: Child, o: nat, n: nat): seq<byte>
    requires o < |ch.written| && o < |ch.streams| && ch.written[o] <= n <= |ch.streams[o]|
  {
    file + ch.streams[o][ch.written[o]..n]
  }

  function Further(ch: Child, o: nat, n: nat): Child
    requires o < |ch.written|
  {
    ch.(written := ch.written[o := n])
  }

  function ApplyRecover(c: Setup, s: State): State
    requires Proper(c) && (s.phase.Recovering? || s.phase.Failed?)
  {
    var at := At(s.phase);
    if at < |s.files| then
      s.(files := s.files[at := CutPayload(c.recordBytes, s.files[at], Ids(s.index))], phase := Advance(s.phase))
    else s.(phase := Idle)
  }

  ghost function Apply(c: Setup, s: State, step: Step): State
    requires Proper(c) && Enabled(c, s, step)
  {
    match step
    case Restart => s.(phase := if s.index != [] then Recovering(0) else Idle)
    case RecoverOne => ApplyRecover(c, s)
    case Start(e, streams) =>
      s.(last := e.run, phase := Running(Child(e, streams, Repeat(0, |streams|))))
    case Append(o, n) =>
      var ch := s.phase.child;
      s.(files := s.files[o := Longer(s.files[o], ch, o, n)], phase := Running(Further(ch, o, n)))
    case ExitOk => s.(index := s.index + [s.phase.child.entry], phase := Idle)
    case Fail => s.(phase := Failed(0))
    case Crash => s.(orphans := if s.phase.Running? then s.orphans + [s.phase.child] else s.orphans, phase := Down)
    case OrphanAppend(i, o, n) =>
      var ch := s.orphans[i];
      s.(files := s.files[o := Longer(s.files[o], ch, o, n)], orphans := s.orphans[i := Further(ch, o, n)])
    case OrphanEnds(i) => s.(orphans := s.orphans[..i] + s.orphans[i + 1..])
  }

  // ----- The corpus invariant -----

  /** Where the indexed records of a file end. */
  function CutAt(c: Setup, index: seq<Entry>): nat
  {
    Size(c.recordBytes, |Expected(index)|)
  }

  /** The indexed runs in order, then records of one more run, then at most a partial record. */
  ghost predicate FileGood(c: Setup, index: seq<Entry>, last: nat, file: seq<byte>)
    requires Proper(c)
  {
    && CutAt(c, index) <= |file|
    && Column(c.recordBytes, file[..CutAt(c, index)]) == Expected(index)
    && IsStream(c.recordBytes, last, file[CutAt(c, index)..])
  }

  ghost predicate FilesGood(c: Setup, index: seq<Entry>, last: nat, files: seq<seq<byte>>)
    requires Proper(c)
  {
    |files| == c.owners && forall o :: 0 <= o < |files| ==> FileGood(c, index, last, files[o])
  }

  /** The first `n` files hold indexed records only. */
  ghost predicate CleanUpTo(c: Setup, index: seq<Entry>, files: seq<seq<byte>>, n: nat)
  {
    forall o :: 0 <= o < |files| && o < n ==> |files[o]| == CutAt(c, index)
  }

  ghost predicate Clean(c: Setup, index: seq<Entry>, files: seq<seq<byte>>)
  {
    CleanUpTo(c, index, files, |files|)
  }

  /** What the running child has written is all that follows the indexed records. */
  ghost predicate ChildGood(c: Setup, s: State, ch: Child)
    requires Proper(c)
  {
    && EntryOk(ch.entry) && s.last == ch.entry.run && s.last !in Ids(s.index)
    && |ch.streams| == |ch.written| == |s.files|
    && AllStreams(c.recordBytes, s.last, ch.streams)
    && forall o :: 0 <= o < |s.files| ==>
         && ch.written[o] <= |ch.streams[o]| && CutAt(c, s.index) <= |s.files[o]|
         && s.files[o][CutAt(c, s.index)..] == ch.streams[o][..ch.written[o]]
  }

  /** The child has nothing left to write. */
  predicate Spent(ch: Child)
  {
    forall o :: 0 <= o < |ch.streams| && o < |ch.written| ==> ch.written[o] == |ch.streams[o]|
  }

  predicate AllSpent(orphans: seq<Child>)
  {
    forall i :: 0 <= i < |orphans| ==> Spent(orphans[i])
  }

  /** Only while the collector is down may an orphan have something left, and then only one, behind clean files. */
  ghost predicate OrphansGood(c: Setup, s: State)
    requires Proper(c)
  {
    && (forall i :: 0 <= i < |s.orphans| ==> Spent(s.orphans[i]) || (s.phase.Down? && ChildGood(c, s, s.orphans[i])))
    && (forall i, j :: 0 <= i < j < |s.orphans| ==> Spent(s.orphans[i]) || Spent(s.orphans[j]))
  }

  ghost predicate PhaseGood(c: Setup, s: State)
    requires Proper(c)
  {
    match s.phase
    case Down => true
    case Recovering(at) => s.index != [] && CleanUpTo(c, s.index, s.files, at)
    case Idle => s.index != [] ==> Clean(c, s.index, s.files)
    case Running(ch) => ChildGood(c, s, ch)
    case Failed(at) => s.index != [] ==> CleanUpTo(c, s.index, s.files, at)
  }

  /**
   What readers rely on: every owner file is the indexed runs in order, then at most one run that is
   not indexed; between runs there is no such tail.
   */
  ghost predicate Intact(c: Setup, s: State)
    requires Proper(c)
  {
    && IndexOk(s.index)
    && FilesGood(c, s.index, s.last, s.files)
    && (s.last !in Ids(s.index) || Clean(c, s.index, s.files))
    && (s.phase.Idle? && s.index != [] ==> Clean(c, s.index, s.files))
  }

  ghost predicate Good(c: Setup, s: State)
    requires Proper(c)
  {
    Intact(c, s) && OrphansGood(c, s) && PhaseGood(c, s)
  }

  /** A run started over leftover bytes: possible only before anything is indexed. */
  predicate DirtyStart(s: State, step: Step)
  {
    step.Start? && s.index == [] && !AllEmpty(s.files)
  }

  predicate AllEmpty(files: seq<seq<byte>>)
  {
    forall o :: 0 <= o < |files| ==> files[o] == []
  }

  /** A collector started beside a child of its predecessor that still has something to write. */
  predicate Overlaps(s: State, step: Step)
  {
    step.Restart? && !AllSpent(s.orphans)
  }

  // ----- Recovery cuts exactly the unindexed tail -----

  lemma FileParts(c: Setup, index: seq<Entry>, last: nat, file: seq<byte>)
    requires Proper(c) && FileGood(c, index, last, file)
    ensures var tail := file[CutAt(c, index)..];
            Column(c.recordBytes, file) == Expected(index) + Column(c.recordBytes, tail)
  {
    var cut := CutAt(c, index);
    ColumnAppend(c.recordBytes, file[..cut], |Expected(index)|, file[cut..]);
    assert file == file[..cut] + file[cut..];
  }

  lemma KeepsIndexed(c: Setup, index: seq<Entry>, last: nat, file: seq<byte>)
    requires Proper(c) && FileGood(c, index, last, file) && last !in Ids(index)
    ensures |Expected(index)| <= |Column(c.recordBytes, file)|
    ensures Keep(Column(c.recordBytes, file), Ids(index)) == |Expected(index)|
  {
    var col, exp := Column(c.recordBytes, file), Expected(index);
    var tail := Column(c.recordBytes, file[CutAt(c, index)..]);
    FileParts(c, index, last, file);
    ExpectedInIds(index);
    assert forall k :: |exp| <= k < |col| ==> col[k] == tail[k - |exp|];
    LastKnownUnique(col, Ids(index), Keep(col, Ids(index)), |exp|);
  }

  /** With a run indexed, recovery leaves exactly the indexed records: whole tails and partial records go. */
  lemma RecoveryCutsTail(c: Setup, index: seq<Entry>, last: nat, file: seq<byte>)
    requires Proper(c) && IndexOk(index) && index != []
    requires FileGood(c, index, last, file) && (last !in Ids(index) || |file| == CutAt(c, index))
    ensures CutPayload(c.recordBytes, file, Ids(index)) == file[..CutAt(c, index)]
  {
    ExpectedNonEmpty(index);
    if last !in Ids(index) {
      KeepsIndexed(c, index, last, file);
    } else {
      CleanKeepsAll(c, index, last, file);
    }
  }

  lemma CleanKeepsAll(c: Setup, index: seq<Entry>, last: nat, file: seq<byte>)
    requires Proper(c) && index != [] && FileGood(c, index, last, file) && |file| == CutAt(c, index)
    ensures Column(c.recordBytes, file) == Expected(index)
    ensures Keep(Column(c.recordBytes, file), Ids(index)) == |Expected(index)|
  {
    var exp := Expected(index);
    assert file[..|file|] == file;
    ExpectedInIds(index);
    LastKnownUnique(exp, Ids(index), Keep(exp, Ids(index)), |exp|);
  }

  lemma PrefixClean(c: Setup, index: seq<Entry>, last: nat, other: nat, file: seq<byte>)
    requires Proper(c) && FileGood(c, index, last, file)
    ensures var kept := file[..CutAt(c, index)]; FileGood(c, index, other, kept) && |kept| == CutAt(c, index)
  {
    var kept := file[..CutAt(c, index)];
    assert kept[..CutAt(c, index)] == kept;
  }

  /** Before anything is indexed, recovery drops whole records but not a lone partial one. */
  lemma RecoveryWithoutIndex(c: Setup, last: nat, file: seq<byte>)
    requires Proper(c) && FileGood(c, [], last, file)
    ensures CutPayload(c.recordBytes, file, Ids([])) == if |file| < c.recordBytes then file else []
    ensures FileGood(c, [], last, CutPayload(c.recordBytes, file, Ids([])))
  {
    var none: seq<byte> := [];
    assert none[..0] == none && none[0..] == none;
    assert Column(c.recordBytes, none) == [];
  }

  // ----- Every step keeps the invariant -----

  /** A recovered file still fits the corpus, and with a run indexed it has no tail. */
  lemma RecoveredFileGood(c: Setup, index: seq<Entry>, last: nat, file: seq<byte>)
    requires Proper(c) && IndexOk(index) && FileGood(c, index, last, file)
    requires last !in Ids(index) || |file| == CutAt(c, index)
    ensures var r := CutPayload(c.recordBytes, file, Ids(index));
            FileGood(c, index, last, r) && (index != [] ==> |r| == CutAt(c, index))
  {
    if index == [] {
      RecoveryWithoutIndex(c, last, file);
    } else {
      RecoveryCutsTail(c, index, last, file);
      PrefixClean(c, index, last, last, file);
    }
  }

  lemma RecoverKeeps(c: Setup, s: State)
    requires Proper(c) && Good(c, s) && (s.phase.Recovering? || s.phase.Failed?)
    ensures Good(c, ApplyRecover(c, s))
  {
    var at := At(s.phase);
    if at < |s.files| {
      var file := s.files[at];
      assert FileGood(c, s.index, s.last, file);
      RecoveredFileGood(c, s.index, s.last, file);
      ReplaceKeeps(c, s, at, CutPayload(c.recordBytes, file, Ids(s.index)));
    }
  }

  lemma ReplaceKeeps(c: Setup, s: State, at: nat, r: seq<byte>)
    requires Proper(c) && Good(c, s) && (s.phase.Recovering? || s.phase.Failed?)
    requires at == At(s.phase) < |s.files| && FileGood(c, s.index, s.last, r)
    requires s.index != [] ==> |r| == CutAt(c, s.index)
    ensures Good(c, s.(files := s.files[at := r], phase := Advance(s.phase)))
  {
  }

  lemma StartKeeps(c: Setup, s: State, step: Step)
    requires Proper(c) && Good(c, s) && Enabled(c, s, step) && step.Start? && !DirtyStart(s, step)
    ensures Good(c, Apply(c, s, step))
  {
    var t := Apply(c, s, step);
    var cut := CutAt(c, s.index);
    forall o | 0 <= o < |s.files|
      ensures FileGood(c, s.index, t.last, s.files[o]) && s.files[o][cut..] == []
    {
      assert FileGood(c, s.index, s.last, s.files[o]);
      assert |s.files[o]| == cut;
    }
  }

  lemma AppendFile(c: Setup, index: seq<Entry>, last: nat, file: seq<byte>, stream: seq<byte>, w: nat, n: nat)
    requires Proper(c) && FileGood(c, index, last, file) && IsStream(c.recordBytes, last, stream)
    requires w <= n <= |stream| && file[CutAt(c, index)..] == stream[..w]
    ensures var longer := file + stream[w..n];
            FileGood(c, index, last, longer) && longer[CutAt(c, index)..] == stream[..n]
  {
    var cut := CutAt(c, index);
    var longer := file + stream[w..n];
    assert longer[..cut] == file[..cut];
    assert longer[cut..] == stream[..n];
    ColumnPrefix(c.recordBytes, stream, n);
  }

  /** An append by a child whose bytes are all that follows the indexed records. */
  lemma ChildAppends(c: Setup, s: State, t: State, ch: Child, o: nat, n: nat)
    requires Proper(c) && FilesGood(c, s.index, s.last, s.files) && ChildGood(c, s, ch) && CanAppend(s.files, ch, o, n)
    requires t.index == s.index && t.last == s.last && t.files == s.files[o := Longer(s.files[o], ch, o, n)]
    ensures FilesGood(c, t.index, t.last, t.files) && ChildGood(c, t, Further(ch, o, n))
  {
    assert FileGood(c, s.index, s.last, s.files[o]);
    AppendFile(c, s.index, s.last, s.files[o], ch.streams[o], ch.written[o], n);
    forall p | 0 <= p < |t.files|
      ensures FileGood(c, t.index, t.last, t.files[p])
    {
      assert p != o ==> t.files[p] == s.files[p];
    }
  }

  lemma AppendKeeps(c: Setup, s: State, step: Step)
    requires Proper(c) && Good(c, s) && Enabled(c, s, step) && step.Append?
    ensures Good(c, Apply(c, s, step))
  {
    ChildAppends(c, s, Apply(c, s, step), s.phase.child, step.owner, step.upTo);
  }

  /** A child with nothing left to write changes nothing. */
  lemma SpentAppends(s: State, i: nat, o: nat, n: nat)
    requires i < |s.orphans| && Spent(s.orphans[i]) && CanAppend(s.files, s.orphans[i], o, n)
    ensures s.files[o := Longer(s.files[o], s.orphans[i], o, n)] == s.files
    ensures s.orphans[i := Further(s.orphans[i], o, n)] == s.orphans
  {
    var ch := s.orphans[i];
    assert ch.written[o := n] == ch.written;
    assert Longer(s.files[o], ch, o, n) == s.files[o];
  }

  lemma OrphanAppendKeeps(c: Setup, s: State, step: Step)
    requires Proper(c) && Good(c, s) && Enabled(c, s, step) && step.OrphanAppend?
    ensures Good(c, Apply(c, s, step))
  {
    var i, o, n := step.orphan, step.owner, step.upTo;
    if Spent(s.orphans[i]) {
      SpentAppends(s, i, o, n);
    } else {
      var t := Apply(c, s, step);
      ChildAppends(c, s, t, s.orphans[i], o, n);
      forall j | 0 <= j < |t.orphans|
        ensures Spent(t.orphans[j]) || ChildGood(c, t, t.orphans[j])
      {
        assert j != i ==> Spent(s.orphans[j]);
      }
    }
  }

  lemma OrphanEndsKeeps(c: Setup, s: State, step: Step)
    requires Proper(c) && Good(c, s) && Enabled(c, s, step) && step.OrphanEnds?
    ensures Good(c, Apply(c, s, step))
  {
    var i, t := step.orphan, Apply(c, s, step);
    forall j | 0 <= j < |t.orphans|
      ensures t.orphans[j] == s.orphans[if j < i then j else j + 1]
    {
    }
  }

  lemma CrashKeeps(c: Setup, s: State)
    requires Proper(c) && Good(c, s) && Enabled(c, s, Crash)
    ensures Good(c, Apply(c, s, Crash))
  {
    var t := Apply(c, s, Crash);
    if s.phase.Running? {
      assert ChildGood(c, t, s.phase.child);
      assert AllSpent(s.orphans);
    }
  }

  /** A finished run's bytes become the last indexed run. */
  lemma IndexFile(c: Setup, index: seq<Entry>, e: Entry, file: seq<byte>, stream: seq<byte>)
    requires Proper(c) && FileGood(c, index, e.run, file) && IsStream(c.recordBytes, e.run, stream)
    requires file[CutAt(c, index)..] == stream && |stream| == Size(c.recordBytes, RunRecords(e))
    ensures FileGood(c, index + [e], e.run, file) && |file| == CutAt(c, index + [e])
  {
    var rb, n := c.recordBytes, RunRecords(e);
    FileParts(c, index, e.run, file);
    ExpectedSnoc(index, e);
    SizeAdd(rb, |Expected(index)|, n);
    WholeAppend(rb, n, |stream|);
    assert Column(rb, stream) == Repeat(e.run, n);
    assert file[..|file|] == file && file[|file|..] == [];
  }

  lemma ExitKeeps(c: Setup, s: State)
    requires Proper(c) && Good(c, s) && Enabled(c, s, ExitOk)
    ensures Good(c, Apply(c, s, ExitOk))
  {
    var t := Apply(c, s, ExitOk);
    var ch := s.phase.child;
    forall o | 0 <= o < |s.files|
      ensures FileGood(c, t.index, t.last, t.files[o]) && |t.files[o]| == CutAt(c, t.index)
    {
      assert FileGood(c, s.index, s.last, s.files[o]);
      var stream := ch.streams[o];
      assert stream[..|stream|] == stream;
      IndexFile(c, s.index, ch.entry, s.files[o], stream);
    }
    assert IndexOk(t.index) by {
      assert forall i :: 0 <= i < |s.index| ==> s.index[i].run in Ids(s.index);
    }
  }

  /**
   Every step keeps the invariant, but for a run started over leftover bytes and a collector
   started beside an unfinished orphan.
   */
  lemma StepKeepsGood(c: Setup, s: State, step: Step)
    requires Proper(c) && Good(c, s) && Enabled(c, s, step) && !DirtyStart(s, step) && !Overlaps(s, step)
    ensures Good(c, Apply(c, s, step))
  {
    match step
    case RecoverOne => RecoverKeeps(c, s);
    case Start(_, _) => StartKeeps(c, s, step);
    case Append(_, _) => AppendKeeps(c, s, step);
    case ExitOk => ExitKeeps(c, s);
    case Crash => CrashKeeps(c, s);
    case OrphanAppend(_, _, _) => OrphanAppendKeeps(c, s, step);
    case OrphanEnds(_) => OrphanEndsKeeps(c, s, step);
    case Restart =>
    case Fail =>
  }

  // ----- Whole executions -----

  ghost predicate IsRun(c: Setup, s: State, steps: seq<Step>)
    requires Proper(c)
    decreases |steps|
  {
    steps == [] || (Enabled(c, s, steps[0]) && IsRun(c, Apply(c, s, steps[0]), steps[1..]))
  }

  ghost function Exec(c: Setup, s: State, steps: seq<Step>): State
    requires Proper(c) && IsRun(c, s, steps)
    decreases |steps|
  {
    if steps == [] then s else Exec(c, Apply(c, s, steps[0]), steps[1..])
  }

  /** No collector starts beside an unfinished orphan. */
  ghost predicate Sole(c: Setup, s: State, steps: seq<Step>)
    requires Proper(c) && IsRun(c, s, steps)
    decreases |steps|
  {
    steps != [] ==> !Overlaps(s, steps[0]) && Sole(c, Apply(c, s, steps[0]), steps[1..])
  }

  ghost predicate GoodThroughout(c: Setup, s: State, steps: seq<Step>)
    requires Proper(c) && IsRun(c, s, steps)
    decreases |steps|
  {
    Good(c, s) && (steps != [] ==> GoodThroughout(c, Apply(c, s, steps[0]), steps[1..]))
  }

  /** Every state of the execution in which a run is indexed is intact. */
  ghost predicate IntactOnceIndexed(c: Setup, s: State, steps: seq<Step>)
    requires Proper(c) && IsRun(c, s, steps)
    decreases |steps|
  {
    (s.index != [] ==> Intact(c, s)) && (steps != [] ==> IntactOnceIndexed(c, Apply(c, s, steps[0]), steps[1..]))
  }

  /**
   The run that is indexed first was started with every owner file empty; `clean` says so of the
   start before `s`.
   */
  ghost predicate FirstIndexedClean(c: Setup, s: State, steps: seq<Step>, clean: bool)
    requires Proper(c) && IsRun(c, s, steps)
    decreases |steps|
  {
    if steps == [] || s.index != [] then true
    else if steps[0].ExitOk? then clean
    else FirstIndexedClean(c, Apply(c, s, steps[0]), steps[1..], if steps[0].Start? then AllEmpty(s.files) else clean)
  }

  function Initial(c: Setup): State
  {
    State([], seq(c.owners, _ => []), 0, [], Down)
  }

  /**
   From the first indexed run on, no crash, failure, restart or finishing orphan can break the corpus;
   without owners nothing can.
   */
  lemma {:induction false} OnceIndexedAlwaysGood(c: Setup, s: State, steps: seq<Step>)
    requires Proper(c) && Good(c, s) && (s.index != [] || c.owners == 0) && IsRun(c, s, steps) && Sole(c, s, steps)
    ensures GoodThroughout(c, s, steps) && IntactOnceIndexed(c, s, steps)
    decreases |steps|
  {
    if steps != [] {
      StepKeepsGood(c, s, steps[0]);
      OnceIndexedAlwaysGood(c, Apply(c, s, steps[0]), steps[1..]);
    }
  }

  // ----- Putting executions together -----

  lemma {:induction false} RunConcat(c: Setup, s: State, a: seq<Step>, b: seq<Step>)
    requires Proper(c) && IsRun(c, s, a) && IsRun(c, Exec(c, s, a), b)
    ensures IsRun(c, s, a + b) && Exec(c, s, a + b) == Exec(c, Exec(c, s, a), b)
    ensures Sole(c, s, a) && Sole(c, Exec(c, s, a), b) ==> Sole(c, s, a + b)
    decreases |a|
  {
    if a == [] {
      assert a + b == b;
    } else {
      RunConcat(c, Apply(c, s, a[0]), a[1..], b);
      assert (a + b)[0] == a[0] && (a + b)[1..] == a[1..] + b;
    }
  }

  /** `steps` is an execution from `s` to `t` in which no collector starts beside an unfinished orphan. */
  ghost predicate Reaches(c: Setup, s: State, steps: seq<Step>, t: State)
    requires Proper(c)
  {
    IsRun(c, s, steps) && Sole(c, s, steps) && Exec(c, s, steps) == t
  }

  lemma OneStep(c: Setup, s: State, step: Step, t: State)
    requires Proper(c) && Enabled(c, s, step) && !Overlaps(s, step) && Apply(c, s, step) == t
    ensures Reaches(c, s, [step], t)
  {
    assert [step][1..] == [];
    assert IsRun(c, t, []) && Sole(c, t, []) && Exec(c, t, []) == t;
  }

  lemma Compose(c: Setup, s: State, a: seq<Step>, t: State, b: seq<Step>, u: State)
    requires Proper(c) && Reaches(c, s, a, t) && Reaches(c, t, b, u)
    ensures Reaches(c, s, a + b, u)
  {
    RunConcat(c, s, a, b);
  }

  /** One more step at the end. */
  lemma Then(c: Setup, s: State, a: seq<Step>, t: State, step: Step)
    requires Proper(c) && Reaches(c, s, a, t) && Enabled(c, t, step) && !Overlaps(t, step)
    ensures Reaches(c, s, a + [step], Apply(c, t, step))
  {
    OneStep(c, t, step, Apply(c, t, step));
    Compose(c, s, a, t, [step], Apply(c, t, step));
  }

  // ----- Before the first indexed run -----

  /** A file holds bytes that its running child did not write. */
  predicate Leftover(s: State, ch: Child)
  {
    exists o :: 0 <= o < |s.files| && o < |ch.written| && ch.written[o] < |s.files[o]|
  }

  /** Nothing is indexed yet; `clean` says whether the running child started with empty files. */
  ghost predicate Young(c: Setup, s: State, clean: bool)
    requires Proper(c)
  {
    && s.index == [] && |s.files| == c.owners
    && (!s.phase.Down? ==> AllSpent(s.orphans))
    && (s.phase.Running? ==> EntryOk(s.phase.child.entry) && |s.phase.child.written| == |s.files|)
    && (s.phase.Running? ==> if clean then Good(c, s) else Leftover(s, s.phase.child))
  }

  lemma EmptyGood(c: Setup, s: State)
    requires Proper(c) && s.index == [] && |s.files| == c.owners && AllEmpty(s.files)
    requires s.phase.Idle? && AllSpent(s.orphans)
    ensures Good(c, s)
  {
    var none: seq<byte> := [];
    assert none[..0] == none && none[0..] == none;
    assert Column(c.recordBytes, none) == [];
  }

  lemma YoungStarts(c: Setup, s: State, step: Step, clean: bool)
    requires Proper(c) && Young(c, s, clean) && Enabled(c, s, step) && step.Start?
    ensures Young(c, Apply(c, s, step), AllEmpty(s.files))
  {
    var t := Apply(c, s, step);
    if AllEmpty(s.files) {
      EmptyGood(c, s);
      StartKeeps(c, s, step);
    } else {
      var o :| 0 <= o < |s.files| && s.files[o] != [];
      assert t.phase.child.written[o] < |t.files[o]|;
    }
  }

  lemma LeftoverStays(s: State, ch: Child, o: nat, n: nat)
    requires Leftover(s, ch) && CanAppend(s.files, ch, o, n)
    ensures Leftover(s.(files := s.files[o := Longer(s.files[o], ch, o, n)]), Further(ch, o, n))
  {
    var p :| 0 <= p < |s.files| && p < |ch.written| && ch.written[p] < |s.files[p]|;
    var t := s.(files := s.files[o := Longer(s.files[o], ch, o, n)]);
    assert Further(ch, o, n).written[p] < |t.files[p]|;
  }

  lemma YoungAppends(c: Setup, s: State, step: Step, clean: bool)
    requires Proper(c) && Young(c, s, clean) && Enabled(c, s, step) && (step.Append? || step.OrphanAppend?)
    ensures Young(c, Apply(c, s, step), clean)
  {
    if step.Append? {
      if clean {
        AppendKeeps(c, s, step);
      } else {
        LeftoverStays(s, s.phase.child, step.owner, step.upTo);
      }
    } else if !s.phase.Down? {
      SpentAppends(s, step.orphan, step.owner, step.upTo);
    }
  }

  lemma YoungStep(c: Setup, s: State, step: Step, clean: bool)
    requires Proper(c) && Young(c, s, clean) && Enabled(c, s, step) && !step.ExitOk? && !Overlaps(s, step)
    ensures Young(c, Apply(c, s, step), if step.Start? then AllEmpty(s.files) else clean)
  {
    if step.Start? {
      YoungStarts(c, s, step, clean);
    } else if step.Append? || step.OrphanAppend? {
      YoungAppends(c, s, step, clean);
    } else if step.OrphanEnds? {
      OrphanEndsSpent(s.orphans, step.orphan);
      if s.phase.Running? && clean {
        OrphanEndsKeeps(c, s, step);
      }
    }
  }

  lemma OrphanEndsSpent(orphans: seq<Child>, i: nat)
    requires i < |orphans|
    ensures AllSpent(orphans) ==> AllSpent(orphans[..i] + orphans[i + 1..])
  {
  }

  /** Indexing a run whose files held something before makes them longer than the index says. */
  lemma LeftoverIndexed(c: Setup, s: State)
    requires Proper(c) && s.index == [] && Enabled(c, s, ExitOk) && Leftover(s, s.phase.child)
    ensures !Intact(c, Apply(c, s, ExitOk))
  {
    var t, ch := Apply(c, s, ExitOk), s.phase.child;
    var o :| 0 <= o < |s.files| && o < |ch.written| && ch.written[o] < |s.files[o]|;
    ExpectedSnoc([], ch.entry);
    assert CutAt(c, t.index) == Size(c.recordBytes, RunRecords(ch.entry));
  }

  lemma {:induction false} YoungExactly(c: Setup, s: State, steps: seq<Step>, clean: bool)
    requires Proper(c) && Young(c, s, clean) && IsRun(c, s, steps) && Sole(c, s, steps)
    ensures IntactOnceIndexed(c, s, steps) <==> FirstIndexedClean(c, s, steps, clean)
    decreases |steps|
  {
    if steps != [] {
      var t := Apply(c, s, steps[0]);
      if steps[0].ExitOk? {
        if clean {
          ExitKeeps(c, s);
          OnceIndexedAlwaysGood(c, t, steps[1..]);
        } else {
          LeftoverIndexed(c, s);
        }
      } else {
        YoungStep(c, s, steps[0], clean);
        YoungExactly(c, t, steps[1..], if steps[0].Start? then AllEmpty(s.files) else clean);
      }
    }
  }

  /**
   In every execution from an empty directory in which no collector starts beside an unfinished
   orphan: the corpus is intact in every state with an indexed run if and only if the run indexed
   first was started with every owner file empty.
   */
  lemma IntactExactlyWhenFirstStartClean(c: Setup, steps: seq<Step>)
    requires Proper(c) && IsRun(c, Initial(c), steps) && Sole(c, Initial(c), steps)
    ensures IntactOnceIndexed(c, Initial(c), steps) <==> FirstIndexedClean(c, Initial(c), steps, false)
  {
    YoungExactly(c, Initial(c), steps, false);
  }

  // ----- Between runs -----

  /** Between runs, every owner file holds the same run sequence: the indexed one. */
  lemma OwnersAgreeBetweenRuns(c: Setup, s: State)
    requires Proper(c) && Good(c, s) && s.phase.Idle? && s.index != []
    ensures forall o :: 0 <= o < |s.files| ==> Column(c.recordBytes, s.files[o]) == Expected(s.index)
  {
    forall o | 0 <= o < |s.files|
      ensures Column(c.recordBytes, s.files[o]) == Expected(s.index)
    {
      assert FileGood(c, s.index, s.last, s.files[o]);
      CleanKeepsAll(c, s.index, s.last, s.files[o]);
    }
  }

  // ----- What is indexed never changes -----

  /** `t` extends the index of `s` and holds the same indexed bytes. */
  ghost predicate Extends(c: Setup, s: State, t: State)
  {
    && s.index <= t.index && |s.files| == |t.files|
    && forall o :: 0 <= o < |s.files| ==> SameUpTo(s.files[o], t.files[o], CutAt(c, s.index))
  }

  /** The first `n` bytes of both files are the same. */
  ghost predicate SameUpTo(a: seq<byte>, b: seq<byte>, n: nat)
  {
    n <= |a| && n <= |b| && a[..n] == b[..n]
  }

  lemma {:induction false} CutAtMono(c: Setup, a: seq<Entry>, b: seq<Entry>)
    requires a <= b
    ensures Expected(a) <= Expected(b) && CutAt(c, a) <= CutAt(c, b)
    decreases |b|
  {
    if |a| < |b| {
      var shorter := b[..|b| - 1];
      CutAtMono(c, a, shorter);
      SizeMono(c.recordBytes, |Expected(shorter)|, |Expected(b)|);
    } else {
      assert a == b;
    }
  }

  lemma SameUpToTrans(x: seq<byte>, y: seq<byte>, z: seq<byte>, m: nat, n: nat)
    requires m <= n && SameUpTo(x, y, m) && SameUpTo(y, z, n)
    ensures SameUpTo(x, z, m)
  {
    assert y[..m] == y[..n][..m] == z[..n][..m] == z[..m];
  }

  lemma ExtendsTrans(c: Setup, s: State, t: State, u: State)
    requires Extends(c, s, t) && Extends(c, t, u)
    ensures Extends(c, s, u)
  {
    CutAtMono(c, s.index, t.index);
    forall o | 0 <= o < |s.files|
      ensures SameUpTo(s.files[o], u.files[o], CutAt(c, s.index))
    {
      SameUpToTrans(s.files[o], t.files[o], u.files[o], CutAt(c, s.index), CutAt(c, t.index));
    }
  }

  lemma RecoverExtends(c: Setup, s: State)
    requires Proper(c) && Good(c, s) && (s.phase.Recovering? || s.phase.Failed?)
    ensures Extends(c, s, ApplyRecover(c, s))
  {
    var t := ApplyRecover(c, s);
    forall o | 0 <= o < |s.files|
      ensures SameUpTo(s.files[o], t.files[o], CutAt(c, s.index))
    {
      assert FileGood(c, s.index, s.last, s.files[o]);
      if o == At(s.phase) && s.index != [] {
        RecoveryCutsTail(c, s.index, s.last, s.files[o]);
      }
    }
  }

  lemma StepExtends(c: Setup, s: State, step: Step)
    requires Proper(c) && Good(c, s) && Enabled(c, s, step)
    ensures Extends(c, s, Apply(c, s, step))
  {
    if step.RecoverOne? {
      RecoverExtends(c, s);
    } else {
      var t := Apply(c, s, step);
      forall o | 0 <= o < |s.files|
        ensures SameUpTo(s.files[o], t.files[o], CutAt(c, s.index))
      {
        assert FileGood(c, s.index, s.last, s.files[o]);
        assert s.files[o] <= t.files[o];
      }
    }
  }

  /** Across crashes, failures, restarts and finishing orphans the index only grows and indexed bytes never change. */
  lemma {:induction false} IndexedPrefixIsStable(c: Setup, s: State, steps: seq<Step>)
    requires Proper(c) && Good(c, s) && s.index != [] && IsRun(c, s, steps) && Sole(c, s, steps)
    ensures Extends(c, s, Exec(c, s, steps)) && Good(c, Exec(c, s, steps))
    decreases |steps|
  {
    if steps == [] {
      assert forall o :: 0 <= o < |s.files| ==> FileGood(c, s.index, s.last, s.files[o]);
    } else {
      var t := Apply(c, s, steps[0]);
      StepExtends(c, s, steps[0]);
      StepKeepsGood(c, s, steps[0]);
      IndexedPrefixIsStable(c, t, steps[1..]);
      ExtendsTrans(c, s, t, Exec(c, t, steps[1..]));
    }
  }
}
