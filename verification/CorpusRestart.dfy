/**
 Starting a collector: what an unfinished child of its predecessor can break, and what can go wrong
 before anything is indexed.
 */
module CorpusRestart {
  import opened Bytes
  import opened TraceFile
  import opened TraceCorpus

  // ----- A collector beside an unfinished orphan -----

  /** What one recovery pass needs, whatever orphans there are. */
  ghost predicate Recovers(c: Setup, s: State)
    requires Proper(c)
  {
    && s.phase.Recovering? && s.index != [] && IndexOk(s.index) && s.last !in Ids(s.index)
    && FilesGood(c, s.index, s.last, s.files) && CleanUpTo(c, s.index, s.files, s.phase.at)
  }

  lemma RecoverStep(c: Setup, s: State)
    requires Proper(c) && Recovers(c, s) && s.phase.at < |s.files|
    ensures Recovers(c, ApplyRecover(c, s))
  {
    RecoveredFileGood(c, s.index, s.last, s.files[s.phase.at]);
  }

  /** The recovery pass ends between runs with clean files. */
  lemma {:induction false} RecoveryPass(c: Setup, s: State) returns (steps: seq<Step>)
    requires Proper(c) && Recovers(c, s) && s.phase.at <= |s.files|
    ensures IsRun(c, s, steps) && Sole(c, s, steps)
    ensures var t := Exec(c, s, steps);
            && t.phase.Idle? && t.index == s.index && t.orphans == s.orphans && |t.files| == |s.files|
            && Clean(c, t.index, t.files)
    decreases |s.files| - s.phase.at
  {
    var t := ApplyRecover(c, s);
    if s.phase.at < |s.files| {
      RecoverStep(c, s);
      var rest := RecoveryPass(c, t);
      steps := [RecoverOne] + rest;
      assert steps[1..] == rest;
    } else {
      steps := [RecoverOne];
      assert steps[1..] == [] && IsRun(c, t, []) && Sole(c, t, []);
    }
  }

  lemma {:induction false} IntactAtEnd(c: Setup, s: State, steps: seq<Step>)
    requires Proper(c) && IsRun(c, s, steps) && IntactOnceIndexed(c, s, steps)
    ensures Exec(c, s, steps).index != [] ==> Intact(c, Exec(c, s, steps))
    decreases |steps|
  {
    if steps != [] {
      IntactAtEnd(c, Apply(c, s, steps[0]), steps[1..]);
    }
  }

  /** An orphan that writes between runs leaves bytes that no index entry covers. */
  lemma OrphanWrites(c: Setup, s: State, i: nat, o: nat)
    requires Proper(c) && s.phase.Idle? && s.index != [] && Clean(c, s.index, s.files)
    requires i < |s.orphans| && o < |s.files| && o < |s.orphans[i].written| && o < |s.orphans[i].streams|
    requires s.orphans[i].written[o] < |s.orphans[i].streams[o]|
    ensures var step := OrphanAppend(i, o, s.orphans[i].written[o] + 1);
            Enabled(c, s, step) && !Intact(c, Apply(c, s, step))
  {
    var step := OrphanAppend(i, o, s.orphans[i].written[o] + 1);
    var t := Apply(c, s, step);
    assert |t.files[o]| == |s.files[o]| + 1;
    assert |s.files[o]| == CutAt(c, s.index);
  }

  /** Something an unfinished orphan of a good corpus has left to write. */
  lemma Unfinished(c: Setup, s: State) returns (i: nat, o: nat)
    requires Proper(c) && Good(c, s) && !AllSpent(s.orphans)
    ensures i < |s.orphans| && o < |s.files|
    ensures var ch := s.orphans[i]; o < |ch.written| && o < |ch.streams| && ch.written[o] < |ch.streams[o]|
  {
    i :| 0 <= i < |s.orphans| && !Spent(s.orphans[i]);
    var ch := s.orphans[i];
    assert ChildGood(c, s, ch);
    o :| 0 <= o < |ch.streams| && o < |ch.written| && ch.written[o] != |ch.streams[o]|;
  }

  /** An execution that ends with a step into a broken corpus. */
  lemma BrokenAtEnd(c: Setup, s: State, steps: seq<Step>, step: Step)
    requires Proper(c) && IsRun(c, s, steps) && Sole(c, s, steps)
    requires var u := Exec(c, s, steps);
             Enabled(c, u, step) && !Overlaps(u, step) && Apply(c, u, step).index != [] && !Intact(c, Apply(c, u, step))
    ensures IsRun(c, s, steps + [step]) && Sole(c, s, steps + [step]) && !IntactOnceIndexed(c, s, steps + [step])
  {
    var u, one := Exec(c, s, steps), [step];
    var t := Apply(c, u, step);
    assert one[1..] == [] && IsRun(c, t, []) && Sole(c, t, []);
    assert IsRun(c, u, one) && Exec(c, u, one) == t && Sole(c, u, one);
    RunConcat(c, s, steps, one);
    if IntactOnceIndexed(c, s, steps + one) {
      IntactAtEnd(c, s, steps + one);
    }
  }

  /** A good corpus with an unfinished orphan breaks when the next collector starts before the orphan is done. */
  lemma OverlapBreaks(c: Setup, s: State) returns (steps: seq<Step>)
    requires Proper(c) && Good(c, s) && s.phase.Down? && s.index != [] && !AllSpent(s.orphans)
    ensures var t := Apply(c, s, Restart);
            IsRun(c, t, steps) && Sole(c, t, steps) && !IntactOnceIndexed(c, t, steps)
  {
    var i, o := Unfinished(c, s);
    OverlapRecovers(c, s);
    var pass := RecoveryPass(c, Apply(c, s, Restart));
    steps := OrphanBreaks(c, Apply(c, s, Restart), pass, i, o);
  }

  /** After a recovery pass the orphan writes once more. */
  lemma OrphanBreaks(c: Setup, t: State, pass: seq<Step>, i: nat, o: nat) returns (steps: seq<Step>)
    requires Proper(c) && IsRun(c, t, pass) && Sole(c, t, pass) && i < |t.orphans| && o < |t.files|
    requires var u := Exec(c, t, pass);
             && u.phase.Idle? && u.index != [] && u.orphans == t.orphans && |u.files| == |t.files|
             && Clean(c, u.index, u.files)
    requires var ch := t.orphans[i]; o < |ch.written| && o < |ch.streams| && ch.written[o] < |ch.streams[o]|
    ensures IsRun(c, t, steps) && Sole(c, t, steps) && !IntactOnceIndexed(c, t, steps)
  {
    hide IsRun, Sole, Exec, Clean, Intact, IntactOnceIndexed;
    OrphanWrites(c, Exec(c, t, pass), i, o);
    var step := OrphanAppend(i, o, t.orphans[i].written[o] + 1);
    BrokenAtEnd(c, t, pass, step);
    steps := pass + [step];
  }

  lemma OverlapRecovers(c: Setup, s: State)
    requires Proper(c) && Good(c, s) && s.phase.Down? && s.index != [] && !AllSpent(s.orphans)
    ensures Recovers(c, Apply(c, s, Restart))
  {
    var i :| 0 <= i < |s.orphans| && !Spent(s.orphans[i]);
    assert ChildGood(c, s, s.orphans[i]);
  }

  // ----- Before anything is indexed -----

  /** A run of two records of any size that hold their run id only. */
  function TwoOf(rb: nat): seq<byte>
    requires rb >= 8
  {
    (ToLE(1, 8) + Zeros(rb - 8)) + (ToLE(1, 8) + Zeros(rb - 8))
  }

  const FIRST := Entry("val", 1, 4)

  lemma TwoOfIsRun(rb: nat)
    requires rb >= 8
    ensures IsStream(rb, FIRST.run, TwoOf(rb)) && |TwoOf(rb)| == Size(rb, RunRecords(FIRST)) && |TwoOf(rb)| >= 2 * rb
  {
    var r := ToLE(1, 8) + Zeros(rb - 8);
    WidthRoundTrip(1);
    SizeIsProduct(rb, 1);
    SizeIsProduct(rb, 2);
    assert r[..8] == ToLE(1, 8) && r[rb..] == [];
    assert Heads(rb, r) == [r[..8]] + Heads(rb, r[rb..]);
    HeadsAppend(rb, r, 1, r);
  }

  function Copies(d: seq<byte>, n: nat): (s: seq<seq<byte>>)
    ensures |s| == n && forall i :: 0 <= i < n ==> s[i] == d
  {
    seq(n, _ => d)
  }

  /** Run 1 has written the files of the owners below `o`; some file holds bytes that it did not write. */
  ghost predicate Filling(c: Setup, s: State, o: nat)
    requires Proper(c)
  {
    && s.index == [] && s.phase.Running? && |s.files| == c.owners
    && var ch := s.phase.child;
       && ch.entry == FIRST && |ch.streams| == |ch.written| == c.owners && Leftover(s, ch)
       && forall i :: 0 <= i < c.owners ==>
            ch.streams[i] == TwoOf(c.recordBytes) && ch.written[i] == if i < o then |TwoOf(c.recordBytes)| else 0
  }

  lemma FillOne(c: Setup, s: State, o: nat)
    requires Proper(c) && Filling(c, s, o) && o < c.owners
    ensures var step := Append(o, |TwoOf(c.recordBytes)|);
            Enabled(c, s, step) && Filling(c, Apply(c, s, step), o + 1)
  {
    LeftoverStays(s, s.phase.child, o, |TwoOf(c.recordBytes)|);
  }

  lemma {:induction false} FillAll(c: Setup, s: State, o: nat) returns (steps: seq<Step>, t: State)
    requires Proper(c) && Filling(c, s, o) && o <= c.owners
    ensures Reaches(c, s, steps, t) && Filling(c, t, c.owners)
    decreases c.owners - o
  {
    if o == c.owners {
      steps, t := [], s;
    } else {
      var step := Append(o, |TwoOf(c.recordBytes)|);
      FillOne(c, s, o);
      var more;
      more, t := FillAll(c, Apply(c, s, step), o + 1);
      OneStep(c, s, step, Apply(c, s, step));
      Compose(c, s, [step], Apply(c, s, step), more, t);
      steps := [step] + more;
    }
  }

  /** A run started over leftover bytes breaks the corpus when it is indexed. */
  lemma LeftoverBreaks(c: Setup, s: State) returns (steps: seq<Step>)
    requires Proper(c) && s.phase.Idle? && s.index == [] && |s.files| == c.owners && !AllEmpty(s.files)
    ensures IsRun(c, s, steps) && Sole(c, s, steps) && !IntactOnceIndexed(c, s, steps)
  {
    var rb := c.recordBytes;
    var start := Start(FIRST, Copies(TwoOf(rb), c.owners));
    TwoOfIsRun(rb);
    var t := Apply(c, s, start);
    var o :| 0 <= o < |s.files| && s.files[o] != [];
    assert t.phase.child.written[o] < |t.files[o]|;
    assert Filling(c, t, 0);
    OneStep(c, s, start, t);
    var more, u := FillAll(c, t, 0);
    Compose(c, s, [start], t, more, u);
    assert AllWritten(rb, RunRecords(FIRST), u.phase.child);
    LeftoverIndexed(c, u);
    BrokenAtEnd(c, s, [start] + more, ExitOk);
    steps := [start] + more + [ExitOk];
  }

  /** A failed run is being recovered, and the first file holds less than a record. */
  ghost predicate Partial(c: Setup, s: State)
    requires Proper(c)
  {
    s.index == [] && s.phase.Failed? && |s.files| == c.owners && c.owners >= 1 && 0 < |s.files[0]| < c.recordBytes
  }

  /** Recovery leaves it alone. */
  lemma {:induction false} PartialStays(c: Setup, s: State) returns (steps: seq<Step>, t: State)
    requires Proper(c) && Partial(c, s) && s.phase.at <= c.owners
    ensures Reaches(c, s, steps, t)
    ensures t.phase.Idle? && t.index == [] && |t.files| == c.owners && !AllEmpty(t.files)
    decreases c.owners - s.phase.at
  {
    var u := Apply(c, s, RecoverOne);
    OneStep(c, s, RecoverOne, u);
    if s.phase.at == c.owners {
      assert u.files[0] != [];
      steps, t := [RecoverOne], u;
    } else {
      assert u.files[0] == s.files[0];
      var more;
      more, t := PartialStays(c, u);
      Compose(c, s, [RecoverOne], u, more, t);
      steps := [RecoverOne] + more;
    }
  }

  /** A run that writes one byte and fails leaves it behind. */
  lemma FailureLeaves(c: Setup, s: State) returns (steps: seq<Step>, t: State)
    requires Proper(c) && s.phase.Idle? && s.index == [] && |s.files| == c.owners && c.owners >= 1 && AllEmpty(s.files)
    ensures Reaches(c, s, steps, t)
    ensures t.phase.Idle? && t.index == [] && |t.files| == c.owners && !AllEmpty(t.files)
  {
    var start := Start(FIRST, Copies(TwoOf(c.recordBytes), c.owners));
    TwoOfIsRun(c.recordBytes);
    var s1 := Apply(c, s, start);
    OneStep(c, s, start, s1);
    Then(c, s, [start], s1, Append(0, 1));
    var s2 := Apply(c, s1, Append(0, 1));
    Then(c, s, [start] + [Append(0, 1)], s2, Fail);
    var s3 := Apply(c, s2, Fail);
    var more;
    more, t := PartialStays(c, s3);
    steps := [start] + [Append(0, 1)] + [Fail] + more;
    Compose(c, s, [start] + [Append(0, 1)] + [Fail], s3, more, t);
  }

  /** With an owner and nothing indexed, what follows a start can always break the corpus. */
  lemma FirstStartBreaks(c: Setup, s: State) returns (steps: seq<Step>)
    requires Proper(c) && s.phase.Idle? && s.index == [] && |s.files| == c.owners && c.owners >= 1
    ensures IsRun(c, s, steps) && Sole(c, s, steps) && !IntactOnceIndexed(c, s, steps)
  {
    if AllEmpty(s.files) {
      var before, t := FailureLeaves(c, s);
      var more := LeftoverBreaks(c, t);
      BrokenLater(c, s, before, more);
      steps := before + more;
    } else {
      steps := LeftoverBreaks(c, s);
    }
  }

  lemma {:induction false} BrokenLater(c: Setup, s: State, a: seq<Step>, b: seq<Step>)
    requires Proper(c) && IsRun(c, s, a) && Sole(c, s, a)
    requires var t := Exec(c, s, a); IsRun(c, t, b) && Sole(c, t, b) && !IntactOnceIndexed(c, t, b)
    ensures IsRun(c, s, a + b) && Sole(c, s, a + b) && !IntactOnceIndexed(c, s, a + b)
    decreases |a|
  {
    RunConcat(c, s, a, b);
    if a == [] {
      assert a + b == b;
    } else {
      BrokenLater(c, Apply(c, s, a[0]), a[1..], b);
      assert (a + b)[0] == a[0] && (a + b)[1..] == a[1..] + b;
    }
  }

  // ----- When a collector may be started -----

  lemma NoOwnersSpent(c: Setup, s: State)
    requires Proper(c) && Good(c, s) && c.owners == 0
    ensures AllSpent(s.orphans)
  {
    forall i | 0 <= i < |s.orphans|
      ensures Spent(s.orphans[i])
    {
      assert Spent(s.orphans[i]) || ChildGood(c, s, s.orphans[i]);
    }
  }

  /**
   Whether a collector may be started: every execution that follows keeps the corpus intact if and
   only if no orphan of the last collector has anything left to write and a run is indexed already
   (or there is no owner at all).
   */
  lemma RestartSafeExactlyWhenSpent(c: Setup, s: State)
    requires Proper(c) && Good(c, s) && s.phase.Down?
    ensures var t := Apply(c, s, Restart);
            (forall steps :: IsRun(c, t, steps) && Sole(c, t, steps) ==> IntactOnceIndexed(c, t, steps))
            <==> AllSpent(s.orphans) && (s.index != [] || c.owners == 0)
  {
    var t := Apply(c, s, Restart);
    if AllSpent(s.orphans) && (s.index != [] || c.owners == 0) {
      StepKeepsGood(c, s, Restart);
      forall steps | IsRun(c, t, steps) && Sole(c, t, steps)
        ensures IntactOnceIndexed(c, t, steps)
      {
        OnceIndexedAlwaysGood(c, t, steps);
      }
    } else if s.index != [] {
      var steps := OverlapBreaks(c, s);
    } else {
      if c.owners == 0 {
        NoOwnersSpent(c, s);
      }
      var steps := FirstStartBreaks(c, t);
    }
  }
}
