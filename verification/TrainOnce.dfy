/**
 Whether a finished output is trained again. A sweep tests for the metrics before it lists
 processes, so what matters is what other sweeps are doing at the moment it is launched.
 */
module TrainOnce {
  import opened SweepProtocol

  /** No trainer is started for an output whose metrics are already there. */
  predicate NeverRetrains(cfg: Config, s: State, steps: seq<Step>)
    requires IsRun(cfg, s, steps)
    decreases |steps|
  {
    steps != [] ==>
      && (steps[0].Spawn? ==> At(s, steps[0].p).tag !in s.metrics)
      && NeverRetrains(cfg, Apply(cfg, s, steps[0]), steps[1..])
  }

  /** From the empty listing to the trainer's report: what this sweep trains has no metrics yet. */
  predicate Underway(pc: Pc, metrics: set<Tag>)
  {
    (pc.Cleared? || pc.Marked? || pc.Waiting?) && pc.tag !in metrics
  }

  /** No sweep is between its empty listing and its trainer's report. */
  predicate Clear(s: State)
  {
    forall q :: q in s.procs && s.procs[q].Sweep? ==> !Underway(s.procs[q].pc, s.metrics)
  }

  predicate LaunchesClear(cfg: Config, s: State, steps: seq<Step>)
    requires IsRun(cfg, s, steps)
    decreases |steps|
  {
    steps != [] ==>
      && (steps[0].Launch? ==> Clear(s))
      && LaunchesClear(cfg, Apply(cfg, s, steps[0]), steps[1..])
  }

  /** Every sweep is launched while nothing is training, as the orchestrator's guard has it. */
  predicate LaunchesAlone(cfg: Config, s: State, steps: seq<Step>)
    requires IsRun(cfg, s, steps)
    decreases |steps|
  {
    steps != [] ==>
      && (steps[0].Launch? ==> Quiet(s, steps[0].p))
      && LaunchesAlone(cfg, Apply(cfg, s, steps[0]), steps[1..])
  }

  predicate NoLaunch(steps: seq<Step>)
  {
    forall i :: 0 <= i < |steps| ==> !steps[i].Launch?
  }

  // ----- What clear launches keep -----

  /** The output has neither metrics nor a live trainer. */
  predicate Untrained(s: State, tag: Tag)
  {
    tag !in s.metrics && forall t :: t in s.procs && s.procs[t].Trainer? ==> s.procs[t].tag != tag
  }

  /** From here a sweep may go on to remove the marker of the output. */
  predicate MayUnlink(pc: Pc, tag: Tag)
  {
    (pc.Waiting? || pc.Succeeded? || pc.RetryIdle? || pc.RetryUnlink?) && pc.tag == tag
  }

  /** The marker of the output is there, and no sweep is on its way to removing it. */
  predicate Marker(s: State, tag: Tag)
  {
    tag in s.markers && forall q :: q in s.procs && s.procs[q].Sweep? ==> !MayUnlink(s.procs[q].pc, tag)
  }

  /** What each point of a sweep says about its output. */
  predicate Knows(s: State, pc: Pc)
  {
    match pc
    case ReadMarker(tag, _) => Untrained(s, tag) || Marker(s, tag)
    case Look(tag, _) => Untrained(s, tag)
    case Cleared(tag, _) => tag !in s.metrics
    case Marked(tag, _) => tag !in s.metrics
    case Waiting(tag, _, child) => IsTrainer(s, child) && s.procs[child].tag == tag
    case Succeeded(tag) => tag in s.metrics
    case Rewriting(tag) => tag in s.metrics
    case _ => true
  }

  predicate OnlySweep(s: State, p: Pid)
  {
    forall q :: q in s.procs && q != p ==> !s.procs[q].Sweep?
  }

  /** What a sweep's point says is so, and a sweep that is underway is the only one. */
  predicate SweepOrderly(s: State, q: Pid)
    requires IsSweep(s, q)
  {
    Knows(s, s.procs[q].pc) && (Underway(s.procs[q].pc, s.metrics) ==> OnlySweep(s, q))
  }

  ghost predicate Orderly(s: State)
  {
    forall q :: q in s.procs && s.procs[q].Sweep? ==> SweepOrderly(s, q)
  }

  /** A sweep moves on: markers, metrics and other processes stay. */
  lemma MoveOrderly(s: State, p: Pid, pc: Pc)
    requires Orderly(s) && IsSweep(s, p)
    requires Knows(s, pc) && (Underway(pc, s.metrics) ==> OnlySweep(s, p))
    requires forall tag :: MayUnlink(pc, tag) ==> MayUnlink(At(s, p), tag) || OnlySweep(s, p)
    ensures Orderly(Goto(s, p, pc))
  {
    var t := Goto(s, p, pc);
    forall q | q in t.procs && t.procs[q].Sweep?
      ensures SweepOrderly(t, q)
    {
      assert q != p ==> SweepOrderly(s, q);
      KnowsAfterMove(s, p, pc, t.procs[q].pc, q);
    }
  }

  lemma KnowsAfterMove(s: State, p: Pid, pc: Pc, known: Pc, q: Pid)
    requires IsSweep(s, p) && IsSweep(s, q) && Knows(s, known) && known == if q == p then pc else At(s, q)
    requires forall tag :: MayUnlink(pc, tag) ==> MayUnlink(At(s, p), tag) || OnlySweep(s, p)
    ensures Knows(Goto(s, p, pc), known)
  {
  }

  /** More markers do no harm, nor does removing one by a sweep that may. */
  lemma MarkersOrderly(s: State, markers: set<Tag>, p: Pid)
    requires Orderly(s)
    requires || s.markers <= markers
             || (IsSweep(s, p) && forall tag :: tag in s.markers && tag !in markers ==> MayUnlink(At(s, p), tag))
    ensures Orderly(s.(markers := markers))
  {
    var t := s.(markers := markers);
    forall q | q in t.procs && t.procs[q].Sweep?
      ensures SweepOrderly(t, q)
    {
      assert SweepOrderly(s, q);
    }
  }

  /** Processes that no sweep waits on may go. */
  lemma RemoveOrderly(s: State, p: Pid)
    requires Orderly(s) && forall q :: q in s.procs ==> !WaitsOn(s, q, p)
    ensures Orderly(s.(procs := s.procs - {p}))
  {
    var t := s.(procs := s.procs - {p});
    forall q | q in t.procs && t.procs[q].Sweep?
      ensures SweepOrderly(t, q)
    {
      assert SweepOrderly(s, q) && !WaitsOn(s, q, p);
    }
  }

  lemma AddOrderly(s: State, p: Pid, proc: Proc)
    requires Orderly(s) && p !in s.procs
    requires proc.Other? || (proc.Sweep? && proc.pc.Begin? && Clear(s))
    ensures Orderly(s.(procs := s.procs[p := proc]))
  {
    var t := s.(procs := s.procs[p := proc]);
    forall q | q in t.procs && t.procs[q].Sweep?
      ensures SweepOrderly(t, q)
    {
      assert q != p ==> SweepOrderly(s, q);
    }
  }

  lemma SpawnOrderly(cfg: Config, s: State, p: Pid, child: Pid)
    requires Orderly(s) && Enabled(cfg, s, Spawn(p, child))
    ensures Orderly(Apply(cfg, s, Spawn(p, child)))
  {
    assert SweepOrderly(s, p);
  }

  lemma ReportOrderly(cfg: Config, s: State, t: Pid)
    requires Inv(cfg, s) && Orderly(s) && Enabled(cfg, s, WriteReport(t))
    ensures Orderly(Apply(cfg, s, WriteReport(t)))
  {
    var after := Apply(cfg, s, WriteReport(t));
    forall q | q in after.procs && after.procs[q].Sweep?
      ensures SweepOrderly(after, q)
    {
      assert SweepOrderly(s, q) && (Hot(s.procs[q]) ==> s.procs[q].pc.Waiting?);
    }
  }

  /** The only sweep that waits on a child gets its exit. */
  lemma ChildExitOrderly(cfg: Config, s: State, p: Pid, ok: bool)
    requires Inv(cfg, s) && Orderly(s) && Enabled(cfg, s, ChildExit(p, ok))
    ensures Orderly(Apply(cfg, s, ChildExit(p, ok)))
  {
    var pc := At(s, p);
    var next := if ok then Succeeded(pc.tag) else Failed(pc.tag, pc.attempt);
    var s1 := Goto(s, p, next);
    MoveOrderly(s, p, next);
    forall q | q in s1.procs
      ensures !WaitsOn(s1, q, pc.child)
    {
      assert WaitsOn(s1, q, pc.child) ==> Hot(s.procs[q]) && Hot(s.procs[p]);
    }
    RemoveOrderly(s1, pc.child);
  }

  lemma QuietMeansOnly(cfg: Config, s: State, p: Pid)
    requires AllSeen(cfg) && Inv(cfg, s) && IsSweep(s, p) && Quiet(s, p)
    ensures OnlySweep(s, p)
  {
    QuietMeansAlone(cfg, s, p);
  }

  /** Finding no metrics: a live trainer of the output has its marker, and nobody is about to remove it. */
  lemma NoMetricsKnows(cfg: Config, s: State, p: Pid)
    requires Inv(cfg, s) && Orderly(s) && IsSweep(s, p) && At(s, p).ReadMetrics? && At(s, p).tag !in s.metrics
    ensures Untrained(s, At(s, p).tag) || Marker(s, At(s, p).tag)
  {
    var tag := At(s, p).tag;
    if t :| t in s.procs && s.procs[t].Trainer? && s.procs[t].tag == tag {
      assert ProcOk(cfg, s.markers, s.procs[t]);
      forall q | q in s.procs && s.procs[q].Sweep?
        ensures !MayUnlink(s.procs[q].pc, tag)
      {
        assert SweepOrderly(s, q);
        assert Hot(s.procs[q]) ==> s.procs[q].pc.Waiting?;
      }
    }
  }

  /** The steps of a sweep up to its listing. */
  lemma TestOrderly(cfg: Config, s: State, step: Step)
    requires AllSeen(cfg) && Inv(cfg, s) && Orderly(s) && Enabled(cfg, s, step)
    requires step.PickArm? || step.TestMetrics? || step.TestMarker? || step.ListProcesses?
    ensures Orderly(Apply(cfg, s, step))
  {
    var p := step.p;
    hide Inv, AllSeen, Quiet;
    assert SweepOrderly(s, p);
    if step.TestMetrics? && At(s, p).tag !in s.metrics {
      NoMetricsKnows(cfg, s, p);
    }
    if step.ListProcesses? && Quiet(s, p) {
      QuietMeansOnly(cfg, s, p);
    }
    hide Orderly;
    MoveOrderly(s, p, At(Apply(cfg, s, step), p));
  }

  /** The steps of a sweep after a failure. */
  lemma RetryOrderly(cfg: Config, s: State, step: Step)
    requires AllSeen(cfg) && Inv(cfg, s) && Orderly(s) && Enabled(cfg, s, step)
    requires step.ListBeforeRetry? || step.TestBeforeRetry? || step.UnlinkStale?
    ensures Orderly(Apply(cfg, s, step))
  {
    var p := step.p;
    hide Inv, AllSeen, Quiet, Orderly;
    if step.ListBeforeRetry? && Quiet(s, p) {
      QuietMeansOnly(cfg, s, p);
    }
    var after := Apply(cfg, s, step);
    MarkersOrderly(s, after.markers, p);
    MoveOrderly(s.(markers := after.markers), p, At(after, p));
  }

  /** The steps of a sweep that acts as the only one. */
  lemma ActOrderly(cfg: Config, s: State, step: Step)
    requires Orderly(s) && Enabled(cfg, s, step)
    requires step.WriteMarker? || step.Unlink? || step.RewriteMetrics?
    ensures Orderly(Apply(cfg, s, step))
  {
    var p := step.p;
    assert SweepOrderly(s, p);
    hide Orderly;
    var after := Apply(cfg, s, step);
    assert after.metrics == s.metrics;
    MarkersOrderly(s, after.markers, p);
    MoveOrderly(s.(markers := after.markers), p, At(after, p));
  }

  /** Every step of a run with clear launches keeps the sweeps orderly. */
  lemma StepKeepsOrderly(cfg: Config, s: State, step: Step)
    requires AllSeen(cfg) && Inv(cfg, s) && Orderly(s) && Enabled(cfg, s, step) && (step.Launch? ==> Clear(s))
    ensures Orderly(Apply(cfg, s, step))
  {
    hide Inv, Orderly, Quiet, AllSeen, Clear;
    match step
    case Launch(p, words) => AddOrderly(s, p, Sweep(words, Begin));
    case SpawnOther(p, words) => AddOrderly(s, p, Other(words));
    case Kill(p) => RemoveOrderly(s, p);
    case Spawn(p, child) => SpawnOrderly(cfg, s, p, child);
    case ChildExit(p, ok) => ChildExitOrderly(cfg, s, p, ok);
    case WriteReport(t) => ReportOrderly(cfg, s, t);
    case PickArm(_, _) => TestOrderly(cfg, s, step);
    case TestMetrics(_) => TestOrderly(cfg, s, step);
    case TestMarker(_) => TestOrderly(cfg, s, step);
    case ListProcesses(_) => TestOrderly(cfg, s, step);
    case ListBeforeRetry(_) => RetryOrderly(cfg, s, step);
    case TestBeforeRetry(_) => RetryOrderly(cfg, s, step);
    case UnlinkStale(_) => RetryOrderly(cfg, s, step);
    case WriteMarker(_) => ActOrderly(cfg, s, step);
    case Unlink(_) => ActOrderly(cfg, s, step);
    case RewriteMetrics(_) => ActOrderly(cfg, s, step);
  }

  lemma {:induction false} OrderlyTrainsOnce(cfg: Config, s: State, steps: seq<Step>)
    requires AllSeen(cfg) && Inv(cfg, s) && Orderly(s) && IsRun(cfg, s, steps) && LaunchesClear(cfg, s, steps)
    ensures NeverRetrains(cfg, s, steps)
    ensures Inv(cfg, Exec(cfg, s, steps)) && Orderly(Exec(cfg, s, steps))
    decreases |steps|
  {
    if steps != [] {
      StepKeepsInv(cfg, s, steps[0]);
      StepKeepsOrderly(cfg, s, steps[0]);
      if steps[0].Spawn? {
        assert SweepOrderly(s, steps[0].p);
      }
      OrderlyTrainsOnce(cfg, Apply(cfg, s, steps[0]), steps[1..]);
    }
  }

  lemma StartOrderly(cfg: Config, s: State)
    requires Init(s)
    ensures Inv(cfg, s) && Orderly(s)
  {
  }

  /** A run in which every sweep is launched in a clear state trains no output again. */
  lemma LaunchedClearTrainsOnce(cfg: Config, s: State, steps: seq<Step>)
    requires AllSeen(cfg) && Init(s) && IsRun(cfg, s, steps) && LaunchesClear(cfg, s, steps)
    ensures NeverRetrains(cfg, s, steps)
  {
    StartOrderly(cfg, s);
    OrderlyTrainsOnce(cfg, s, steps);
  }

  /** The orchestrator's guard is stricter: where nothing trains, no sweep is underway. */
  lemma QuietIsClear(cfg: Config, s: State, p: Pid)
    requires AllSeen(cfg) && Inv(cfg, s) && p !in s.procs && Quiet(s, p)
    ensures Clear(s)
  {
    forall q | q in s.procs
      ensures !s.procs[q].Sweep?
    {
      assert ProcOk(cfg, s.markers, s.procs[q]) && !Seen(s.procs[q].words);
    }
  }

  lemma {:induction false} AloneIsClear(cfg: Config, s: State, steps: seq<Step>)
    requires AllSeen(cfg) && Inv(cfg, s) && IsRun(cfg, s, steps) && LaunchesAlone(cfg, s, steps)
    ensures LaunchesClear(cfg, s, steps)
    decreases |steps|
  {
    if steps != [] {
      if steps[0].Launch? {
        QuietIsClear(cfg, s, steps[0].p);
      }
      StepKeepsInv(cfg, s, steps[0]);
      AloneIsClear(cfg, Apply(cfg, s, steps[0]), steps[1..]);
    }
  }

  lemma LaunchedAloneTrainsOnce(cfg: Config, s: State, steps: seq<Step>)
    requires AllSeen(cfg) && Init(s) && IsRun(cfg, s, steps) && LaunchesAlone(cfg, s, steps)
    ensures NeverRetrains(cfg, s, steps)
  {
    StartOrderly(cfg, s);
    AloneIsClear(cfg, s, steps);
    LaunchedClearTrainsOnce(cfg, s, steps);
  }

  // ----- A launch while a sweep is underway -----

  /** `steps` lead from `s` to `t` without a launch. */
  ghost predicate Leads(cfg: Config, s: State, steps: seq<Step>, t: State)
  {
    IsRun(cfg, s, steps) && NoLaunch(steps) && Exec(cfg, s, steps) == t
  }

  lemma OneStep(cfg: Config, s: State, step: Step)
    requires Enabled(cfg, s, step) && !step.Launch?
    ensures Leads(cfg, s, [step], Apply(cfg, s, step))
  {
    assert [step][1..] == [];
    assert IsRun(cfg, Apply(cfg, s, step), []);
  }

  lemma Compose(cfg: Config, s: State, a: seq<Step>, t: State, b: seq<Step>, u: State)
    requires Leads(cfg, s, a, t) && Leads(cfg, t, b, u)
    ensures Leads(cfg, s, a + b, u)
  {
    RunConcat(cfg, s, a, b);
  }

  /** One more step at the end. */
  lemma Then(cfg: Config, s: State, a: seq<Step>, t: State, step: Step)
    requires Leads(cfg, s, a, t) && Enabled(cfg, t, step) && !step.Launch?
    ensures Leads(cfg, s, a + [step], Apply(cfg, t, step))
  {
    hide Leads, Enabled, Apply;
    OneStep(cfg, t, step);
    Compose(cfg, s, a, t, [step], Apply(cfg, t, step));
  }

  lemma {:induction false} PidAbove(pids: set<Pid>) returns (p: Pid)
    ensures forall q :: q in pids ==> q < p
  {
    if pids == {} {
      p := 0;
    } else {
      var q :| q in pids;
      var r := PidAbove(pids - {q});
      p := if q < r then r else q + 1;
      assert forall x :: x in pids ==> x == q || x in pids - {q};
    }
  }

  lemma FreshPid(s: State) returns (p: Pid)
    ensures p !in s.procs
  {
    p := PidAbove(s.procs.Keys);
    assert p in s.procs ==> p in s.procs.Keys;
  }

  predicate OnlySweeps(s: State, p: Pid, q: Pid)
  {
    forall r :: r in s.procs && s.procs[r].Sweep? ==> r == p || r == q
  }

  /** `p` has found no metrics for the output that `q`, the only other sweep, is about to train or trains. */
  predicate Race(s: State, p: Pid, q: Pid, tag: Tag)
  {
    && p != q && IsSweep(s, p) && At(s, p) == Pc.ReadMarker(tag, 1) && IsSweep(s, q) && OnlySweeps(s, p, q)
    && var pc := At(s, q);
       && (pc.Cleared? || pc.Marked? || pc.Waiting?) && pc.tag == tag
       && (pc.Waiting? ==> IsTrainer(s, pc.child) && s.procs[pc.child].tag == tag)
  }

  /** The other sweep's trainer has reported, its marker is gone, and no sweep waits. */
  predicate Late(s: State, p: Pid, tag: Tag)
  {
    && IsSweep(s, p) && At(s, p) == Pc.ReadMarker(tag, 1) && tag in s.metrics && tag !in s.markers
    && forall r :: r in s.procs && s.procs[r].Sweep? ==> !s.procs[r].pc.Waiting?
  }

  /** The other sweep goes on until it waits on its trainer. */
  lemma RaceToWaiting(cfg: Config, s: State, p: Pid, q: Pid, tag: Tag) returns (steps: seq<Step>, t: State)
    requires Race(s, p, q, tag)
    ensures Leads(cfg, s, steps, t) && Race(t, p, q, tag) && At(t, q).Waiting?
  {
    steps, t := [], s;
    assert Leads(cfg, s, steps, t);
    hide Leads;
    if At(t, q).Cleared? {
      Then(cfg, s, steps, t, WriteMarker(q));
      steps, t := steps + [WriteMarker(q)], Apply(cfg, t, WriteMarker(q));
    }
    if At(t, q).Marked? {
      var child := FreshPid(t);
      Then(cfg, s, steps, t, Spawn(q, child));
      steps, t := steps + [Spawn(q, child)], Apply(cfg, t, Spawn(q, child));
    }
  }

  /** The trainer reports and exits, and its sweep removes the marker. */
  lemma WaitingToLate(cfg: Config, s: State, p: Pid, q: Pid, tag: Tag) returns (steps: seq<Step>, t: State)
    requires Race(s, p, q, tag) && At(s, q).Waiting?
    ensures Leads(cfg, s, steps, t) && Late(t, p, tag)
  {
    var child := At(s, q).child;
    OneStep(cfg, s, WriteReport(child));
    hide Leads;
    var s1 := Apply(cfg, s, WriteReport(child));
    Then(cfg, s, [WriteReport(child)], s1, ChildExit(q, true));
    var s2 := Apply(cfg, s1, ChildExit(q, true));
    Then(cfg, s, [WriteReport(child)] + [ChildExit(q, true)], s2, Unlink(q));
    steps, t := [WriteReport(child)] + [ChildExit(q, true)] + [Unlink(q)], Apply(cfg, s2, Unlink(q));
  }

  /** Every other process may be killed. */
  lemma {:induction false} KillOthers(cfg: Config, s: State, p: Pid, tag: Tag) returns (steps: seq<Step>, t: State)
    requires Late(s, p, tag)
    ensures Leads(cfg, s, steps, t) && Late(t, p, tag) && Quiet(t, p)
    decreases |s.procs.Keys|
  {
    if Quiet(s, p) {
      steps, t := [], s;
    } else {
      var q :| q in s.procs && q != p && Seen(s.procs[q].words);
      OneStep(cfg, s, Kill(q));
      var s1 := Apply(cfg, s, Kill(q));
      assert s1.procs.Keys == s.procs.Keys - {q};
      var more;
      more, t := KillOthers(cfg, s1, p, tag);
      steps := [Kill(q)] + more;
      Compose(cfg, s, [Kill(q)], s1, more, t);
    }
  }

  /** A late sweep goes on to train the finished output again. */
  lemma LateRetrains(cfg: Config, s: State, p: Pid, tag: Tag) returns (steps: seq<Step>)
    requires Late(s, p, tag) && Quiet(s, p)
    ensures IsRun(cfg, s, steps) && NoLaunch(steps) && !NeverRetrains(cfg, s, steps)
  {
    OneStep(cfg, s, TestMarker(p));
    var s1 := Apply(cfg, s, TestMarker(p));
    Then(cfg, s, [TestMarker(p)], s1, ListProcesses(p));
    var s2 := Apply(cfg, s1, ListProcesses(p));
    Then(cfg, s, [TestMarker(p)] + [ListProcesses(p)], s2, WriteMarker(p));
    var s3 := Apply(cfg, s2, WriteMarker(p));
    var child := FreshPid(s3);
    steps := [TestMarker(p)] + [ListProcesses(p)] + [WriteMarker(p)];
    RetrainsAtEnd(cfg, s, steps, p, child);
    steps := steps + [Spawn(p, child)];
  }

  lemma {:induction false} RetrainsAtEnd(cfg: Config, s: State, steps: seq<Step>, p: Pid, child: Pid)
    requires IsRun(cfg, s, steps)
    requires var t := Exec(cfg, s, steps); Enabled(cfg, t, Spawn(p, child)) && At(t, p).tag in t.metrics
    ensures IsRun(cfg, s, steps + [Spawn(p, child)]) && !NeverRetrains(cfg, s, steps + [Spawn(p, child)])
    decreases |steps|
  {
    var more := steps + [Spawn(p, child)];
    if steps == [] {
      assert more[1..] == [];
      assert IsRun(cfg, Apply(cfg, s, more[0]), []);
    } else {
      RetrainsAtEnd(cfg, Apply(cfg, s, steps[0]), steps[1..], p, child);
      assert more[0] == steps[0] && more[1..] == steps[1..] + [Spawn(p, child)];
    }
  }

  /** An execution that retrains still does behind another. */
  lemma {:induction false} RetrainsLater(cfg: Config, s: State, a: seq<Step>, b: seq<Step>)
    requires IsRun(cfg, s, a) && IsRun(cfg, Exec(cfg, s, a), b) && !NeverRetrains(cfg, Exec(cfg, s, a), b)
    ensures IsRun(cfg, s, a + b) && !NeverRetrains(cfg, s, a + b)
    decreases |a|
  {
    RunConcat(cfg, s, a, b);
    if a == [] {
      assert a + b == b;
    } else {
      RetrainsLater(cfg, Apply(cfg, s, a[0]), a[1..], b);
      assert (a + b)[0] == a[0] && (a + b)[1..] == a[1..] + b;
    }
  }

  lemma RetrainsAfter(cfg: Config, s: State, a: seq<Step>, t: State, b: seq<Step>)
    requires Leads(cfg, s, a, t) && IsRun(cfg, t, b) && NoLaunch(b) && !NeverRetrains(cfg, t, b)
    ensures IsRun(cfg, s, a + b) && NoLaunch(a + b) && !NeverRetrains(cfg, s, a + b)
  {
    RetrainsLater(cfg, s, a, b);
  }

  /** A race is lost when the other sweep finishes first. */
  lemma RaceRetrains(cfg: Config, s: State, p: Pid, q: Pid, tag: Tag) returns (steps: seq<Step>)
    requires Race(s, p, q, tag)
    ensures IsRun(cfg, s, steps) && NoLaunch(steps) && !NeverRetrains(cfg, s, steps)
  {
    hide Race, Late, Quiet, Leads;
    var a, t := RaceToWaiting(cfg, s, p, q, tag);
    var b, u := WaitingToLate(cfg, t, p, q, tag);
    var d, v := KillOthers(cfg, u, p, tag);
    var e := LateRetrains(cfg, v, p, tag);
    Compose(cfg, s, a, t, b, u);
    Compose(cfg, s, a + b, u, d, v);
    RetrainsAfter(cfg, s, a + b + d, v, e);
    steps := a + b + d + e;
  }

  /** A new sweep beside one that is underway finds no metrics. */
  lemma StartsRace(cfg: Config, s: State, p: Pid, q: Pid, tag: Tag) returns (steps: seq<Step>, t: State)
    requires p != q && IsSweep(s, p) && At(s, p).Begin? && tag !in s.metrics && IsSweep(s, q) && OnlySweeps(s, p, q)
    requires Underway(At(s, q), s.metrics) && At(s, q).tag == tag
    requires At(s, q).Waiting? ==> IsTrainer(s, At(s, q).child) && s.procs[At(s, q).child].tag == tag
    ensures Leads(cfg, s, steps, t) && Race(t, p, q, tag)
  {
    OneStep(cfg, s, PickArm(p, tag));
    hide Leads;
    var s1 := Apply(cfg, s, PickArm(p, tag));
    Then(cfg, s, [PickArm(p, tag)], s1, TestMetrics(p));
    steps, t := [PickArm(p, tag)] + [TestMetrics(p)], Apply(cfg, s1, TestMetrics(p));
  }

  /** A sweep launched while another is underway can come to train that one's output again. */
  lemma UnclearLaunchRetrains(cfg: Config, s: State, p: Pid, words: Words) returns (steps: seq<Step>)
    requires Orderly(s) && Enabled(cfg, s, Launch(p, words)) && !Clear(s)
    ensures var u := Apply(cfg, s, Launch(p, words));
            IsRun(cfg, u, steps) && NoLaunch(steps) && !NeverRetrains(cfg, u, steps)
  {
    var q :| q in s.procs && s.procs[q].Sweep? && Underway(s.procs[q].pc, s.metrics);
    assert SweepOrderly(s, q);
    var tag, u := At(s, q).tag, Apply(cfg, s, Launch(p, words));
    assert u.procs[p] == Sweep(words, Begin) && tag !in u.metrics;
    var before, t := StartsRace(cfg, u, p, q, tag);
    hide Race, Leads, Apply, Orderly, Clear;
    var more := RaceRetrains(cfg, t, p, q, tag);
    RetrainsAfter(cfg, u, before, t, more);
    steps := before + more;
  }

  // ----- Exactly which launches are safe -----

  lemma {:induction false} NoLaunchIsClear(cfg: Config, s: State, steps: seq<Step>)
    requires IsRun(cfg, s, steps) && NoLaunch(steps)
    ensures LaunchesClear(cfg, s, steps)
    decreases |steps|
  {
    if steps != [] {
      assert !steps[0].Launch?;
      NoLaunchIsClear(cfg, Apply(cfg, s, steps[0]), steps[1..]);
    }
  }

  lemma LaunchExact(cfg: Config, s: State, p: Pid, words: Words)
    requires AllSeen(cfg) && Inv(cfg, s) && Orderly(s) && Enabled(cfg, s, Launch(p, words))
    ensures var u := Apply(cfg, s, Launch(p, words));
            (forall steps :: IsRun(cfg, u, steps) && NoLaunch(steps) ==> NeverRetrains(cfg, u, steps)) <==> Clear(s)
  {
    var u := Apply(cfg, s, Launch(p, words));
    if Clear(s) {
      StepKeepsInv(cfg, s, Launch(p, words));
      StepKeepsOrderly(cfg, s, Launch(p, words));
      forall steps | IsRun(cfg, u, steps) && NoLaunch(steps)
        ensures NeverRetrains(cfg, u, steps)
      {
        NoLaunchIsClear(cfg, u, steps);
        OrderlyTrainsOnce(cfg, u, steps);
      }
    } else {
      var steps := UnclearLaunchRetrains(cfg, s, p, words);
    }
  }

  /** Reached by a run whose launches were all clear. */
  ghost predicate ReachedClear(cfg: Config, s: State)
  {
    exists s0, steps :: Init(s0) && IsRun(cfg, s0, steps) && LaunchesClear(cfg, s0, steps) && s == Exec(cfg, s0, steps)
  }

  lemma ReachedClearOrderly(cfg: Config, s: State)
    requires AllSeen(cfg) && ReachedClear(cfg, s)
    ensures Inv(cfg, s) && Orderly(s)
  {
    var s0, steps :| Init(s0) && IsRun(cfg, s0, steps) && LaunchesClear(cfg, s0, steps) && s == Exec(cfg, s0, steps);
    StartOrderly(cfg, s0);
    OrderlyTrainsOnce(cfg, s0, steps);
  }

  /**
   The next launch: whatever happens after it, short of another launch, no output is trained again if
   and only if no sweep stands between its empty listing and its trainer's report when it is launched.
   */
  lemma LaunchSafeExactlyWhenClear(cfg: Config, s: State, p: Pid, words: Words)
    requires AllSeen(cfg) && ReachedClear(cfg, s) && Enabled(cfg, s, Launch(p, words))
    ensures var u := Apply(cfg, s, Launch(p, words));
            (forall steps :: IsRun(cfg, u, steps) && NoLaunch(steps) ==> NeverRetrains(cfg, u, steps)) <==> Clear(s)
  {
    ReachedClearOrderly(cfg, s);
    LaunchExact(cfg, s, p, words);
  }

  /** However the run is continued after its first `n` steps without a launch, no output is trained again. */
  ghost predicate SafeFrom(cfg: Config, s: State, steps: seq<Step>, n: nat)
    requires n <= |steps|
  {
    forall more :: NoLaunch(more) && IsRun(cfg, s, steps[..n] + more) ==> NeverRetrains(cfg, s, steps[..n] + more)
  }

  lemma {:induction false} ClearPrefix(cfg: Config, s: State, steps: seq<Step>, n: nat, more: seq<Step>)
    requires IsRun(cfg, s, steps) && LaunchesClear(cfg, s, steps) && n <= |steps|
    requires NoLaunch(more) && IsRun(cfg, s, steps[..n] + more)
    ensures LaunchesClear(cfg, s, steps[..n] + more)
    decreases n
  {
    var all := steps[..n] + more;
    if n == 0 {
      assert all == more;
      NoLaunchIsClear(cfg, s, more);
    } else {
      assert all[0] == steps[0] && all[1..] == steps[1..][..n - 1] + more;
      ClearPrefix(cfg, Apply(cfg, s, steps[0]), steps[1..], n - 1, more);
    }
  }

  lemma RetrainsBehind(cfg: Config, s: State, step: Step, rest: seq<Step>)
    requires Enabled(cfg, s, step) && IsRun(cfg, Apply(cfg, s, step), rest)
    requires !NeverRetrains(cfg, Apply(cfg, s, step), rest)
    ensures IsRun(cfg, s, [step] + rest) && !NeverRetrains(cfg, s, [step] + rest)
  {
    var all := [step] + rest;
    assert all[0] == step && all[1..] == rest;
  }

  lemma FirstAndRest(steps: seq<Step>, n: nat, more: seq<Step>)
    requires n < |steps|
    ensures steps[..n + 1] + more == [steps[0]] + (steps[1..][..n] + more)
  {
  }

  /** Behind the first launch that is not clear some continuation retrains. */
  lemma {:induction false} FirstUnclear(cfg: Config, s: State, steps: seq<Step>) returns (n: nat, more: seq<Step>)
    requires AllSeen(cfg) && Inv(cfg, s) && Orderly(s) && IsRun(cfg, s, steps) && !LaunchesClear(cfg, s, steps)
    ensures n <= |steps| && NoLaunch(more) && IsRun(cfg, s, steps[..n] + more)
    ensures !NeverRetrains(cfg, s, steps[..n] + more)
    decreases |steps|
  {
    hide AllSeen, Inv, Orderly, Clear, NoLaunch, NeverRetrains, Apply;
    var first, m := steps[0], 0;
    if first.Launch? && !Clear(s) {
      more := UnclearLaunchRetrains(cfg, s, first.p, first.words);
      assert steps[1..][..0] + more == more;
    } else {
      StepKeepsInv(cfg, s, first);
      StepKeepsOrderly(cfg, s, first);
      m, more := FirstUnclear(cfg, Apply(cfg, s, first), steps[1..]);
    }
    n := m + 1;
    RetrainsBehind(cfg, s, first, steps[1..][..m] + more);
    FirstAndRest(steps, m, more);
  }

  /**
   A whole run: its launches were all clear if and only if, from no point of it on, going on without
   further launches can train an output again.
   */
  lemma TrainsOnceExactlyWhenLaunchedClear(cfg: Config, s: State, steps: seq<Step>)
    requires AllSeen(cfg) && Init(s) && IsRun(cfg, s, steps)
    ensures LaunchesClear(cfg, s, steps) <==> forall n :: 0 <= n <= |steps| ==> SafeFrom(cfg, s, steps, n)
  {
    StartOrderly(cfg, s);
    if LaunchesClear(cfg, s, steps) {
      forall n, more | 0 <= n <= |steps| && NoLaunch(more) && IsRun(cfg, s, steps[..n] + more)
        ensures NeverRetrains(cfg, s, steps[..n] + more)
      {
        ClearPrefix(cfg, s, steps, n, more);
        OrderlyTrainsOnce(cfg, s, steps[..n] + more);
      }
    } else {
      var n, more := FirstUnclear(cfg, s, steps);
      assert !SafeFrom(cfg, s, steps, n);
    }
  }

  // ----- Two launches -----

  /** A second sweep launched while the first has just found an empty listing trains its finished output again. */
  lemma FinishedOutputTrainedAgain(cfg: Config, words: Words) returns (s0: State, steps: seq<Step>)
    requires words in cfg.launches
    ensures Init(s0) && IsRun(cfg, s0, steps) && !NeverRetrains(cfg, s0, steps)
  {
    var e := EmptyReachable(cfg);
    var s := ReachCleared(cfg, e, 1, words, "5k_edge0");
    var before;
    s0, before :| Init(s0) && IsRun(cfg, s0, before) && s == Exec(cfg, s0, before);
    var launch := Launch(2, words);
    assert Underway(s.procs[1].pc, s.metrics);
    var more := UnclearLaunchRetrains(cfg, s, 2, words);
    var late := [launch] + more;
    assert late[0] == launch && late[1..] == more;
    RetrainsLater(cfg, s0, before, late);
    steps := before + late;
  }

  /** A sweep launched beside an orphaned trainer: something is training, and still no output is trained again. */
  lemma LaunchBesideOrphan(cfg: Config, words: Words) returns (s: State)
    requires AllSeen(cfg) && words in cfg.launches
    ensures Reachable(cfg, s) && Enabled(cfg, s, Launch(2, words)) && !Quiet(s, 2)
    ensures var u := Apply(cfg, s, Launch(2, words));
            forall steps :: IsRun(cfg, u, steps) && NoLaunch(steps) ==> NeverRetrains(cfg, u, steps)
  {
    var tag := "5k_edge0";
    var c := ReachFirst(cfg, words, tag);
    ReachableStep(cfg, c, Kill(1));
    s := State(map[3 := Trainer(cfg.trainer, tag)], {tag}, {});
    assert Apply(cfg, c, Kill(1)) == s;
    assert 3 in s.procs && Seen(s.procs[3].words);
    ReachableInv(cfg, s);
    LaunchExact(cfg, s, 2, words);
  }
}
