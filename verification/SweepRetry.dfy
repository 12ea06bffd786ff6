/**
 What becomes of one arm of a sweep: it is skipped, trained, retried after a crash, or given up. The
 sweep's own steps are followed one by one, and the number of trainers it starts is bounded in
 every run, whatever other processes do in between.
 */
module SweepRetry {
  import opened SweepProtocol

  // ----- Own steps -----

  /** A step that sweep `p` takes itself, or the exit of the trainer that it waits on. */
  predicate Own(step: Step, p: Pid)
  {
    match step
    case PickArm(q, _) => q == p
    case TestMetrics(q) => q == p
    case TestMarker(q) => q == p
    case ListProcesses(q) => q == p
    case WriteMarker(q) => q == p
    case Spawn(q, _) => q == p
    case ChildExit(q, _) => q == p
    case Unlink(q) => q == p
    case RewriteMetrics(q) => q == p
    case ListBeforeRetry(q) => q == p
    case TestBeforeRetry(q) => q == p
    case UnlinkStale(q) => q == p
    case _ => false
  }

  /** `steps` lead from `s` to `t`, and all of them are steps of `p`. */
  ghost predicate Leads(cfg: Config, s: State, steps: seq<Step>, t: State, p: Pid)
  {
    IsRun(cfg, s, steps) && (forall i :: 0 <= i < |steps| ==> Own(steps[i], p)) && Exec(cfg, s, steps) == t
  }

  lemma Nothing(cfg: Config, s: State, p: Pid)
    ensures Leads(cfg, s, [], s, p)
  {
  }

  /** One more step at the end. */
  lemma Then(cfg: Config, s: State, a: seq<Step>, t: State, p: Pid, step: Step)
    requires Leads(cfg, s, a, t, p) && Enabled(cfg, t, step) && Own(step, p)
    ensures Leads(cfg, s, a + [step], Apply(cfg, t, step), p)
  {
    var one := [step];
    assert one[1..] == [] && IsRun(cfg, Apply(cfg, t, step), []);
    RunConcat(cfg, s, a, one);
  }

  lemma Compose(cfg: Config, s: State, a: seq<Step>, t: State, b: seq<Step>, u: State, p: Pid)
    requires Leads(cfg, s, a, t, p) && Leads(cfg, t, b, u, p)
    ensures Leads(cfg, s, a + b, u, p)
  {
    RunConcat(cfg, s, a, b);
  }

  /** Moving one sweep does not change what any process listing says. */
  lemma QuietAfterMove(s: State, p: Pid, pc: Pc, markers: set<Tag>)
    requires IsSweep(s, p)
    ensures Quiet(Goto(s, p, pc).(markers := markers), p) <==> Quiet(s, p)
  {
    var t := Goto(s, p, pc).(markers := markers);
    if Quiet(t, p) {
      forall q | q in s.procs && q != p
        ensures !Seen(s.procs[q].words)
      {
        assert q in t.procs && t.procs[q] == s.procs[q];
      }
    }
  }

  /** Two moves of one sweep are the second. */
  lemma GotoTwice(s: State, p: Pid, a: Pc, b: Pc)
    requires IsSweep(s, p)
    ensures Goto(Goto(s, p, a), p, b) == Goto(s, p, b)
  {
    assert s.procs[p := s.procs[p].(pc := a)][p := s.procs[p].(pc := a).(pc := b)]
        == s.procs[p := s.procs[p].(pc := b)];
  }

  // ----- An arm from its start -----

  function AtMetrics(s: State, p: Pid, tag: Tag, n: nat): State
    requires IsSweep(s, p)
  {
    Goto(s, p, Pc.ReadMetrics(tag, n))
  }

  /** The sweep waits on a new trainer of the output, whose marker is there. */
  function Training(cfg: Config, s: State, p: Pid, tag: Tag, n: nat, child: Pid): State
    requires IsSweep(s, p)
  {
    State(s.procs[p := s.procs[p].(pc := Waiting(tag, n, child))][child := Trainer(cfg.trainer, tag)],
          s.markers + {tag}, s.metrics)
  }

  /** An attempt at an output without metrics and without marker, alone, starts its trainer. */
  lemma AttemptTrains(cfg: Config, s: State, p: Pid, tag: Tag, n: nat, child: Pid) returns (steps: seq<Step>)
    requires IsSweep(s, p) && At(s, p) == Pc.ReadMetrics(tag, n) && tag !in s.metrics && tag !in s.markers
    requires Quiet(s, p) && child !in s.procs
    ensures Leads(cfg, s, steps, Training(cfg, s, p, tag, n, child), p)
  {
    Nothing(cfg, s, p);
    Then(cfg, s, [], s, p, TestMetrics(p));
    var s1 := Goto(s, p, Pc.ReadMarker(tag, n));
    steps := [] + [TestMetrics(p)];
    Then(cfg, s, steps, s1, p, TestMarker(p));
    GotoTwice(s, p, Pc.ReadMarker(tag, n), Look(tag, n));
    var s2 := Goto(s, p, Look(tag, n));
    steps := steps + [TestMarker(p)];
    QuietAfterMove(s, p, Look(tag, n), s.markers);
    Then(cfg, s, steps, s2, p, ListProcesses(p));
    GotoTwice(s, p, Look(tag, n), Cleared(tag, n));
    steps := steps + [ListProcesses(p)];
    steps := StartsTrainer(cfg, s, p, tag, n, child, steps);
  }

  lemma StartsTrainer(cfg: Config, s: State, p: Pid, tag: Tag, n: nat, child: Pid, before: seq<Step>)
    returns (steps: seq<Step>)
    requires IsSweep(s, p) && child !in s.procs && Leads(cfg, s, before, Goto(s, p, Cleared(tag, n)), p)
    ensures Leads(cfg, s, steps, Training(cfg, s, p, tag, n, child), p)
  {
    var s3 := Goto(s, p, Cleared(tag, n));
    Then(cfg, s, before, s3, p, WriteMarker(p));
    GotoTwice(s, p, Cleared(tag, n), Marked(tag, n));
    var s4 := Goto(s, p, Marked(tag, n)).(markers := s.markers + {tag});
    assert Apply(cfg, s3, WriteMarker(p)) == s4;
    Then(cfg, s, before + [WriteMarker(p)], s4, p, Spawn(p, child));
    assert Apply(cfg, s4, Spawn(p, child)).procs == Training(cfg, s, p, tag, n, child).procs;
    steps := before + [WriteMarker(p)] + [Spawn(p, child)];
  }

  /** An output that has metrics is skipped: the sweep is between arms again and nothing has changed. */
  lemma ArmSkipped(cfg: Config, s: State, p: Pid, tag: Tag) returns (steps: seq<Step>)
    requires IsSweep(s, p) && At(s, p).Begin? && tag in s.metrics
    ensures Leads(cfg, s, steps, s, p)
  {
    Nothing(cfg, s, p);
    Then(cfg, s, [], s, p, PickArm(p, tag));
    Then(cfg, s, [] + [PickArm(p, tag)], AtMetrics(s, p, tag, 1), p, TestMetrics(p));
    steps := [] + [PickArm(p, tag)] + [TestMetrics(p)];
    GotoTwice(s, p, Pc.ReadMetrics(tag, 1), Begin);
    assert s.procs[p := s.procs[p].(pc := Begin)] == s.procs;
  }

  /** A new output, alone: the first attempt starts a trainer. */
  lemma ArmTrained(cfg: Config, s: State, p: Pid, tag: Tag, child: Pid) returns (steps: seq<Step>)
    requires IsSweep(s, p) && At(s, p).Begin? && tag !in s.metrics && tag !in s.markers
    requires Quiet(s, p) && child !in s.procs
    ensures Leads(cfg, s, steps, Training(cfg, s, p, tag, 1, child), p)
  {
    Nothing(cfg, s, p);
    Then(cfg, s, [], s, p, PickArm(p, tag));
    var t := AtMetrics(s, p, tag, 1);
    QuietAfterMove(s, p, Pc.ReadMetrics(tag, 1), s.markers);
    var more := AttemptTrains(cfg, t, p, tag, 1, child);
    steps := [] + [PickArm(p, tag)] + more;
    Compose(cfg, s, [] + [PickArm(p, tag)], t, more, Training(cfg, t, p, tag, 1, child), p);
    assert Training(cfg, t, p, tag, 1, child).procs == Training(cfg, s, p, tag, 1, child).procs;
  }

  /** A trainer that reported and returned 0: its marker goes, its metrics stay, and the arm is over. */
  lemma ArmFinished(cfg: Config, s: State, p: Pid) returns (steps: seq<Step>)
    requires IsSweep(s, p) && At(s, p).Waiting? && IsTrainer(s, At(s, p).child) && At(s, p).tag in s.metrics
    ensures var pc := At(s, p);
            Leads(cfg, s, steps,
                  State(s.procs[p := s.procs[p].(pc := Begin)] - {pc.child}, s.markers - {pc.tag}, s.metrics), p)
  {
    var pc := At(s, p);
    Nothing(cfg, s, p);
    Then(cfg, s, [], s, p, ChildExit(p, true));
    var s1 := Apply(cfg, s, ChildExit(p, true));
    steps := [] + [ChildExit(p, true)];
    Then(cfg, s, steps, s1, p, Unlink(p));
    var s2 := Apply(cfg, s1, Unlink(p));
    steps := steps + [Unlink(p)];
    Then(cfg, s, steps, s2, p, RewriteMetrics(p));
    var s3 := Apply(cfg, s2, RewriteMetrics(p));
    steps := steps + [RewriteMetrics(p)];
    assert s3.metrics == s.metrics;
    assert s3.procs == s.procs[p := s.procs[p].(pc := Begin)] - {pc.child};
  }

  // ----- Retrying -----

  /** After a failure: another attempt is due when one is left, nobody trains and the marker is there. */
  predicate Retries(s: State, p: Pid, tag: Tag, n: nat)
  {
    n != ATTEMPTS && Quiet(s, p) && tag in s.markers
  }

  /** Then the stale marker is removed, and nothing else changes. */
  lemma RetryClearsMarker(cfg: Config, s: State, p: Pid, tag: Tag, n: nat) returns (steps: seq<Step>)
    requires IsSweep(s, p) && At(s, p) == Failed(tag, n) && Retries(s, p, tag, n)
    ensures Leads(cfg, s, steps, AtMetrics(s, p, tag, n + 1).(markers := s.markers - {tag}), p)
  {
    Nothing(cfg, s, p);
    Then(cfg, s, [], s, p, ListBeforeRetry(p));
    var s1 := Goto(s, p, RetryIdle(tag, n));
    steps := [] + [ListBeforeRetry(p)];
    Then(cfg, s, steps, s1, p, TestBeforeRetry(p));
    GotoTwice(s, p, RetryIdle(tag, n), Pc.RetryUnlink(tag, n));
    var s2 := Goto(s, p, Pc.RetryUnlink(tag, n));
    steps := steps + [TestBeforeRetry(p)];
    Then(cfg, s, steps, s2, p, UnlinkStale(p));
    GotoTwice(s, p, Pc.RetryUnlink(tag, n), Pc.ReadMetrics(tag, n + 1));
    steps := steps + [UnlinkStale(p)];
  }

  /** And the attempt is repeated: the sweep comes to wait on a new trainer of the output. */
  lemma RetryTrainsAgain(cfg: Config, s: State, p: Pid, tag: Tag, n: nat, child: Pid)
    returns (before: seq<Step>, after: seq<Step>)
    requires IsSweep(s, p) && At(s, p) == Failed(tag, n) && Retries(s, p, tag, n)
    requires tag !in s.metrics && child !in s.procs
    ensures var cleared := AtMetrics(s, p, tag, n + 1).(markers := s.markers - {tag});
            && Leads(cfg, s, before, cleared, p)
            && Leads(cfg, cleared, after, Training(cfg, cleared, p, tag, n + 1, child), p)
            && Leads(cfg, s, before + after, Training(cfg, s, p, tag, n + 1, child), p)
  {
    before := RetryClearsMarker(cfg, s, p, tag, n);
    var t := AtMetrics(s, p, tag, n + 1).(markers := s.markers - {tag});
    QuietAfterMove(s, p, Pc.ReadMetrics(tag, n + 1), s.markers - {tag});
    after := AttemptTrains(cfg, t, p, tag, n + 1, child);
    Compose(cfg, s, before, t, after, Training(cfg, t, p, tag, n + 1, child), p);
    assert Training(cfg, t, p, tag, n + 1, child).procs == Training(cfg, s, p, tag, n + 1, child).procs;
    assert Training(cfg, t, p, tag, n + 1, child).markers == Training(cfg, s, p, tag, n + 1, child).markers;
  }

  /** After the trainer's exit nobody trains and the attempt has failed. */
  lemma TrainerGone(cfg: Config, s: State, p: Pid, tag: Tag, n: nat, gone: Pid, t: State)
    requires IsSweep(s, p) && At(s, p) == Waiting(tag, n, gone) && IsTrainer(s, gone) && gone != p
    requires tag in s.markers && tag !in s.metrics && n < ATTEMPTS
    requires forall q :: q in s.procs && q != p && q != gone ==> !Seen(s.procs[q].words)
    requires t == s.(procs := s.procs[p := s.procs[p].(pc := Failed(tag, n))] - {gone})
    ensures Leads(cfg, s, [ChildExit(p, false)], t, p)
    ensures IsSweep(t, p) && At(t, p) == Failed(tag, n) && Retries(t, p, tag, n)
  {
    Nothing(cfg, s, p);
    Then(cfg, s, [], s, p, ChildExit(p, false));
    assert [] + [ChildExit(p, false)] == [ChildExit(p, false)];
    assert Quiet(t, p);
  }

  lemma SameTraining(cfg: Config, s: State, p: Pid, tag: Tag, n: nat, gone: Pid, pc: Pc, child: Pid)
    requires IsSweep(s, p) && gone != p
    ensures Training(cfg, s.(procs := s.procs[p := s.procs[p].(pc := pc)] - {gone}), p, tag, n, child) ==
            Training(cfg, s.(procs := s.procs - {gone}), p, tag, n, child)
  {
    assert Training(cfg, s.(procs := s.procs[p := s.procs[p].(pc := pc)] - {gone}), p, tag, n, child).procs ==
           Training(cfg, s.(procs := s.procs - {gone}), p, tag, n, child).procs;
  }

  /** A trainer that crashed before it reported is replaced, as long as an attempt is left. */
  lemma CrashedArmRetried(cfg: Config, s: State, p: Pid, tag: Tag, n: nat, gone: Pid, child: Pid)
    returns (steps: seq<Step>)
    requires IsSweep(s, p) && At(s, p) == Waiting(tag, n, gone) && IsTrainer(s, gone) && gone != p
    requires tag in s.markers && tag !in s.metrics && n < ATTEMPTS && child !in s.procs
    requires forall q :: q in s.procs && q != p && q != gone ==> !Seen(s.procs[q].words)
    ensures Leads(cfg, s, steps, Training(cfg, s.(procs := s.procs - {gone}), p, tag, n + 1, child), p)
  {
    hide Leads, Training, Retries, Seen, IsTrainer;
    var t := s.(procs := s.procs[p := s.procs[p].(pc := Failed(tag, n))] - {gone});
    TrainerGone(cfg, s, p, tag, n, gone, t);
    var before, after := RetryTrainsAgain(cfg, t, p, tag, n, child);
    steps := [ChildExit(p, false)] + (before + after);
    Compose(cfg, s, [ChildExit(p, false)], t, before + after, Training(cfg, t, p, tag, n + 1, child), p);
    SameTraining(cfg, s, p, tag, n + 1, gone, Failed(tag, n), child);
  }

  /** A refusal on a marker of a crashed run is followed by a retry too. */
  lemma RefusedArmRetried(cfg: Config, s: State, p: Pid, tag: Tag, child: Pid) returns (steps: seq<Step>)
    requires IsSweep(s, p) && At(s, p) == Pc.ReadMetrics(tag, 1) && tag !in s.metrics && tag in s.markers
    requires Quiet(s, p) && child !in s.procs
    ensures Leads(cfg, s, steps, Training(cfg, s, p, tag, 2, child), p)
  {
    Nothing(cfg, s, p);
    Then(cfg, s, [], s, p, TestMetrics(p));
    var s1 := Goto(s, p, Pc.ReadMarker(tag, 1));
    steps := [] + [TestMetrics(p)];
    Then(cfg, s, steps, s1, p, TestMarker(p));
    GotoTwice(s, p, Pc.ReadMarker(tag, 1), Failed(tag, 1));
    var t := Goto(s, p, Failed(tag, 1));
    steps := steps + [TestMarker(p)];
    QuietAfterMove(s, p, Failed(tag, 1), s.markers);
    var before, after := RetryTrainsAgain(cfg, t, p, tag, 1, child);
    Compose(cfg, s, steps, t, before + after, Training(cfg, t, p, tag, 2, child), p);
    steps := steps + (before + after);
    assert Training(cfg, t, p, tag, 2, child).procs == Training(cfg, s, p, tag, 2, child).procs;
  }

  // ----- Giving up -----

  /** Own steps of `p`, taken until it is between arms. */
  predicate UntilBegin(cfg: Config, s: State, steps: seq<Step>, p: Pid)
    requires IsRun(cfg, s, steps)
    decreases |steps|
  {
    steps != [] ==>
      && IsSweep(s, p) && !At(s, p).Begin? && Own(steps[0], p)
      && UntilBegin(cfg, Apply(cfg, s, steps[0]), steps[1..], p)
  }

  /** The points from which a sweep that does not retry gives up. */
  predicate GivingUp(s: State, p: Pid)
  {
    && IsSweep(s, p)
    && var pc := At(s, p);
       || pc.Begin?
       || (pc.Failed? && !Retries(s, p, pc.tag, pc.attempt))
       || (pc.RetryIdle? && (pc.attempt == ATTEMPTS || pc.tag !in s.markers))
  }

  lemma {:induction false} GivesUp(cfg: Config, s: State, steps: seq<Step>, p: Pid)
    requires GivingUp(s, p) && IsRun(cfg, s, steps) && UntilBegin(cfg, s, steps, p)
    ensures var t := Exec(cfg, s, steps); t.markers == s.markers && t.metrics == s.metrics && GivingUp(t, p)
    decreases |steps|
  {
    if steps != [] {
      GivesUp(cfg, Apply(cfg, s, steps[0]), steps[1..], p);
    }
  }

  /** It ends between arms, with the marker as it was. */
  lemma ArmGivenUp(cfg: Config, s: State, p: Pid) returns (steps: seq<Step>)
    requires IsSweep(s, p) && At(s, p).Failed? && !Retries(s, p, At(s, p).tag, At(s, p).attempt)
    ensures Leads(cfg, s, steps, Goto(s, p, Begin), p)
  {
    var tag, n := At(s, p).tag, At(s, p).attempt;
    Nothing(cfg, s, p);
    Then(cfg, s, [], s, p, ListBeforeRetry(p));
    steps := [] + [ListBeforeRetry(p)];
    if Quiet(s, p) {
      Then(cfg, s, steps, Goto(s, p, RetryIdle(tag, n)), p, TestBeforeRetry(p));
      GotoTwice(s, p, RetryIdle(tag, n), Begin);
      steps := steps + [TestBeforeRetry(p)];
    }
  }

  /**
   After a failure the sweep's own steps change a marker before it is between arms again if and only
   if an attempt is left, nobody trains, and the marker is there.
   */
  lemma MarkerClearedExactlyWhenRetried(cfg: Config, s: State, p: Pid)
    requires IsSweep(s, p) && At(s, p).Failed?
    ensures (exists steps :: IsRun(cfg, s, steps) && UntilBegin(cfg, s, steps, p)
                             && Exec(cfg, s, steps).markers != s.markers)
            <==> Retries(s, p, At(s, p).tag, At(s, p).attempt)
  {
    if Retries(s, p, At(s, p).tag, At(s, p).attempt) {
      ClearedUntilBegin(cfg, s, p);
    } else {
      forall steps | IsRun(cfg, s, steps) && UntilBegin(cfg, s, steps, p)
        ensures Exec(cfg, s, steps).markers == s.markers
      {
        GivesUp(cfg, s, steps, p);
      }
    }
  }

  lemma ClearedUntilBegin(cfg: Config, s: State, p: Pid)
    requires IsSweep(s, p) && At(s, p).Failed? && Retries(s, p, At(s, p).tag, At(s, p).attempt)
    ensures exists steps :: IsRun(cfg, s, steps) && UntilBegin(cfg, s, steps, p)
                            && Exec(cfg, s, steps).markers != s.markers
  {
    var s1 := Apply(cfg, s, ListBeforeRetry(p));
    var s2 := Apply(cfg, s1, TestBeforeRetry(p));
    var s3 := Apply(cfg, s2, UnlinkStale(p));
    assert IsRun(cfg, s3, []) && UntilBegin(cfg, s3, [], p);
    Behind(cfg, s2, UnlinkStale(p), [], p);
    Behind(cfg, s1, TestBeforeRetry(p), [UnlinkStale(p)] + [], p);
    Behind(cfg, s, ListBeforeRetry(p), [TestBeforeRetry(p)] + ([UnlinkStale(p)] + []), p);
    assert At(s, p).tag in s.markers && At(s, p).tag !in s3.markers;
  }

  lemma Behind(cfg: Config, s: State, step: Step, rest: seq<Step>, p: Pid)
    requires IsSweep(s, p) && !At(s, p).Begin? && Own(step, p) && Enabled(cfg, s, step)
    requires IsRun(cfg, Apply(cfg, s, step), rest) && UntilBegin(cfg, Apply(cfg, s, step), rest, p)
    ensures IsRun(cfg, s, [step] + rest) && UntilBegin(cfg, s, [step] + rest, p)
    ensures Exec(cfg, s, [step] + rest) == Exec(cfg, Apply(cfg, s, step), rest)
  {
    var all := [step] + rest;
    assert all[0] == step && all[1..] == rest;
  }

  // ----- How many trainers one arm starts -----

  /** The trainers that a sweep may still start before it is between arms again. */
  function Left(pc: Pc): int
  {
    match pc
    case Begin => 0
    case ReadMetrics(_, n) => ATTEMPTS - n + 1
    case ReadMarker(_, n) => ATTEMPTS - n + 1
    case Look(_, n) => ATTEMPTS - n + 1
    case Cleared(_, n) => ATTEMPTS - n + 1
    case Marked(_, n) => ATTEMPTS - n + 1
    case Waiting(_, n, _) => ATTEMPTS - n
    case Failed(_, n) => ATTEMPTS - n
    case RetryIdle(_, n) => ATTEMPTS - n
    case RetryUnlink(_, n) => ATTEMPTS - n
    case Succeeded(_) => 0
    case Rewriting(_) => 0
  }

  /** The attempt counter stays within bounds, and a retry is only under way with an attempt left. */
  predicate Counted(pc: Pc)
  {
    && 0 <= Left(pc) <= ATTEMPTS
    && (pc.ReadMetrics? || pc.ReadMarker? || pc.Look? || pc.Cleared? || pc.Marked? || pc.RetryUnlink? ==> Left(pc) >= 1)
  }

  ghost predicate AllCounted(s: State)
  {
    forall p :: p in s.procs && s.procs[p].Sweep? ==> Counted(s.procs[p].pc)
  }

  lemma StepKeepsCounted(cfg: Config, s: State, step: Step)
    requires AllCounted(s) && Enabled(cfg, s, step)
    ensures AllCounted(Apply(cfg, s, step))
  {
  }

  lemma {:induction false} RunKeepsCounted(cfg: Config, s: State, steps: seq<Step>)
    requires AllCounted(s) && IsRun(cfg, s, steps)
    ensures AllCounted(Exec(cfg, s, steps))
    decreases |steps|
  {
    if steps != [] {
      StepKeepsCounted(cfg, s, steps[0]);
      RunKeepsCounted(cfg, Apply(cfg, s, steps[0]), steps[1..]);
    }
  }

  /** In every reachable state. */
  lemma ReachableCounted(cfg: Config, s: State)
    requires Reachable(cfg, s)
    ensures AllCounted(s)
  {
    var s0, steps :| Init(s0) && IsRun(cfg, s0, steps) && s == Exec(cfg, s0, steps);
    RunKeepsCounted(cfg, s0, steps);
  }

  /** The sweep is on one arm throughout the run. */
  predicate OneArm(cfg: Config, s: State, steps: seq<Step>, p: Pid)
    requires IsRun(cfg, s, steps)
    decreases |steps|
  {
    IsSweep(s, p) && !At(s, p).Begin? && (steps != [] ==> OneArm(cfg, Apply(cfg, s, steps[0]), steps[1..], p))
  }

  function Spawns(steps: seq<Step>, p: Pid): nat
  {
    if steps == [] then 0 else (if steps[0].Spawn? && steps[0].p == p then 1 else 0) + Spawns(steps[1..], p)
  }

  lemma StepSpends(cfg: Config, s: State, step: Step, p: Pid)
    requires AllCounted(s) && Enabled(cfg, s, step) && IsSweep(s, p) && !At(s, p).Begin?
    requires IsSweep(Apply(cfg, s, step), p) && !At(Apply(cfg, s, step), p).Begin?
    ensures Left(At(Apply(cfg, s, step), p)) + (if step.Spawn? && step.p == p then 1 else 0) <= Left(At(s, p))
  {
  }

  /** Whatever else happens, one arm starts at most as many trainers as it has attempts left. */
  lemma {:induction false} AttemptsBoundTrainers(cfg: Config, s: State, steps: seq<Step>, p: Pid)
    requires AllCounted(s) && IsRun(cfg, s, steps) && OneArm(cfg, s, steps, p)
    ensures Spawns(steps, p) <= Left(At(s, p)) <= 2
    decreases |steps|
  {
    assert Counted(At(s, p));
    if steps != [] {
      StepKeepsCounted(cfg, s, steps[0]);
      StepSpends(cfg, s, steps[0], p);
      AttemptsBoundTrainers(cfg, Apply(cfg, s, steps[0]), steps[1..], p);
    }
  }
}
