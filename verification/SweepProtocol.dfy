/**
 The single-writer protocol of the RouteScout scaling sweep.

 Any number of sweep processes may run at once, each may be killed between any two of
 its steps, and a killed sweep leaves its trainer behind as an orphan. The only shared
 state is the process table, the in-flight marker files and the metrics files. One `ps`
 listing is one atomic step, and so is each file operation.
 */
module SweepProtocol {

  type Pid = nat

  /** One scale point and arm; it names the adapter, the metrics file and the marker. */
  type Tag = string

  /** A command line as `ps` shows it, split at white space. */
  type Words = seq<string>

  // ----- The process filter -----

  predicate Contains(text: string, part: string)
  {
    exists i :: 0 <= i <= |text| && part <= text[i..]
  }

  /** The last component of a path. */
  function Name(path: string): string
    decreases |path|
  {
    if path == "" then ""
    else if path[|path| - 1] == '/' then Name(path[..|path| - 1])
    else LastComponent(path)
  }

  function LastComponent(path: string): string
  {
    if path == "" || path[|path| - 1] == '/' then ""
    else LastComponent(path[..|path| - 1]) + [path[|path| - 1]]
  }

  predicate NamesTraining(word: string)
  {
    Contains(word, "train_edge0_router") || Contains(word, "run_routescout_sweep")
  }

  /** A process counts as training when its interpreter is python and it names one of the two scripts. */
  predicate Seen(words: Words)
  {
    && words != []
    && "python" <= Name(words[0])
    && exists i :: 0 <= i < |words| && NamesTraining(words[i])
  }

  datatype Line = Line(pid: Pid, words: Words)

  /** Scans one process listing for training processes other than the caller. */
  method LiveTrainers(me: Pid, listing: seq<Line>) returns (found: seq<Line>)
    ensures forall line :: line in found <==> line in listing && line.pid != me && Seen(line.words)
  {
    found := [];
    for i := 0 to |listing|
      invariant forall line :: line in found <==> line in listing[..i] && line.pid != me && Seen(line.words)
    {
      var line := listing[i];
      if line.pid == me {
        continue;
      }
      if line.words == [] {
        continue;
      }
      if !("python" <= Name(line.words[0])) {
        continue;
      }
      if exists j :: 0 <= j < |line.words| && NamesTraining(line.words[j]) {
        found := found + [line];
      }
    }
  }

  // ----- State -----

  const ATTEMPTS := 2

  /** Where a sweep process stands. Each constructor is the point before its next shared-state access. */
  datatype Pc =
    | Begin                                          // between arms
    | ReadMetrics(tag: Tag, attempt: nat)            // about to test for the metrics file
    | ReadMarker(tag: Tag, attempt: nat)             // about to test for the marker
    | Look(tag: Tag, attempt: nat)                   // about to list processes
    | Cleared(tag: Tag, attempt: nat)                // saw nobody; about to write the marker
    | Marked(tag: Tag, attempt: nat)                 // marker written; about to spawn
    | Waiting(tag: Tag, attempt: nat, child: Pid)    // blocked on the trainer
    | Succeeded(tag: Tag)                            // trainer returned 0; about to remove the marker
    | Rewriting(tag: Tag)                            // about to rewrite the metrics file
    | Failed(tag: Tag, attempt: nat)                 // refused or crashed; about to list processes
    | RetryIdle(tag: Tag, attempt: nat)              // saw nobody; about to test for the marker
    | RetryUnlink(tag: Tag, attempt: nat)            // about to remove a stale marker

  datatype Proc =
    | Sweep(words: Words, pc: Pc)
    | Trainer(words: Words, tag: Tag)
    | Other(words: Words)

  datatype State = State(procs: map<Pid, Proc>, markers: set<Tag>, metrics: set<Tag>)

  /** How processes are started: the command lines sweeps may be launched with, and the trainer's. */
  datatype Config = Config(launches: set<Words>, trainer: Words)

  datatype Step =
    | Launch(p: Pid, words: Words)
    | SpawnOther(p: Pid, words: Words)
    | Kill(p: Pid)
    | PickArm(p: Pid, tag: Tag)
    | TestMetrics(p: Pid)
    | TestMarker(p: Pid)
    | ListProcesses(p: Pid)
    | WriteMarker(p: Pid)
    | Spawn(p: Pid, child: Pid)
    | ChildExit(p: Pid, ok: bool)
    | WriteReport(p: Pid)
    | Unlink(p: Pid)
    | RewriteMetrics(p: Pid)
    | ListBeforeRetry(p: Pid)
    | TestBeforeRetry(p: Pid)
    | UnlinkStale(p: Pid)

  predicate IsSweep(s: State, p: Pid)
  {
    p in s.procs && s.procs[p].Sweep?
  }

  predicate IsTrainer(s: State, p: Pid)
  {
    p in s.procs && s.procs[p].Trainer?
  }

  predicate WaitsOn(s: State, p: Pid, child: Pid)
  {
    IsSweep(s, p) && s.procs[p].pc.Waiting? && s.procs[p].pc.child == child
  }

  /** What `live_trainers()` answers to process `me`: nobody else is training. */
  predicate Quiet(s: State, me: Pid)
  {
    forall q :: q in s.procs && q != me ==> !Seen(s.procs[q].words)
  }

  /** `LiveTrainers` on any listing of the process table returns nothing exactly when the table is quiet. */
  lemma ListingDecidesQuiet(s: State, me: Pid, listing: seq<Line>, found: seq<Line>)
    requires forall line :: line in listing <==> line.pid in s.procs && line.words == s.procs[line.pid].words
    requires forall line :: line in found <==> line in listing && line.pid != me && Seen(line.words)
    ensures found == [] <==> Quiet(s, me)
  {
    if found == [] {
      forall q | q in s.procs && q != me
        ensures !Seen(s.procs[q].words)
      {
        assert Line(q, s.procs[q].words) in listing;
      }
    } else {
      assert found[0] in found;
    }
  }

  // ----- Steps -----

  function At(s: State, p: Pid): Pc
    requires IsSweep(s, p)
  {
    s.procs[p].pc
  }

  function Goto(s: State, p: Pid, pc: Pc): State
    requires IsSweep(s, p)
  {
    s.(procs := s.procs[p := s.procs[p].(pc := pc)])
  }

  predicate Enabled(cfg: Config, s: State, step: Step)
  {
    match step
    case Launch(p, words) => p !in s.procs && words in cfg.launches
    case SpawnOther(p, words) => p !in s.procs
    case Kill(p) => p in s.procs && forall q :: q in s.procs ==> !WaitsOn(s, q, p)
    case PickArm(p, tag) => IsSweep(s, p) && At(s, p).Begin?
    case TestMetrics(p) => IsSweep(s, p) && At(s, p).ReadMetrics?
    case TestMarker(p) => IsSweep(s, p) && At(s, p).ReadMarker?
    case ListProcesses(p) => IsSweep(s, p) && At(s, p).Look?
    case WriteMarker(p) => IsSweep(s, p) && At(s, p).Cleared?
    case Spawn(p, child) => IsSweep(s, p) && At(s, p).Marked? && child !in s.procs
    case ChildExit(p, ok) =>
      && IsSweep(s, p) && At(s, p).Waiting? && IsTrainer(s, At(s, p).child)
      && (ok ==> At(s, p).tag in s.metrics)
    case WriteReport(p) => IsTrainer(s, p)
    case Unlink(p) => IsSweep(s, p) && At(s, p).Succeeded?
    case RewriteMetrics(p) => IsSweep(s, p) && At(s, p).Rewriting?
    case ListBeforeRetry(p) => IsSweep(s, p) && At(s, p).Failed?
    case TestBeforeRetry(p) => IsSweep(s, p) && At(s, p).RetryIdle?
    case UnlinkStale(p) => IsSweep(s, p) && At(s, p).RetryUnlink?
  }

  function Apply(cfg: Config, s: State, step: Step): State
    requires Enabled(cfg, s, step)
  {
    match step
    case Launch(p, words) => s.(procs := s.procs[p := Sweep(words, Begin)])
    case SpawnOther(p, words) => s.(procs := s.procs[p := Other(words)])
    case Kill(p) => s.(procs := s.procs - {p})
    case PickArm(p, tag) => Goto(s, p, Pc.ReadMetrics(tag, 1))
    case TestMetrics(p) =>
      var pc := At(s, p);
      Goto(s, p, if pc.tag in s.metrics then Begin else Pc.ReadMarker(pc.tag, pc.attempt))
    case TestMarker(p) =>
      var pc := At(s, p);
      Goto(s, p, if pc.tag in s.markers then Failed(pc.tag, pc.attempt) else Look(pc.tag, pc.attempt))
    case ListProcesses(p) =>
      var pc := At(s, p);
      Goto(s, p, if Quiet(s, p) then Cleared(pc.tag, pc.attempt) else Failed(pc.tag, pc.attempt))
    case WriteMarker(p) =>
      var pc := At(s, p);
      Goto(s, p, Marked(pc.tag, pc.attempt)).(markers := s.markers + {pc.tag})
    case Spawn(p, child) =>
      var pc := At(s, p);
      var s1 := Goto(s, p, Waiting(pc.tag, pc.attempt, child));
      s1.(procs := s1.procs[child := Trainer(cfg.trainer, pc.tag)])
    case ChildExit(p, ok) =>
      var pc := At(s, p);
      var s1 := Goto(s, p, if ok then Succeeded(pc.tag) else Failed(pc.tag, pc.attempt));
      s1.(procs := s1.procs - {pc.child})
    case WriteReport(p) => s.(metrics := s.metrics + {s.procs[p].tag})
    case Unlink(p) =>
      var pc := At(s, p);
      Goto(s, p, Rewriting(pc.tag)).(markers := s.markers - {pc.tag})
    case RewriteMetrics(p) =>
      Goto(s, p, Begin).(metrics := s.metrics + {At(s, p).tag})
    case ListBeforeRetry(p) =>
      var pc := At(s, p);
      Goto(s, p, if Quiet(s, p) then RetryIdle(pc.tag, pc.attempt) else Begin)
    case TestBeforeRetry(p) =>
      var pc := At(s, p);
      Goto(s, p, if pc.tag !in s.markers || pc.attempt == ATTEMPTS then Begin
                 else Pc.RetryUnlink(pc.tag, pc.attempt))
    case UnlinkStale(p) =>
      var pc := At(s, p);
      Goto(s, p, Pc.ReadMetrics(pc.tag, pc.attempt + 1)).(markers := s.markers - {pc.tag})
  }

  // ----- Runs -----

  /** A start with no sweep and no spawned trainer; markers, metrics and other processes are arbitrary. */
  predicate Init(s: State)
  {
    forall p :: p in s.procs ==> s.procs[p].Other?
  }

  predicate IsRun(cfg: Config, s: State, steps: seq<Step>)
    decreases |steps|
  {
    steps == [] || (Enabled(cfg, s, steps[0]) && IsRun(cfg, Apply(cfg, s, steps[0]), steps[1..]))
  }

  function Exec(cfg: Config, s: State, steps: seq<Step>): State
    requires IsRun(cfg, s, steps)
    decreases |steps|
  {
    if steps == [] then s else Exec(cfg, Apply(cfg, s, steps[0]), steps[1..])
  }

  ghost predicate Reachable(cfg: Config, s: State)
  {
    exists s0, steps :: Init(s0) && IsRun(cfg, s0, steps) && s == Exec(cfg, s0, steps)
  }

  // ----- Safety -----

  /** The processes that may be writing an output: trainers, and sweeps rewriting a metrics file. */
  predicate Writes(s: State, p: Pid)
  {
    IsTrainer(s, p) || (IsSweep(s, p) && s.procs[p].pc.Rewriting?)
  }

  ghost predicate Safe(s: State)
  {
    && (forall p, q :: Writes(s, p) && Writes(s, q) ==> p == q)
    && (forall t :: IsTrainer(s, t) ==> s.procs[t].tag in s.markers)
  }

  /** A sweep past an empty listing: from here to the end of the attempt it acts as the only one. */
  predicate Hot(proc: Proc)
  {
    && proc.Sweep?
    && var pc := proc.pc;
       pc.Cleared? || pc.Marked? || pc.Waiting? || pc.Succeeded? || pc.Rewriting? || pc.RetryIdle? || pc.RetryUnlink?
  }

  predicate ProcOk(cfg: Config, markers: set<Tag>, proc: Proc)
  {
    match proc
    case Sweep(words, pc) => words in cfg.launches && (pc.Marked? ==> pc.tag in markers)
    case Trainer(words, tag) => words == cfg.trainer && tag in markers
    case Other(_) => true
  }

  /** At most one sweep is hot, at most one trainer lives, and a hot sweep is the one waiting on it. */
  ghost predicate Inv(cfg: Config, s: State)
  {
    && (forall p :: p in s.procs ==> ProcOk(cfg, s.markers, s.procs[p]))
    && (forall p, q :: p in s.procs && q in s.procs && Hot(s.procs[p]) && Hot(s.procs[q]) ==> p == q)
    && (forall t, u :: t in s.procs && u in s.procs && s.procs[t].Trainer? && s.procs[u].Trainer? ==> t == u)
    && (forall p, t :: p in s.procs && t in s.procs && Hot(s.procs[p]) && s.procs[t].Trainer? ==>
          s.procs[p].pc.Waiting? && s.procs[p].pc.child == t)
  }

  /** Every way of starting a sweep or a trainer is one the process filter recognises. */
  ghost predicate AllSeen(cfg: Config)
  {
    Seen(cfg.trainer) && forall w :: w in cfg.launches ==> Seen(w)
  }

  /** An empty listing means there is no other sweep and no trainer at all. */
  lemma QuietMeansAlone(cfg: Config, s: State, p: Pid)
    requires AllSeen(cfg) && Inv(cfg, s) && IsSweep(s, p) && Quiet(s, p)
    ensures forall q :: q in s.procs && q != p ==> s.procs[q].Other?
  {
    assert forall q :: q in s.procs && !s.procs[q].Other? ==> Seen(s.procs[q].words);
  }

  predicate NoTrainer(s: State)
  {
    forall t :: t in s.procs ==> !s.procs[t].Trainer?
  }

  predicate HotPc(pc: Pc)
  {
    Hot(Sweep([], pc))
  }

  /** A sweep that does not turn hot, and deletes a marker only while hot and childless, keeps the invariant. */
  lemma MoveKeepsInv(cfg: Config, s: State, p: Pid, pc: Pc, markers: set<Tag>)
    requires Inv(cfg, s) && IsSweep(s, p) && !pc.Waiting?
    requires At(s, p).Waiting? ==> NoTrainer(s)
    requires HotPc(pc) ==> HotPc(At(s, p))
    requires pc.Marked? ==> pc.tag in markers
    requires s.markers <= markers || HotPc(At(s, p))
    ensures Inv(cfg, Goto(s, p, pc).(markers := markers))
  {
    if HotPc(At(s, p)) {
      assert NoTrainer(s);
    }
  }

  lemma LookKeepsInv(cfg: Config, s: State, p: Pid, pc: Pc)
    requires AllSeen(cfg) && Inv(cfg, s) && IsSweep(s, p) && Quiet(s, p) && !pc.Marked?
    ensures Inv(cfg, Goto(s, p, pc))
  {
    QuietMeansAlone(cfg, s, p);
  }

  lemma AddKeepsInv(cfg: Config, s: State, p: Pid, proc: Proc)
    requires Inv(cfg, s) && p !in s.procs
    requires ProcOk(cfg, s.markers, proc) && !Hot(proc) && !proc.Trainer?
    ensures Inv(cfg, s.(procs := s.procs[p := proc]))
  {
  }

  lemma RemoveKeepsInv(cfg: Config, s: State, p: Pid)
    requires Inv(cfg, s)
    ensures Inv(cfg, s.(procs := s.procs - {p}))
  {
  }

  lemma SpawnKeepsInv(cfg: Config, s: State, p: Pid, child: Pid)
    requires Inv(cfg, s) && Enabled(cfg, s, Spawn(p, child))
    ensures Inv(cfg, Apply(cfg, s, Spawn(p, child)))
  {
    assert NoTrainer(s);
  }

  lemma ChildExitKeepsInv(cfg: Config, s: State, p: Pid, ok: bool)
    requires Inv(cfg, s) && Enabled(cfg, s, ChildExit(p, ok))
    ensures Inv(cfg, Apply(cfg, s, ChildExit(p, ok)))
  {
    var pc := At(s, p);
    RemoveKeepsInv(cfg, s, pc.child);
    var s1 := s.(procs := s.procs - {pc.child});
    var next := if ok then Succeeded(pc.tag) else Failed(pc.tag, pc.attempt);
    MoveKeepsInv(cfg, s1, p, next, s1.markers);
    assert Apply(cfg, s, ChildExit(p, ok)).procs == Goto(s1, p, next).procs;
  }

  lemma StepKeepsInv(cfg: Config, s: State, step: Step)
    requires AllSeen(cfg) && Inv(cfg, s) && Enabled(cfg, s, step)
    ensures Inv(cfg, Apply(cfg, s, step))
  {
    var after := Apply(cfg, s, step);
    if step.Launch? {
      AddKeepsInv(cfg, s, step.p, Sweep(step.words, Begin));
    } else if step.SpawnOther? {
      AddKeepsInv(cfg, s, step.p, Other(step.words));
    } else if step.Kill? {
      RemoveKeepsInv(cfg, s, step.p);
    } else if step.Spawn? {
      SpawnKeepsInv(cfg, s, step.p, step.child);
    } else if step.ChildExit? {
      ChildExitKeepsInv(cfg, s, step.p, step.ok);
    } else if step.WriteReport? {
    } else if (step.ListProcesses? || step.ListBeforeRetry?) && Quiet(s, step.p) {
      LookKeepsInv(cfg, s, step.p, At(after, step.p));
    } else {
      MoveKeepsInv(cfg, s, step.p, At(after, step.p), after.markers);
    }
  }

  lemma {:induction false} RunKeepsInv(cfg: Config, s: State, steps: seq<Step>)
    requires AllSeen(cfg) && Inv(cfg, s) && IsRun(cfg, s, steps)
    ensures Inv(cfg, Exec(cfg, s, steps))
    decreases |steps|
  {
    if steps != [] {
      StepKeepsInv(cfg, s, steps[0]);
      RunKeepsInv(cfg, Apply(cfg, s, steps[0]), steps[1..]);
    }
  }

  lemma ReachableInv(cfg: Config, s: State)
    requires AllSeen(cfg) && Reachable(cfg, s)
    ensures Inv(cfg, s)
  {
    var s0, steps :| Init(s0) && IsRun(cfg, s0, steps) && s == Exec(cfg, s0, steps);
    RunKeepsInv(cfg, s0, steps);
  }

  /** Both deletions of a marker happen only while no spawned trainer is alive anywhere. */
  lemma MarkerRemovedOnlyWhenDead(cfg: Config, s: State, step: Step)
    requires AllSeen(cfg) && Reachable(cfg, s) && Enabled(cfg, s, step)
    requires exists tag :: tag in s.markers && tag !in Apply(cfg, s, step).markers
    ensures forall t :: !IsTrainer(s, t)
  {
    ReachableInv(cfg, s);
    assert step.Unlink? || step.UnlinkStale?;
  }

  // ----- Exactly when the protocol is safe -----

  /** Appends steps to a run. */
  lemma {:induction false} RunConcat(cfg: Config, s: State, a: seq<Step>, b: seq<Step>)
    requires IsRun(cfg, s, a) && IsRun(cfg, Exec(cfg, s, a), b)
    ensures IsRun(cfg, s, a + b) && Exec(cfg, s, a + b) == Exec(cfg, Exec(cfg, s, a), b)
    decreases |a|
  {
    if a == [] {
      assert a + b == b;
    } else {
      RunConcat(cfg, Apply(cfg, s, a[0]), a[1..], b);
      assert (a + b)[0] == a[0] && (a + b)[1..] == a[1..] + b;
    }
  }

  lemma ReachableStep(cfg: Config, s: State, step: Step)
    requires Reachable(cfg, s) && Enabled(cfg, s, step)
    ensures Reachable(cfg, Apply(cfg, s, step))
  {
    var s0, steps :| Init(s0) && IsRun(cfg, s0, steps) && s == Exec(cfg, s0, steps);
    var one := [step];
    assert one[1..] == [];
    assert IsRun(cfg, Apply(cfg, s, step), one[1..]);
    RunConcat(cfg, s0, steps, one);
    assert Exec(cfg, s0, steps + one) == Apply(cfg, s, step);
  }

  lemma EmptyReachable(cfg: Config) returns (s: State)
    ensures Reachable(cfg, s) && s == State(map[], {}, {})
  {
    s := State(map[], {}, {});
    assert IsRun(cfg, s, []) && Exec(cfg, s, []) == s;
  }

  /** Moves a freshly launched sweep to the point before its process listing. */
  lemma ReachLook(cfg: Config, s: State, p: Pid, words: Words, tag: Tag) returns (after: State)
    requires Reachable(cfg, s) && p !in s.procs && words in cfg.launches
    requires tag !in s.metrics && tag !in s.markers
    ensures Reachable(cfg, after) && after == s.(procs := s.procs[p := Sweep(words, Look(tag, 1))])
  {
    ReachableStep(cfg, s, Launch(p, words));
    var s1 := Apply(cfg, s, Launch(p, words));
    ReachableStep(cfg, s1, PickArm(p, tag));
    var s2 := Apply(cfg, s1, PickArm(p, tag));
    ReachableStep(cfg, s2, TestMetrics(p));
    var s3 := Apply(cfg, s2, TestMetrics(p));
    ReachableStep(cfg, s3, TestMarker(p));
    after := Apply(cfg, s3, TestMarker(p));
  }

  /** A sweep that sees nobody goes on to spawn its trainer. */
  lemma ReachSpawn(cfg: Config, s: State, p: Pid, child: Pid) returns (after: State)
    requires Reachable(cfg, s) && IsSweep(s, p) && At(s, p).Cleared? && child !in s.procs
    ensures Reachable(cfg, after)
    ensures var pc := At(s, p);
            after == State(s.procs[p := s.procs[p].(pc := Waiting(pc.tag, pc.attempt, child))]
                          [child := Trainer(cfg.trainer, pc.tag)], s.markers + {pc.tag}, s.metrics)
  {
    ReachableStep(cfg, s, WriteMarker(p));
    var s1 := Apply(cfg, s, WriteMarker(p));
    ReachableStep(cfg, s1, Spawn(p, child));
    after := Apply(cfg, s1, Spawn(p, child));
  }

  /** A freshly launched sweep that finds a quiet table stands before writing the marker. */
  lemma ReachCleared(cfg: Config, s: State, p: Pid, words: Words, tag: Tag) returns (after: State)
    requires Reachable(cfg, s) && p !in s.procs && words in cfg.launches && Quiet(s, p)
    requires tag !in s.metrics && tag !in s.markers
    ensures Reachable(cfg, after) && after == s.(procs := s.procs[p := Sweep(words, Cleared(tag, 1))])
  {
    var a := ReachLook(cfg, s, p, words, tag);
    assert Quiet(a, p);
    ReachableStep(cfg, a, ListProcesses(p));
    after := Apply(cfg, a, ListProcesses(p));
  }

  /** From the empty table: a sweep and its trainer. */
  lemma ReachFirst(cfg: Config, words: Words, tag: Tag) returns (s: State)
    requires words in cfg.launches
    ensures Reachable(cfg, s)
    ensures s == State(map[1 := Sweep(words, Waiting(tag, 1, 3)), 3 := Trainer(cfg.trainer, tag)], {tag}, {})
  {
    var e := EmptyReachable(cfg);
    var b := ReachCleared(cfg, e, 1, words, tag);
    var c := ReachSpawn(cfg, b, 1, 3);
    s := State(map[1 := Sweep(words, Waiting(tag, 1, 3)), 3 := Trainer(cfg.trainer, tag)], {tag}, {});
    assert c == s;
  }

  /** A launch command the filter misses lets two sweeps train the same output at once. */
  lemma UnseenSweepUnsafe(cfg: Config, words: Words) returns (s: State)
    requires words in cfg.launches && !Seen(words)
    ensures Reachable(cfg, s) && !Safe(s)
  {
    hide Reachable;
    var e := EmptyReachable(cfg);
    var a := ReachLook(cfg, e, 1, words, "5k_edge0");
    var b := ReachCleared(cfg, a, 2, words, "5k_edge0");
    ReachableStep(cfg, b, ListProcesses(1));
    var d := Apply(cfg, b, ListProcesses(1));
    var f := ReachSpawn(cfg, d, 1, 3);
    s := ReachSpawn(cfg, f, 2, 4);
    assert Writes(s, 3) && Writes(s, 4);
  }

  /** A trainer the filter misses is invisible once orphaned, so another arm starts beside it. */
  lemma UnseenTrainerUnsafe(cfg: Config, words: Words) returns (s: State)
    requires words in cfg.launches && !Seen(cfg.trainer)
    ensures Reachable(cfg, s) && !Safe(s)
  {
    var c := ReachFirst(cfg, words, "5k_edge0");
    ReachableStep(cfg, c, Kill(1));
    var d := State(map[3 := Trainer(cfg.trainer, "5k_edge0")], {"5k_edge0"}, {});
    assert Apply(cfg, c, Kill(1)) == d;
    s := BesideOrphan(cfg, d, words);
  }

  /** An unseen trainer without a sweep does not stop the next one. */
  lemma BesideOrphan(cfg: Config, d: State, words: Words) returns (s: State)
    requires words in cfg.launches && !Seen(cfg.trainer) && Reachable(cfg, d)
    requires d == State(map[3 := Trainer(cfg.trainer, "5k_edge0")], {"5k_edge0"}, {})
    ensures Reachable(cfg, s) && !Safe(s)
  {
    assert "5k_rs_v1" != "5k_edge0" by {
      assert |"5k_rs_v1"| == |"5k_edge0"|;
      assert "5k_rs_v1"[3] != "5k_edge0"[3];
    }
    var g := ReachCleared(cfg, d, 2, words, "5k_rs_v1");
    s := ReachSpawn(cfg, g, 2, 4);
    assert Writes(s, 3) && Writes(s, 4);
  }

  /**
   Main result. In every interleaving of any number of sweeps, kills, orphans and retries, at
   most one process writes an output and a live trainer's marker exists, if and only if the
   process filter recognises every command line sweeps and trainers are started with.
   */
  lemma SafeExactlyWhenSeen(cfg: Config)
    requires cfg.launches != {}
    ensures (forall s :: Reachable(cfg, s) ==> Safe(s)) <==> AllSeen(cfg)
  {
    if AllSeen(cfg) {
      forall s | Reachable(cfg, s)
        ensures Safe(s)
      {
        ReachableInv(cfg, s);
      }
    } else if !Seen(cfg.trainer) {
      var w :| w in cfg.launches;
      var s := UnseenTrainerUnsafe(cfg, w);
    } else {
      var w :| w in cfg.launches && !Seen(w);
      var s := UnseenSweepUnsafe(cfg, w);
    }
  }

  lemma {:induction false} LastComponentOfJoin(dir: string, name: string)
    requires forall i :: 0 <= i < |name| ==> name[i] != '/'
    ensures LastComponent(dir + "/" + name) == name
    decreases |name|
  {
    var path := dir + "/" + name;
    if name != "" {
      var short := name[..|name| - 1];
      LastComponentOfJoin(dir, short);
      assert path[..|path| - 1] == dir + "/" + short;
      assert name == short + [name[|name| - 1]];
    }
  }

  lemma InterpreterName(dir: string, name: string)
    requires name != "" && forall i :: 0 <= i < |name| ==> name[i] != '/'
    ensures Name(dir + "/" + name) == name
  {
    var path := dir + "/" + name;
    assert path[|path| - 1] == name[|name| - 1];
    LastComponentOfJoin(dir, name);
  }

  /**
   A launch line is recognised exactly when the file name of its interpreter begins with `python` and
   some word of it holds the name of one of the two scripts.
   */
  lemma InterpreterDecides(dir: string, name: string, args: Words)
    requires name != "" && forall i :: 0 <= i < |name| ==> name[i] != '/'
    ensures Seen([dir + "/" + name] + args) <==>
              "python" <= name
              && exists w, i :: w in [dir + "/" + name] + args && 0 <= i <= |w|
                                && ("train_edge0_router" <= w[i..] || "run_routescout_sweep" <= w[i..])
  {
    var words := [dir + "/" + name] + args;
    InterpreterName(dir, name);
    if k :| 0 <= k < |words| && NamesTraining(words[k]) {
      assert words[k] in words;
    }
    if w, i :| w in words && 0 <= i <= |w| && ("train_edge0_router" <= w[i..] || "run_routescout_sweep" <= w[i..]) {
      assert NamesTraining(w);
    }
  }

  /** The orchestrator's own launch lines are recognised, whatever the directories, the version and the arguments. */
  lemma OwnLaunchesSeen(bin: string, version: string, tools: string, args: Words, script: string)
    requires script == "run_routescout_sweep.py" || script == "train_edge0_router.py"
    requires forall i :: 0 <= i < |version| ==> version[i] != '/'
    ensures Seen([bin + "/" + ("python" + version), tools + "/" + script] + args)
  {
    var name := "python" + version;
    var words := [bin + "/" + name, tools + "/" + script] + args;
    InterpreterName(bin, name);
    assert "python" <= name;
    assert words[1][|tools| + 1..] == script;
    if script == "run_routescout_sweep.py" {
      assert "run_routescout_sweep" <= words[1][|tools| + 1..];
    } else {
      assert "train_edge0_router" <= words[1][|tools| + 1..];
    }
    assert NamesTraining(words[1]);
  }

  /** A launch line that is not recognised: an interpreter file named `Python`, as in a macOS framework build. */
  lemma CapitalisedInterpreterUnseen(dir: string, args: Words)
    ensures !Seen([dir + "/" + "Python"] + args)
  {
    InterpreterName(dir, "Python");
    assert "python"[0] != "Python"[0];
  }
}
