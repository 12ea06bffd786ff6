# Verified models of Logan's core

Logan runs mixture-of-experts models from disk and trains a small router that predicts expert
routes. This project models the parts of it that tests cannot settle, and proves what they
promise for every input, every run and every reachable state.

| part | files | main result |
|---|---|---|
| single-writer training sweeps | `SweepProtocol`, `SweepRetry`, `TrainOnce` | safe in every interleaving if and only if the process filter recognises every launch line (`SafeExactlyWhenSeen`); after a failure a stale marker is cleared and the run repeated if and only if an attempt is left and nobody trains (`MarkerClearedExactlyWhenRetried`, `RetryTrainsAgain`); a launch cannot lead to a second training of an output if and only if no sweep stands between its empty listing and its trainer's report (`LaunchSafeExactlyWhenClear`, `TrainsOnceExactlyWhenLaunchedClear`) |
| append-only trace corpus | `TraceFile`, `TraceCorpus`, `TraceLayout`, `CorpusRestart`, `CorpusLoss` | from an empty directory, every state with an indexed run is intact if and only if the run indexed first was started with empty files (`IntactExactlyWhenFirstStartClean`); a collector may be restarted if and only if its predecessor's child is done and a run is indexed (`RestartSafeExactlyWhenSpent`); indexed bytes never change (`IndexedPrefixIsStable`) |
| readers of the corpus | `RunSelection`, `RunSelectionLaws`, `ScalePoints` | a scale point is the same records at any later time and in any head, also when collection goes on while it is read (`ScalePointIsStable`) |
| trace collector and validator | `TraceCollector`, `TemporalAlignment` | driving the double buffer over a decode appends exactly its trace (`Decode`), which keeps the head files contiguous and aligned (`DecodeKeepsValidating`); the alignment check reports nothing if and only if the traces are aligned |
| `.logan` v1 manifest | `Packing`, `ManifestReader`, `ManifestImage`, `ManifestTamper`, `ManifestLayout`, `ManifestWriter` | the parser accepts exactly the well-formed strings and refuses every damage to an image that a checksum or a fixed word can show (`HeaderDamageRefused` and its neighbours); encoding round-trips and its self-check fails only for a too new minimum reader (`ImageRoundTrip`, `Encode`) |
| binary32 to binary16 | `Rounding`, `HalfFloat` | both conversions round to nearest, ties to even (sections 3.4 and 4.3.1 of IEEE 754-2019), and the bfloat16 tensors word by word (`Bf16BytesToFp16`) |
| weight file and ANE graphs | `WeightBlob`, `MilGraph`, `PackedDense`, `GdnFront`, `GdnBuilder` | the packed dense graph is the plain matrix product (`IslandIsDense`); the GDN front, read against the weight file its builder wrote, is SiLU of the causal depthwise convolution if and only if it has at most 17 taps (`BuiltFrontIsExact`) |
| Qwen4 oracle addressing | `Bits`, `Primes`, `NgramIds`, `NgramHash` | head sizes are the successive primes; every digit of an n-gram's hash is a parity over its tokens' products, and changing one token changes the hash (`MixedIsHash`, `OneTokenChangesHash`); ids stay in their own slices and depend only on the last tokens (`ContextSuffices`) |
| route-budget study | `RouteBudget` | the greedy budget is the fewest experts that reach the threshold if and only if something is needed (`OracleBudget`, `WindowBudget`) |

`Bytes` and `Arithmetic` hold shared helpers. `dafny verify dfyconfig.toml` checks everything.

## How to read it

Protocols are transition systems: a `State`, a `Step` datatype, `Enabled`, `Apply`, and lemmas
about every execution. Objects and buffers that the code updates in place are classes and arrays
whose methods are proved against functions of the old state. Graph builders produce lists of
statements; `MilGraph.Run` gives those lists a meaning on index functions over the reals, and it
fails on a missing operand, a shape that does not fit, a rebound identifier or a wrong declared
shape. Proofs about a graph name its tensors by constructors; the results are about the program
as it is written, with the identifiers that the code prints (`Ident`, `Written`), so a "runs"
result also says that no identifier is bound twice.

## What turned out to hold only under a condition

- **Sweeps.** Mutual exclusion rests on the process listing recognising every sweep and trainer.
  `UnseenSweepUnsafe` and `UnseenTrainerUnsafe` reach two writers otherwise;
  `OwnLaunchesSeen` shows that the repository's own launch lines are recognised, and
  `CapitalisedInterpreterUnseen` gives one that is not: an interpreter file named `Python`.
- **Each scale trained once.** A sweep tests for the metrics before it lists processes, so recognising
  every launch line does not keep a finished output from being trained again
  (`FinishedOutputTrainedAgain`). With all of them recognised, what follows a launch can train an output
  again if and only if at the launch another sweep stands between its empty listing and its trainer's
  report; a run whose launches all avoid that trains nothing twice. The orchestrator's guard, which
  waits until nothing trains, is stricter than needed: beside an orphaned trainer a launch is safe
  (`LaunchBesideOrphan`).
- **Trace corpus, first run.** Startup recovery runs only with a non-empty index, and a file without a
  complete record is skipped, so a first run that dies can leave bytes in front of the next one.
  The corpus is intact from the first indexed run on if and only if that run was started with every
  owner file empty. `FirstCrashLosesNextRun` shows what the leftover byte costs: the next recovery
  erases the indexed run, and no execution in which runs start behind whole records brings it back
  (`LostForGood`). Without that condition it can be masked: `LostRunCanBeForged` has two failed runs
  leave bytes that recovery takes for the lost records.
- **Trace corpus, restart.** A starting collector does not look for a child of its predecessor. Restarting
  is safe if and only if that child has nothing left to write and a run is indexed already
  (`RestartSafeExactlyWhenSpent`); with nothing indexed, a failed run and its leftover bytes suffice
  to break the corpus later (`FirstStartBreaks`).
- **Recovery of small records.** A record size below 8 in a header can make recovery raise, at the
  record whose run id is cut off; the files before it are then recovered and the others not
  (`TruncateOrphanRuns`). From 8 bytes on it never raises (`WideReadable`).
- **GDN front.** The reshaped history and the column of tap 16 are printed with the same identifier, `h16`
  (`SharedIdent`). Programs of 18 or more taps therefore do not run, though the checks accept such
  shapes (`KernelEighteenFails`).
- **One decode per run.** A second decode under the same run id starts its generations at 1 again; the file
  stays contiguous if and only if one of the two wrote nothing (`SecondDecodeExact`).
- **Alignment check.** It raises for a run whose records all have generation 0, and only then, unless it
  has stopped after five mismatches before it gets there.
- **Oracle budget.** With nothing needed the loop still takes one expert before it looks, so the
  budget is 1 and not 0. The study's own thresholds always need something
  (`StudyThresholdsNeedSomething`). The subtracted 1e-12 asks for one event less exactly when the
  share lies above a whole number of events by no more than that (`NeedIsCeiling`). The budget then
  misses the share if and only if no set of its size takes more events than that
  (`SlackMissesShare` is such a window); whole percentages never come so close
  (`PercentagesNeverJustAbove`).
- **Multiplier range.** Token times multiplier stays below 2^63 for exactly the vocabularies of at
  most 2^63 tokens (`ProductsFit`).
- **Padding.** The double quotient pads every table right up to a size, whatever the multiple, if and only if
  that size is at most 2^53; 2^53 + 1 entries with multiple 1 are padded to 2^53 (`PaddedExactly`).
- **Signed ids.** Ids are added in unsigned and cast to signed 64 bits; a head's ids lie in its slice for every
  remainder if and only if the slice ends at or below 2^63 (`PlacedExactly`).
- **N-gram rows.** For an empty token list the slice from `-0` keeps everything, so the padding
  rows come back (`NgramHash.NgramRows`).
- **Prefix loader.** Its documentation says that it refuses a file in which an allowed run has
  records behind the chosen boundary. The code has no such check: of the column 7, 9, 7 with only
  run 7 allowed it keeps one record (`AllowedRunBehindCut`). On a good corpus nothing allowed lies
  behind the cut if and only if the allowed runs are the first ones of the index
  (`NothingAllowedBehindExactly`).

## Model

| member | source | states |
|---|---|---|
| SweepProtocol.LiveTrainers | tools/run_routescout_sweep.py:101-136 | the scan finds exactly the other processes that run python on a training script |
| SweepProtocol.ListingDecidesQuiet | tools/run_routescout_sweep.py:101-136 | on any listing of the process table the scan is empty if and only if nobody else is training |
| SweepProtocol.StepKeepsInv | tools/run_routescout_sweep.py:178-318 | every step of every process, including kills and orphaning, keeps the single-writer invariant |
| SweepProtocol.ReachableInv | tools/run_routescout_sweep.py:178-318 | the invariant holds in every reachable state of any number of sweeps |
| SweepProtocol.MarkerRemovedOnlyWhenDead | tools/run_routescout_sweep.py:201-226 | a marker is deleted only while no spawned trainer is alive |
| SweepProtocol.UnseenSweepUnsafe | tools/run_routescout_sweep.py:101-136 | a launch line the filter misses leads to two writers |
| SweepProtocol.UnseenTrainerUnsafe | tools/run_routescout_sweep.py:101-136 | a trainer line the filter misses leads to two writers |
| SweepProtocol.SafeExactlyWhenSeen | tools/run_routescout_sweep.py:246-308 | in every interleaving at most one writer and a marker for every live trainer, if and only if every launch line is recognised |
| SweepProtocol.OwnLaunchesSeen | tools/routescout_overnight.py:297-302 | the repository's launch lines are recognised whatever the directories, the version in the interpreter's name and the arguments |
| SweepProtocol.InterpreterDecides | tools/run_routescout_sweep.py:126-133 | a launch line is recognised if and only if its interpreter's file name begins with `python` and some word holds the name of one of the two scripts |
| SweepProtocol.CapitalisedInterpreterUnseen | tools/run_routescout_sweep.py:128-133 | a launch line whose interpreter file is named `Python` is not recognised, whatever the directory and arguments |
| SweepRetry.RetryTrainsAgain | tools/run_routescout_sweep.py:201-226 | after a failure with an attempt left, a marker and nobody training, the sweep's own steps first remove the marker and nothing else, and then come to wait on a new trainer of the output |
| SweepRetry.MarkerClearedExactlyWhenRetried | tools/run_routescout_sweep.py:201-226 | after a failure the sweep's own steps up to the end of the arm can change a marker if and only if an attempt is left, nobody trains and the marker is there |
| SweepRetry.ArmGivenUp | tools/run_routescout_sweep.py:209-223 | otherwise the arm ends with the marker as it was |
| SweepRetry.CrashedArmRetried | tools/run_routescout_sweep.py:201-308 | a trainer that crashed before it reported is replaced by a new one as long as an attempt is left |
| SweepRetry.RefusedArmRetried | tools/run_routescout_sweep.py:201-268 | the marker of a run that crashed earlier is refused once, cleared and followed by a new trainer |
| SweepRetry.ArmTrained | tools/run_routescout_sweep.py:246-301 | a new output, with nobody training, gets its trainer at the first attempt |
| SweepRetry.ArmFinished | tools/run_routescout_sweep.py:301-318 | when the trainer has reported and returned 0 its marker goes and its metrics stay |
| SweepRetry.AttemptsBoundTrainers | tools/run_routescout_sweep.py:201-226 | whatever other processes do, one arm starts at most as many trainers as it has attempts left, at most two |
| TrainOnce.StepKeepsOrderly | tools/run_routescout_sweep.py:201-318 | while launches are clear, every step keeps what each point of a sweep implies about its output's metrics, marker and trainers |
| TrainOnce.LaunchedClearTrainsOnce | tools/routescout_overnight.py:317-320 | a run whose launches are all clear starts no trainer for an output that has metrics |
| TrainOnce.LaunchSafeExactlyWhenClear | tools/run_routescout_sweep.py:246-308 | after a launch no continuation without further launches trains an output again if and only if no sweep is between its empty listing and its trainer's report at the launch |
| TrainOnce.TrainsOnceExactlyWhenLaunchedClear | tools/routescout_overnight.py:317-320 | the launches of a run are all clear if and only if from no point of it going on without further launches can train an output again |
| TrainOnce.LaunchedAloneTrainsOnce | tools/routescout_overnight.py:290-296 | launching only while nothing trains, as the orchestrator's guard has it, suffices |
| TrainOnce.FinishedOutputTrainedAgain | tools/run_routescout_sweep.py:246-268 | whichever launch lines are recognised, two launches can train a finished output again |
| TrainOnce.LaunchBesideOrphan | tools/run_routescout_sweep.py:246-268 | a reachable state in which a trainer lives and a launch still leads to no second training |
| TraceFile.WalkBack | tools/collect_routescout_corpus.py:78-88 | for any non-zero record size the backward walk finds the cut right behind the last record of a known run, or fails exactly when the last record's run id is cut off |
| TraceFile.RecoverFile | tools/collect_routescout_corpus.py:66-92 | a file becomes its longest record prefix that is empty or ends in a known run; short headers, zero record sizes and files without a record are left alone; it raises exactly for an unreadable last record and then leaves the file alone (`RecoverLayout` says where the record size is read) |
| TraceFile.WideReadable | tools/collect_routescout_corpus.py:80-88 | record sizes of at least 8 never make recovery raise |
| TraceFile.TruncateOrphanRuns | tools/collect_routescout_corpus.py:63-102 | every file up to the first unreadable one is recovered in place, the others are untouched, and the changed files are counted |
| TraceFile.ColumnAppend | tools/collect_routescout_corpus.py:75-88 | appending behind whole records appends to the run-id column and disturbs no earlier record |
| TraceLayout.HeaderNamesSize | logan-qwen4/src/edge0_train_trace.rs:382-403 | recovery reads the record size that the writer put behind magic, version, four short fields and header size, whatever they are |
| TraceLayout.RecoverLayout | tools/collect_routescout_corpus.py:69-92 | for every header the writer lays out, any record size, payload and known runs, recovery succeeds if and only if the payload is readable and returns the header with the cut payload |
| TraceLayout.ColumnOfRecords | logan-qwen4/src/edge0_train_trace.rs:262-264 | the column of written records, with part of one more behind them, is their run ids |
| TraceLayout.RecoverDirectory | tools/collect_routescout_corpus.py:63-102 | recovering a directory of written files never raises and cuts every payload behind its header |
| TraceCorpus.RecoveryCutsTail | tools/collect_routescout_corpus.py:49-102 | with a run indexed, recovery removes exactly the unindexed tail with its partial record |
| TraceCorpus.RecoveryWithoutIndex | tools/collect_routescout_corpus.py:76-77 | with nothing indexed, recovery drops whole records but not a lone partial one |
| TraceLayout.RecoveryStepOnDisk | tools/collect_routescout_corpus.py:63-102 | the corpus's recovery step is the recovery of one written file, header included |
| TraceCorpus.StepKeepsGood | tools/collect_routescout_corpus.py:134-269 | start, append, exit, failure, crash, restart, an orphan's appends and end, and each single recovery step keep every owner file equal to the indexed runs in order plus one unindexed tail; excepted are a first start over leftover bytes and a restart beside an unfinished orphan |
| TraceCorpus.IntactExactlyWhenFirstStartClean | tools/collect_routescout_corpus.py:52-62 | in every execution from an empty directory without a restart beside an unfinished orphan, all states with an indexed run are intact if and only if the run indexed first was started with every owner file empty |
| TraceCorpus.OnceIndexedAlwaysGood | tools/collect_routescout_corpus.py:134-269 | from a good state with an indexed run on, every execution without a restart beside an unfinished orphan keeps the invariant |
| CorpusRestart.OverlapBreaks | tools/collect_routescout_corpus.py:119-137 | a restart beside an unfinished orphan can be followed by an execution that breaks the corpus |
| CorpusRestart.FirstStartBreaks | tools/collect_routescout_corpus.py:134-137 | with an owner and nothing indexed, some execution after a start breaks the corpus |
| CorpusRestart.RestartSafeExactlyWhenSpent | tools/collect_routescout_corpus.py:119-137 | after a restart every execution keeps the corpus intact if and only if no orphan has anything left to write and a run is indexed (or there is no owner) |
| TraceCorpus.OwnersAgreeBetweenRuns | tools/collect_routescout_corpus.py:52-62 | between runs all owner files hold the same run sequence, tokens - 2 records each |
| TraceCorpus.IndexedPrefixIsStable | tools/routescout_overnight.py:317-320 | the index only grows and the indexed bytes of every owner never change |
| CorpusLoss.FirstCrashLosesNextRun | tools/collect_routescout_corpus.py:134-137 | a reachable execution in which one leftover byte makes recovery erase the run indexed next; no later state holds a record of it or is intact while runs start behind whole records |
| CorpusLoss.LostForGood | tools/collect_routescout_corpus.py:49-102 | an indexed run without records in an owner file stays without them, and the corpus never becomes intact, in every execution whose runs start behind whole records in that file |
| CorpusLoss.LostRunCanBeForged | tools/collect_routescout_corpus.py:66-92 | without that condition two failed runs can leave bytes that recovery takes for the lost run's records |
| RunSelection.Boundaries | tools/train_edge0_router.py:183-189 | the boundary list is the column's maximal blocks in order, up to its end |
| RunSelection.LoadTracePrefix | tools/train_edge0_router.py:172-216 | the result is the longest leading sequence of whole runs that are all allowed and not short, if that is not empty; empty columns and empty prefixes are refused, and the final assertion never fails |
| RunSelection.AllowedRunBehindCut | tools/train_edge0_router.py:160-163 | of the column 7, 9, 7 with run 7 allowed one record is kept, with an allowed record behind it |
| RunSelection.KeepRunsIs | tools/train_edge0_router.py:191-203 | the longest whole-run prefix is unique and found by walking block by block |
| RunSelection.LoadCorpusIndex | tools/train_edge0_router.py:262-272 | every bank's runs in collection order, banks without runs absent; entries without a run id are skipped |
| RunSelectionLaws.NamedRunsPick | tools/train_edge0_router.py:262-272 | the named runs are exactly the entries with a run id, in order |
| RunSelectionLaws.BankRunsPick | tools/train_edge0_router.py:262-272 | a bank's runs are exactly its entries' runs, in order |
| RunSelectionLaws.WholePoolSplit | tools/train_edge0_router.py:298-334 | without a limit every record of an indexed training run trains and every one of the other bank validates, in file order; it is refused exactly when one of them has no record |
| RunSelectionLaws.WholePoolAllowed | tools/train_edge0_router.py:703-727 | without a limit the allowed runs are those of both banks |
| RunSelection.SnapshotCut | tools/snapshot_routescout_corpus.py:97-120 | a cut is made if and only if the wanted runs are exactly the column up to their last record and have the expected count; it is that record |
| RunSelection.AvailablePoolRuns | tools/run_routescout_sweep.py:52-98 | counts the bank's runs that have all their records |
| RunSelectionLaws.CompleteRunsIs | tools/run_routescout_sweep.py:52-98 | the count is the number of the bank's entries with a run id and at least tokens - 2 records in the trace; a truncated run is not counted |
| ScalePoints.GoodColumn | tools/collect_routescout_corpus.py:52-62 | in every intact state, mid-run included, each head shows the indexed runs and then only unindexed ones |
| ScalePoints.LoaderKeepsLeading | tools/train_edge0_router.py:191-203 | on a good corpus the loader keeps exactly the leading allowed runs of the index |
| ScalePoints.NothingAllowedBehindExactly | tools/train_edge0_router.py:146-163 | on a good corpus no allowed record lies behind the loader's cut if and only if the allowed runs are the first ones of the index |
| ScalePoints.ReadFilled | tools/train_edge0_router.py:703-727 | with v validation runs, then n pool runs and no validation run right behind, the scale point is the records of those n and validation the records before them, however the index grows between its three reads |
| ScalePoints.ScalePointFilled | tools/train_edge0_router.py:298-334 | the same when nothing is collected while it is read |
| ScalePoints.ScalePointShort | tools/train_edge0_router.py:304-312 | a shortfall is refused, never relabelled |
| ScalePoints.ScalePointExact | tools/train_edge0_router.py:298-334 | a scale point is granted if and only if n pool runs follow the leading validation runs |
| ScalePoints.ScalePointIsStable | tools/train_edge0_router.py:703-727 | reading index, index again, any head's file and index once more in later and later states (without a restart beside an unfinished orphan) selects the positions that the first state determines, with the bytes it held, unless a validation run lies right behind the pool runs |
| ScalePoints.ScalePointsNest | tools/train_edge0_router.py:283-291 | of two granted scale points, read from any two heads, the larger extends the smaller record by record, both share validation, and training is disjoint from it |
| ScalePoints.SnapshotCutsWhereLoaderDoes | tools/snapshot_routescout_corpus.py:97-120 | a successful snapshot of the allowed runs cuts at the loader's record |
| ScalePoints.LeadingRunsSnapshot | tools/snapshot_routescout_corpus.py:97-120 | leading index entries are a contiguous prefix with the expected count, so their snapshot succeeds |
| ScalePoints.IndexedRunsComplete | tools/run_routescout_sweep.py:52-98 | on a good corpus every indexed run of a bank counts as complete |
| TemporalAlignment.GenerationsContiguous | tools/validate_edge0_traces.py:115-127 | passes if and only if each record's generation is one more than the number of earlier records of its run |
| TemporalAlignment.MaxGenerations | tools/validate_edge0_traces.py:214-219 | the dictionary holds the largest generation of every run that has a positive one, and that generation occurs |
| TemporalAlignment.CheckPair | tools/validate_edge0_traces.py:204-246 | on contiguous heads an owner adds no mismatch if and only if it is aligned with its consumer; it raises only for a run with generation 0 only; early exit included |
| TemporalAlignment.CheckTemporalAlignment | tools/validate_edge0_traces.py:156-247 | on contiguous heads it does not raise, reports no mismatch if and only if every adjacent pair is aligned, and then has compared every pair; on any heads it raises only for a run with generation 0 only |
| TemporalAlignment.ContiguousAppend | tools/validate_edge0_traces.py:115-127 | behind records of other runs contiguity is decided by the appended records |
| TemporalAlignment.AlignedAppend | tools/validate_edge0_traces.py:156-247 | aligned heads stay aligned when both gain aligned records of fresh runs |
| TraceCollector.Decode | logan-qwen4/src/edge0_train_trace.rs:158-248 | a collector driven over T tokens appends to each owner's file exactly T - 1 records and nothing to any other file; when every expert fits in 16 bits, record g holds the owner's route of token g, its route before (sentinels for g = 1) and the next layer's route of token g + 1 |
| TraceCollector.FixedKeeps | logan-qwen4/src/edge0_train_trace.rs:439-450 | a recorded route has the fixed width, keeps each position whose expert exists and fits and marks every other with 65535; a route of that width whose experts fit is recorded as it is |
| TraceCollector.DecodeKeepsValidating | logan-qwen4/src/edge0_train_trace.rs:7-14 | head files that are contiguous and aligned still are after a decode under a fresh run id, owner 37 included |
| TraceCollector.SecondDecodeExact | logan-qwen4/src/edge0_train_trace.rs:156-160 | after a second decode under one run id the file is contiguous if and only if one of the two wrote nothing |
| ManifestReader.CheckedTable | logan-artifact/src/lib.rs:119-138 | accepts exactly the tables inside the file, without overflow |
| ManifestReader.ParseSections | logan-artifact/src/lib.rs:219-268 | accepts exactly the tables whose sections are in place, checksummed, strictly ordered, with zero reserved words |
| ManifestReader.ParseFiles | logan-artifact/src/lib.rs:270-292 | accepts exactly dense ids, known kinds and zero reserved words |
| ManifestReader.Parse | logan-artifact/src/lib.rs:141-322 | succeeds if and only if the bytes are well formed and returns what they say; at most len/32 sections and len/24 files are reserved |
| ManifestTamper.AcceptedBytes | logan-artifact/src/lib.rs:141-217 | every accepted string has the magic, version 1, header size 64, a reader of at most 1.0, a generation, the checksum of bytes 0 to 58, zero reserved bytes, the trailer, and both tables behind the header and inside the string |
| ManifestTamper.AcceptedOrder | logan-artifact/src/lib.rs:228-233 | section kinds of an accepted string increase strictly |
| ManifestTamper.AcceptedFileEntry | logan-artifact/src/lib.rs:270-292 | every file entry of an accepted string has its index as id, a known kind and a zero reserved word |
| ManifestTamper.HeaderDamageRefused | logan-artifact/src/lib.rs:183-188 | an image whose bytes 0 to 58 are changed to others with another checksum is refused, whatever they say |
| ManifestTamper.ChecksumDamageRefused | logan-artifact/src/lib.rs:180-188 | any change of the stored checksum and the reserved word behind it is refused |
| ManifestTamper.FixedDamageRefused | logan-artifact/src/lib.rs:141-165 | any change of magic and major version, or of the header size, is refused even if the checksum still fits |
| ManifestTamper.TrailerDamageRefused | logan-artifact/src/lib.rs:207-217 | any change of the trailer's magic or of its last four bytes is refused |
| ManifestTamper.PayloadDamageRefused | logan-artifact/src/lib.rs:253-258 | a payload changed to one with another checksum is refused |
| ManifestTamper.SectionReservedRefused | logan-artifact/src/lib.rs:223-227 | a changed reserved word of a section entry is refused |
| ManifestTamper.FileDamageRefused | logan-artifact/src/lib.rs:270-282 | a changed id or reserved word of a file entry is refused |
| ManifestTamper.SizeDamageRefused | logan-artifact/src/lib.rs:294-303 | an image cut short or with bytes behind it is refused |
| ManifestReader.AcceptedSections | logan-artifact/src/lib.rs:240-262 | a listed section is found under its kind with exactly its range, checksummed, inside the body and clear of both tables |
| ManifestReader.AcceptedLookup | logan-artifact/src/lib.rs:324-329 | in an accepted manifest a kind is found if and only if exactly one section has it, and there are at most 65536 sections |
| ManifestReader.MissingSection | logan-artifact/src/lib.rs:324-329 | a kind that is not listed is not found |
| ManifestImage.ZonesTile | logan-artifact/src/lib.rs:408-436 | header, section table, file table, payloads and trailer tile the output with no gap or overlap |
| ManifestImage.ImageRoundTrip | logan-artifact/src/lib.rs:402-496 | the encoded bytes are accepted if and only if the minimum reader is at most 1.0, and read back as the builder's fields, sections and files behind the self entry |
| ManifestImage.PayloadRoundTrip | logan-artifact/src/lib.rs:324-329 | every section's payload is found under its kind in the encoded bytes |
| ManifestLayout.HeaderLayout | logan-artifact/src/lib.rs:436-449 | the bytes of the written header that hold each field, with the tables at 64 and behind the section entries |
| ManifestLayout.SectionLayout | logan-artifact/src/lib.rs:451-461 | the bytes of each section entry that hold kind, flags, offset, length and checksum; each payload starts behind both tables and the payloads before it |
| ManifestLayout.FileLayout | logan-artifact/src/lib.rs:466-482 | the bytes of each file entry that hold id, name, size and kind; the first is the manifest with the size of the whole |
| ManifestWriter.PutSectionEntry | logan-artifact/src/lib.rs:454-460 | the single writes put the packed entry over zeroed bytes |
| ManifestWriter.PutSections | logan-artifact/src/lib.rs:454-464 | section table and payloads are filled side by side with the advancing payload offset |
| ManifestWriter.WriteImage | logan-artifact/src/lib.rs:438-493 | the in-place writes produce exactly the five zones |
| ManifestWriter.ManifestBuilder.AddSection | logan-artifact/src/lib.rs:373-383 | appends the section; a kind already present is refused and nothing changes |
| ManifestWriter.ManifestBuilder.AddFile | logan-artifact/src/lib.rs:387-400 | appends the file with the next dense id; manifest and unknown kinds are refused |
| ManifestWriter.ManifestBuilder.Encode | logan-artifact/src/lib.rs:402-496 | succeeds if and only if the sizes fit and the minimum reader is at most 1.0; the result is the image of the sorted builder |
| ManifestWriter.EncodingIgnoresOrder | logan-artifact/src/lib.rs:403 | builders that differ in section order encode to the same bytes |
| HalfFloat.F32ToF16Bits | logan-ane/examples/qwen38_gdn_ab.rs:24-72 | nearest binary16 with ties to even for every finite input, sign kept, infinities kept, NaNs kept with payload |
| HalfFloat.OverflowThreshold | logan-ane/examples/qwen38_gdn_ab.rs:24-72 | rounding overflows to infinity exactly from 65520 upward |
| HalfFloat.F32ToF16BitsQuiet | logan-ane/examples/qwen38_gdn_fp16_ab.rs:13-54 | the second conversion rounds the same way and makes every NaN quiet |
| HalfFloat.CompareNarrowings | logan-ane/examples/qwen38_gdn_fp16_ab.rs:13-54 | the two conversions differ exactly on NaNs whose kept payload is not the quiet one |
| HalfFloat.F16ToF32 | logan-ane/examples/qwen38_gdn_fp16_ab.rs:56-78 | widening is exact, through the normalising loop for subnormals |
| HalfFloat.WidenThenNarrow | logan-ane/examples/qwen38_gdn_fp16_ab.rs:56-78 | widening then narrowing gives back all 65536 patterns |
| HalfFloat.NarrowingMonotone | logan-ane/examples/qwen38_gdn_ab.rs:24-72 | narrowing keeps the order of finite values of either sign |
| HalfFloat.Bf16BytesToFp16 | logan-ane/examples/qwen38_gdn_ab.rs:74-87 | of words laid end to end, low byte first, it succeeds if and only if no word has exponent 255, and then gives for each the nearest binary16 of the value that its sign, exponent and fraction bits stand for; odd lengths are refused |
| HalfFloat.EvenIsLaid | logan-ane/examples/qwen38_gdn_ab.rs:74-87 | every tensor of even length is some sequence of words |
| WeightBlob.BlobV2Builder.Push | logan-ane/src/blob.rs:85-119 | the new record is stored at the returned aligned offset, all earlier records stay, the header counts it; a refusal changes no record |
| WeightBlob.BlobV2Builder.PushFp16 | logan-ane/src/blob.rs:122-137 | stores the little-endian words of the values as one record |
| WeightBlob.PushAllStores | logan-ane/src/blob.rs:65-118 | after any accepted pushes every offset locates its record's type, length, position and bytes, records never overlap, the count is the number of pushes |
| WeightBlob.FirstMetadata | logan-ane/src/blob.rs:105-110 | the bytes of a half-precision record's metadata block at offset 64 |
| WeightBlob.FirstRecordBytes | logan-ane/src/blob.rs:85-119 | the first record of a fresh file sets the count and follows the header |
| PackedDense.BuildIsland | logan-ane/src/mil.rs:865-945 | accepts exactly the non-empty shapes without overflow and emits the graph with its layout |
| PackedDense.RegionsTile | logan-ane/src/mil.rs:884-891 | every column behind the activation belongs to exactly one weight region |
| PackedDense.ConstantsApart | logan-ane/src/mil.rs:901-930 | no tensor shares an identifier with a shape or attribute constant |
| PackedDense.ConstantsDiffer | logan-ane/src/mil.rs:901-930 | no two constants share one |
| PackedDense.IslandIsDense | logan-ane/src/mil.rs:863-945 | the written graph runs on the documented packing and output k is the sum over i of W_k[o, i] x[i, s] |
| GdnFront.HistoryAt | logan-ane/src/mil.rs:505-507 | the flat [I, S] to [C, kernel] reshape puts history slot t of channel c where the formula reads it |
| GdnFront.SharedIdent | logan-ane/src/mil.rs:505-547 | the only two tensors printed with one identifier are the history and the column of tap 16 |
| GdnFront.ConstantsApart | logan-ane/src/mil.rs:492-600 | no tensor shares an identifier with a shape or attribute constant |
| GdnFront.ConstantsDiffer | logan-ane/src/mil.rs:492-600 | no two constants share an identifier |
| GdnFront.KernelEighteenFails | logan-ane/src/mil.rs:505-547 | a shape of 18 taps that the checks accept and whose written program does not run |
| GdnFront.FrontIsExact | logan-ane/src/mil.rs:492-600 | for every accepted shape the written program runs and computes y, qkv and the packed auxiliary projections by the plain formulas if and only if there are at most 17 taps |
| GdnBuilder.StoreTaps | logan-ane/src/mil.rs:482-488 | storing succeeds if and only if all records fit; then each tap's weight column is stored, and earlier records stay in any case |
| GdnBuilder.BuildFront | logan-ane/src/mil.rs:416-602 | builds if and only if the shape passes the checks and the weight file has room for the records; the result is the written program of that shape with every constant stored at its offset |
| GdnBuilder.ConstantsLineUp | logan-ane/src/mil.rs:482-488 | the constants that the graph reads are the given weights, each tap its own column |
| GdnBuilder.BuiltFrontIsExact | logan-ane/src/mil.rs:416-602 | a built front, run against the weight file it wrote, computes the plain formulas with the given weights if and only if it has at most 17 taps |
| Primes.TestPrime | tools/qwen4_oracle.py:44-52 | odd trial division up to the integer square root decides primality |
| Primes.PrimeAbove | tools/qwen4_oracle.py:55-61 | a prime exists above every bound, so the search ends |
| Primes.NthPrimeAfter | tools/qwen4_oracle.py:55-61 | returns exactly the count-th prime above the start |
| Primes.NthUnique | tools/qwen4_oracle.py:55-61 | there is only one count-th prime above a start |
| NgramIds.ShiftMeaning | tools/qwen4_oracle.py:160-171 | the cumulative-maximum shift is the token n places back if no end token lies between, else the end token |
| NgramIds.BuildMultipliers | tools/qwen4_oracle.py:148-157 | one odd multiplier below the bound per position, each from its own counter value |
| NgramIds.HalfBoundIs | tools/qwen4_oracle.py:148-151 | the bound is the largest number whose double, times the vocabulary size, is a signed 64-bit integer, and 1 when there is none |
| NgramHash.MultiplierIs | tools/qwen4_oracle.py:153-157 | a multiplier is odd and its half is the position's word modulo the bound |
| NgramHash.SplitMixStages | tools/qwen4_oracle.py:37-41 | the three stages of the mixing function in binary digits, with its constants |
| NgramHash.SplitMixInjective | tools/qwen4_oracle.py:37-41 | the mixing function maps different 64-bit words to different words |
| NgramHash.WordsDiffer | tools/qwen4_oracle.py:153-157 | the words behind the multipliers of two positions differ |
| NgramIds.ProductsFit | tools/qwen4_oracle.py:148-157 | all products stay below 2^63 if and only if the vocabulary is at most 2^63 |
| NgramIds.BuildHeads | tools/qwen4_oracle.py:134-142 | head sizes are the successive primes, offsets their running sums |
| NgramIds.SlicesTile | tools/qwen4_oracle.py:134-143 | the heads' slices are disjoint and together are the whole table |
| NgramIds.PaddedFits | tools/qwen4_oracle.py:144-145 | the padded size is the next multiple despite the double quotient, up to 2^53 entries |
| NgramIds.PaddedExactly | tools/qwen4_oracle.py:144-145 | padding is right for all tables up to a size, whatever the multiple, if and only if that size is at most 2^53 |
| NgramIds.PlacedExactly | tools/qwen4_oracle.py:186-190 | unsigned addition and the signed cast keep every remainder of a head in its slice if and only if the slice ends at or below 2^63 |
| NgramIds.IdInOwnSlice | tools/qwen4_oracle.py:186-190 | every id of a head whose slice ends at or below 2^63 lies in that slice |
| NgramIds.IdsDisjointAndFit | tools/qwen4_oracle.py:134-190 | in tables of at most 2^63 entries ids of different heads differ; up to 2^53 entries all index the padded table |
| NgramIds.NoWrap | tools/qwen4_oracle.py:183-185 | with tokens in range no 64-bit product wraps |
| NgramIds.ContextSuffices | tools/qwen4_oracle.py:173-190 | recomputing from the last ngram_size - 1 tokens of context gives the same ids |
| Bits.XorBit | tools/qwen4_oracle.py:185 | a digit of the exclusive or is set if and only if it is set in exactly one of the two numbers |
| NgramHash.MixedIsHash | tools/qwen4_oracle.py:183-185 | digit j of the hash of n tokens is the parity of digit j over the n products of the token k places back and multiplier k, modulo 2^64 |
| NgramHash.OneTokenChangesHash | tools/qwen4_oracle.py:183-185 | two n-grams that differ in exactly one token, whose multiplier is odd, have different hashes |
| NgramHash.IdIs | tools/qwen4_oracle.py:186-190 | an id is the one signed 64-bit integer that agrees with hash modulo size plus offset, and that sum itself when the slice ends at or below 2^63 |
| NgramHash.NgramRows | tools/qwen4_oracle.py:173-190 | one row per token, entry h of it the id of the n-gram of h / heads_per_ngram + 2 tokens that ends there, told from tokens and multipliers; an empty list gives the rows of the padding positions |
| RouteBudget.OracleBudget | tools/study_multihorizon_routes.py:142-152 | the greedy count is the minimum number of experts that reach the need if and only if the need is positive or there are no events |
| RouteBudget.PrefixIsBest | tools/study_multihorizon_routes.py:143-151 | no set of n experts covers more than the n most frequent |
| RouteBudget.NeedIsCeiling | tools/study_multihorizon_routes.py:144 | the needed events are the share rounded up, one less exactly when the share is above a whole number by at most 1e-12 |
| RouteBudget.SlackMissesShare | tools/study_multihorizon_routes.py:142-152 | a window and a threshold whose budget of one expert misses the share |
| RouteBudget.PercentagesNeverJustAbove | tools/study_multihorizon_routes.py:33 | for thresholds of whole percentages the subtracted 1e-12 changes nothing |
| RouteBudget.WindowBudget | tools/study_multihorizon_routes.py:135-152 | for any window and any threshold in (0, 1] the budget is the fewest experts that take the share of the events, up to 1e-12, if and only if an event is needed or there are none; and then without that slack unless the share is just above a whole number that no set of the budget's size exceeds |
| RouteBudget.FlattenCounts | tools/study_multihorizon_routes.py:136 | an expert's count in a window's events is the sum of its counts over the routes |
| RouteBudget.CoveredIs | tools/study_multihorizon_routes.py:142-152 | what a set of experts covers is the number of events that name one of them |
| RouteBudget.StudyThresholdsNeedSomething | tools/study_multihorizon_routes.py:33 | the study's thresholds always need at least one event |

## Left out

Assumptions of the models:

- Sweeps: one process listing is atomic; only trainers spawned through `train_one` are counted; `LaunchesAlone` takes the orchestrator's guard and the launch behind it as one step.
- Corpus: writing the index, truncating one file and writing a 32-byte header are atomic; orphans write like running children, to the files as they are; run ids are non-zero, reported by the child and not yet indexed; a successful child has written tokens - 2 records per owner (flush errors are ignored by the writer).
- In `TraceCorpus` records have at least 8 bytes, as with every writer; `TraceFile` recovers any record size.
- Collector: every decoded token routes the 40 layers once each, in order; hidden features and target weights are not modelled, and the 64-bit generation does not saturate.
- CRC32C is an arbitrary function into 32 bits; the value of a half-precision pattern and the sigmoid are arbitrary functions in the graphs.
- Graph arithmetic is exact: float casts are identities and sums are real; of the MIL text only operations, shapes and identifiers are modelled.
- ManifestWriter.ManifestBuilder.Encode: a buffer too large to allocate (2^63 bytes or more) is an error here, a panic in Rust.
- ManifestReader.Parse: error values are plain strings; only the fact of an error is specified.
- Token ids of the n-gram addressing are non-negative.
- Size products of the graph builders are exact; they are machine words in Rust, checked where the code checks them.
- RouteBudget.WindowBudget: the product of threshold and length is exact, not a double.
- NgramIds.PaddedFits: double rounding enters through its relative error, exact small integers and 2^53 + 1; multiples above 2^1022, whose quotients leave the normal range of doubles, are not covered.

Not modelled:

- Neural training, losses, attention, the recurrence itself and other floating-point numerics.
- Objective-C and IOSurface bindings, device probing, asynchronous channels.
- The random run split used when a corpus has no index, adapters, reports and ledgers.
- Validator checks of expert ids, weight normalisation and manifests' K, which are single comparisons.
- `minicpm5_dense_ffn_fp16_f32_io`, the other dense builders and the program cache: the builders compose the operations that `PackedDense` and `GdnFront` cover, and the cache is file handling.
- The copy-on-write clone and directory handling of snapshots.
