/**
 Readers of a trace file's run-id column: the whole-run prefix loader, the snapshot cut, the
 train/validation split and the completeness count.
 */
module RunSelection {
  import opened TraceCorpus
  import opened TraceFile

  // ----- Runs as maximal blocks of equal ids -----

  predicate IsBlock(c: seq<nat>, lo: nat, hi: nat)
  {
    && lo < hi <= |c|
    && (forall k :: lo <= k < hi ==> c[k] == c[lo])
    && (lo == 0 || c[lo - 1] != c[lo])
    && (hi == |c| || c[hi] != c[lo])
  }

  /** The run is wanted and, when a count is expected, not short of it. */
  predicate Admits(c: seq<nat>, allowed: set<nat>, counts: map<nat, int>, lo: nat, hi: nat)
    requires lo < hi <= |c|
  {
    c[lo] in allowed && (c[lo] in counts ==> hi - lo >= counts[c[lo]])
  }

  /** `e` ends a leading sequence of whole runs, each admitted. */
  ghost predicate WholeRuns(c: seq<nat>, allowed: set<nat>, counts: map<nat, int>, e: nat)
  {
    && e <= |c| && (e == 0 || e == |c| || c[e - 1] != c[e])
    && forall lo: nat, hi: nat :: IsBlock(c, lo, hi) && hi <= e ==> Admits(c, allowed, counts, lo, hi)
  }

  ghost predicate Longest(c: seq<nat>, allowed: set<nat>, counts: map<nat, int>, e: nat)
  {
    && WholeRuns(c, allowed, counts, e)
    && forall f: nat :: WholeRuns(c, allowed, counts, f) ==> f <= e
  }

  lemma LongestUnique(c: seq<nat>, allowed: set<nat>, counts: map<nat, int>, e: nat, f: nat)
    requires Longest(c, allowed, counts, e) && Longest(c, allowed, counts, f)
    ensures e == f
  {
  }

  lemma NoBreakInside(c: seq<nat>, lo: nat, hi: nat, f: nat)
    requires IsBlock(c, lo, hi) && lo < f < hi
    ensures c[f - 1] == c[f]
  {
  }

  /** A block that reaches below the end of another lies entirely below it or is the same block. */
  lemma BlocksApart(c: seq<nat>, lo: nat, hi: nat, a: nat, b: nat)
    requires IsBlock(c, lo, hi) && IsBlock(c, a, b) && b <= hi
    ensures b <= lo || (a == lo && b == hi)
  {
    if b > lo {
      if a < lo {
        NoBreakInside(c, a, b, lo);
      } else if a > lo {
        NoBreakInside(c, lo, hi, a);
      } else if b < hi {
        NoBreakInside(c, lo, hi, b);
      }
    }
  }

  /** One more admitted block extends a whole-run prefix. */
  lemma ExtendRuns(c: seq<nat>, allowed: set<nat>, counts: map<nat, int>, lo: nat, hi: nat)
    requires WholeRuns(c, allowed, counts, lo) && IsBlock(c, lo, hi) && Admits(c, allowed, counts, lo, hi)
    ensures WholeRuns(c, allowed, counts, hi)
  {
    forall a: nat, b: nat | IsBlock(c, a, b) && b <= hi
      ensures Admits(c, allowed, counts, a, b)
    {
      BlocksApart(c, lo, hi, a, b);
    }
  }

  /** A block that is not admitted ends the longest prefix. */
  lemma BlockedRuns(c: seq<nat>, allowed: set<nat>, counts: map<nat, int>, lo: nat, hi: nat)
    requires WholeRuns(c, allowed, counts, lo) && IsBlock(c, lo, hi) && !Admits(c, allowed, counts, lo, hi)
    ensures Longest(c, allowed, counts, lo)
  {
    forall f: nat | WholeRuns(c, allowed, counts, f)
      ensures f <= lo
    {
      if lo < f < hi {
        NoBreakInside(c, lo, hi, f);
      }
    }
  }

  // ----- Loading the longest whole-run prefix -----

  /** Where block `i` of a block list starts. */
  function StartOf(b: seq<(nat, nat)>, i: nat): nat
    requires i <= |b|
  {
    if i == 0 then 0 else b[i - 1].1
  }

  /** Element `i` is the block that follows its predecessor, with its run id. */
  ghost predicate BlockAt(c: seq<nat>, b: seq<(nat, nat)>, i: nat)
    requires i < |b|
  {
    IsBlock(c, StartOf(b, i), b[i].1) && b[i].0 == c[StartOf(b, i)]
  }

  ghost predicate AreBlocks(c: seq<nat>, b: seq<(nat, nat)>)
  {
    forall i :: 0 <= i < |b| ==> BlockAt(c, b, i)
  }

  lemma AppendBlock(c: seq<nat>, b: seq<(nat, nat)>, lo: nat, hi: nat)
    requires AreBlocks(c, b) && lo == StartOf(b, |b|) && IsBlock(c, lo, hi)
    ensures AreBlocks(c, b + [(c[lo], hi)])
  {
    var longer := b + [(c[lo], hi)];
    forall i | 0 <= i < |longer|
      ensures BlockAt(c, longer, i)
    {
      assert StartOf(longer, i) == StartOf(b, i);
      if i < |b| {
        assert BlockAt(c, b, i) && longer[i] == b[i];
      }
    }
  }

  /** The run boundaries in file order. */
  method Boundaries(c: seq<nat>) returns (b: seq<(nat, nat)>)
    requires c != []
    ensures AreBlocks(c, b) && StartOf(b, |b|) == |c|
  {
    b := [];
    var start := 0;
    for pos := 1 to |c| + 1
      invariant AreBlocks(c, b) && StartOf(b, |b|) == start
      invariant if pos <= |c| then start < pos else start == |c|
      invariant start < |c| ==> start == 0 || c[start - 1] != c[start]
      invariant forall k :: start <= k < pos && k < |c| ==> c[k] == c[start]
    {
      if pos == |c| || c[pos] != c[start] {
        AppendBlock(c, b, start, pos);
        b := b + [(c[start], pos)];
        start := pos;
      }
    }
  }

  datatype Load = NoRecords | NoRun | Escaped | Loaded(keep: nat)

  /** Keeps the longest leading sequence of whole runs that are all allowed and not short. */
  method LoadTracePrefix(c: seq<nat>, allowed: set<nat>, counts: map<nat, int>) returns (r: Load)
    ensures r.NoRecords? <==> c == []
    ensures r.NoRun? <==> c != [] && Longest(c, allowed, counts, 0)
    ensures forall e :: e > 0 && Longest(c, allowed, counts, e) <==> r == Loaded(e)
    ensures !r.Escaped?
  {
    if c == [] {
      return NoRecords;
    }
    var boundaries := Boundaries(c);
    var keep := KeepAdmitted(c, boundaries, allowed, counts);
    forall e | Longest(c, allowed, counts, e)
      ensures e == keep
    {
      LongestUnique(c, allowed, counts, e, keep);
    }
    if keep == 0 {
      return NoRun;
    }
    var admitted := ToSet(c[..keep]);
    var expected := set x | x in allowed && x in admitted;
    if admitted != expected {
      return Escaped;
    }
    return Loaded(keep);
  }

  /** A run that comes back behind another run: the loader keeps its first block and does not refuse. */
  lemma AllowedRunBehindCut()
    ensures var c, allowed := [7, 9, 7], {7};
            Longest(c, allowed, map[], 1) && c[2] in allowed
  {
    var c, allowed := [7, 9, 7], {7};
    assert IsBlock(c, 0, 1) && IsBlock(c, 1, 2);
    assert WholeRuns(c, allowed, map[], 0);
    ExtendRuns(c, allowed, map[], 0, 1);
    BlockedRuns(c, allowed, map[], 1, 2);
  }

  method KeepAdmitted(c: seq<nat>, boundaries: seq<(nat, nat)>, allowed: set<nat>, counts: map<nat, int>)
    returns (keep: nat)
    requires AreBlocks(c, boundaries) && StartOf(boundaries, |boundaries|) == |c|
    ensures Longest(c, allowed, counts, keep)
    ensures forall k :: 0 <= k < keep ==> c[k] in allowed
  {
    keep := 0;
    var prevEnd := 0;
    for i := 0 to |boundaries|
      invariant keep == prevEnd == StartOf(boundaries, i)
      invariant WholeRuns(c, allowed, counts, keep)
      invariant forall k :: 0 <= k < keep ==> c[k] in allowed
    {
      var (runId, end) := boundaries[i];
      assert BlockAt(c, boundaries, i);
      assert IsBlock(c, keep, end) && runId == c[keep];
      if runId !in allowed || (runId in counts && end - prevEnd < counts[runId]) {
        BlockedRuns(c, allowed, counts, keep, end);
        return;
      }
      ExtendRuns(c, allowed, counts, keep, end);
      keep := end;
      prevEnd := end;
    }
  }

  // ----- Longest prefixes by membership -----

  lemma BlockAround(c: seq<nat>, k: nat) returns (lo: nat, hi: nat)
    requires k < |c|
    ensures IsBlock(c, lo, hi) && lo <= k < hi
    ensures k == 0 || c[k - 1] != c[k] ==> lo == k
  {
    lo := k;
    while lo > 0 && c[lo - 1] == c[k]
      invariant lo <= k && forall j :: lo <= j <= k ==> c[j] == c[k]
    {
      lo := lo - 1;
    }
    hi := k + 1;
    while hi < |c| && c[hi] == c[k]
      invariant k < hi <= |c| && forall j :: lo <= j < hi ==> c[j] == c[k]
    {
      hi := hi + 1;
    }
  }

  /** Whenever no allowed run is short, the longest prefix ends before the first id that is not allowed. */
  lemma LongestByMembership(c: seq<nat>, allowed: set<nat>, counts: map<nat, int>, keep: nat)
    requires keep <= |c| && (forall k :: 0 <= k < keep ==> c[k] in allowed)
    requires keep == |c| || c[keep] !in allowed
    requires forall lo: nat, hi: nat :: IsBlock(c, lo, hi) && c[lo] in allowed ==> Admits(c, allowed, counts, lo, hi)
    ensures Longest(c, allowed, counts, keep)
  {
    forall f: nat | WholeRuns(c, allowed, counts, f)
      ensures f <= keep
    {
      if keep < f {
        var lo, hi := BlockAround(c, keep);
        if f < hi {
          NoBreakInside(c, lo, hi, f);
        }
      }
    }
  }

  /** Where the block that starts at `lo` ends, when it reaches at least to `at`. */
  function BlockEnd(c: seq<nat>, lo: nat, at: nat): (hi: nat)
    requires lo <= at < |c|
    ensures at < hi <= |c|
    decreases |c| - at
  {
    if at + 1 == |c| || c[at + 1] != c[lo] then at + 1 else BlockEnd(c, lo, at + 1)
  }

  lemma {:induction false} BlockEndIsBlock(c: seq<nat>, lo: nat, at: nat)
    requires lo <= at < |c| && (lo == 0 || c[lo - 1] != c[lo]) && forall k :: lo <= k <= at ==> c[k] == c[lo]
    ensures IsBlock(c, lo, BlockEnd(c, lo, at))
    decreases |c| - at
  {
    if at + 1 != |c| && c[at + 1] == c[lo] {
      BlockEndIsBlock(c, lo, at + 1);
    }
  }

  /** Block by block from `at`, stopping at the first that is not admitted. */
  function KeepFrom(c: seq<nat>, allowed: set<nat>, counts: map<nat, int>, at: nat): (keep: nat)
    requires at <= |c|
    ensures at <= keep <= |c|
    decreases |c| - at
  {
    if at == |c| then at
    else
      var hi := BlockEnd(c, at, at);
      if Admits(c, allowed, counts, at, hi) then KeepFrom(c, allowed, counts, hi) else at
  }

  /** The loader's prefix as a value. */
  function KeepRuns(c: seq<nat>, allowed: set<nat>, counts: map<nat, int>): (keep: nat)
    ensures keep <= |c|
  {
    KeepFrom(c, allowed, counts, 0)
  }

  lemma {:induction false} KeepFromLongest(c: seq<nat>, allowed: set<nat>, counts: map<nat, int>, at: nat)
    requires WholeRuns(c, allowed, counts, at)
    ensures Longest(c, allowed, counts, KeepFrom(c, allowed, counts, at))
    decreases |c| - at
  {
    if at < |c| {
      var hi := BlockEnd(c, at, at);
      BlockEndIsBlock(c, at, at);
      if Admits(c, allowed, counts, at, hi) {
        ExtendRuns(c, allowed, counts, at, hi);
        KeepFromLongest(c, allowed, counts, hi);
      } else {
        BlockedRuns(c, allowed, counts, at, hi);
      }
    }
  }

  /** The longest prefix is unique, and it is this one. */
  lemma KeepRunsIs(c: seq<nat>, allowed: set<nat>, counts: map<nat, int>, keep: nat)
    ensures Longest(c, allowed, counts, keep) <==> keep == KeepRuns(c, allowed, counts)
  {
    KeepFromLongest(c, allowed, counts, 0);
    if Longest(c, allowed, counts, keep) {
      LongestUnique(c, allowed, counts, keep, KeepRuns(c, allowed, counts));
    }
  }

  // ----- The snapshot cut -----

  ghost function SumOver(ids: set<nat>, counts: map<nat, int>): int
    requires forall x :: x in ids ==> x in counts
  {
    if ids == {} then 0
    else
      var x :| x in ids;
      counts[x] + SumOver(ids - {x}, counts)
  }

  lemma {:induction false} SumRemove(ids: set<nat>, counts: map<nat, int>, y: nat)
    requires y in ids && forall x :: x in ids ==> x in counts
    ensures SumOver(ids, counts) == counts[y] + SumOver(ids - {y}, counts)
    decreases |ids|
  {
    var x :| x in ids && SumOver(ids, counts) == counts[x] + SumOver(ids - {x}, counts);
    if x != y {
      SumRemove(ids - {x}, counts, y);
      SumRemove(ids - {y}, counts, x);
      assert ids - {x} - {y} == ids - {y} - {x};
    }
  }

  datatype Snapshot = NotAPrefix | WrongCount | Cut(keep: nat)

  /** The column up to `keep` holds every wanted run, nothing else, and no wanted record follows. */
  predicate ContiguousPrefix(c: seq<nat>, wanted: set<nat>, keep: nat)
  {
    keep <= |c| && ToSet(c[..keep]) == wanted && forall k :: keep <= k < |c| ==> c[k] !in wanted
  }

  /** Cuts after the last wanted record, or refuses. */
  method SnapshotCut(c: seq<nat>, wanted: set<nat>, counts: map<nat, int>) returns (r: Snapshot)
    requires forall x :: x in wanted ==> x in counts
    ensures r.Cut? <==> exists keep :: ContiguousPrefix(c, wanted, keep) && keep == SumOver(wanted, counts)
    ensures r.Cut? ==> ContiguousPrefix(c, wanted, r.keep) && r.keep == SumOver(wanted, counts)
    ensures r.WrongCount? ==> exists keep :: ContiguousPrefix(c, wanted, keep)
  {
    var keep := 0;
    for pos := 0 to |c|
      invariant keep <= pos && (keep == 0 || c[keep - 1] in wanted)
      invariant forall k :: keep <= k < pos ==> c[k] !in wanted
    {
      if c[pos] in wanted {
        keep := pos + 1;
      }
    }
    var admitted := ToSet(c[..keep]);
    forall other: nat | ContiguousPrefix(c, wanted, other)
      ensures other == keep
    {
      CutUnique(c, wanted, keep, other);
    }
    if admitted != wanted {
      return NotAPrefix;
    }
    assert ContiguousPrefix(c, wanted, keep);
    var expected := SumCounts(wanted, counts);
    if keep != expected {
      return WrongCount;
    }
    return Cut(keep);
  }

  lemma PresentMember(c: seq<nat>, keep: nat, k: nat)
    requires k < keep <= |c|
    ensures c[k] in ToSet(c[..keep])
  {
    assert c[..keep][k] == c[k];
  }

  lemma CutUnique(c: seq<nat>, wanted: set<nat>, keep: nat, other: nat)
    requires LastKnown(c, wanted, keep) && ContiguousPrefix(c, wanted, other)
    ensures other == keep
  {
    if other > 0 {
      PresentMember(c, other, other - 1);
    }
    LastKnownUnique(c, wanted, keep, other);
  }

  method SumCounts(ids: set<nat>, counts: map<nat, int>) returns (sum: int)
    requires forall x :: x in ids ==> x in counts
    ensures sum == SumOver(ids, counts)
  {
    sum := 0;
    var rest := ids;
    while rest != {}
      invariant rest <= ids && sum + SumOver(rest, counts) == SumOver(ids, counts)
      decreases |rest|
    {
      var x :| x in rest;
      SumRemove(rest, counts, x);
      sum := sum + counts[x];
      rest := rest - {x};
    }
  }

  // ----- The train/validation split -----

  /** The run ids of one bank in collection order. */
  function BankRuns(index: seq<Entry>, bank: string): seq<nat>
  {
    if index == [] then []
    else
      var e := index[|index| - 1];
      BankRuns(index[..|index| - 1], bank) + if e.bank == bank then [e.run] else []
  }

  /** The dictionary holds every bank that has runs, with its runs in order. */
  ghost predicate Groups(banks: map<string, seq<nat>>, index: seq<Entry>)
  {
    forall bank: string :: BankRuns(index, bank) == if bank in banks then banks[bank] else []
  }

  lemma BankRunsSnoc(index: seq<Entry>, e: Entry, bank: string)
    ensures BankRuns(index + [e], bank) == BankRuns(index, bank) + if e.bank == bank then [e.run] else []
  {
    assert (index + [e])[..|index|] == index;
  }

  lemma GroupsStep(banks: map<string, seq<nat>>, index: seq<Entry>, e: Entry)
    requires Groups(banks, index)
    ensures var have := if e.bank in banks then banks[e.bank] else [];
            Groups(banks[e.bank := have + [e.run]], index + [e])
  {
    var have := if e.bank in banks then banks[e.bank] else [];
    var more := banks[e.bank := have + [e.run]];
    forall bank: string
      ensures BankRuns(index + [e], bank) == if bank in more then more[bank] else []
    {
      BankRunsSnoc(index, e, bank);
      assert BankRuns(index, bank) == if bank in banks then banks[bank] else [];
    }
  }

  /** What the index file lists: a finished run, or one whose child never named its run id. */
  datatype Listed = Named(entry: Entry) | Unnamed(bank: string, tokens: nat)

  /** The listed runs that have an id, in order. */
  function NamedRuns(listed: seq<Listed>): seq<Entry>
  {
    if listed == [] then []
    else
      var last := listed[|listed| - 1];
      NamedRuns(listed[..|listed| - 1]) + if last.Named? then [last.entry] else []
  }

  /** Groups the index by bank; entries without a run id are skipped. */
  method LoadCorpusIndex(listed: seq<Listed>) returns (banks: map<string, seq<nat>>)
    ensures Groups(banks, NamedRuns(listed))
  {
    banks := map[];
    for i := 0 to |listed|
      invariant Groups(banks, NamedRuns(listed[..i]))
    {
      assert listed[..i + 1][..i] == listed[..i];
      match listed[i]
      case Unnamed(_, _) => assert NamedRuns(listed[..i + 1]) == NamedRuns(listed[..i]);
      case Named(e) =>
        GroupsStep(banks, NamedRuns(listed[..i]), e);
        var have := if e.bank in banks then banks[e.bank] else [];
        banks := banks[e.bank := have + [e.run]];
    }
    assert listed[..|listed|] == listed;
  }

  function Filter(s: seq<nat>, keep: set<nat>): seq<nat>
  {
    if s == [] then [] else (if s[0] in keep then [s[0]] else []) + Filter(s[1..], keep)
  }

  function ToSet(s: seq<nat>): set<nat>
  {
    set i | 0 <= i < |s| :: s[i]
  }

  /** Positions whose run is in the set, ascending. */
  function Positions(c: seq<nat>, ids: set<nat>): seq<nat>
  {
    if c == [] then []
    else Positions(c[..|c| - 1], ids) + if c[|c| - 1] in ids then [|c| - 1] else []
  }

  datatype Refusal = NoPool | Shortfall | NoValidation | NoUsableRuns | NothingLoaded
  datatype Split = Refused(why: Refusal) | Selected(train: seq<nat>, val: seq<nat>)

  /** Which records train and which validate; `trainRuns <= 0` takes the whole pool. */
  function SelectRunSets(index: seq<Entry>, c: seq<nat>, trainRuns: int, valBank: string): Split
  {
    var present := ToSet(c);
    SplitOf(c, Filter(BankRuns(index, "train"), present), Filter(BankRuns(index, valBank), present), trainRuns)
  }

  function SplitOf(c: seq<nat>, pool: seq<nat>, valIds: seq<nat>, trainRuns: int): Split
  {
    if pool == [] then Refused(NoPool)
    else if trainRuns > 0 && |ToSet(pool)| < trainRuns then Refused(Shortfall)
    else if valIds == [] then Refused(NoValidation)
    else
      var chosen := if 0 < trainRuns < |pool| then pool[..trainRuns] else pool;
      Selected(Positions(c, ToSet(chosen)), Positions(c, ToSet(valIds)))
  }

  function Allowed(index: seq<Entry>, maxRuns: int, valBank: string): set<nat>
  {
    var pool := BankRuns(index, "train");
    ToSet(if 0 < maxRuns < |pool| then pool[..maxRuns] else pool) + ToSet(BankRuns(index, valBank))
  }

  /** The last index entry of a run decides its expected count. */
  function Counts(index: seq<Entry>): map<nat, int>
  {
    if index == [] then map[]
    else
      var e := index[|index| - 1];
      Counts(index[..|index| - 1])[e.run := e.tokens - 2]
  }

  function Restrict(m: map<nat, int>, ids: set<nat>): map<nat, int>
  {
    map x | x in m && x in ids :: m[x]
  }

  /**
   The trainer's live path for one head. While collection goes on it reads the index for the allowed
   runs, the index again for their counts, the head's file, and the index once more for the split.
   */
  ghost function ScalePointRead(first: seq<Entry>, second: seq<Entry>, c: seq<nat>, third: seq<Entry>, n: int,
                                valBank: string): Split
  {
    var allowed := Allowed(first, n, valBank);
    var keep := KeepRuns(c, allowed, Restrict(Counts(second), allowed));
    if allowed == {} then Refused(NoUsableRuns)
    else if keep == 0 then Refused(NothingLoaded)
    else SelectRunSets(third, c[..keep], n, valBank)
  }

  /** The same when nothing is collected in between. */
  ghost function ScalePoint(index: seq<Entry>, c: seq<nat>, n: int, valBank: string): Split
  {
    ScalePointRead(index, index, c, index, n, valBank)
  }

  // ----- Counting complete runs -----

  function Occurrences(c: seq<nat>, x: nat): nat
  {
    if c == [] then 0 else Occurrences(c[..|c| - 1], x) + if c[|c| - 1] == x then 1 else 0
  }

  /** Entries of a bank that have all their records. */
  function CompleteRuns(index: seq<Entry>, c: seq<nat>, bank: string): nat
  {
    if index == [] then 0
    else
      var e := index[|index| - 1];
      CompleteRuns(index[..|index| - 1], c, bank)
      + if e.bank == bank && e.run != 0 && Occurrences(c, e.run) >= e.tokens - 2 then 1 else 0
  }

  /** Counts records per run in a dictionary, then the complete runs of a bank. */
  method AvailablePoolRuns(index: seq<Entry>, c: seq<nat>, bank: string) returns (complete: nat)
    ensures complete == if c == [] then 0 else CompleteRuns(index, c, bank)
  {
    if c == [] {
      return 0;
    }
    var counts: map<nat, nat> := map[];
    for i := 0 to |c|
      invariant forall x :: Occurrences(c[..i], x) == if x in counts then counts[x] else 0
    {
      assert c[..i + 1][..i] == c[..i];
      var have := if c[i] in counts then counts[c[i]] else 0;
      counts := counts[c[i] := have + 1];
    }
    assert c[..|c|] == c;
    complete := 0;
    for i := 0 to |index|
      invariant complete == CompleteRuns(index[..i], c, bank)
    {
      var e := index[i];
      assert index[..i + 1][..i] == index[..i];
      if e.bank == bank && e.run != 0 {
        var have := if e.run in counts then counts[e.run] else 0;
        if have >= e.tokens - 2 {
          complete := complete + 1;
        }
      }
    }
    assert index[..|index|] == index;
  }
}
