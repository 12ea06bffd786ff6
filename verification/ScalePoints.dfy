/**
 What the readers see of a reachable corpus: a scale point is the same records in every later
 state and in every head, scale points are nested and apart from validation, shortfalls are
 refused, and a snapshot cuts where the loader does.
 */
module ScalePoints {
  import opened TraceFile
  import opened TraceCorpus
  import opened RunSelection

  /** The indexed runs in order, then only records of runs that are not indexed. */
  ghost predicate Holds(index: seq<Entry>, c: seq<nat>)
  {
    && Expected(index) <= c
    && forall k :: |Expected(index)| <= k < |c| ==> c[k] !in Ids(index)
  }

  /** In every intact state every head's column has that form, whatever the phase. */
  lemma GoodColumn(c: Setup, s: State, o: nat)
    requires Proper(c) && Intact(c, s) && o < |s.files|
    ensures Holds(s.index, Column(c.recordBytes, s.files[o]))
  {
    var file, cut := s.files[o], CutAt(c, s.index);
    assert FileGood(c, s.index, s.last, file);
    FileParts(c, s.index, s.last, file);
    var tail := Column(c.recordBytes, file[cut..]);
    assert s.last !in Ids(s.index) || |file| == cut;
    var col, m := Column(c.recordBytes, file), |Expected(s.index)|;
    forall k | m <= k < |col|
      ensures col[k] !in Ids(s.index)
    {
      assert col[k] == tail[k - m];
    }
  }

  // ----- Segments of the indexed records -----

  /** Where run `j` starts. */
  function RunStart(index: seq<Entry>, j: nat): nat
    requires j <= |index|
  {
    if j == 0 then 0 else RunStart(index, j - 1) + RunRecords(index[j - 1])
  }

  lemma {:induction false} StartIs(index: seq<Entry>, j: nat)
    requires j <= |index|
    ensures RunStart(index, j) == |Expected(index[..j])|
  {
    if j > 0 {
      StartIs(index, j - 1);
      ExpectedSnoc(index[..j - 1], index[j - 1]);
      assert index[..j] == index[..j - 1] + [index[j - 1]];
    }
  }

  lemma WholeIndex(index: seq<Entry>)
    ensures RunStart(index, |index|) == |Expected(index)|
  {
    StartIs(index, |index|);
    assert index[..|index|] == index;
  }

  lemma Segment(index: seq<Entry>, j: nat)
    requires j < |index|
    ensures RunStart(index, j + 1) == RunStart(index, j) + RunRecords(index[j]) <= |Expected(index)|
    ensures forall k :: RunStart(index, j) <= k < RunStart(index, j + 1) ==> Expected(index)[k] == index[j].run
  {
    StartIs(index, j);
    StartIs(index, j + 1);
    ExpectedSnoc(index[..j], index[j]);
    assert index[..j + 1] == index[..j] + [index[j]];
    CutAtMono(Setup(8, 1), index[..j + 1], index);
  }

  lemma {:induction false} SegmentOf(index: seq<Entry>, m: nat, k: nat) returns (j: nat)
    requires m <= |index| && k < RunStart(index, m)
    ensures j < m && RunStart(index, j) <= k < RunStart(index, j + 1)
    decreases m
  {
    if k >= RunStart(index, m - 1) {
      j := m - 1;
    } else {
      j := SegmentOf(index, m - 1, k);
    }
  }

  lemma {:induction false} CountsAt(index: seq<Entry>, j: nat)
    requires IndexOk(index) && j < |index|
    ensures index[j].run in Counts(index) && Counts(index)[index[j].run] == index[j].tokens - 2
    decreases |index|
  {
    if j < |index| - 1 {
      CountsAt(index[..|index| - 1], j);
    }
  }

  lemma EntryAt(index: seq<Entry>, j: nat)
    requires IndexOk(index) && j < |index|
    ensures RunRecords(index[j]) == index[j].tokens - 2 >= 2
  {
    assert EntryOk(index[j]);
  }

  /** An indexed run's block is never short. */
  lemma BlockIsLong(index: seq<Entry>, c: seq<nat>, lo: nat, hi: nat, allowed: set<nat>)
    requires IndexOk(index) && Holds(index, c) && IsBlock(c, lo, hi) && allowed <= Ids(index) && c[lo] in allowed
    ensures Admits(c, allowed, Restrict(Counts(index), allowed), lo, hi)
  {
    WholeIndex(index);
    var j := SegmentOf(index, |index|, lo);
    Segment(index, j);
    EntryAt(index, j);
    CountsAt(index, j);
    var a, b := RunStart(index, j), RunStart(index, j + 1);
    SegmentInBlock(c, lo, hi, a, b);
  }

  lemma SegmentInBlock(c: seq<nat>, lo: nat, hi: nat, a: nat, b: nat)
    requires IsBlock(c, lo, hi) && a <= lo < b <= |c| && forall k :: a <= k < b ==> c[k] == c[lo]
    ensures hi - lo >= b - a
  {
  }

  /** The loader keeps exactly the leading allowed runs of the index. */
  lemma LoaderKeepsLeading(index: seq<Entry>, c: seq<nat>, allowed: set<nat>, m: nat)
    requires IndexOk(index) && Holds(index, c) && allowed <= Ids(index) && m <= |index|
    requires forall i :: 0 <= i < m ==> index[i].run in allowed
    requires m == |index| || index[m].run !in allowed
    ensures KeepRuns(c, allowed, Restrict(Counts(index), allowed)) == RunStart(index, m)
    ensures RunStart(index, m) <= |c| && c[..RunStart(index, m)] == Expected(index[..m])
  {
    var keep := RunStart(index, m);
    StartIs(index, m);
    CutAtMono(Setup(8, 1), index[..m], index);
    LeadingMembers(index, allowed, m);
    if m < |index| {
      Segment(index, m);
      EntryAt(index, m);
    } else {
      assert index[..m] == index;
    }
    assert forall k :: 0 <= k < keep ==> c[k] == Expected(index[..m])[k];
    forall lo: nat, hi: nat | IsBlock(c, lo, hi) && c[lo] in allowed
      ensures Admits(c, allowed, Restrict(Counts(index), allowed), lo, hi)
    {
      BlockIsLong(index, c, lo, hi, allowed);
    }
    LongestByMembership(c, allowed, Restrict(Counts(index), allowed), keep);
    KeepRunsIs(c, allowed, Restrict(Counts(index), allowed), keep);
  }

  lemma LeadingMembers(index: seq<Entry>, allowed: set<nat>, m: nat)
    requires m <= |index| && forall i :: 0 <= i < m ==> index[i].run in allowed
    ensures forall k :: 0 <= k < |Expected(index[..m])| ==> Expected(index[..m])[k] in allowed
  {
    ExpectedInIds(index[..m]);
    assert Ids(index[..m]) <= allowed;
  }

  // ----- Banks collected in order -----

  function Runs(es: seq<Entry>): (r: seq<nat>)
    ensures |r| == |es| && forall i :: 0 <= i < |es| ==> r[i] == es[i].run
  {
    seq(|es|, i requires 0 <= i < |es| => es[i].run)
  }

  ghost predicate AllBank(es: seq<Entry>, bank: string)
  {
    forall i :: 0 <= i < |es| ==> es[i].bank == bank
  }

  ghost predicate NoBank(es: seq<Entry>, bank: string)
  {
    forall i :: 0 <= i < |es| ==> es[i].bank != bank
  }

  /** The index opens with `v` validation runs and then `n` pool runs. */
  ghost predicate Leading(index: seq<Entry>, valBank: string, v: nat, n: nat)
  {
    v + n <= |index| && AllBank(index[..v], valBank) && AllBank(index[v..v + n], "train")
  }

  /** Behind the first `m` runs the next one, if any, is of another bank. */
  predicate EndsAt(index: seq<Entry>, bank: string, m: nat)
  {
    m < |index| ==> index[m].bank != bank
  }

  lemma AppendLast(a: seq<Entry>, b: seq<Entry>)
    requires b != []
    ensures b == b[..|b| - 1] + [b[|b| - 1]] && a + b == (a + b[..|b| - 1]) + [b[|b| - 1]]
  {
  }

  lemma {:induction false} BankRunsAppend(a: seq<Entry>, b: seq<Entry>, bank: string)
    ensures BankRuns(a + b, bank) == BankRuns(a, bank) + BankRuns(b, bank)
    decreases |b|
  {
    if b == [] {
      assert a + b == a;
    } else {
      var most, e := b[..|b| - 1], b[|b| - 1];
      BankRunsAppend(a, most, bank);
      BankRunsSnoc(most, e, bank);
      BankRunsSnoc(a + most, e, bank);
      AppendLast(a, b);
    }
  }

  lemma {:induction false} BankRunsAll(es: seq<Entry>, bank: string)
    requires AllBank(es, bank)
    ensures BankRuns(es, bank) == Runs(es)
    decreases |es|
  {
    if es != [] {
      var most := es[..|es| - 1];
      BankRunsAll(most, bank);
      assert Runs(es) == Runs(most) + [es[|es| - 1].run];
    }
  }

  lemma {:induction false} BankRunsNone(es: seq<Entry>, bank: string)
    requires NoBank(es, bank)
    ensures BankRuns(es, bank) == []
    decreases |es|
  {
    if es != [] {
      BankRunsNone(es[..|es| - 1], bank);
    }
  }

  lemma {:induction false} BankRunsIn(es: seq<Entry>, bank: string)
    ensures forall k :: 0 <= k < |BankRuns(es, bank)| ==> BankRuns(es, bank)[k] in Ids(es)
    decreases |es|
  {
    if es != [] {
      BankRunsIn(es[..|es| - 1], bank);
      IdsSnoc(es[..|es| - 1], es[|es| - 1]);
      assert es == es[..|es| - 1] + [es[|es| - 1]];
    }
  }

  /** The validation runs are the `v` leading ones and then later ones. */
  lemma ValRuns(index: seq<Entry>, valBank: string, v: nat, k: nat)
    requires Leading(index, valBank, v, k) && valBank != "train"
    ensures BankRuns(index, valBank) == Runs(index[..v]) + BankRuns(index[v + k..], valBank)
  {
    var a, b, d := index[..v], index[v..v + k], index[v + k..];
    ThreeParts(index, v, k);
    BankRunsAppend(a, b, valBank);
    BankRunsAppend(a + b, d, valBank);
    BankRunsAll(a, valBank);
    BankRunsNone(b, valBank);
  }

  lemma PoolBetween(a: seq<Entry>, b: seq<Entry>, d: seq<Entry>, pool: string)
    requires NoBank(a, pool) && AllBank(b, pool)
    ensures BankRuns(a + b + d, pool) == Runs(b) + BankRuns(d, pool)
  {
    BankRunsNone(a, pool);
    BankRunsAll(b, pool);
    BankRunsAppend(a, b, pool);
    BankRunsAppend(a + b, d, pool);
  }

  /** The pool is the `n` entries behind validation and then later ones. */
  lemma PoolRuns(index: seq<Entry>, valBank: string, v: nat, n: nat)
    requires Leading(index, valBank, v, n) && valBank != "train"
    ensures BankRuns(index, "train") == Runs(index[v..v + n]) + BankRuns(index[v + n..], "train")
  {
    PoolBetween(index[..v], index[v..v + n], index[v + n..], "train");
    ThreeParts(index, v, n);
  }

  lemma ThreeParts(index: seq<Entry>, v: nat, n: nat)
    requires v + n <= |index|
    ensures index == index[..v] + index[v..v + n] + index[v + n..]
    ensures index[..v + n] == index[..v] + index[v..v + n]
  {
  }

  lemma ToSetRuns(es: seq<Entry>)
    ensures ToSet(Runs(es)) == Ids(es)
  {
    forall x | x in Ids(es)
      ensures x in ToSet(Runs(es))
    {
      var i :| 0 <= i < |es| && es[i].run == x;
      assert Runs(es)[i] == x;
    }
    forall x | x in ToSet(Runs(es))
      ensures x in Ids(es)
    {
      var i :| 0 <= i < |Runs(es)| && Runs(es)[i] == x;
      assert es[i].run == x;
    }
  }

  lemma IdsAppend(a: seq<Entry>, b: seq<Entry>)
    ensures Ids(a + b) == Ids(a) + Ids(b)
  {
    ToSetRuns(a);
    ToSetRuns(b);
    ToSetRuns(a + b);
    assert Runs(a + b) == Runs(a) + Runs(b);
    ToSetAppend(Runs(a), Runs(b));
  }

  lemma ToSetAppend(a: seq<nat>, b: seq<nat>)
    ensures ToSet(a + b) == ToSet(a) + ToSet(b)
  {
    forall x | x in ToSet(a) + ToSet(b)
      ensures x in ToSet(a + b)
    {
      if x in ToSet(a) {
        var i :| 0 <= i < |a| && a[i] == x;
        assert (a + b)[i] == x;
      } else {
        var i :| 0 <= i < |b| && b[i] == x;
        assert (a + b)[|a| + i] == x;
      }
    }
  }

  lemma IdsApart(index: seq<Entry>, m: nat)
    requires IndexOk(index) && m <= |index|
    ensures Ids(index[..m]) !! Ids(index[m..])
  {
  }

  // ----- What the loader may read -----

  /** The allowed runs are the leading validation runs and the first `k` of the pool, and maybe runs further on. */
  lemma AllowedSet(index: seq<Entry>, valBank: string, v: nat, k: nat, n: int)
    requires Leading(index, valBank, v, k) && valBank != "train" && 1 <= n && k <= n
    ensures Ids(index[..v + k]) <= Allowed(index, n, valBank) <= Ids(index)
    ensures var d := index[v + k..];
            Allowed(index, n, valBank) <= Ids(index[..v + k]) + ToSet(BankRuns(d, valBank))
                                          + if n == k then {} else ToSet(BankRuns(d, "train"))
  {
    var a, b, d := index[..v], index[v..v + k], index[v + k..];
    ValRuns(index, valBank, v, k);
    PoolRuns(index, valBank, v, k);
    ToSetRuns(a);
    ToSetRuns(b);
    ToSetAppend(Runs(a), BankRuns(d, valBank));
    assert index[..v + k] == a + b;
    IdsAppend(a, b);
    assert index == (a + b) + d;
    IdsAppend(a + b, d);
    BankRunsIn(d, "train");
    BankRunsIn(d, valBank);
    AllowedPool(Runs(b), BankRuns(d, "train"), n);
  }

  lemma AllowedPool(first: seq<nat>, more: seq<nat>, n: int)
    requires 1 <= n && |first| <= n
    ensures var pool := first + more;
            var taken := ToSet(if 0 < n < |pool| then pool[..n] else pool);
            && ToSet(first) <= taken <= ToSet(first) + ToSet(more)
            && (n == |first| ==> taken == ToSet(first))
  {
    var pool := first + more;
    var taken := if 0 < n < |pool| then pool[..n] else pool;
    assert taken == first + taken[|first|..];
    ToSetAppend(first, taken[|first|..]);
    assert forall k :: 0 <= k < |taken| - |first| ==> taken[|first|..][k] == more[k];
    if n == |first| {
      assert taken == first;
    }
  }

  // ----- What the split selects -----

  lemma {:induction false} PresentExpected(index: seq<Entry>)
    requires IndexOk(index)
    ensures ToSet(Expected(index)) == Ids(index)
    decreases |index|
  {
    if index != [] {
      var most, e := index[..|index| - 1], index[|index| - 1];
      assert index == most + [e];
      PresentExpected(most);
      IdsSnoc(most, e);
      EntryAt(index, |index| - 1);
      var more := Repeat(e.run, RunRecords(e));
      ToSetAppend(Expected(most), more);
      assert more[0] == e.run;
      assert ToSet(more) == {e.run};
    }
  }

  lemma {:induction false} FilterAppend(a: seq<nat>, b: seq<nat>, keep: set<nat>)
    ensures Filter(a + b, keep) == Filter(a, keep) + Filter(b, keep)
    decreases |a|
  {
    if a == [] {
      assert a + b == b;
    } else {
      var first := if a[0] in keep then [a[0]] else [];
      FilterAppend(a[1..], b, keep);
      assert (a + b)[0] == a[0] && (a + b)[1..] == a[1..] + b;
      assert Filter(a + b, keep) == first + Filter(a[1..] + b, keep);
      assert Filter(a, keep) == first + Filter(a[1..], keep);
    }
  }

  lemma {:induction false} FilterAll(a: seq<nat>, keep: set<nat>)
    requires ToSet(a) <= keep
    ensures Filter(a, keep) == a
    decreases |a|
  {
    if a != [] {
      assert a[0] in ToSet(a);
      assert forall i :: 0 <= i < |a| - 1 ==> a[1..][i] == a[i + 1] && a[i + 1] in ToSet(a);
      FilterAll(a[1..], keep);
    }
  }

  lemma {:induction false} FilterNone(a: seq<nat>, keep: set<nat>)
    requires ToSet(a) !! keep
    ensures Filter(a, keep) == []
    decreases |a|
  {
    if a != [] {
      assert a[0] in ToSet(a);
      assert forall i :: 0 <= i < |a| - 1 ==> a[1..][i] == a[i + 1] && a[i + 1] in ToSet(a);
      FilterNone(a[1..], keep);
    }
  }

  lemma FilterPool(first: seq<nat>, more: seq<nat>, keep: set<nat>)
    requires ToSet(first) <= keep && ToSet(more) !! keep
    ensures Filter(first + more, keep) == first
  {
    FilterAppend(first, more, keep);
    FilterAll(first, keep);
    FilterNone(more, keep);
  }

  lemma LaterApart(index: seq<Entry>, m: nat, bank: string)
    requires IndexOk(index) && m <= |index|
    ensures ToSet(BankRuns(index[m..], bank)) !! Ids(index[..m])
  {
    IdsApart(index, m);
    BankRunsIn(index[m..], bank);
  }

  /** Of the loaded runs, the pool ones are the `k` behind the leading validation runs. */
  lemma LoadedBanks(index: seq<Entry>, valBank: string, v: nat, k: nat)
    requires IndexOk(index) && Leading(index, valBank, v, k) && valBank != "train"
    ensures var present := ToSet(Expected(index[..v + k]));
            && Filter(BankRuns(index, "train"), present) == Runs(index[v..v + k])
            && Filter(BankRuns(index, valBank), present) == Runs(index[..v])
  {
    var a, b, keep := index[..v], index[v..v + k], Ids(index[..v + k]);
    ThreeParts(index, v, k);
    PresentExpected(index[..v + k]);
    ValRuns(index, valBank, v, k);
    PoolRuns(index, valBank, v, k);
    LaterApart(index, v + k, "train");
    LaterApart(index, v + k, valBank);
    IdsAppend(a, b);
    ToSetRuns(a);
    ToSetRuns(b);
    FilterPool(Runs(a), BankRuns(index[v + k..], valBank), keep);
    FilterPool(Runs(b), BankRuns(index[v + k..], "train"), keep);
  }

  lemma {:induction false} DistinctSize(es: seq<Entry>)
    requires IndexOk(es)
    ensures |Ids(es)| == |es|
    decreases |es|
  {
    if es != [] {
      var most, e := es[..|es| - 1], es[|es| - 1];
      DistinctSize(most);
      assert es == most + [e];
      IdsSnoc(most, e);
      assert e.run !in Ids(most);
    }
  }

  /** The whole numbers from `a` up to `b`. */
  function Range(a: nat, b: nat): (r: seq<nat>)
    ensures |r| == if a <= b then b - a else 0
    ensures forall i :: 0 <= i < |r| ==> r[i] == a + i
  {
    seq(if a <= b then b - a else 0, i => a + i)
  }

  lemma {:induction false} PositionsRange(c: seq<nat>, ids: set<nat>, a: nat, b: nat)
    requires a <= b && forall k :: 0 <= k < |c| ==> (c[k] in ids <==> a <= k < b)
    ensures Positions(c, ids) == if |c| <= a then [] else Range(a, if |c| <= b then |c| else b)
    decreases |c|
  {
    if c != [] {
      PositionsRange(c[..|c| - 1], ids, a, b);
      var last := |c| - 1;
      assert a <= last < b ==> Range(a, last) + [last] == Range(a, |c|);
      assert last == a ==> Range(a, last) == [];
    }
  }

  /** The records of a run of consecutive index entries are consecutive positions. */
  lemma EntryPositions(index: seq<Entry>, lo: nat, hi: nat)
    requires IndexOk(index) && lo <= hi <= |index|
    ensures RunStart(index, lo) <= RunStart(index, hi)
    ensures Positions(Expected(index), Ids(index[lo..hi])) == Range(RunStart(index, lo), RunStart(index, hi))
  {
    var c, ids := Expected(index), Ids(index[lo..hi]);
    var a, b := RunStart(index, lo), RunStart(index, hi);
    StartMono(index, lo, hi);
    StartMono(index, hi, |index|);
    WholeIndex(index);
    forall k | 0 <= k < |c|
      ensures c[k] in ids <==> a <= k < b
    {
      PositionMember(index, lo, hi, k);
    }
    PositionsRange(c, ids, a, b);
  }

  lemma PositionMember(index: seq<Entry>, lo: nat, hi: nat, k: nat)
    requires IndexOk(index) && lo <= hi <= |index| && k < |Expected(index)|
    ensures Expected(index)[k] in Ids(index[lo..hi]) <==> RunStart(index, lo) <= k < RunStart(index, hi)
  {
    WholeIndex(index);
    var j := SegmentOf(index, |index|, k);
    Segment(index, j);
    RunAmong(index, lo, hi, j);
    SegmentSide(index, lo, j, k);
    SegmentSide(index, hi, j, k);
  }

  lemma RunAmong(index: seq<Entry>, lo: nat, hi: nat, j: nat)
    requires IndexOk(index) && lo <= hi <= |index| && j < |index|
    ensures index[j].run in Ids(index[lo..hi]) <==> lo <= j < hi
  {
    if lo <= j < hi {
      assert index[lo..hi][j - lo] == index[j];
    }
  }

  /** A position in run `j` lies behind the start of run `m` exactly when `j` does. */
  lemma SegmentSide(index: seq<Entry>, m: nat, j: nat, k: nat)
    requires m <= |index| && j < |index| && RunStart(index, j) <= k < RunStart(index, j + 1)
    ensures RunStart(index, m) <= k <==> m <= j
  {
    if m <= j {
      StartMono(index, m, j);
    } else {
      StartMono(index, j + 1, m);
    }
  }

  lemma {:induction false} StartMono(index: seq<Entry>, i: nat, j: nat)
    requires i <= j <= |index|
    ensures RunStart(index, i) <= RunStart(index, j)
    decreases j
  {
    if i < j {
      StartMono(index, i, j - 1);
    }
  }

  /** Run starts depend only on the entries before them. */
  lemma {:induction false} StartSame(index: seq<Entry>, other: seq<Entry>, j: nat)
    requires j <= |index| && j <= |other| && index[..j] == other[..j]
    ensures RunStart(index, j) == RunStart(other, j)
  {
    if j > 0 {
      assert index[..j][j - 1] == other[..j][j - 1];
      assert index[..j - 1] == index[..j][..j - 1] == other[..j - 1];
      StartSame(index, other, j - 1);
    }
  }

  lemma SelectOnLoaded(index: seq<Entry>, valBank: string, v: nat, k: nat, n: int)
    requires IndexOk(index) && Leading(index, valBank, v, k) && valBank != "train" && 1 <= v && 1 <= n && k <= n
    ensures RunStart(index, v) <= RunStart(index, v + k)
    ensures SelectRunSets(index, Expected(index[..v + k]), n, valBank) ==
            if k == n then Selected(Range(RunStart(index, v), RunStart(index, v + k)), Range(0, RunStart(index, v)))
            else Refused(if k == 0 then NoPool else Shortfall)
  {
    LoadedBanks(index, valBank, v, k);
    SelectedPositions(index, index[..v + k], v, k);
    SplitRuns(Expected(index[..v + k]), index[v..v + k], index[..v], n);
  }

  lemma SplitRuns(c: seq<nat>, pool: seq<Entry>, val: seq<Entry>, n: int)
    requires IndexOk(pool) && val != [] && 1 <= n && |pool| <= n
    ensures SplitOf(c, Runs(pool), Runs(val), n) ==
            if |pool| == n then Selected(Positions(c, Ids(pool)), Positions(c, Ids(val)))
            else Refused(if pool == [] then NoPool else Shortfall)
  {
    ToSetRuns(pool);
    ToSetRuns(val);
    DistinctSize(pool);
  }

  lemma SelectedPositions(index: seq<Entry>, kept: seq<Entry>, v: nat, k: nat)
    requires IndexOk(index) && v + k <= |index| && kept == index[..v + k]
    ensures RunStart(index, v) <= RunStart(index, v + k)
    ensures Positions(Expected(kept), Ids(index[v..v + k])) == Range(RunStart(index, v), RunStart(index, v + k))
    ensures Positions(Expected(kept), Ids(index[..v])) == Range(0, RunStart(index, v))
  {
    assert IndexOk(kept);
    assert kept[v..v + k] == index[v..v + k] && kept[0..v] == index[..v];
    assert kept[..v] == index[..v] && kept[..v + k] == index[..v + k];
    StartSame(kept, index, v);
    StartSame(kept, index, v + k);
    StartMono(index, v, v + k);
    EntryPositions(kept, v, v + k);
    EntryPositions(kept, 0, v);
  }

  /** The records of the first `n` entries behind the first `v`, and those of the first `v`. */
  function FirstRuns(index: seq<Entry>, v: nat, n: nat): Split
    requires v + n <= |index|
  {
    Selected(Range(RunStart(index, v), RunStart(index, v + n)), Range(0, RunStart(index, v)))
  }

  lemma LeadingNonEmpty(index: seq<Entry>, valBank: string, v: nat, n: nat)
    requires Leading(index, valBank, v, n) && 1 <= v
    ensures index != [] && v + n <= |index|
  {
  }

  /** What the trainer reads of the index over time: it only grows. */
  ghost predicate Grows(first: seq<Entry>, second: seq<Entry>, third: seq<Entry>)
  {
    first <= second && first <= third && IndexOk(second) && IndexOk(third)
  }

  /**
   With `n` pool runs behind `v` validation runs and no further validation run right behind them, the
   split is theirs, however the index grows while it is read.
   */
  lemma ReadFilled(first: seq<Entry>, second: seq<Entry>, c: seq<nat>, third: seq<Entry>, valBank: string,
                   v: nat, n: nat)
    requires Grows(first, second, third) && Holds(first, c) && valBank != "train" && 1 <= v && 1 <= n
    requires Leading(first, valBank, v, n) && EndsAt(first, valBank, v + n)
    ensures ScalePointRead(first, second, c, third, n, valBank) == FirstRuns(first, v, n)
  {
    hide Leading, EndsAt, Holds, IndexOk, Expected, ScalePointRead, SelectRunSets, RunStart;
    LeadingNonEmpty(first, valBank, v, n);
    ReadLoads(first, second, c, third, valBank, v, n, n);
    LeadingLater(first, third, valBank, v, n);
    SelectOnLoaded(third, valBank, v, n, n);
    StartSame(first, third, v);
    StartSame(first, third, v + n);
  }

  lemma ScalePointFilled(index: seq<Entry>, c: seq<nat>, valBank: string, v: nat, n: nat)
    requires IndexOk(index) && Holds(index, c) && valBank != "train" && 1 <= v && 1 <= n
    requires Leading(index, valBank, v, n) && EndsAt(index, valBank, v + n)
    ensures ScalePoint(index, c, n, valBank) == FirstRuns(index, v, n)
  {
    ReadFilled(index, index, c, index, valBank, v, n);
  }

  lemma ScalePointShort(index: seq<Entry>, c: seq<nat>, valBank: string, v: nat, pool: nat, n: int)
    requires IndexOk(index) && Holds(index, c) && valBank != "train" && 1 <= v
    requires Leading(index, valBank, v, pool) && EndsAt(index, valBank, v + pool) && EndsAt(index, "train", v + pool)
    requires 1 <= n && pool < n
    ensures ScalePoint(index, c, n, valBank) == Refused(if pool == 0 then NoPool else Shortfall)
  {
    ReadLoads(index, index, c, index, valBank, v, pool, n);
    SelectOnLoaded(index, valBank, v, pool, n);
  }

  /**
   A scale point of `n` pool runs, read from any head of a good corpus that opens with validation runs
   and then exactly `pool` pool runs, is granted exactly when `n` is at most `pool`.
   */
  lemma ScalePointExact(index: seq<Entry>, c: seq<nat>, valBank: string, v: nat, pool: nat, n: nat)
    requires IndexOk(index) && Holds(index, c) && valBank != "train" && 1 <= v && 1 <= n
    requires Leading(index, valBank, v, pool) && EndsAt(index, valBank, v + pool) && EndsAt(index, "train", v + pool)
    ensures ScalePoint(index, c, n, valBank).Selected? <==> n <= pool
  {
    if n <= pool {
      FewerLeading(index, valBank, v, n, pool);
      ScalePointFilled(index, c, valBank, v, n);
    } else {
      ScalePointShort(index, c, valBank, v, pool, n);
    }
  }

  /** The loader keeps the leading runs, and the split is made among them. */
  lemma ReadLoads(first: seq<Entry>, second: seq<Entry>, c: seq<nat>, third: seq<Entry>, valBank: string,
                  v: nat, k: nat, n: int)
    requires Grows(first, second, third) && Holds(first, c) && valBank != "train" && 1 <= v && 1 <= n && k <= n
    requires Leading(first, valBank, v, k) && EndsAt(first, valBank, v + k) && (k == n || EndsAt(first, "train", v + k))
    ensures ScalePointRead(first, second, c, third, n, valBank)
            == SelectRunSets(third, Expected(third[..v + k]), n, valBank)
  {
    hide Leading, EndsAt, Holds, IndexOk, Expected, SelectRunSets, Counts, Restrict, KeepRuns, Allowed;
    var m := v + k;
    LeadingNonEmpty(first, valBank, v, k);
    LoadedKeep(first, second, c, valBank, v, k, n);
    Segment(first, 0);
    EntryAt(first, 0);
    StartMono(first, 1, m);
    assert first[..m][0].run in Ids(first[..m]);
    assert first[..m] == third[..m];
  }

  lemma LoadedKeep(first: seq<Entry>, second: seq<Entry>, c: seq<nat>, valBank: string, v: nat, k: nat, n: int)
    requires first <= second && IndexOk(second) && Holds(first, c) && valBank != "train" && 1 <= n && k <= n
    requires Leading(first, valBank, v, k) && EndsAt(first, valBank, v + k) && (k == n || EndsAt(first, "train", v + k))
    ensures IndexOk(first)
    ensures var allowed, keep := Allowed(first, n, valBank), RunStart(first, v + k);
            && Ids(first[..v + k]) <= allowed
            && KeepRuns(c, allowed, Restrict(Counts(second), allowed)) == keep <= |c|
            && c[..keep] == Expected(first[..v + k])
  {
    hide Holds, Expected, Counts, Restrict, KeepRuns, Allowed, RunStart, BankRuns;
    var allowed, m := Allowed(first, n, valBank), v + k;
    AllowedSet(first, valBank, v, k, n);
    forall i | 0 <= i < m
      ensures first[i].run in allowed
    {
      assert first[..m][i].run in Ids(first[..m]);
    }
    NextNotOf(first, m, valBank);
    NextNotOf(first, m, "train");
    SameCounts(first, second, allowed);
    LoaderKeepsLeading(first, c, allowed, m);
  }

  /** Counts read from a longer index are the same for runs of the shorter one. */
  lemma SameCounts(first: seq<Entry>, second: seq<Entry>, allowed: set<nat>)
    requires first <= second && IndexOk(second) && allowed <= Ids(first)
    ensures Restrict(Counts(second), allowed) == Restrict(Counts(first), allowed)
  {
    assert IndexOk(first);
    forall x | x in allowed
      ensures x in Counts(second) && x in Counts(first) && Counts(second)[x] == Counts(first)[x]
    {
      var i :| 0 <= i < |first| && first[i].run == x;
      CountsAt(first, i);
      CountsAt(second, i);
    }
  }

  /** A run that is not of a bank is neither among the runs before it nor among that bank's later ones. */
  lemma NextNotOf(index: seq<Entry>, m: nat, bank: string)
    requires IndexOk(index) && m <= |index|
    ensures m < |index| ==> index[m].run !in Ids(index[..m])
    ensures m < |index| && EndsAt(index, bank, m) ==> index[m].run !in ToSet(BankRuns(index[m..], bank))
  {
    if m < |index| && EndsAt(index, bank, m) {
      var d, e := index[m..], index[m + 1..];
      assert d == [index[m]] + e;
      BankRunsAppend([index[m]], e, bank);
      BankRunsNone([index[m]], bank);
      BankRunsIn(e, bank);
      assert index[m].run !in Ids(e);
    }
  }

  lemma FewerLeading(index: seq<Entry>, valBank: string, v: nat, n: nat, m: nat)
    requires Leading(index, valBank, v, m) && n <= m && valBank != "train" && EndsAt(index, valBank, v + m)
    ensures Leading(index, valBank, v, n) && EndsAt(index, valBank, v + n)
  {
    assert index[v..v + n] == index[v..v + m][..n];
    if n < m {
      assert index[v + n] == index[v..v + m][n];
    }
  }

  lemma LeadingLater(index: seq<Entry>, later: seq<Entry>, valBank: string, v: nat, n: nat)
    requires index <= later && Leading(index, valBank, v, n)
    ensures Leading(later, valBank, v, n)
    ensures later[..v] == index[..v] && later[..v + n] == index[..v + n]
  {
    assert later[v..v + n] == index[v..v + n];
  }

  // ----- Stability over time and across heads -----

  /** What a longer index says of a head, a shorter one says too. */
  lemma HoldsEarlier(index: seq<Entry>, later: seq<Entry>, c: seq<nat>)
    requires index <= later && IndexOk(later) && Holds(later, c)
    ensures Holds(index, c)
  {
    var m := |index|;
    assert later[..m] == index && later[0..m] == index;
    CutAtMono(Setup(8, 1), index, later);
    StartIs(later, m);
    NothingBehind(later, c, m);
  }

  /** `t` is reached from `s` without a restart beside an unfinished orphan. */
  ghost predicate Later(c: Setup, s: State, t: State)
    requires Proper(c)
  {
    exists steps :: IsRun(c, s, steps) && Sole(c, s, steps) && t == Exec(c, s, steps)
  }

  lemma LaterExtends(c: Setup, s: State, t: State)
    requires Proper(c) && Good(c, s) && s.index != [] && Later(c, s, t)
    ensures Extends(c, s, t) && Good(c, t) && s.index <= t.index && |s.files| == |t.files|
  {
    var steps :| IsRun(c, s, steps) && Sole(c, s, steps) && t == Exec(c, s, steps);
    IndexedPrefixIsStable(c, s, steps);
  }

  lemma GoodHolds(c: Setup, s: State, o: nat)
    requires Proper(c) && Good(c, s) && o < |s.files|
    ensures IndexOk(s.index) && Holds(s.index, Column(c.recordBytes, s.files[o]))
  {
    GoodColumn(c, s, o);
  }

  /** A head read after the index, and the index once more after that. */
  lemma ReadLater(index: seq<Entry>, t: seq<Entry>, u: seq<Entry>, w: seq<Entry>, x: seq<Entry>, column: seq<nat>,
                  valBank: string, v: nat, n: nat)
    requires index <= t <= u <= w <= x && IndexOk(x) && Holds(w, column) && valBank != "train" && 1 <= v && 1 <= n
    requires Leading(index, valBank, v, n) && EndsAt(t, valBank, v + n)
    ensures ScalePointRead(t, u, column, x, n, valBank) == FirstRuns(index, v, n)
  {
    hide ScalePointRead, Expected;
    assert IndexOk(w) && IndexOk(u);
    HoldsEarlier(t, w, column);
    LeadingLater(index, t, valBank, v, n);
    ReadFilled(t, u, column, x, valBank, v, n);
    StartSame(index, t, v);
    StartSame(index, t, v + n);
  }

  /**
   From the state `s` on, the trainer may read the index in `t`, again in `u`, the file of any head in
   `w` and the index in `x`, while collection goes on in between. As long as the run indexed behind
   the `n` pool runs in `t`, if there is one, is not a validation run, it selects the positions that
   the index of `s` determines, and the bytes there are those that the head held in `s`.
   */
  lemma ScalePointIsStable(c: Setup, s: State, t: State, u: State, w: State, x: State, o: nat, valBank: string,
                           v: nat, n: nat)
    requires Proper(c) && Good(c, s) && Later(c, s, t) && Later(c, t, u) && Later(c, u, w) && Later(c, w, x)
    requires o < |s.files| && valBank != "train" && 1 <= v && 1 <= n
    requires Leading(s.index, valBank, v, n) && EndsAt(t.index, valBank, v + n)
    ensures |w.files| == |s.files|
    ensures ScalePointRead(t.index, u.index, Column(c.recordBytes, w.files[o]), x.index, n, valBank)
            == FirstRuns(s.index, v, n)
    ensures SameUpTo(s.files[o], w.files[o], Size(c.recordBytes, RunStart(s.index, v + n)))
  {
    hide Leading, EndsAt, Good, FirstRuns, ScalePointRead, Extends, Later, Holds, IndexOk, SameUpTo;
    LeadingNonEmpty(s.index, valBank, v, n);
    LaterExtends(c, s, t);
    LaterExtends(c, t, u);
    LaterExtends(c, u, w);
    LaterExtends(c, w, x);
    GoodHolds(c, w, o);
    GoodHolds(c, x, o);
    ReadLater(s.index, t.index, u.index, w.index, x.index, Column(c.recordBytes, w.files[o]), valBank, v, n);
    ExtendsTrans(c, s, t, u);
    ExtendsTrans(c, s, u, w);
    ScalePointBytes(c, s, w, o, v + n);
  }

  lemma ScalePointBytes(c: Setup, s: State, t: State, o: nat, m: nat)
    requires Extends(c, s, t) && o < |s.files| && m <= |s.index|
    ensures SameUpTo(s.files[o], t.files[o], Size(c.recordBytes, RunStart(s.index, m)))
  {
    var cut := CutAt(c, s.index);
    StartIs(s.index, m);
    CutAtMono(c, s.index[..m], s.index);
    assert SameUpTo(s.files[o], t.files[o], cut);
    SameUpToTrans(s.files[o], s.files[o], t.files[o], CutAt(c, s.index[..m]), cut);
  }

  /** Both splits are granted, share validation, and the larger extends the smaller within the file. */
  ghost predicate Nested(small: Split, large: Split, len: nat)
  {
    && small.Selected? && large.Selected? && small.val == large.val
    && small.train <= large.train
    && ToSet(large.train) !! ToSet(large.val)
    && forall k :: 0 <= k < |large.train| ==> large.train[k] < len
  }

  /**
   On any two heads of one good corpus: a larger scale point contains the smaller ones record by
   record, and no training record is a validation record.
   */
  lemma ScalePointsNest(index: seq<Entry>, c: seq<nat>, d: seq<nat>, valBank: string, v: nat, n: nat, m: nat)
    requires IndexOk(index) && Holds(index, c) && Holds(index, d)
    requires valBank != "train" && 1 <= v && 1 <= n <= m
    requires Leading(index, valBank, v, m) && EndsAt(index, valBank, v + m)
    ensures Nested(ScalePoint(index, c, n, valBank), ScalePoint(index, d, m, valBank), |Expected(index)|)
  {
    FewerLeading(index, valBank, v, n, m);
    ScalePointFilled(index, c, valBank, v, n);
    ScalePointFilled(index, d, valBank, v, m);
    FirstRunsNest(index, v, n, m);
  }

  lemma FirstRunsNest(index: seq<Entry>, v: nat, n: nat, m: nat)
    requires n <= m && v + m <= |index|
    ensures Nested(FirstRuns(index, v, n), FirstRuns(index, v, m), |Expected(index)|)
  {
    StartMono(index, v, v + n);
    StartMono(index, v + n, v + m);
    StartMono(index, v + m, |index|);
    WholeIndex(index);
    RangesNest(RunStart(index, v), RunStart(index, v + n), RunStart(index, v + m), |Expected(index)|);
  }

  lemma RangesNest(a: nat, b: nat, d: nat, len: nat)
    requires a <= b <= d <= len
    ensures Nested(Selected(Range(a, b), Range(0, a)), Selected(Range(a, d), Range(0, a)), len)
  {
    assert Range(a, b) == Range(a, d)[..b - a];
  }

  // ----- The snapshot -----

  /** A successful snapshot of the runs a loader is allowed cuts at the loader's record. */
  lemma SnapshotCutsWhereLoaderDoes(index: seq<Entry>, c: seq<nat>, wanted: set<nat>, keep: nat)
    requires IndexOk(index) && Holds(index, c) && wanted <= Ids(index)
    requires ContiguousPrefix(c, wanted, keep)
    ensures KeepRuns(c, wanted, Restrict(Counts(index), wanted)) == keep
  {
    forall k | 0 <= k < keep
      ensures c[k] in wanted
    {
      PresentMember(c, keep, k);
    }
    forall lo: nat, hi: nat | IsBlock(c, lo, hi) && c[lo] in wanted
      ensures Admits(c, wanted, Restrict(Counts(index), wanted), lo, hi)
    {
      BlockIsLong(index, c, lo, hi, wanted);
    }
    LongestByMembership(c, wanted, Restrict(Counts(index), wanted), keep);
    KeepRunsIs(c, wanted, Restrict(Counts(index), wanted), keep);
  }

  lemma SumInsert(ids: set<nat>, counts: map<nat, int>, x: nat)
    requires x !in ids && x in counts && forall y :: y in ids ==> y in counts
    ensures SumOver(ids + {x}, counts) == SumOver(ids, counts) + counts[x]
  {
    SumRemove(ids + {x}, counts, x);
    assert ids + {x} - {x} == ids;
  }

  lemma PrefixIds(index: seq<Entry>, m: nat)
    requires IndexOk(index) && 1 <= m <= |index|
    ensures Ids(index[..m]) == Ids(index[..m - 1]) + {index[m - 1].run} && index[m - 1].run !in Ids(index[..m - 1])
  {
    assert index[..m] == index[..m - 1] + [index[m - 1]];
    IdsSnoc(index[..m - 1], index[m - 1]);
  }

  lemma {:induction false} SumOfPrefix(index: seq<Entry>, m: nat)
    requires IndexOk(index) && m <= |index|
    ensures forall x :: x in Ids(index[..m]) ==> x in Counts(index)
    ensures SumOver(Ids(index[..m]), Counts(index)) == RunStart(index, m)
    decreases m
  {
    if m > 0 {
      var most, e := index[..m - 1], index[m - 1];
      SumOfPrefix(index, m - 1);
      PrefixIds(index, m);
      CountsAt(index, m - 1);
      EntryAt(index, m - 1);
      SumInsert(Ids(most), Counts(index), e.run);
    }
  }

  /** Leading index entries are a contiguous prefix with the expected count, so their snapshot succeeds. */
  lemma LeadingRunsSnapshot(index: seq<Entry>, c: seq<nat>, m: nat)
    requires IndexOk(index) && Holds(index, c) && m <= |index|
    ensures ContiguousPrefix(c, Ids(index[..m]), RunStart(index, m))
    ensures forall x :: x in Ids(index[..m]) ==> x in Counts(index)
    ensures SumOver(Ids(index[..m]), Counts(index)) == RunStart(index, m)
  {
    var keep, wanted := RunStart(index, m), Ids(index[..m]);
    StartIs(index, m);
    CutAtMono(Setup(8, 1), index[..m], index);
    PresentExpected(index[..m]);
    assert c[..keep] == Expected(index[..m]);
    NothingBehind(index, c, m);
    SumOfPrefix(index, m);
  }

  // ----- What lies behind the loader's cut -----

  /** How many leading runs are allowed. */
  lemma {:induction false} LeadingAllowed(index: seq<Entry>, allowed: set<nat>, at: nat) returns (m: nat)
    requires at <= |index| && forall i :: 0 <= i < at ==> index[i].run in allowed
    ensures m <= |index| && forall i :: 0 <= i < m ==> index[i].run in allowed
    ensures m == |index| || index[m].run !in allowed
    decreases |index| - at
  {
    if at == |index| || index[at].run !in allowed {
      m := at;
    } else {
      m := LeadingAllowed(index, allowed, at + 1);
    }
  }

  /** Nothing behind the first `m` runs belongs to them. */
  lemma NothingBehind(index: seq<Entry>, c: seq<nat>, m: nat)
    requires IndexOk(index) && Holds(index, c) && m <= |index|
    ensures forall k :: RunStart(index, m) <= k < |c| ==> c[k] !in Ids(index[..m])
  {
    assert index[0..m] == index[..m] && Ids(index[..m]) <= Ids(index);
    forall k | RunStart(index, m) <= k < |c|
      ensures c[k] !in Ids(index[..m])
    {
      if k < |Expected(index)| {
        PositionMember(index, 0, m, k);
      }
    }
  }

  /** An allowed run behind the cut shows there. */
  lemma SomethingBehind(index: seq<Entry>, c: seq<nat>, allowed: set<nat>, m: nat, j: nat)
    requires IndexOk(index) && Holds(index, c) && m <= j < |index| && index[j].run in allowed
    ensures RunStart(index, m) <= RunStart(index, j) < |c| && c[RunStart(index, j)] in allowed
  {
    StartMono(index, m, j);
    Segment(index, j);
    EntryAt(index, j);
  }

  /** With the `m` leading runs allowed, nothing allowed lies behind them exactly when no other run is allowed. */
  lemma BehindLeading(index: seq<Entry>, c: seq<nat>, allowed: set<nat>, m: nat)
    requires IndexOk(index) && Holds(index, c) && allowed <= Ids(index) && m <= |index|
    requires forall i :: 0 <= i < m ==> index[i].run in allowed
    ensures (forall k :: RunStart(index, m) <= k < |c| ==> c[k] !in allowed) <==> allowed == Ids(index[..m])
  {
    NothingBehind(index, c, m);
    if forall k :: RunStart(index, m) <= k < |c| ==> c[k] !in allowed {
      forall x | x in allowed
        ensures x in Ids(index[..m])
      {
        var j :| 0 <= j < |index| && index[j].run == x;
        if j < m {
          assert index[..m][j].run == x;
        } else {
          SomethingBehind(index, c, allowed, m, j);
        }
      }
    }
  }

  /** Allowed runs that are a prefix of the index are its leading allowed runs. */
  lemma PrefixIsLeading(index: seq<Entry>, allowed: set<nat>, m: nat, p: nat)
    requires IndexOk(index) && m <= |index| && p <= |index| && allowed == Ids(index[..p])
    requires forall i :: 0 <= i < m ==> index[i].run in allowed
    requires m == |index| || index[m].run !in allowed
    ensures p == m
  {
    assert forall i :: 0 <= i < p ==> index[..p][i].run in allowed;
    assert p < |index| ==> index[p].run !in Ids(index[..p]);
  }

  /**
   The loader is documented to refuse when an allowed run has records behind its cut. It does not
   look, so on a good corpus it delivers what is documented exactly when the allowed runs are the
   first ones of the index.
   */
  lemma NothingAllowedBehindExactly(index: seq<Entry>, c: seq<nat>, allowed: set<nat>)
    requires IndexOk(index) && Holds(index, c) && allowed <= Ids(index)
    ensures var keep := KeepRuns(c, allowed, Restrict(Counts(index), allowed));
            (forall k :: keep <= k < |c| ==> c[k] !in allowed)
            <==> exists m: nat :: m <= |index| && allowed == Ids(index[..m])
  {
    hide IndexOk, Holds, Ids, RunStart, KeepRuns, Restrict, Counts;
    var m := LeadingAllowed(index, allowed, 0);
    LoaderKeepsLeading(index, c, allowed, m);
    BehindLeading(index, c, allowed, m);
    if p: nat :| p <= |index| && allowed == Ids(index[..p]) {
      PrefixIsLeading(index, allowed, m, p);
    }
  }

  // ----- Completeness -----

  lemma {:induction false} OccurrencesAppend(a: seq<nat>, b: seq<nat>, x: nat)
    ensures Occurrences(a + b, x) == Occurrences(a, x) + Occurrences(b, x)
    decreases |b|
  {
    if b == [] {
      assert a + b == a;
    } else {
      OccurrencesAppend(a, b[..|b| - 1], x);
      assert (a + b)[..|a + b| - 1] == a + b[..|b| - 1];
    }
  }

  lemma {:induction false} OccurrencesRepeat(x: nat, n: nat)
    ensures Occurrences(Repeat(x, n), x) == n
  {
    if n > 0 {
      OccurrencesRepeat(x, n - 1);
      assert Repeat(x, n)[..n - 1] == Repeat(x, n - 1);
    }
  }

  lemma IndexedRunComplete(index: seq<Entry>, c: seq<nat>, j: nat)
    requires IndexOk(index) && Holds(index, c) && j < |index|
    ensures Occurrences(c, index[j].run) >= index[j].tokens - 2
  {
    var a, e := Expected(index[..j]), index[j];
    var run := Repeat(e.run, RunRecords(e));
    ExpectedSnoc(index[..j], e);
    assert index[..j + 1] == index[..j] + [e];
    CutAtMono(Setup(8, 1), index[..j + 1], index);
    assert c == a + run + c[|a + run|..];
    OccurrencesAppend(a + run, c[|a + run|..], e.run);
    OccurrencesAppend(a, run, e.run);
    OccurrencesRepeat(e.run, RunRecords(e));
  }

  /** On a good corpus every indexed run of a bank counts as complete. */
  lemma {:induction false} IndexedRunsComplete(index: seq<Entry>, c: seq<nat>, bank: string, m: nat)
    requires IndexOk(index) && Holds(index, c) && m <= |index|
    ensures CompleteRuns(index[..m], c, bank) == |BankRuns(index[..m], bank)|
    decreases m
  {
    if m > 0 {
      IndexedRunsComplete(index, c, bank, m - 1);
      IndexedRunComplete(index, c, m - 1);
      assert EntryOk(index[m - 1]);
      assert index[..m][..m - 1] == index[..m - 1];
    }
  }
}
