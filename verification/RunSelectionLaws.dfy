/**
 What the selection functions select, told by positions and counts of the index and of the run-id column.
 */
module RunSelectionLaws {
  import opened TraceCorpus
  import opened RunSelection

  // ----- Selections in order -----

  /** `r` is what `s` holds at the ascending positions `at`. */
  ghost predicate Picks<T>(s: seq<T>, at: seq<nat>, r: seq<T>)
  {
    && |at| == |r|
    && (forall i :: 0 <= i < |at| ==> at[i] < |s| && r[i] == s[at[i]])
    && (forall i, j :: 0 <= i < j < |at| ==> at[i] < at[j])
  }

  /** One more element at the end, picked or not. */
  lemma PicksSnoc<T>(s: seq<T>, at: seq<nat>, r: seq<T>, n: nat)
    requires |s| == n + 1 && Picks(s[..n], at, r)
    ensures Picks(s, at, r) && Picks(s, at + [n], r + [s[n]])
  {
    assert forall i :: 0 <= i < |at| ==> at[i] < n && r[i] == s[..n][at[i]] == s[at[i]];
  }

  /** The indexed runs of a bank are its entries' runs, all of them, in order. */
  lemma {:induction false} BankRunsPick(index: seq<Entry>, bank: string) returns (at: seq<nat>, es: seq<Entry>)
    ensures Picks(index, at, es) && |BankRuns(index, bank)| == |es|
    ensures forall i :: 0 <= i < |es| ==> es[i].bank == bank && BankRuns(index, bank)[i] == es[i].run
    ensures forall k: nat :: k < |index| && index[k].bank == bank ==> k in at
    decreases |index|
  {
    hide Picks;
    if index == [] {
      at, es := [], [];
      EmptyPicks(index);
    } else {
      var n := |index| - 1;
      at, es := BankRunsPick(index[..n], bank);
      PicksSnoc(index, at, es, n);
      if index[n].bank == bank {
        at, es := at + [n], es + [index[n]];
      }
    }
  }

  lemma EmptyPicks<T>(s: seq<T>)
    ensures Picks(s, [], [])
  {
  }

  /** The named runs are the entries that have an id, all of them, in order. */
  lemma {:induction false} NamedRunsPick(listed: seq<Listed>) returns (at: seq<nat>, ls: seq<Listed>)
    ensures Picks(listed, at, ls) && |NamedRuns(listed)| == |ls|
    ensures forall i :: 0 <= i < |ls| ==> ls[i] == Named(NamedRuns(listed)[i])
    ensures forall k: nat :: k < |listed| && listed[k].Named? ==> k in at
    decreases |listed|
  {
    hide Picks;
    if listed == [] {
      at, ls := [], [];
      EmptyPicks(listed);
    } else {
      var n := |listed| - 1;
      at, ls := NamedRunsPick(listed[..n]);
      PicksSnoc(listed, at, ls, n);
      if listed[n].Named? {
        at, ls := at + [n], ls + [listed[n]];
      }
    }
  }

  lemma {:induction false} FilterMember(s: seq<nat>, keep: set<nat>, x: nat)
    ensures x in Filter(s, keep) <==> x in s && x in keep
    decreases |s|
  {
    if s != [] {
      FilterMember(s[1..], keep, x);
      assert s == [s[0]] + s[1..];
    }
  }

  /** The positions whose run is in the set, and no others. */
  lemma {:induction false} PositionsMember(c: seq<nat>, ids: set<nat>, k: nat)
    ensures k in Positions(c, ids) <==> k < |c| && c[k] in ids
    decreases |c|
  {
    if c != [] {
      PositionsMember(c[..|c| - 1], ids, k);
    }
  }

  /** They are listed in ascending order. */
  lemma {:induction false} PositionsAscend(c: seq<nat>, ids: set<nat>, i: nat, j: nat)
    requires i < j < |Positions(c, ids)|
    ensures Positions(c, ids)[i] < Positions(c, ids)[j]
    decreases |c|
  {
    var n := |c| - 1;
    var before := Positions(c[..n], ids);
    if j < |before| {
      PositionsAscend(c[..n], ids, i, j);
    } else {
      PositionsMember(c[..n], ids, before[i]);
    }
  }

  // ----- The split over the whole pool -----

  /** Some entry of the bank has this run. */
  predicate Indexed(index: seq<Entry>, bank: string, x: nat)
  {
    exists k :: 0 <= k < |index| && index[k].bank == bank && index[k].run == x
  }

  lemma {:induction false} IndexedIs(index: seq<Entry>, bank: string, x: nat)
    ensures x in BankRuns(index, bank) <==> Indexed(index, bank, x)
    decreases |index|
  {
    if index != [] {
      var n := |index| - 1;
      IndexedIs(index[..n], bank, x);
      if Indexed(index, bank, x) {
        var k :| 0 <= k < |index| && index[k].bank == bank && index[k].run == x;
        assert k < n ==> index[..n][k] == index[k];
      }
      if Indexed(index[..n], bank, x) {
        var k :| 0 <= k < n && index[..n][k].bank == bank && index[..n][k].run == x;
        assert index[k].bank == bank && index[k].run == x;
      }
    }
  }

  /** Record `k` belongs to an indexed run of the bank. */
  predicate RecordOf(index: seq<Entry>, bank: string, c: seq<nat>, k: nat)
  {
    k < |c| && Indexed(index, bank, c[k])
  }

  lemma PoolRecord(index: seq<Entry>, bank: string, c: seq<nat>, k: nat)
    requires k < |c|
    ensures c[k] in ToSet(Filter(BankRuns(index, bank), ToSet(c))) <==> RecordOf(index, bank, c, k)
  {
    FilterMember(BankRuns(index, bank), ToSet(c), c[k]);
    IndexedIs(index, bank, c[k]);
  }

  lemma PoolEmpty(index: seq<Entry>, bank: string, c: seq<nat>)
    ensures Filter(BankRuns(index, bank), ToSet(c)) == [] <==> forall k: nat :: !RecordOf(index, bank, c, k)
  {
    var pool := Filter(BankRuns(index, bank), ToSet(c));
    if pool != [] {
      FilterMember(BankRuns(index, bank), ToSet(c), pool[0]);
      var k :| 0 <= k < |c| && c[k] == pool[0];
      PoolRecord(index, bank, c, k);
      assert RecordOf(index, bank, c, k);
    } else {
      forall k: nat
        ensures !RecordOf(index, bank, c, k)
      {
        if k < |c| {
          PoolRecord(index, bank, c, k);
        }
      }
    }
  }

  /** The ascending positions of the records of the bank's indexed runs. */
  ghost predicate RecordsOf(at: seq<nat>, index: seq<Entry>, bank: string, c: seq<nat>)
  {
    && (forall k: nat :: k in at <==> RecordOf(index, bank, c, k))
    && (forall i, j :: 0 <= i < j < |at| ==> at[i] < at[j])
  }

  lemma PoolPositions(index: seq<Entry>, bank: string, c: seq<nat>)
    ensures RecordsOf(Positions(c, ToSet(Filter(BankRuns(index, bank), ToSet(c)))), index, bank, c)
  {
    var ids := ToSet(Filter(BankRuns(index, bank), ToSet(c)));
    forall i, j | 0 <= i < j < |Positions(c, ids)|
      ensures Positions(c, ids)[i] < Positions(c, ids)[j]
    {
      PositionsAscend(c, ids, i, j);
    }
    forall k: nat
      ensures k in Positions(c, ids) <==> RecordOf(index, bank, c, k)
    {
      PositionsMember(c, ids, k);
      if k < |c| {
        PoolRecord(index, bank, c, k);
      }
    }
  }

  /** Without a limit every record of an indexed training run trains and every one of the other bank validates. */
  lemma WholePoolSplit(index: seq<Entry>, c: seq<nat>, trainRuns: int, valBank: string)
    requires trainRuns <= 0
    ensures var split := SelectRunSets(index, c, trainRuns, valBank);
            && (split == Refused(NoPool) <==> forall k: nat :: !RecordOf(index, "train", c, k))
            && (split == Refused(NoValidation) <==>
                  && (exists k: nat :: RecordOf(index, "train", c, k))
                  && (forall k: nat :: !RecordOf(index, valBank, c, k)))
            && (split.Refused? ==> split.why in {NoPool, NoValidation})
            && (split.Selected? ==>
                  RecordsOf(split.train, index, "train", c) && RecordsOf(split.val, index, valBank, c))
  {
    hide BankRuns, Filter, Positions, ToSet, RecordOf;
    PoolEmpty(index, "train", c);
    PoolEmpty(index, valBank, c);
    PoolPositions(index, "train", c);
    PoolPositions(index, valBank, c);
  }

  /** Without a limit the runs of both banks are allowed, and no others. */
  lemma WholePoolAllowed(index: seq<Entry>, maxRuns: int, valBank: string, x: nat)
    requires maxRuns <= 0
    ensures x in Allowed(index, maxRuns, valBank) <==> Indexed(index, "train", x) || Indexed(index, valBank, x)
  {
    IndexedIs(index, "train", x);
    IndexedIs(index, valBank, x);
  }

  // ----- Counts -----

  function RecordsWith(c: seq<nat>, x: nat): set<nat>
  {
    set k: nat | k < |c| && c[k] == x
  }

  lemma {:induction false} OccurrencesIs(c: seq<nat>, x: nat)
    ensures Occurrences(c, x) == |RecordsWith(c, x)|
    decreases |c|
  {
    if c != [] {
      var n := |c| - 1;
      OccurrencesIs(c[..n], x);
      assert RecordsWith(c, x) == RecordsWith(c[..n], x) + if c[n] == x then {n} else {};
    }
  }

  /** The run has an id and at least as many records as its tokens but two. */
  predicate HasItsRecords(e: Entry, c: seq<nat>)
  {
    e.run != 0 && |RecordsWith(c, e.run)| >= e.tokens - 2
  }

  /** The entries of the bank that have their records. */
  function CompleteEntries(index: seq<Entry>, c: seq<nat>, bank: string): set<nat>
  {
    set k: nat | k < |index| && index[k].bank == bank && HasItsRecords(index[k], c)
  }

  /** The count of complete runs is the number of those entries; a run cut short is not among them. */
  lemma {:induction false} CompleteRunsIs(index: seq<Entry>, c: seq<nat>, bank: string)
    ensures CompleteRuns(index, c, bank) == |CompleteEntries(index, c, bank)|
    decreases |index|
  {
    if index != [] {
      var n := |index| - 1;
      CompleteRunsIs(index[..n], c, bank);
      OccurrencesIs(c, index[n].run);
      LastEntry(index, c, bank, n);
    }
  }

  lemma LastEntry(index: seq<Entry>, c: seq<nat>, bank: string, n: nat)
    requires |index| == n + 1
    ensures |CompleteEntries(index, c, bank)| ==
            |CompleteEntries(index[..n], c, bank)|
            + if index[n].bank == bank && HasItsRecords(index[n], c) then 1 else 0
  {
    hide HasItsRecords, RecordsWith;
    var before := CompleteEntries(index[..n], c, bank);
    assert CompleteEntries(index, c, bank) ==
           before + if index[n].bank == bank && HasItsRecords(index[n], c) then {n} else {};
  }
}
