/**
 Trace validation across heads: generations count up from 1 in every run, and each owner's
 target is its consumer's next route.
 */
module TemporalAlignment {

  type Route = seq<nat>

  datatype Record = Record(run: nat, gen: nat, current: Route, previous: Route, target: Route)

  // ----- Contiguous generations -----

  /** The generations of one run in file order. */
  function GensOf(f: seq<Record>, run: nat): seq<nat>
  {
    if f == [] then []
    else GensOf(f[..|f| - 1], run) + if f[|f| - 1].run == run then [f[|f| - 1].gen] else []
  }

  function OneTo(n: nat): (s: seq<nat>)
    ensures |s| == n && forall i :: 0 <= i < n ==> s[i] == i + 1
  {
    seq(n, i => i + 1)
  }

  /** The record's generation is one more than the number of earlier records of its run. */
  ghost predicate CountedAt(f: seq<Record>, p: nat)
    requires p < |f|
  {
    f[p].gen == |GensOf(f[..p], f[p].run)| + 1
  }

  ghost predicate Contiguous(f: seq<Record>)
  {
    forall p :: 0 <= p < |f| ==> CountedAt(f, p)
  }

  ghost predicate CountsUp(f: seq<Record>, run: nat)
  {
    GensOf(f, run) == OneTo(|GensOf(f, run)|)
  }

  lemma GensSnoc(f: seq<Record>, r: Record, run: nat)
    ensures GensOf(f + [r], run) == GensOf(f, run) + if r.run == run then [r.gen] else []
  {
    assert (f + [r])[..|f|] == f;
  }

  lemma ContiguousSnoc(f: seq<Record>, r: Record)
    ensures Contiguous(f + [r]) <==> Contiguous(f) && r.gen == |GensOf(f, r.run)| + 1
  {
    var g := f + [r];
    assert g[..|f|] == f;
    forall p | 0 <= p < |f|
      ensures CountedAt(g, p) <==> CountedAt(f, p)
    {
      assert g[..p] == f[..p] && g[p] == f[p];
    }
    assert CountedAt(g, |f|) <==> r.gen == |GensOf(f, r.run)| + 1;
  }

  lemma OneToSnoc(s: seq<nat>, x: nat)
    ensures s + [x] == OneTo(|s| + 1) <==> s == OneTo(|s|) && x == |s| + 1
  {
    assert OneTo(|s| + 1) == OneTo(|s|) + [|s| + 1];
    if s + [x] == OneTo(|s| + 1) {
      assert (s + [x])[..|s|] == s && (s + [x])[|s|] == x;
      assert OneTo(|s| + 1)[..|s|] == OneTo(|s|);
    }
  }

  /** Every run's generation list is 1, 2, ... exactly when the file is contiguous. */
  lemma {:induction false} ContiguousPerRun(f: seq<Record>)
    ensures Contiguous(f) <==> forall run: nat :: CountsUp(f, run)
    decreases |f|
  {
    if f == [] {
      assert forall run: nat :: GensOf(f, run) == [];
    } else {
      var most, r := f[..|f| - 1], f[|f| - 1];
      assert f == most + [r];
      ContiguousPerRun(most);
      ContiguousSnoc(most, r);
      OneToSnoc(GensOf(most, r.run), r.gen);
      assert CountsUp(f, r.run) <==> CountsUp(most, r.run) && r.gen == |GensOf(most, r.run)| + 1 by {
        GensSnoc(most, r, r.run);
      }
      forall run: nat | run != r.run
        ensures CountsUp(f, run) <==> CountsUp(most, run)
      {
        GensSnoc(most, r, run);
      }
    }
  }

  ghost predicate ByRun(m: map<nat, seq<nat>>, f: seq<Record>)
  {
    forall run: nat :: GensOf(f, run) == if run in m then m[run] else []
  }

  lemma ByRunStep(m: map<nat, seq<nat>>, f: seq<Record>, r: Record)
    requires ByRun(m, f)
    ensures var have := if r.run in m then m[r.run] else [];
            ByRun(m[r.run := have + [r.gen]], f + [r])
  {
    var have := if r.run in m then m[r.run] else [];
    var more := m[r.run := have + [r.gen]];
    forall run: nat
      ensures GensOf(f + [r], run) == if run in more then more[run] else []
    {
      GensSnoc(f, r, run);
    }
  }

  /** The validator's check: group generations by run, then compare each group with 1, 2, ... */
  method GenerationsContiguous(f: seq<Record>) returns (ok: bool)
    ensures ok <==> Contiguous(f)
  {
    var byRun: map<nat, seq<nat>> := map[];
    for i := 0 to |f|
      invariant ByRun(byRun, f[..i])
    {
      ByRunStep(byRun, f[..i], f[i]);
      assert f[..i + 1] == f[..i] + [f[i]];
      var have := if f[i].run in byRun then byRun[f[i].run] else [];
      byRun := byRun[f[i].run := have + [f[i].gen]];
    }
    assert f[..|f|] == f;
    ContiguousPerRun(f);
    var rest := byRun.Keys;
    while rest != {}
      invariant rest <= byRun.Keys
      invariant forall run :: run in byRun && run !in rest ==> CountsUp(f, run)
      decreases |rest|
    {
      var run :| run in rest;
      var gens := byRun[run];
      assert GensOf(f, run) == gens;
      if gens != OneTo(|gens|) {
        assert !CountsUp(f, run);
        return false;
      }
      rest := rest - {run};
    }
    assert forall run: nat :: run !in byRun ==> GensOf(f, run) == [];
    return true;
  }

  // ----- What contiguity gives -----

  /** The record of `run` with generation `g` among the first `n`. */
  lemma {:induction false} GenerationExists(f: seq<Record>, n: nat, run: nat, g: nat) returns (q: nat)
    requires Contiguous(f) && n <= |f| && 1 <= g <= |GensOf(f[..n], run)|
    ensures q < n && f[q].run == run && f[q].gen == g
    decreases n
  {
    assert f[..n] == f[..n - 1] + [f[n - 1]];
    GensSnoc(f[..n - 1], f[n - 1], run);
    if f[n - 1].run == run && g == |GensOf(f[..n], run)| {
      q := n - 1;
      assert CountedAt(f, q);
    } else {
      q := GenerationExists(f, n - 1, run, g);
    }
  }

  lemma {:induction false} GensGrow(f: seq<Record>, p: nat, n: nat, run: nat)
    requires p <= n <= |f|
    ensures |GensOf(f[..p], run)| <= |GensOf(f[..n], run)|
    decreases n
  {
    if p < n {
      assert f[..n] == f[..n - 1] + [f[n - 1]];
      GensSnoc(f[..n - 1], f[n - 1], run);
      GensGrow(f, p, n - 1, run);
    }
  }

  /** Later records of a run have larger generations, so keys never repeat. */
  lemma GenerationsRise(f: seq<Record>, p: nat, q: nat)
    requires Contiguous(f) && p < q < |f| && f[p].run == f[q].run
    ensures f[p].gen < f[q].gen
  {
    assert f[..p + 1] == f[..p] + [f[p]];
    GensSnoc(f[..p], f[p], f[p].run);
    GensGrow(f, p + 1, q, f[p].run);
    assert CountedAt(f, p) && CountedAt(f, q);
  }

  // ----- Alignment -----

  function Key(r: Record): (nat, nat)
  {
    (r.run, r.gen)
  }

  ghost predicate UniqueKeys(f: seq<Record>)
  {
    forall p, q :: 0 <= p < q < |f| ==> Key(f[p]) != Key(f[q])
  }

  lemma ContiguousUnique(f: seq<Record>)
    requires Contiguous(f)
    ensures UniqueKeys(f)
  {
    forall p, q | 0 <= p < q < |f|
      ensures Key(f[p]) != Key(f[q])
    {
      if f[p].run == f[q].run {
        GenerationsRise(f, p, q);
      }
    }
  }

  /** The last record of its run: nothing consumes its target. */
  ghost predicate Final(a: seq<Record>, p: nat)
    requires p < |a|
  {
    forall q :: 0 <= q < |a| && a[q].run == a[p].run ==> a[q].gen <= a[p].gen
  }

  /** The consumer has the next generation, and routes to what the owner recorded as target. */
  ghost predicate HitsTarget(a: seq<Record>, b: seq<Record>, p: nat)
    requires p < |a|
  {
    exists q :: 0 <= q < |b| && Key(b[q]) == (a[p].run, a[p].gen + 1) && a[p].target == b[q].current
  }

  /** The owner's own record one generation earlier has the recorded previous route. */
  ghost predicate KeepsPrevious(a: seq<Record>, p: nat)
    requires p < |a|
  {
    exists q :: 0 <= q < |a| && (a[q].run, a[q].gen + 1) == Key(a[p]) && a[p].previous == a[q].current
  }

  ghost predicate PairOk(a: seq<Record>, b: seq<Record>, p: nat)
    requires p < |a|
  {
    Final(a, p) || (HitsTarget(a, b, p) && (a[p].gen >= 2 ==> KeepsPrevious(a, p)))
  }

  ghost predicate Aligned(a: seq<Record>, b: seq<Record>)
  {
    forall p :: 0 <= p < |a| ==> PairOk(a, b, p)
  }

  // ----- Appending records of fresh runs -----

  /** No run has records in both. */
  ghost predicate NoSharedRun(f: seq<Record>, g: seq<Record>)
  {
    forall p, q :: 0 <= p < |f| && 0 <= q < |g| ==> f[p].run != g[q].run
  }

  lemma {:induction false} GensAbsent(f: seq<Record>, run: nat)
    requires forall p :: 0 <= p < |f| ==> f[p].run != run
    ensures GensOf(f, run) == []
    decreases |f|
  {
    if f != [] {
      GensAbsent(f[..|f| - 1], run);
    }
  }

  lemma {:induction false} GensAppend(f: seq<Record>, g: seq<Record>, run: nat)
    ensures GensOf(f + g, run) == GensOf(f, run) + GensOf(g, run)
    decreases |g|
  {
    if g == [] {
      assert f + g == f;
    } else {
      GensAppend(f, g[..|g| - 1], run);
      assert (f + g)[..|f + g| - 1] == f + g[..|g| - 1];
    }
  }

  lemma CountedBehind(f: seq<Record>, g: seq<Record>, p: nat)
    requires p < |g| && NoSharedRun(f, g)
    ensures CountedAt(f + g, |f| + p) <==> CountedAt(g, p)
  {
    assert (f + g)[..|f| + p] == f + g[..p] && (f + g)[|f| + p] == g[p];
    GensAppend(f, g[..p], g[p].run);
    GensAbsent(f, g[p].run);
  }

  /** Behind records of other runs contiguity is decided by the appended records alone. */
  lemma ContiguousAppend(f: seq<Record>, g: seq<Record>)
    requires Contiguous(f) && NoSharedRun(f, g)
    ensures Contiguous(f + g) <==> Contiguous(g)
  {
    var h := f + g;
    if Contiguous(g) {
      forall p | 0 <= p < |h|
        ensures CountedAt(h, p)
      {
        if p < |f| {
          assert h[..p] == f[..p] && h[p] == f[p] && CountedAt(f, p);
        } else {
          CountedBehind(f, g, p - |f|);
        }
      }
    }
    if Contiguous(h) {
      forall p | 0 <= p < |g|
        ensures CountedAt(g, p)
      {
        CountedBehind(f, g, p);
      }
    }
  }

  lemma FinalBefore(f: seq<Record>, g: seq<Record>, p: nat)
    requires p < |f| && NoSharedRun(f, g)
    ensures Final(f + g, p) <==> Final(f, p)
  {
    var h := f + g;
    assert h[p] == f[p];
    assert forall q :: 0 <= q < |f| ==> h[q] == f[q];
    assert forall q :: |f| <= q < |h| ==> h[q] == g[q - |f|] && h[q].run != f[p].run;
  }

  lemma FinalBehind(f: seq<Record>, g: seq<Record>, p: nat)
    requires p < |g| && NoSharedRun(f, g)
    ensures Final(f + g, |f| + p) <==> Final(g, p)
  {
    var h := f + g;
    assert h[|f| + p] == g[p];
    assert forall q :: 0 <= q < |f| ==> h[q] == f[q] && h[q].run != g[p].run;
    assert forall q :: 0 <= q < |g| ==> h[|f| + q] == g[q];
    assert forall q :: |f| <= q < |h| ==> h[q] == g[q - |f|];
  }

  lemma PairBefore(a: seq<Record>, b: seq<Record>, c: seq<Record>, d: seq<Record>, p: nat)
    requires p < |a| && NoSharedRun(a, c) && PairOk(a, b, p)
    ensures PairOk(a + c, b + d, p)
  {
    FinalBefore(a, c, p);
    var x, y := a + c, b + d;
    assert x[p] == a[p];
    if HitsTarget(a, b, p) {
      var q :| 0 <= q < |b| && Key(b[q]) == (a[p].run, a[p].gen + 1) && a[p].target == b[q].current;
      assert y[q] == b[q];
    }
    if KeepsPrevious(a, p) {
      var q :| 0 <= q < |a| && (a[q].run, a[q].gen + 1) == Key(a[p]) && a[p].previous == a[q].current;
      assert x[q] == a[q];
    }
  }

  lemma PairBehind(a: seq<Record>, b: seq<Record>, c: seq<Record>, d: seq<Record>, p: nat)
    requires p < |c| && NoSharedRun(a, c) && PairOk(c, d, p)
    ensures PairOk(a + c, b + d, |a| + p)
  {
    FinalBehind(a, c, p);
    var x, y := a + c, b + d;
    assert x[|a| + p] == c[p];
    if HitsTarget(c, d, p) {
      var q :| 0 <= q < |d| && Key(d[q]) == (c[p].run, c[p].gen + 1) && c[p].target == d[q].current;
      assert y[|b| + q] == d[q];
    }
    if KeepsPrevious(c, p) {
      var q :| 0 <= q < |c| && (c[q].run, c[q].gen + 1) == Key(c[p]) && c[p].previous == c[q].current;
      assert x[|a| + q] == c[q];
    }
  }

  /** Aligned heads stay aligned when both gain aligned records of fresh runs. */
  lemma AlignedAppend(a: seq<Record>, b: seq<Record>, c: seq<Record>, d: seq<Record>)
    requires Aligned(a, b) && Aligned(c, d) && NoSharedRun(a, c)
    ensures Aligned(a + c, b + d)
  {
    forall p | 0 <= p < |a + c|
      ensures PairOk(a + c, b + d, p)
    {
      if p < |a| {
        PairBefore(a, b, c, d, p);
      } else {
        PairBehind(a, b, c, d, p - |a|);
      }
    }
  }

  // ----- Dictionaries -----

  ghost predicate Indexes(m: map<(nat, nat), nat>, f: seq<Record>)
  {
    && (forall p :: 0 <= p < |f| ==> Key(f[p]) in m)
    && (forall k :: k in m ==> m[k] < |f| && Key(f[m[k]]) == k)
  }

  method IndexByKey(f: seq<Record>) returns (m: map<(nat, nat), nat>)
    ensures Indexes(m, f)
  {
    m := map[];
    for pos := 0 to |f|
      invariant forall p :: 0 <= p < pos ==> Key(f[p]) in m
      invariant forall k :: k in m ==> m[k] < pos && Key(f[m[k]]) == k
    {
      m := m[Key(f[pos]) := pos];
    }
  }

  ghost predicate Occurs(f: seq<Record>, n: nat, run: nat, gen: nat)
    requires n <= |f|
  {
    exists p :: 0 <= p < n && Key(f[p]) == (run, gen)
  }

  /** The largest generation of every run with a positive one among the first `n` records. */
  ghost predicate Maxima(m: map<nat, nat>, f: seq<Record>, n: nat)
    requires n <= |f|
  {
    && (forall p :: 0 <= p < n && f[p].gen > 0 ==> f[p].run in m && f[p].gen <= m[f[p].run])
    && (forall run :: run in m ==> m[run] > 0 && Occurs(f, n, run, m[run]))
  }

  lemma MaximaStep(m: map<nat, nat>, f: seq<Record>, n: nat)
    requires n < |f| && Maxima(m, f, n)
    ensures var (rid, gen) := Key(f[n]);
            Maxima(if gen > (if rid in m then m[rid] else 0) then m[rid := gen] else m, f, n + 1)
  {
    var (rid, gen) := Key(f[n]);
    assert Occurs(f, n + 1, rid, gen);
    forall run | run in m
      ensures Occurs(f, n + 1, run, m[run])
    {
      assert Occurs(f, n, run, m[run]);
    }
  }

  method MaxGenerations(f: seq<Record>) returns (m: map<nat, nat>)
    ensures Maxima(m, f, |f|)
  {
    m := map[];
    for pos := 0 to |f|
      invariant Maxima(m, f, pos)
    {
      MaximaStep(m, f, pos);
      var rid, gen := f[pos].run, f[pos].gen;
      if gen > (if rid in m then m[rid] else 0) {
        m := m[rid := gen];
      }
    }
  }

  /** Every record of this record's run has generation 0, so the run has no entry among the maxima. */
  ghost predicate OnlyZero(a: seq<Record>, p: nat)
    requires p < |a|
  {
    forall q :: 0 <= q < |a| && a[q].run == a[p].run ==> a[q].gen == 0
  }

  ghost predicate NoOnlyZero(a: seq<Record>, n: nat)
    requires n <= |a|
  {
    forall p :: 0 <= p < n ==> !OnlyZero(a, p)
  }

  lemma ContiguousHasNoZero(a: seq<Record>)
    requires Contiguous(a)
    ensures NoOnlyZero(a, |a|)
  {
    forall p | 0 <= p < |a|
      ensures !OnlyZero(a, p)
    {
      assert CountedAt(a, p);
    }
  }

  lemma MaximaDecideFinal(m: map<nat, nat>, a: seq<Record>, p: nat)
    requires Maxima(m, a, |a|) && p < |a|
    ensures a[p].run in m <==> !OnlyZero(a, p)
    ensures a[p].run in m ==> (a[p].gen >= m[a[p].run] <==> Final(a, p))
  {
    var run := a[p].run;
    if run in m {
      assert Occurs(a, |a|, run, m[run]);
      var q :| 0 <= q < |a| && Key(a[q]) == (run, m[run]);
      assert a[q].run == run && a[q].gen > 0;
      FinalIsLargest(a, p, m[run]);
    }
  }

  lemma FinalIsLargest(a: seq<Record>, p: nat, top: nat)
    requires p < |a| && Occurs(a, |a|, a[p].run, top)
    requires forall q :: 0 <= q < |a| && a[q].run == a[p].run ==> a[q].gen <= top
    ensures a[p].gen >= top <==> Final(a, p)
  {
    var q :| 0 <= q < |a| && Key(a[q]) == (a[p].run, top);
    assert a[q].run == a[p].run;
  }

  lemma LookupTarget(m: map<(nat, nat), nat>, a: seq<Record>, b: seq<Record>, p: nat)
    requires Indexes(m, b) && UniqueKeys(b) && p < |a|
    ensures var k := (a[p].run, a[p].gen + 1);
            HitsTarget(a, b, p) <==> k in m && a[p].target == b[m[k]].current
  {
    var k := (a[p].run, a[p].gen + 1);
    if HitsTarget(a, b, p) {
      var q :| 0 <= q < |b| && Key(b[q]) == k && a[p].target == b[q].current;
      SameKey(b, q, m[k]);
    }
  }

  lemma SameKey(f: seq<Record>, p: nat, q: nat)
    requires UniqueKeys(f) && p < |f| && q < |f| && Key(f[p]) == Key(f[q])
    ensures p == q
  {
  }

  lemma LookupPrevious(m: map<(nat, nat), nat>, a: seq<Record>, p: nat)
    requires Indexes(m, a) && Contiguous(a) && p < |a| && a[p].gen >= 2
    ensures var k := (a[p].run, (a[p].gen - 1) as nat);
            k in m && (KeepsPrevious(a, p) <==> a[p].previous == a[m[k]].current)
  {
    var run, k := a[p].run, (a[p].run, (a[p].gen - 1) as nat);
    assert CountedAt(a, p);
    var e := GenerationExists(a, p, run, a[p].gen - 1);
    assert Key(a[e]) == k;
    assert Key(a[m[k]]) == k;
    ContiguousUnique(a);
    if KeepsPrevious(a, p) {
      var q :| 0 <= q < |a| && (a[q].run, a[q].gen + 1) == Key(a[p]) && a[p].previous == a[q].current;
      assert Key(a[q]) == k;
      SameKey(a, q, m[k]);
    }
  }

  // ----- The check -----

  datatype Mismatch =
    | NoConsumer(owner: nat, run: nat, gen: nat)
    | WrongTarget(owner: nat, run: nat, gen: nat)
    | WrongPrevious(owner: nat, run: nat, gen: nat)

  /** One record's comparison: what it appends, and whether it counts as checked. */
  method CheckRecord(owner: nat, a: seq<Record>, b: seq<Record>, pos: nat,
                     aIndex: map<(nat, nat), nat>, bIndex: map<(nat, nat), nat>)
    returns (found: seq<Mismatch>, compared: bool)
    requires pos < |a| && Indexes(aIndex, a) && Indexes(bIndex, b)
    ensures Contiguous(a) && Contiguous(b) ==>
              (found == [] <==> HitsTarget(a, b, pos) && (a[pos].gen >= 2 ==> KeepsPrevious(a, pos)))
    ensures !compared ==> found != []
  {
    found := [];
    var rid, gen := a[pos].run, a[pos].gen;
    if Contiguous(a) && Contiguous(b) {
      ContiguousUnique(b);
      LookupTarget(bIndex, a, b, pos);
      if gen >= 2 {
        LookupPrevious(aIndex, a, pos);
      }
    }
    if (rid, gen + 1) !in bIndex {
      return [NoConsumer(owner, rid, gen + 1)], false;
    }
    var nxt := bIndex[(rid, gen + 1)];
    if a[pos].target != b[nxt].current {
      found := found + [WrongTarget(owner, rid, gen)];
    }
    if gen >= 2 {
      var before: nat := gen - 1;
      if (rid, before) in aIndex && a[pos].previous != a[aIndex[(rid, before)]].current {
        found := found + [WrongPrevious(owner, rid, gen)];
      }
    }
    compared := true;
  }

  /** The same for a record that may be its run's last: those are skipped. */
  method CheckPosition(owner: nat, a: seq<Record>, b: seq<Record>, pos: nat, maxGen: map<nat, nat>,
                       aIndex: map<(nat, nat), nat>, bIndex: map<(nat, nat), nat>)
    returns (found: seq<Mismatch>, compared: bool)
    requires pos < |a| && Maxima(maxGen, a, |a|) && Indexes(aIndex, a) && Indexes(bIndex, b)
    requires a[pos].run in maxGen
    ensures Contiguous(a) && Contiguous(b) ==> (found == [] <==> PairOk(a, b, pos))
    ensures found == [] ==> (compared <==> !Final(a, pos))
  {
    MaximaDecideFinal(maxGen, a, pos);
    if a[pos].gen >= maxGen[a[pos].run] {
      return [], false;
    }
    found, compared := CheckRecord(owner, a, b, pos, aIndex, bIndex);
  }

  /** How many of the first `n` records are followed by another of their run. */
  ghost function Pairs(a: seq<Record>, n: nat): nat
    requires n <= |a|
  {
    if n == 0 then 0 else Pairs(a, n - 1) + if Final(a, n - 1) then 0 else 1
  }

  const LIMIT := 5

  ghost predicate OkUpTo(a: seq<Record>, b: seq<Record>, n: nat)
    requires n <= |a|
  {
    n == 0 || (OkUpTo(a, b, n - 1) && PairOk(a, b, n - 1))
  }

  lemma {:induction false} OkUpToIs(a: seq<Record>, b: seq<Record>, n: nat)
    requires n <= |a|
    ensures OkUpTo(a, b, n) <==> forall p :: 0 <= p < n ==> PairOk(a, b, p)
  {
    if n > 0 {
      OkUpToIs(a, b, n - 1);
    }
  }

  /**
   Compares one owner with its consumer; stops once enough mismatches have been collected, and
   raises at a record whose run has generation 0 only.
   */
  method CheckPair(owner: nat, a: seq<Record>, b: seq<Record>, start: seq<Mismatch>)
    returns (mismatches: seq<Mismatch>, checked: nat, raised: bool)
    requires |start| < LIMIT
    ensures start <= mismatches
    ensures raised ==> !NoOnlyZero(a, |a|)
    ensures !raised && |mismatches| < LIMIT ==> NoOnlyZero(a, |a|)
    ensures Contiguous(a) && Contiguous(b) ==> !raised && (mismatches == start <==> Aligned(a, b))
    ensures !raised && mismatches == start ==> checked == Pairs(a, |a|)
  {
    hide Contiguous, Final, PairOk, OnlyZero, Maxima, Indexes;
    mismatches, checked, raised := start, 0, false;
    ghost var good := Contiguous(a) && Contiguous(b);
    var bIndex := IndexByKey(b);
    var maxGen := MaxGenerations(a);
    var aIndex := IndexByKey(a);
    for pos := 0 to |a|
      invariant start <= mismatches && NoOnlyZero(a, pos)
      invariant good ==> (|mismatches| == |start| <==> OkUpTo(a, b, pos))
      invariant |mismatches| == |start| ==> checked == Pairs(a, pos)
    {
      MaximaDecideFinal(maxGen, a, pos);
      if a[pos].run !in maxGen {
        if Contiguous(a) {
          ContiguousHasNoZero(a);
        }
        raised := true;
        return;
      }
      var found, compared := CheckPosition(owner, a, b, pos, maxGen, aIndex, bIndex);
      mismatches := mismatches + found;
      if !compared {
        continue;
      }
      checked := checked + 1;
      if |mismatches| >= LIMIT {
        OkUpToIs(a, b, pos + 1);
        return;
      }
    }
    OkUpToIs(a, b, |a|);
  }

  /** Every adjacent pair of the heads at hand is aligned. */
  ghost predicate AllAligned(owners: seq<nat>, frames: map<nat, seq<Record>>, n: nat)
    requires n <= |owners| && forall i :: 0 <= i < |owners| ==> owners[i] in frames
  {
    forall i :: 0 <= i < n && owners[i] + 1 in frames ==> Aligned(frames[owners[i]], frames[owners[i] + 1])
  }

  /** How many pairs the first `n` owners have. */
  ghost function AllPairs(owners: seq<nat>, frames: map<nat, seq<Record>>, n: nat): nat
    requires n <= |owners| && forall i :: 0 <= i < |owners| ==> owners[i] in frames
  {
    if n == 0 then 0
    else
      var a := frames[owners[n - 1]];
      AllPairs(owners, frames, n - 1) + if owners[n - 1] + 1 in frames then Pairs(a, |a|) else 0
  }

  /** No compared owner has a run with generation 0 only. */
  ghost predicate NoneOnlyZero(owners: seq<nat>, frames: map<nat, seq<Record>>, n: nat)
    requires n <= |owners| && forall i :: 0 <= i < |owners| ==> owners[i] in frames
  {
    forall i :: 0 <= i < n && owners[i] + 1 in frames ==> NoOnlyZero(frames[owners[i]], |frames[owners[i]]|)
  }

  /**
   The alignment check over all heads. On contiguous traces it never raises, reports nothing exactly
   when every adjacent pair is aligned, and then it has compared every pair there is. On any traces
   it raises only for a run with generation 0 only.
   */
  method CheckTemporalAlignment(owners: seq<nat>, frames: map<nat, seq<Record>>)
    returns (checked: nat, mismatches: seq<Mismatch>, raised: bool)
    requires forall i :: 0 <= i < |owners| ==> owners[i] in frames
    ensures raised ==> !NoneOnlyZero(owners, frames, |owners|)
    ensures !raised && |mismatches| < LIMIT ==> NoneOnlyZero(owners, frames, |owners|)
    ensures (forall o :: o in frames ==> Contiguous(frames[o])) ==>
              !raised && (mismatches == [] <==> AllAligned(owners, frames, |owners|))
    ensures !raised && mismatches == [] ==> checked == AllPairs(owners, frames, |owners|)
  {
    checked, mismatches, raised := 0, [], false;
    ghost var good := forall o :: o in frames ==> Contiguous(frames[o]);
    for i := 0 to |owners|
      invariant good ==> (mismatches == [] <==> AllAligned(owners, frames, i))
      invariant mismatches == [] ==> checked == AllPairs(owners, frames, i)
      invariant |mismatches| < LIMIT && !raised && NoneOnlyZero(owners, frames, i)
    {
      var owner := owners[i];
      if owner + 1 !in frames {
        continue;
      }
      var more, count, stopped := CheckPair(owner, frames[owner], frames[owner + 1], mismatches);
      checked := checked + count;
      mismatches := more;
      if stopped {
        raised := true;
        return;
      }
      if |mismatches| >= LIMIT {
        break;
      }
    }
  }
}
