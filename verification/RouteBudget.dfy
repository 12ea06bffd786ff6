/**
 The oracle expert budget of a future window: how many distinct experts are needed so that
 the window's routing events that go to them reach a threshold.
 */
module RouteBudget {
  import opened Arithmetic

  type Expert = nat

  /** How many events select one expert. */
  function Count(events: seq<Expert>, e: Expert): nat
  {
    if events == [] then 0
    else Count(events[..|events| - 1], e) + if events[|events| - 1] == e then 1 else 0
  }

  /** How many events select an expert of the set. */
  function Covered(events: seq<Expert>, experts: set<Expert>): (n: nat)
    ensures n <= |events|
  {
    if events == [] then 0
    else Covered(events[..|events| - 1], experts) + if events[|events| - 1] in experts then 1 else 0
  }

  ghost predicate Covers(events: seq<Expert>, experts: set<Expert>, need: int)
  {
    Covered(events, experts) >= need
  }

  /** `n` experts suffice and no fewer do. */
  ghost predicate IsMinimum(events: seq<Expert>, need: int, n: nat)
  {
    && (exists experts :: |experts| == n && Covers(events, experts, need))
    && (forall experts :: Covers(events, experts, need) ==> n <= |experts|)
  }

  // ----- Covering with the most frequent experts -----

  lemma {:induction false} CoveredAdd(events: seq<Expert>, experts: set<Expert>, e: Expert)
    requires e !in experts
    ensures Covered(events, experts + {e}) == Covered(events, experts) + Count(events, e)
  {
    if events != [] {
      CoveredAdd(events[..|events| - 1], experts, e);
    }
  }

  lemma {:induction false} CoveredSubset(events: seq<Expert>, a: set<Expert>, b: set<Expert>)
    requires a <= b
    ensures Covered(events, a) <= Covered(events, b)
  {
    if events != [] {
      CoveredSubset(events[..|events| - 1], a, b);
    }
  }

  lemma {:induction false} CoveredAll(events: seq<Expert>, experts: set<Expert>)
    requires forall e :: e in events ==> e in experts
    ensures Covered(events, experts) == |events|
  {
    if events != [] {
      CoveredAll(events[..|events| - 1], experts);
    }
  }

  /** No set covers more events than a set of the same size that holds the most frequent experts. */
  lemma {:induction false} TopCoversMost(events: seq<Expert>, experts: set<Expert>, top: set<Expert>)
    requires |experts| <= |top|
    requires forall x, y :: x !in top && y in top ==> Count(events, x) <= Count(events, y)
    ensures Covered(events, experts) <= Covered(events, top)
    decreases |experts - top|
  {
    if experts <= top {
      CoveredSubset(events, experts, top);
    } else {
      var x :| x in experts && x !in top;
      assert exists y :: y in top && y !in experts by {
        if top <= experts {
          SubsetSize(top, experts - {x});
          assert false;
        }
      }
      var y :| y in top && y !in experts;
      var rest := experts - {x};
      CoveredAdd(events, rest, x);
      assert rest + {x} == experts;
      CoveredAdd(events, rest, y);
      assert (rest + {y}) - top == (experts - top) - {x};
      TopCoversMost(events, rest + {y}, top);
    }
  }

  lemma {:induction false} SubsetSize<T>(a: set<T>, b: set<T>)
    requires a <= b
    ensures |a| <= |b|
  {
    if a != {} {
      var x :| x in a;
      SubsetSize(a - {x}, b - {x});
    }
  }

  // ----- The counter and the sorted frequencies -----

  predicate Distinct(s: seq<Expert>)
  {
    forall i, j :: 0 <= i < j < |s| ==> s[i] != s[j]
  }

  function Experts(s: seq<Expert>): set<Expert>
  {
    set e | e in s
  }

  lemma {:induction false} DistinctSize(s: seq<Expert>)
    requires Distinct(s)
    ensures |Experts(s)| == |s|
  {
    if s != [] {
      var init, last := s[..|s| - 1], s[|s| - 1];
      DistinctSize(init);
      assert Experts(s) == Experts(init) + {last};
    }
  }

  /** Counts the events per expert, keeping first-seen order. */
  method CountEvents(events: seq<Expert>) returns (keys: seq<Expert>, counts: map<Expert, nat>)
    ensures Distinct(keys) && counts.Keys == Experts(keys) == Experts(events)
    ensures forall e :: e in counts ==> counts[e] == Count(events, e)
  {
    keys, counts := [], map[];
    for i := 0 to |events|
      invariant Distinct(keys) && counts.Keys == Experts(keys) == Experts(events[..i])
      invariant forall e :: e in counts ==> counts[e] == Count(events[..i], e)
      invariant forall e :: e !in counts ==> Count(events[..i], e) == 0
    {
      var e := events[i];
      assert events[..i + 1][..i] == events[..i] && events[..i + 1] == events[..i] + [e];
      if e in counts {
        counts := counts[e := counts[e] + 1];
      } else {
        keys := keys + [e];
        counts := counts[e := 1];
      }
    }
    assert events[..|events|] == events;
  }

  predicate Falling(order: seq<Expert>, counts: map<Expert, nat>)
  {
    && (forall i :: 0 <= i < |order| ==> order[i] in counts)
    && (forall i, j :: 0 <= i < j < |order| ==> counts[order[i]] >= counts[order[j]])
  }

  /** Inserts one expert behind those with at least its count. */
  method Insert(order: seq<Expert>, counts: map<Expert, nat>, e: Expert) returns (r: seq<Expert>)
    requires Distinct(order) && Falling(order, counts) && e !in order && e in counts
    ensures Distinct(r) && Falling(r, counts) && Experts(r) == Experts(order) + {e}
  {
    var p := 0;
    while p < |order| && counts[order[p]] >= counts[e]
      invariant p <= |order|
      invariant forall i :: 0 <= i < p ==> counts[order[i]] >= counts[e]
    {
      p := p + 1;
    }
    r := order[..p] + [e] + order[p..];
    InsertedExperts(order, e, p);
    InsertedOrder(order, counts, e, p);
  }

  lemma InsertedExperts(order: seq<Expert>, e: Expert, p: nat)
    requires p <= |order|
    ensures Experts(order[..p] + [e] + order[p..]) == Experts(order) + {e}
  {
    var r := order[..p] + [e] + order[p..];
    assert order == order[..p] + order[p..];
    assert forall x :: x in r <==> x in order[..p] || x == e || x in order[p..];
  }

  lemma InsertedOrder(order: seq<Expert>, counts: map<Expert, nat>, e: Expert, p: nat)
    requires Distinct(order) && Falling(order, counts) && e !in order && e in counts && p <= |order|
    requires forall i :: 0 <= i < p ==> counts[order[i]] >= counts[e]
    requires p < |order| ==> counts[order[p]] < counts[e]
    ensures var r := order[..p] + [e] + order[p..]; Distinct(r) && Falling(r, counts)
  {
    var r := order[..p] + [e] + order[p..];
    assert forall i :: 0 <= i < p ==> r[i] == order[i];
    assert r[p] == e;
    assert forall i :: p < i < |r| ==> r[i] == order[i - 1];
  }

  /** Orders experts by falling count. */
  method SortByCount(keys: seq<Expert>, counts: map<Expert, nat>) returns (order: seq<Expert>)
    requires Distinct(keys) && Experts(keys) <= counts.Keys
    ensures Distinct(order) && Falling(order, counts) && Experts(order) == Experts(keys)
  {
    order := [];
    for k := 0 to |keys|
      invariant Distinct(order) && Falling(order, counts) && Experts(order) == Experts(keys[..k])
    {
      var e := keys[k];
      assert e !in keys[..k] && e in Experts(keys);
      assert e !in order by {
        assert e in order ==> e in Experts(order);
      }
      order := Insert(order, counts, e);
      assert Experts(keys[..k + 1]) == Experts(keys[..k]) + {e};
    }
    assert keys[..|keys|] == keys;
  }

  /** The first experts of the order, and what one more adds. */
  lemma PrefixCovered(events: seq<Expert>, order: seq<Expert>, n: nat)
    requires Distinct(order) && n < |order|
    ensures Covered(events, Experts(order[..n + 1])) == Covered(events, Experts(order[..n])) + Count(events, order[n])
  {
    assert Experts(order[..n + 1]) == Experts(order[..n]) + {order[n]};
    CoveredAdd(events, Experts(order[..n]), order[n]);
  }

  /** An expert outside a prefix of the order is no more frequent than one inside. */
  lemma PrefixIsFrequent(events: seq<Expert>, order: seq<Expert>, n: nat, x: Expert, y: Expert)
    requires n <= |order| && Experts(order) == Experts(events)
    requires forall i, j :: 0 <= i < j < |order| ==> Count(events, order[i]) >= Count(events, order[j])
    requires x !in order[..n] && y in order[..n]
    ensures Count(events, x) <= Count(events, y)
  {
    if x in order {
      assert order == order[..n] + order[n..];
      var i :| 0 <= i < |order| - n && order[n..][i] == x;
      var j :| 0 <= j < n && order[..n][j] == y;
      assert order[n + i] == x && order[j] == y;
    } else {
      assert x !in Experts(order);
      AbsentCount(events, x);
    }
  }

  /** A prefix of the order covers as much as any set of its size. */
  lemma PrefixIsBest(events: seq<Expert>, order: seq<Expert>, n: nat, experts: set<Expert>)
    requires Distinct(order) && n <= |order| && Experts(order) == Experts(events)
    requires forall i, j :: 0 <= i < j < |order| ==> Count(events, order[i]) >= Count(events, order[j])
    requires |experts| <= n
    ensures Covered(events, experts) <= Covered(events, Experts(order[..n]))
  {
    DistinctSize(order[..n]);
    forall x, y | x !in Experts(order[..n]) && y in Experts(order[..n])
      ensures Count(events, x) <= Count(events, y)
    {
      PrefixIsFrequent(events, order, n, x, y);
    }
    TopCoversMost(events, experts, Experts(order[..n]));
  }

  lemma {:induction false} AbsentCount(events: seq<Expert>, e: Expert)
    requires e !in events
    ensures Count(events, e) == 0
  {
    if events != [] {
      AbsentCount(events[..|events| - 1], e);
    }
  }

  /**
   Adds up the largest counts until they reach `need`. The result is the minimum number of
   experts exactly when something is needed (or there are no events): for `need <= 0` the
   loop still takes one expert before it looks.
   */
  method OracleBudget(events: seq<Expert>, need: int) returns (n: nat)
    requires need <= |events|
    ensures IsMinimum(events, need, n) <==> need >= 1 || events == []
    ensures need <= 0 && events != [] ==> n == 1
  {
    var keys, counts := CountEvents(events);
    var order := SortByCount(keys, counts);
    assert forall i :: 0 <= i < |order| ==> order[i] in Experts(order) && counts[order[i]] == Count(events, order[i]);
    var acc := 0;
    ghost var before := 0;
    n := 0;
    assert Experts(order[..0]) == {};
    CoveredNone(events);
    while n < |order|
      invariant n <= |order| && acc == Covered(events, Experts(order[..n]))
      invariant n == 0 || acc < need
      invariant n >= 1 ==> before == Covered(events, Experts(order[..n - 1]))
      invariant n >= 2 ==> before < need
    {
      PrefixCovered(events, order, n);
      before := acc;
      acc := acc + counts[order[n]];
      n := n + 1;
      if acc >= need {
        break;
      }
    }
    assert n >= 2 ==> Covered(events, Experts(order[..n - 1])) < need;
    Conclude(events, order, n, need);
  }

  lemma {:induction false} CoveredNone(events: seq<Expert>)
    ensures Covered(events, {}) == 0
  {
    if events != [] {
      CoveredNone(events[..|events| - 1]);
    }
  }

  /** Fewer experts than the loop took do not cover what is needed. */
  lemma FewerFall(events: seq<Expert>, order: seq<Expert>, n: nat, need: int, experts: set<Expert>)
    requires Distinct(order) && n <= |order| && Experts(order) == Experts(events)
    requires forall i, j :: 0 <= i < j < |order| ==> Count(events, order[i]) >= Count(events, order[j])
    requires need >= 1 && (n >= 2 ==> Covered(events, Experts(order[..n - 1])) < need)
    requires |experts| < n
    ensures Covered(events, experts) < need
  {
    if n == 1 {
      CoveredNone(events);
    } else {
      PrefixIsBest(events, order, n - 1, experts);
    }
  }

  /** The whole order covers everything. */
  lemma WholeCovers(events: seq<Expert>, order: seq<Expert>)
    requires Experts(order) == Experts(events)
    ensures Covered(events, Experts(order[..|order|])) == |events|
    ensures events == [] <==> order == []
  {
    assert order[..|order|] == order;
    assert forall e :: e in events ==> e in Experts(events);
    assert forall e :: e in order ==> e in Experts(order);
    assert events != [] ==> events[0] in Experts(events);
    assert order != [] ==> order[0] in Experts(order);
    CoveredAll(events, Experts(order));
  }

  /** Where the loop stopped, the prefix is a smallest cover, or nothing was needed. */
  lemma Conclude(events: seq<Expert>, order: seq<Expert>, n: nat, need: int)
    requires Distinct(order) && n <= |order| && Experts(order) == Experts(events) && need <= |events|
    requires forall i, j :: 0 <= i < j < |order| ==> Count(events, order[i]) >= Count(events, order[j])
    requires n == |order| || (n >= 1 && Covered(events, Experts(order[..n])) >= need)
    requires n >= 2 ==> Covered(events, Experts(order[..n - 1])) < need
    ensures IsMinimum(events, need, n) <==> need >= 1 || events == []
    ensures need <= 0 && events != [] ==> n == 1
  {
    WholeCovers(events, order);
    DistinctSize(order[..n]);
    assert |Experts(order[..n])| == n && Covers(events, Experts(order[..n]), need);
    forall experts | need >= 1 && |experts| < n
      ensures !Covers(events, experts, need)
    {
      FewerFall(events, order, n, need, experts);
    }
    assert need <= 0 ==> Covers(events, {}, need);
  }

  // ----- The window -----

  /** The events of a window of routes, in order. */
  function Flatten(window: seq<seq<Expert>>): seq<Expert>
  {
    if window == [] then [] else window[0] + Flatten(window[1..])
  }

  /** How often the routes of a window name an expert. */
  function CountIn(window: seq<seq<Expert>>, e: Expert): nat
  {
    if window == [] then 0 else Count(window[0], e) + CountIn(window[1..], e)
  }

  /** Every route of the window enters the events: an expert's count is the sum of its counts. */
  lemma {:induction false} FlattenCounts(window: seq<seq<Expert>>, e: Expert)
    ensures Count(Flatten(window), e) == CountIn(window, e)
    decreases |window|
  {
    if window != [] {
      FlattenCounts(window[1..], e);
      CountAppend(window[0], Flatten(window[1..]), e);
    }
  }

  lemma {:induction false} CountAppend(a: seq<Expert>, b: seq<Expert>, e: Expert)
    ensures Count(a + b, e) == Count(a, e) + Count(b, e)
    decreases |b|
  {
    if b == [] {
      assert a + b == a;
    } else {
      CountAppend(a, b[..|b| - 1], e);
      assert (a + b)[..|a + b| - 1] == a + b[..|b| - 1];
    }
  }

  /** What a set covers is the number of positions that hold a member. */
  lemma {:induction false} CoveredIs(events: seq<Expert>, experts: set<Expert>)
    ensures Covered(events, experts) == |set i | 0 <= i < |events| && events[i] in experts|
    decreases |events|
  {
    if events != [] {
      var n := |events| - 1;
      CoveredIs(events[..n], experts);
      hide Covered;
      assert (set i | 0 <= i < |events| && events[i] in experts) ==
             (set i | 0 <= i < n && events[..n][i] in experts) + if events[n] in experts then {n} else {};
    }
  }

  lemma {:induction false} CountIsCovered(events: seq<Expert>, e: Expert)
    ensures Count(events, e) == Covered(events, {e})
    decreases |events|
  {
    if events != [] {
      CountIsCovered(events[..|events| - 1], e);
    }
  }

  /** What the study subtracts before it rounds up. */
  const SLACK := 0.000000000001

  /** The events a threshold asks for. */
  function NeedEvents(thr: real, count: nat): (need: int)
    requires 0.0 < thr <= 1.0
    ensures need <= count
  {
    assert thr * count as real <= count as real;
    Ceil(thr * count as real - SLACK)
  }

  /** The experts take at least the share `thr` of the events, up to `slack` events. */
  ghost predicate Reaches(events: seq<Expert>, experts: set<Expert>, thr: real, slack: real)
  {
    Covered(events, experts) as real >= thr * |events| as real - slack
  }

  /** `n` experts reach the share and no fewer do. */
  ghost predicate IsSmallest(events: seq<Expert>, thr: real, slack: real, n: nat)
  {
    && (exists experts :: |experts| == n && Reaches(events, experts, thr, slack))
    && (forall experts :: Reaches(events, experts, thr, slack) ==> n <= |experts|)
  }

  /** The share of `count` events lies above a whole number of events, but by no more than the slack. */
  ghost predicate JustAbove(thr: real, count: nat)
  {
    thr * count as real <= (Ceil(thr * count as real) - 1) as real + SLACK
  }

  lemma CeilDecides(y: real, k: int)
    ensures k >= Ceil(y) <==> k as real >= y
  {
    hide Ceil;
    var c := Ceil(y);
    if k >= c {
      assert k as real >= c as real;
    } else {
      assert k as real <= (c - 1) as real;
    }
  }

  /** Rounding up with the slack: the same whole number unless `x` lies just above one. */
  lemma SlackCeil(x: real)
    ensures Ceil(x - SLACK) == if x <= (Ceil(x) - 1) as real + SLACK then Ceil(x) - 1 else Ceil(x)
  {
    hide Ceil;
    var c := Ceil(x);
    CeilDecides(x - SLACK, c);
    CeilDecides(x - SLACK, c - 1);
    CeilDecides(x - SLACK, c - 2);
  }

  /** What the slack changes: a share just above a whole number of events needs one event less. */
  lemma NeedIsCeiling(thr: real, count: nat)
    requires 0.0 < thr <= 1.0
    ensures var whole := Ceil(thr * count as real);
            NeedEvents(thr, count) == if JustAbove(thr, count) then whole - 1 else whole
  {
    hide Ceil;
    SlackCeil(thr * count as real);
  }

  /** Covering the needed events is reaching the share up to the slack. */
  lemma CoversIsReaches(events: seq<Expert>, experts: set<Expert>, thr: real)
    requires 0.0 < thr <= 1.0
    ensures Covers(events, experts, NeedEvents(thr, |events|)) <==> Reaches(events, experts, thr, SLACK)
    ensures !JustAbove(thr, |events|) ==>
              (Reaches(events, experts, thr, SLACK) <==> Reaches(events, experts, thr, 0.0))
  {
    hide JustAbove, Ceil;
    var x, k := thr * |events| as real, Covered(events, experts);
    NeedIsCeiling(thr, |events|);
    CeilDecides(x - SLACK, k);
    CeilDecides(x, k);
  }

  /** The minimum for the needed events is the minimum for the share, up to the slack. */
  lemma MinimumIsSmallest(events: seq<Expert>, thr: real, n: nat)
    requires 0.0 < thr <= 1.0
    ensures IsMinimum(events, NeedEvents(thr, |events|), n) <==> IsSmallest(events, thr, SLACK, n)
    ensures !JustAbove(thr, |events|) ==>
              (IsSmallest(events, thr, SLACK, n) <==> IsSmallest(events, thr, 0.0, n))
  {
    hide Reaches, Covers, JustAbove, NeedEvents;
    var need := NeedEvents(thr, |events|);
    forall experts
      ensures Covers(events, experts, need) <==> Reaches(events, experts, thr, SLACK)
      ensures !JustAbove(thr, |events|) ==>
                (Reaches(events, experts, thr, SLACK) <==> Reaches(events, experts, thr, 0.0))
    {
      CoversIsReaches(events, experts, thr);
    }
  }

  /** No `n` experts take more than the needed events, though the share is more than those. */
  ghost predicate SlackBites(events: seq<Expert>, thr: real, n: nat)
    requires 0.0 < thr <= 1.0
  {
    && JustAbove(thr, |events|)
    && forall experts :: |experts| == n ==> Covered(events, experts) <= NeedEvents(thr, |events|)
  }

  /** Reaching the share without the slack, for a set that reaches it with the slack. */
  lemma ReachesExactly(events: seq<Expert>, experts: set<Expert>, thr: real)
    requires 0.0 < thr <= 1.0 && Reaches(events, experts, thr, SLACK)
    ensures Reaches(events, experts, thr, 0.0) <==>
              !JustAbove(thr, |events|) || Covered(events, experts) > NeedEvents(thr, |events|)
  {
    var x, k := thr * |events| as real, Covered(events, experts);
    CoversIsReaches(events, experts, thr);
    NeedIsCeiling(thr, |events|);
    hide JustAbove, Ceil, NeedEvents;
    CeilDecides(x, k);
  }

  /** A budget that is right up to the slack is right without it unless the slack bites. */
  lemma SmallestExactly(events: seq<Expert>, thr: real, n: nat)
    requires 0.0 < thr <= 1.0 && IsSmallest(events, thr, SLACK, n)
    ensures IsSmallest(events, thr, 0.0, n) <==> !SlackBites(events, thr, n)
  {
    hide JustAbove, NeedEvents;
    forall experts | Reaches(events, experts, thr, 0.0)
      ensures Reaches(events, experts, thr, SLACK)
    {
    }
    forall experts | Reaches(events, experts, thr, SLACK)
      ensures Reaches(events, experts, thr, 0.0) <==>
                !JustAbove(thr, |events|) || Covered(events, experts) > NeedEvents(thr, |events|)
    {
      ReachesExactly(events, experts, thr);
    }
    forall experts
      ensures Covers(events, experts, NeedEvents(thr, |events|)) <==> Reaches(events, experts, thr, SLACK)
    {
      CoversIsReaches(events, experts, thr);
    }
  }

  lemma TwoEvents(experts: set<Expert>)
    ensures Covered([3, 5], experts) == (if 3 in experts then 1 else 0) + (if 5 in experts then 1 else 0)
    ensures Covered([3, 5], experts) <= |experts|
  {
    var events := [3, 5];
    assert events[..1] == [3] && events[..1][..0] == [];
    SubsetSize({3, 5} * experts, experts);
    if 3 in experts && 5 in experts {
      assert {3, 5} * experts == {3, 5};
    } else if 3 in experts {
      assert {3, 5} * experts == {3};
    } else if 5 in experts {
      assert {3, 5} * experts == {5};
    }
  }

  /** Two events of different experts and a share a little above one: the budget of 1 misses the share. */
  lemma SlackMissesShare()
    ensures var events, thr := [3, 5], 0.5000000000005;
            && NeedEvents(thr, |events|) == 1 && IsMinimum(events, 1, 1)
            && IsSmallest(events, thr, SLACK, 1) && !IsSmallest(events, thr, 0.0, 1)
  {
    var events, thr := [3, 5], 0.5000000000005;
    var x := thr * |events| as real;
    assert x == 1.000000000001;
    CeilDecides(x, 1);
    CeilDecides(x, 2);
    NeedIsCeiling(thr, |events|);
    forall experts
      ensures Covered(events, experts) <= |experts|
    {
      TwoEvents(experts);
    }
    TwoEvents({3});
    assert Covers(events, {3}, 1);
    MinimumIsSmallest(events, thr, 1);
    SmallestExactly(events, thr, 1);
  }

  /**
   The budget of the `h` routes after `t` for one threshold: the fewest experts that take that share
   of the window's events up to the slack, exactly when some event is needed or there are none; and
   then without the slack exactly when it does not bite.
   */
  method WindowBudget(routes: seq<seq<Expert>>, t: nat, h: nat, thr: real) returns (n: nat)
    requires t + h < |routes| && 0.0 < thr <= 1.0
    ensures var events := Flatten(routes[t + 1..t + 1 + h]);
            && (IsSmallest(events, thr, SLACK, n) <==> NeedEvents(thr, |events|) >= 1 || events == [])
            && (IsSmallest(events, thr, SLACK, n) ==>
                  (IsSmallest(events, thr, 0.0, n) <==> !SlackBites(events, thr, n)))
  {
    hide NeedEvents, IsMinimum, IsSmallest, JustAbove, SlackBites;
    var events := Flatten(routes[t + 1..t + 1 + h]);
    n := OracleBudget(events, NeedEvents(thr, |events|));
    MinimumIsSmallest(events, thr, n);
    if IsSmallest(events, thr, SLACK, n) {
      SmallestExactly(events, thr, n);
    }
  }

  /** A multiple of a hundredth that is not whole lies at least a hundredth above the whole number below it. */
  lemma HundredthAbove(x: real, p: int)
    requires x * 100.0 == p as real
    ensures x > (Ceil(x) - 1) as real + SLACK
  {
    hide Ceil;
    var below := 100 * (Ceil(x) - 1);
    assert below as real == 100.0 * (Ceil(x) - 1) as real < p as real;
    assert below + 1 <= p;
    assert (below + 1) as real <= p as real;
  }

  lemma PercentShare(percent: nat, count: nat)
    ensures (percent as real / 100.0 * count as real) * 100.0 == (percent * count) as real
  {
    var h := percent as real / 100.0;
    assert h * 100.0 == percent as real;
    assert (h * count as real) * 100.0 == (h * 100.0) * count as real;
  }

  /** The study's thresholds are whole percentages, and for those the slack never matters. */
  lemma PercentagesNeverJustAbove(percent: nat, count: nat)
    requires 1 <= percent <= 100
    ensures !JustAbove(percent as real / 100.0, count)
  {
    hide Ceil;
    PercentShare(percent, count);
    HundredthAbove(percent as real / 100.0 * count as real, percent * count);
  }

  /** The study's thresholds always ask for something, so its budgets are true minima. */
  lemma StudyThresholdsNeedSomething(thr: real, count: nat)
    requires 0.8 <= thr <= 1.0 && count >= 1
    ensures NeedEvents(thr, count) >= 1
  {
    assert thr * count as real >= 0.8 * count as real;
  }
}
