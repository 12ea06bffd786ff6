/**
 The trace collector that writes the head files: features of token t wait in one buffer until
 their consumer layer routes on token t+1, while token t+1 fills the other buffer.
 */
module TraceCollector {
  import opened TemporalAlignment

  const LAYERS := 40
  const OWNER_FIRST := 6
  const OWNER_LAST := 37
  const MISSING_EXPERT := 65535

  /** A feature that waits for its consumer. */
  datatype Pending = Pending(generation: nat, current: Route, previous: Route)
  datatype Slot = Empty | Full(pending: Pending)

  /** Everything the collector updates; `files` holds the records written per owner. */
  datatype Buffers = Buffers(
    active: bool,
    generation: nat,
    current: seq<Slot>,
    next: seq<Slot>,
    previousRoutes: seq<Route>,
    files: seq<seq<Record>>)

  /** A route of fixed width; absent and unrepresentable experts become the sentinel. */
  function Fixed(route: Route, k: nat): Route
  {
    seq(k, i requires 0 <= i => if i < |route| && route[i] < MISSING_EXPERT then route[i] else MISSING_EXPERT)
  }

  /** Every expert of the route fits the recorded width. */
  predicate Fits(route: Route)
  {
    forall i :: 0 <= i < |route| ==> route[i] < 65535
  }

  /**
   A fixed route has the fixed width: it keeps every position whose expert exists and fits and marks
   every other; a route of that width whose experts all fit is kept as it is.
   */
  lemma FixedKeeps(route: Route, k: nat)
    ensures |Fixed(route, k)| == k
    ensures forall i :: 0 <= i < k && i < |route| && route[i] < 65535 ==> Fixed(route, k)[i] == route[i]
    ensures forall i :: 0 <= i < k && (i >= |route| || route[i] >= 65535) ==> Fixed(route, k)[i] == 65535
    ensures |route| == k && Fits(route) ==> Fixed(route, k) == route
  {
    if |route| == k && Fits(route) {
      assert forall i :: 0 <= i < k ==> Fixed(route, k)[i] == route[i];
    }
  }

  predicate Sized(b: Buffers)
  {
    |b.current| == |b.next| == |b.previousRoutes| == |b.files| == LAYERS
  }

  predicate IsConsumer(layer: nat)
  {
    OWNER_FIRST < layer <= OWNER_LAST + 1
  }

  predicate IsOwner(layer: nat)
  {
    OWNER_FIRST <= layer <= OWNER_LAST
  }

  function EmptySlots(): (s: seq<Slot>)
    ensures |s| == LAYERS && forall i :: 0 <= i < LAYERS ==> s[i] == Empty
  {
    seq(LAYERS, _ => Empty)
  }

  // ----- What each call does to the buffers -----

  function AfterBeginDecode(b: Buffers): Buffers
  {
    Buffers(true, 0, EmptySlots(), EmptySlots(), seq(LAYERS, _ => []), b.files)
  }

  function AfterBeginToken(b: Buffers): Buffers
  {
    if !b.active then b
    else b.(current := b.next, next := EmptySlots(), generation := b.generation + 1)
  }

  /** The consumer takes the waiting feature and, if it is one token old, writes it with its own route. */
  function AfterConsume(b: Buffers, run: nat, k: nat, layer: nat, executed: Route): Buffers
    requires Sized(b) && layer < LAYERS
  {
    if !IsConsumer(layer) || b.current[layer].Empty? then b
    else
      var p := b.current[layer].pending;
      var r := Record(run, p.generation, p.current, p.previous, Fixed(executed, k));
      var taken := b.(current := b.current[layer := Empty]);
      if p.generation + 1 == b.generation then taken.(files := b.files[layer - 1 := b.files[layer - 1] + [r]])
      else taken
  }

  /** The owner leaves a feature for the layer behind it; every layer remembers its route. */
  function AfterProduce(b: Buffers, k: nat, layer: nat, executed: Route): Buffers
    requires Sized(b) && layer < LAYERS
  {
    var feature := Full(Pending(b.generation, Fixed(executed, k), Fixed(b.previousRoutes[layer], k)));
    b.(next := if IsOwner(layer) then b.next[layer + 1 := feature] else b.next,
       previousRoutes := b.previousRoutes[layer := executed])
  }

  function AfterObserve(b: Buffers, run: nat, k: nat, layer: nat, executed: Route): Buffers
    requires Sized(b) && layer < LAYERS
  {
    if !b.active || |executed| != k then b
    else AfterProduce(AfterConsume(b, run, k, layer, executed), k, layer, executed)
  }

  class Collector {
    const run: nat
    const k: nat
    var active: bool
    var generation: nat
    var current: seq<Slot>
    var next: seq<Slot>
    var previousRoutes: seq<Route>
    var files: seq<seq<Record>>

    function State(): Buffers
      reads this
    {
      Buffers(active, generation, current, next, previousRoutes, files)
    }

    ghost predicate Valid()
      reads this
    {
      Sized(State())
    }

    constructor (run: nat, k: nat, written: seq<seq<Record>>)
      requires |written| == LAYERS
      ensures Valid() && this.run == run && this.k == k
      ensures !active && files == written
    {
      this.run := run;
      this.k := k;
      active := false;
      generation := 0;
      current := EmptySlots();
      next := EmptySlots();
      previousRoutes := seq(LAYERS, _ => []);
      files := written;
    }

    method BeginDecode()
      requires Valid()
      modifies this
      ensures Valid() && State() == AfterBeginDecode(old(State()))
    {
      active := true;
      generation := 0;
      current := EmptySlots();
      next := EmptySlots();
      previousRoutes := seq(LAYERS, _ => []);
    }

    method BeginToken()
      requires Valid()
      modifies this
      ensures Valid() && State() == AfterBeginToken(old(State()))
      ensures !old(active) ==> State() == old(State())
    {
      if active {
        current, next := next, current;
        next := EmptySlots();
        generation := generation + 1;
      }
    }

    method WriteRecord(owner: nat, pending: Pending, target: Route)
      requires Valid() && owner < LAYERS
      modifies this`files
      ensures files == old(files)[owner := old(files)[owner]
                + [Record(run, pending.generation, pending.current, pending.previous, Fixed(target, k))]]
    {
      var r := Record(run, pending.generation, pending.current, pending.previous, Fixed(target, k));
      files := files[owner := files[owner] + [r]];
    }

    /** Observes one layer's route; refuses a route of another width while active. */
    method Observe(layer: nat, executed: Route) returns (ok: bool)
      requires Valid() && layer < LAYERS
      modifies this
      ensures Valid() && State() == AfterObserve(old(State()), run, k, layer, executed)
      ensures ok <==> !old(active) || |executed| == k
      ensures !old(active) || !ok ==> State() == old(State())
    {
      if !active {
        return true;
      }
      if |executed| != k {
        return false;
      }
      if layer > OWNER_FIRST && layer <= OWNER_LAST + 1 {
        var slot := current[layer];
        if slot.Full? {
          current := current[layer := Empty];
          if slot.pending.generation + 1 == generation {
            WriteRecord(layer - 1, slot.pending, executed);
          }
        }
      }
      if OWNER_FIRST <= layer <= OWNER_LAST {
        var previous := Fixed(previousRoutes[layer], k);
        next := next[layer + 1 := Full(Pending(generation, Fixed(executed, k), previous))];
      }
      previousRoutes := previousRoutes[layer := executed];
      return true;
    }
  }

  // ----- A decode -----

  /** One token: the boundary, then layers `0..n` in order. */
  function FeedLayers(b: Buffers, run: nat, k: nat, row: seq<Route>, n: nat): (r: Buffers)
    requires Sized(b) && n <= |row| == LAYERS
    ensures Sized(r)
  {
    if n == 0 then b else AfterObserve(FeedLayers(b, run, k, row, n - 1), run, k, n - 1, row[n - 1])
  }

  /** A whole decode of the first `t` tokens, from the decode boundary on. */
  function FeedTokens(b: Buffers, run: nat, k: nat, rows: seq<seq<Route>>, t: nat): (r: Buffers)
    requires Sized(b) && t <= |rows| && Shaped(rows, k)
    ensures Sized(r)
  {
    if t == 0 then AfterBeginDecode(b)
    else FeedLayers(AfterBeginToken(FeedTokens(b, run, k, rows, t - 1)), run, k, rows[t - 1], LAYERS)
  }

  /** Every token routes every layer, at the recorded width. */
  predicate Shaped(rows: seq<seq<Route>>, k: nat)
  {
    forall i :: 0 <= i < |rows| ==> RowShaped(rows[i], k)
  }

  predicate RowShaped(row: seq<Route>, k: nat)
  {
    |row| == LAYERS && forall l :: 0 <= l < LAYERS ==> |row[l]| == k
  }

  // ----- What a decode should write -----

  /** Route of a layer on token `g`, counted from 1; before the first token there is none. */
  function RouteAt(rows: seq<seq<Route>>, k: nat, layer: nat, g: nat): Route
    requires Shaped(rows, k) && g <= |rows| && layer < LAYERS
  {
    if g == 0 then [] else assert RowShaped(rows[g - 1], k); rows[g - 1][layer]
  }

  function FeatureAt(rows: seq<seq<Route>>, k: nat, owner: nat, g: nat): Pending
    requires Shaped(rows, k) && 1 <= g <= |rows| && owner < LAYERS
  {
    Pending(g, Fixed(RouteAt(rows, k, owner, g), k), Fixed(RouteAt(rows, k, owner, g - 1), k))
  }

  /** Owner's record `g`: its route now and before, and its consumer's route on the next token. */
  function RecordAt(rows: seq<seq<Route>>, run: nat, k: nat, owner: nat, g: nat): Record
    requires Shaped(rows, k) && 1 <= g < |rows| && owner + 1 < LAYERS
  {
    Record(run, g, Fixed(RouteAt(rows, k, owner, g), k), Fixed(RouteAt(rows, k, owner, g - 1), k),
           Fixed(RouteAt(rows, k, owner + 1, g + 1), k))
  }

  function Trace(rows: seq<seq<Route>>, run: nat, k: nat, owner: nat, n: nat): (s: seq<Record>)
    requires Shaped(rows, k) && (n == 0 || n < |rows|) && owner + 1 < LAYERS
    ensures |s| == n && forall i :: 0 <= i < n ==> s[i] == RecordAt(rows, run, k, owner, i + 1)
  {
    seq(n, i requires 0 <= i < n => RecordAt(rows, run, k, owner, i + 1))
  }

  // ----- The buffer invariant -----

  /** Records of an owner written when layers below `l` of token `g` have run. */
  function WrittenBy(g: nat, l: nat, owner: nat): nat
  {
    if g == 0 then 0 else if owner + 1 < l then g - 1 else if g == 1 then 0 else g - 2
  }

  function CurrentSlot(rows: seq<seq<Route>>, k: nat, g: nat, l: nat, layer: nat): Slot
    requires Shaped(rows, k) && g <= |rows| && 1 <= layer < LAYERS
  {
    if layer < l || g <= 1 then Empty else Full(FeatureAt(rows, k, layer - 1, g - 1))
  }

  function NextSlot(rows: seq<seq<Route>>, k: nat, g: nat, l: nat, layer: nat): Slot
    requires Shaped(rows, k) && g <= |rows| && 1 <= layer < LAYERS
  {
    if g == 0 || l < layer then Empty else Full(FeatureAt(rows, k, layer - 1, g))
  }

  ghost predicate SlotsOk(b: Buffers, rows: seq<seq<Route>>, k: nat, g: nat, l: nat, layer: nat)
    requires Sized(b) && Shaped(rows, k) && g <= |rows| && layer < LAYERS
  {
    && (IsConsumer(layer) ==>
          b.current[layer] == CurrentSlot(rows, k, g, l, layer) && b.next[layer] == NextSlot(rows, k, g, l, layer))
    && b.previousRoutes[layer] == RouteAt(rows, k, layer, if g == 0 || layer < l then g else g - 1)
  }

  ghost predicate FileOk(b: Buffers, base: seq<seq<Record>>, rows: seq<seq<Route>>, run: nat, k: nat, g: nat, l: nat,
                         layer: nat)
    requires Sized(b) && |base| == LAYERS && Shaped(rows, k) && g <= |rows| && layer < LAYERS
  {
    b.files[layer] == base[layer] + if IsOwner(layer) then Trace(rows, run, k, layer, WrittenBy(g, l, layer)) else []
  }

  /** The buffers when layers below `l` of token `g` have run. */
  ghost predicate Follows(b: Buffers, base: seq<seq<Record>>, rows: seq<seq<Route>>, run: nat, k: nat, g: nat, l: nat)
    requires |base| == LAYERS && Shaped(rows, k) && g <= |rows| && l <= LAYERS
  {
    && Sized(b) && b.active && b.generation == g
    && (forall layer: nat :: layer < LAYERS ==> SlotsOk(b, rows, k, g, l, layer))
    && (forall layer: nat :: layer < LAYERS ==> FileOk(b, base, rows, run, k, g, l, layer))
  }

  lemma DecodeStarts(b: Buffers, rows: seq<seq<Route>>, run: nat, k: nat)
    requires Sized(b) && Shaped(rows, k)
    ensures Follows(AfterBeginDecode(b), b.files, rows, run, k, 0, LAYERS)
  {
  }

  lemma TokenStarts(b: Buffers, base: seq<seq<Record>>, rows: seq<seq<Route>>, run: nat, k: nat, g: nat, h: nat)
    requires |base| == LAYERS && Shaped(rows, k) && g < h == g + 1 <= |rows|
    requires Follows(b, base, rows, run, k, g, LAYERS)
    ensures Follows(AfterBeginToken(b), base, rows, run, k, h, 0)
  {
    var c := AfterBeginToken(b);
    forall layer: nat | layer < LAYERS
      ensures SlotsOk(c, rows, k, h, 0, layer)
    {
      assert SlotsOk(b, rows, k, g, LAYERS, layer);
    }
    forall layer: nat | layer < LAYERS
      ensures FileOk(c, base, rows, run, k, h, 0, layer)
    {
      assert FileOk(b, base, rows, run, k, g, LAYERS, layer);
    }
  }

  /** What one observation does to the slots of any layer. */
  lemma SlotsStep(b: Buffers, rows: seq<seq<Route>>, run: nat, k: nat, g: nat, l: nat, layer: nat)
    requires Sized(b) && b.active && b.generation == g && Shaped(rows, k) && 1 <= g <= |rows|
    requires l < LAYERS && layer < LAYERS && SlotsOk(b, rows, k, g, l, l) && SlotsOk(b, rows, k, g, l, layer)
    ensures SlotsOk(AfterObserve(b, run, k, l, RouteAt(rows, k, l, g)), rows, k, g, l + 1, layer)
  {
    assert RowShaped(rows[g - 1], k);
  }

  /** The consumer's layer writes the owner's record of the token before. */
  lemma WrittenSnoc(b: Buffers, base: seq<seq<Record>>, rows: seq<seq<Route>>, run: nat, k: nat, g: nat, l: nat,
                    layer: nat)
    requires Sized(b) && b.active && b.generation == g && Shaped(rows, k) && 2 <= g <= |rows| && |base| == LAYERS
    requires l < LAYERS && layer + 1 == l && IsOwner(layer)
    requires SlotsOk(b, rows, k, g, l, l) && FileOk(b, base, rows, run, k, g, l, layer)
    ensures AfterObserve(b, run, k, l, RouteAt(rows, k, l, g)).files[layer]
            == base[layer] + Trace(rows, run, k, layer, g - 1)
  {
    assert RowShaped(rows[g - 1], k);
    TraceSnoc(rows, run, k, layer, g - 1);
  }

  /** What one observation does to any file: the consumer's owner gains one record from the second token on. */
  lemma FileStep(b: Buffers, base: seq<seq<Record>>, rows: seq<seq<Route>>, run: nat, k: nat, g: nat, l: nat,
                 layer: nat)
    requires Sized(b) && b.active && b.generation == g && Shaped(rows, k) && 1 <= g <= |rows| && |base| == LAYERS
    requires l < LAYERS && layer < LAYERS && SlotsOk(b, rows, k, g, l, l) && FileOk(b, base, rows, run, k, g, l, layer)
    ensures FileOk(AfterObserve(b, run, k, l, RouteAt(rows, k, l, g)), base, rows, run, k, g, l + 1, layer)
  {
    hide RouteAt, Trace, FeatureAt;
    assert RowShaped(rows[g - 1], k);
    if layer + 1 == l && IsOwner(layer) && g >= 2 {
      WrittenSnoc(b, base, rows, run, k, g, l, layer);
    }
  }

  lemma TraceSnoc(rows: seq<seq<Route>>, run: nat, k: nat, owner: nat, n: nat)
    requires Shaped(rows, k) && 1 <= n < |rows| && owner + 1 < LAYERS
    ensures Trace(rows, run, k, owner, n) == Trace(rows, run, k, owner, n - 1) + [RecordAt(rows, run, k, owner, n)]
  {
  }

  lemma LayerFeeds(b: Buffers, base: seq<seq<Record>>, rows: seq<seq<Route>>, run: nat, k: nat, g: nat, l: nat, m: nat)
    requires |base| == LAYERS && Shaped(rows, k) && 1 <= g <= |rows| && l < m == l + 1 <= LAYERS
    requires Follows(b, base, rows, run, k, g, l)
    ensures Follows(AfterObserve(b, run, k, l, RouteAt(rows, k, l, g)), base, rows, run, k, g, m)
  {
    var c := AfterObserve(b, run, k, l, RouteAt(rows, k, l, g));
    assert SlotsOk(b, rows, k, g, l, l);
    forall layer: nat | layer < LAYERS
      ensures SlotsOk(c, rows, k, g, m, layer)
    {
      assert SlotsOk(b, rows, k, g, l, layer);
      SlotsStep(b, rows, run, k, g, l, layer);
    }
    forall layer: nat | layer < LAYERS
      ensures FileOk(c, base, rows, run, k, g, m, layer)
    {
      assert FileOk(b, base, rows, run, k, g, l, layer);
      FileStep(b, base, rows, run, k, g, l, layer);
    }
  }

  lemma {:induction false} RowFeeds(b: Buffers, base: seq<seq<Record>>, rows: seq<seq<Route>>, run: nat, k: nat, g: nat,
                                    n: nat)
    requires |base| == LAYERS && Shaped(rows, k) && 1 <= g <= |rows| && n <= LAYERS && RowShaped(rows[g - 1], k)
    requires Follows(b, base, rows, run, k, g, 0)
    ensures Follows(FeedLayers(b, run, k, rows[g - 1], n), base, rows, run, k, g, n)
    decreases n
  {
    if n > 0 {
      RowFeeds(b, base, rows, run, k, g, n - 1);
      LayerFeeds(FeedLayers(b, run, k, rows[g - 1], n - 1), base, rows, run, k, g, n - 1, n);
    }
  }

  lemma {:induction false} DecodeFollows(b: Buffers, rows: seq<seq<Route>>, run: nat, k: nat, t: nat)
    requires Sized(b) && Shaped(rows, k) && t <= |rows|
    ensures Follows(FeedTokens(b, run, k, rows, t), b.files, rows, run, k, t, LAYERS)
    decreases t
  {
    if t == 0 {
      DecodeStarts(b, rows, run, k);
    } else {
      DecodeFollows(b, rows, run, k, t - 1);
      TokenStarts(FeedTokens(b, run, k, rows, t - 1), b.files, rows, run, k, t - 1, t);
      assert RowShaped(rows[t - 1], k);
      RowFeeds(AfterBeginToken(FeedTokens(b, run, k, rows, t - 1)), b.files, rows, run, k, t, LAYERS);
    }
  }

  /** How many records a decode leaves per owner: one per token but the last. */
  function TraceLength(rows: seq<seq<Route>>): nat
  {
    if rows == [] then 0 else |rows| - 1
  }

  /** `later` is `files` with the decode's trace behind every owner's records and nothing else. */
  ghost predicate Traced(files: seq<seq<Record>>, later: seq<seq<Record>>, rows: seq<seq<Route>>, run: nat, k: nat)
    requires Shaped(rows, k)
  {
    && |files| == |later| == LAYERS
    && forall layer :: 0 <= layer < LAYERS ==>
         later[layer] == files[layer] + if IsOwner(layer) then Trace(rows, run, k, layer, TraceLength(rows)) else []
  }

  /**
   A decode of `T` tokens appends to every owner's file exactly one record per token but the last,
   each pairing the owner's route with its consumer's route one token later.
   */
  lemma DecodeWritesTrace(b: Buffers, rows: seq<seq<Route>>, run: nat, k: nat)
    requires Sized(b) && Shaped(rows, k)
    ensures Traced(b.files, FeedTokens(b, run, k, rows, |rows|).files, rows, run, k)
  {
    var t := FeedTokens(b, run, k, rows, |rows|);
    DecodeFollows(b, rows, run, k, |rows|);
    forall layer: nat | layer < LAYERS
      ensures t.files[layer] == b.files[layer]
                              + if IsOwner(layer) then Trace(rows, run, k, layer, TraceLength(rows)) else []
    {
      assert FileOk(t, b.files, rows, run, k, |rows|, LAYERS, layer);
    }
  }

  /** The sentinels that stand for the route before the first token. */
  predicate NoRoute(route: Route, k: nat)
  {
    |route| == k && forall i :: 0 <= i < k ==> route[i] == 65535
  }

  /** What record `g` of an owner holds: its own route, its route before, its consumer's route one token later. */
  ghost predicate Holds(r: Record, rows: seq<seq<Route>>, run: nat, k: nat, owner: nat, g: nat)
    requires Shaped(rows, k) && 1 <= g < |rows| && owner + 1 < LAYERS
  {
    assert forall i :: 0 <= i < |rows| ==> RowShaped(rows[i], k);
    && r.run == run && r.gen == g
    && r.current == rows[g - 1][owner]
    && (if g == 1 then NoRoute(r.previous, k) else r.previous == rows[g - 2][owner])
    && r.target == rows[g][owner + 1]
  }

  predicate AllFit(rows: seq<seq<Route>>)
  {
    forall i, l :: 0 <= i < |rows| && 0 <= l < |rows[i]| ==> Fits(rows[i][l])
  }

  /** The owners 6 to 37 gain one record per token but the last, and no other file changes. */
  ghost predicate Recorded(files: seq<seq<Record>>, later: seq<seq<Record>>, rows: seq<seq<Route>>, run: nat, k: nat)
    requires Shaped(rows, k)
  {
    && |files| == |later| == 40
    && (forall o :: 0 <= o < 40 && !(6 <= o <= 37) ==> later[o] == files[o])
    && (forall o :: 6 <= o <= 37 ==> Added(files[o], later[o], rows, run, k, o))
  }

  ghost predicate Added(f: seq<Record>, later: seq<Record>, rows: seq<seq<Route>>, run: nat, k: nat, owner: nat)
    requires Shaped(rows, k) && owner + 1 < LAYERS
  {
    && f <= later && |later| == |f| + (if rows == [] then 0 else |rows| - 1)
    && (forall p :: |f| <= p < |later| ==> Holds(later[p], rows, run, k, owner, p - |f| + 1))
  }

  lemma RecordHolds(rows: seq<seq<Route>>, run: nat, k: nat, owner: nat, g: nat)
    requires Shaped(rows, k) && AllFit(rows) && 1 <= g < |rows| && owner + 1 < LAYERS
    ensures Holds(RecordAt(rows, run, k, owner, g), rows, run, k, owner, g)
  {
    assert RowShaped(rows[g - 1], k) && RowShaped(rows[g], k);
    FixedKeeps(rows[g - 1][owner], k);
    FixedKeeps(rows[g][owner + 1], k);
    if g == 1 {
      FixedKeeps([], k);
    } else {
      assert RowShaped(rows[g - 2], k);
      FixedKeeps(rows[g - 2][owner], k);
    }
  }

  /** When every expert fits, the trace is the routes themselves. */
  lemma TraceIsRoutes(files: seq<seq<Record>>, later: seq<seq<Record>>, rows: seq<seq<Route>>, run: nat, k: nat)
    requires Shaped(rows, k) && AllFit(rows) && Traced(files, later, rows, run, k)
    ensures Recorded(files, later, rows, run, k)
  {
    forall o | 6 <= o <= 37
      ensures Added(files[o], later[o], rows, run, k, o)
    {
      forall p | |files[o]| <= p < |later[o]|
        ensures Holds(later[o][p], rows, run, k, o, p - |files[o]| + 1)
      {
        RecordHolds(rows, run, k, o, p - |files[o]| + 1);
      }
    }
  }

  /** Drives a collector over a decode, as the decoder does: the boundary, then every token's layers in order. */
  method Decode(c: Collector, rows: seq<seq<Route>>)
    requires c.Valid() && Shaped(rows, c.k)
    modifies c
    ensures c.Valid() && Traced(old(c.files), c.files, rows, c.run, c.k)
    ensures AllFit(rows) ==> Recorded(old(c.files), c.files, rows, c.run, c.k)
  {
    ghost var b := c.State();
    c.BeginDecode();
    for t := 0 to |rows|
      invariant c.Valid() && c.State() == FeedTokens(b, c.run, c.k, rows, t)
    {
      assert RowShaped(rows[t], c.k);
      c.BeginToken();
      ghost var begun := c.State();
      for layer := 0 to LAYERS
        invariant c.Valid() && c.State() == FeedLayers(begun, c.run, c.k, rows[t], layer)
      {
        var ok := c.Observe(layer, rows[t][layer]);
      }
    }
    DecodeWritesTrace(b, rows, c.run, c.k);
    if AllFit(rows) {
      TraceIsRoutes(b.files, c.files, rows, c.run, c.k);
    }
  }

  // ----- Such a trace passes validation -----

  lemma {:induction false} CountedFromOne(f: seq<Record>, run: nat)
    requires forall i :: 0 <= i < |f| ==> f[i].run == run && f[i].gen == i + 1
    ensures Contiguous(f) && |GensOf(f, run)| == |f|
    decreases |f|
  {
    if f != [] {
      var most, r := f[..|f| - 1], f[|f| - 1];
      CountedFromOne(most, run);
      CountedSnoc(most, r);
      assert f == most + [r];
    }
  }

  lemma CountedSnoc(f: seq<Record>, r: Record)
    requires Contiguous(f) && r.gen == |GensOf(f, r.run)| + 1
    ensures Contiguous(f + [r]) && |GensOf(f + [r], r.run)| == |GensOf(f, r.run)| + 1
  {
    GensSnoc(f, r, r.run);
    ContiguousSnoc(f, r);
  }

  /** One decode's records count up from generation 1 for every owner, and every owner is aligned with the next. */
  lemma TraceAligns(rows: seq<seq<Route>>, run: nat, k: nat, owner: nat)
    requires Shaped(rows, k) && IsOwner(owner)
    ensures var n := TraceLength(rows);
            && Contiguous(Trace(rows, run, k, owner, n))
            && (IsOwner(owner + 1) ==> Aligned(Trace(rows, run, k, owner, n), Trace(rows, run, k, owner + 1, n)))
  {
    var n := TraceLength(rows);
    var a := Trace(rows, run, k, owner, n);
    CountedFromOne(a, run);
    if IsOwner(owner + 1) {
      var b := Trace(rows, run, k, owner + 1, n);
      forall p | 0 <= p < |a|
        ensures PairOk(a, b, p)
      {
        if p + 1 == n {
          LastIsFinal(a, n);
        } else {
          assert b[p + 1] == RecordAt(rows, run, k, owner + 1, p + 2);
          NextHits(a, b, p, p + 1);
          if p >= 1 {
            PreviousKept(a, p, p - 1);
          }
        }
      }
    }
  }

  /** What validation asks of the head files: generations count up, and neighbours are aligned. */
  ghost predicate Validates(files: seq<seq<Record>>)
    requires |files| == LAYERS
  {
    && (forall o :: 0 <= o < LAYERS && IsOwner(o) ==> Contiguous(files[o]))
    && (forall o, n :: 0 <= o < n == o + 1 < LAYERS && IsOwner(o) && IsOwner(n) ==> Aligned(files[o], files[n]))
  }

  ghost predicate Fresh(run: nat, f: seq<Record>)
  {
    forall p :: 0 <= p < |f| ==> f[p].run != run
  }

  ghost predicate FreshIn(run: nat, files: seq<seq<Record>>)
    requires |files| == LAYERS
  {
    forall o :: 0 <= o < LAYERS && IsOwner(o) ==> Fresh(run, files[o])
  }

  /** Head files that validate still do after a decode under a fresh run id. */
  lemma DecodeKeepsValidating(files: seq<seq<Record>>, later: seq<seq<Record>>, rows: seq<seq<Route>>, run: nat, k: nat)
    requires Shaped(rows, k) && Traced(files, later, rows, run, k)
    requires Validates(files) && FreshIn(run, files)
    ensures Validates(later)
  {
    var n := TraceLength(rows);
    forall o | 0 <= o < LAYERS && IsOwner(o)
      ensures Contiguous(later[o])
    {
      assert Fresh(run, files[o]);
      TraceAligns(rows, run, k, o);
      ContiguousAppend(files[o], Trace(rows, run, k, o, n));
    }
    forall o, m | 0 <= o < m == o + 1 < LAYERS && IsOwner(o) && IsOwner(m)
      ensures Aligned(later[o], later[m])
    {
      assert Fresh(run, files[o]);
      TraceAligns(rows, run, k, o);
      AlignedAppend(files[o], files[m], Trace(rows, run, k, o, n), Trace(rows, run, k, m, n));
    }
  }

  /**
   A second decode under one run id starts its generations at 1 again: the file stays contiguous
   exactly when one of the two decodes wrote nothing.
   */
  lemma SecondDecodeExact(f: seq<Record>, first: seq<seq<Route>>, second: seq<seq<Route>>, run: nat, k: nat, owner: nat)
    requires Shaped(first, k) && Shaped(second, k) && IsOwner(owner) && Contiguous(f) && Fresh(run, f)
    ensures var a := Trace(first, run, k, owner, TraceLength(first));
            var b := Trace(second, run, k, owner, TraceLength(second));
            Contiguous(f + a + b) <==> |first| <= 1 || |second| <= 1
  {
    var a := Trace(first, run, k, owner, TraceLength(first));
    var b := Trace(second, run, k, owner, TraceLength(second));
    TraceAligns(first, run, k, owner);
    TraceAligns(second, run, k, owner);
    assert f + a + b == f + (a + b);
    ContiguousAppend(f, a + b);
    if a == [] {
      assert a + b == b;
    } else if b == [] {
      assert a + b == a;
    } else {
      assert (a + b)[..|a|] == a && (a + b)[|a|] == b[0];
      CountedFromOne(a, run);
      assert !CountedAt(a + b, |a|);
    }
  }

  lemma LastIsFinal(a: seq<Record>, n: nat)
    requires |a| == n >= 1 && forall i :: 0 <= i < n ==> a[i].gen == i + 1
    ensures Final(a, n - 1)
  {
  }

  lemma NextHits(a: seq<Record>, b: seq<Record>, p: nat, q: nat)
    requires p < |a| && q < |b| && Key(b[q]) == (a[p].run, a[p].gen + 1) && a[p].target == b[q].current
    ensures HitsTarget(a, b, p)
  {
  }

  lemma PreviousKept(a: seq<Record>, p: nat, q: nat)
    requires p < |a| && q < |a| && (a[q].run, a[q].gen + 1) == Key(a[p]) && a[p].previous == a[q].current
    ensures KeepsPrevious(a, p)
  {
  }
}
