/**
 The packed dynamic dense island: one input row per channel holds the activation tile followed by
 every transposed weight matrix; the graph slices them apart and multiplies.
 */
module PackedDense {
  import opened MilGraph

  const USIZE_LIMIT := 0x1_0000_0000_0000_0000

  /** Tensor names; the per-projection ones carry the projection's index. */
  datatype Name =
    | X | Xh | Act | A2 | A3
    | Wt(k: nat) | W(k: nat) | Yh(k: nat) | Yt(k: nat) | Yr(k: nat) | Y(k: nat)

  datatype Layout = Layout(inFeatures: nat, tokenSpatial: nat, totalSpatial: nat, weightOffsets: seq<nat>,
                           outFeatures: seq<nat>)

  datatype Island = Refused | Built(stmts: seq<Stmt<string>>, layout: Layout)

  // ----- The graph -----

  /** Where the columns of projection `k` start; `k == |outs|` gives the end of the row. */
  function WeightOffset(spatial: nat, outs: seq<nat>, k: nat): (r: nat)
    requires k <= |outs|
    ensures r >= spatial
  {
    if k == 0 then spatial else WeightOffset(spatial, outs, k - 1) + outs[k - 1]
  }

  function Prelude(inF: nat, spatial: nat, total: nat): seq<Stmt<Name>>
  {
    [Stmt(Xh, Shape(1, inF, 1, total), Cast(X)),
     Stmt(Act, Shape(1, inF, 1, spatial), SliceBySize(Xh, Shape(0, 0, 0, 0), Shape(1, inF, 1, spatial))),
     Stmt(A2, Shape(1, 1, inF, spatial), Reshape(Act, Shape(1, 1, inF, spatial))),
     Stmt(A3, Shape(1, 1, spatial, inF), SwapLast(A2))]
  }

  function Block(inF: nat, spatial: nat, k: nat, out: nat, offset: nat): seq<Stmt<Name>>
  {
    [Stmt(Wt(k), Shape(1, inF, 1, out), SliceBySize(Xh, Shape(0, 0, 0, offset), Shape(1, inF, 1, out))),
     Stmt(W(k), Shape(1, 1, inF, out), Reshape(Wt(k), Shape(1, 1, inF, out))),
     Stmt(Yh(k), Shape(1, 1, spatial, out), MatMul(A3, W(k))),
     Stmt(Yt(k), Shape(1, 1, out, spatial), SwapLast(Yh(k))),
     Stmt(Yr(k), Shape(1, out, 1, spatial), Reshape(Yt(k), Shape(1, out, 1, spatial))),
     Stmt(Y(k), Shape(1, out, 1, spatial), Cast(Yr(k)))]
  }

  function Graph(inF: nat, spatial: nat, outs: seq<nat>, n: nat): seq<Stmt<Name>>
    requires n <= |outs|
  {
    if n == 0 then Prelude(inF, spatial, WeightOffset(spatial, outs, |outs|))
    else Graph(inF, spatial, outs, n - 1) + Block(inF, spatial, n - 1, outs[n - 1], WeightOffset(spatial, outs, n - 1))
  }

  /** The identifier each tensor is written with. */
  function Ident(n: Name): string
  {
    match n
    case X => "x"
    case Xh => "xh"
    case Act => "act"
    case A2 => "a2"
    case A3 => "a3"
    case Wt(k) => "wt" + Decimal(k)
    case W(k) => "W" + Decimal(k)
    case Yh(k) => "yh" + Decimal(k)
    case Yt(k) => "yt" + Decimal(k)
    case Yr(k) => "yr" + Decimal(k)
    case Y(k) => "y" + Decimal(k)
  }

  predicate Accepts(inF: nat, spatial: nat, outs: seq<nat>)
  {
    && inF >= 1 && spatial >= 1 && outs != [] && (forall k :: 0 <= k < |outs| ==> outs[k] >= 1)
    && WeightOffset(spatial, outs, |outs|) < USIZE_LIMIT
  }

  /** Columns of each projection and the row's length, or nothing when the length overflows. */
  method PlaceWeights(spatial: nat, outs: seq<nat>) returns (ok: bool, weightOffsets: seq<nat>, total: nat)
    requires spatial < USIZE_LIMIT
    ensures ok <==> WeightOffset(spatial, outs, |outs|) < USIZE_LIMIT
    ensures ok ==> total == WeightOffset(spatial, outs, |outs|) && |weightOffsets| == |outs|
    ensures ok ==> forall k :: 0 <= k < |outs| ==> weightOffsets[k] == WeightOffset(spatial, outs, k)
  {
    weightOffsets, total := [], spatial;
    for k := 0 to |outs|
      invariant |weightOffsets| == k && total == WeightOffset(spatial, outs, k) < USIZE_LIMIT
      invariant forall j :: 0 <= j < k ==> weightOffsets[j] == WeightOffset(spatial, outs, j)
    {
      weightOffsets := weightOffsets + [total];
      if total + outs[k] >= USIZE_LIMIT {
        OffsetsRise(spatial, outs, k + 1, |outs|);
        return false, weightOffsets, total;
      }
      total := total + outs[k];
    }
    ok := true;
  }

  /** Builds the island: offsets first, then the shared prelude and one block per projection. */
  method BuildIsland(inF: nat, spatial: nat, outs: seq<nat>) returns (r: Island)
    requires spatial < USIZE_LIMIT
    ensures r.Built? <==> Accepts(inF, spatial, outs)
    ensures r.Built? ==> r.stmts == Written(Graph(inF, spatial, outs, |outs|), Ident)
    ensures r.Built? ==>
              && r.layout.inFeatures == inF && r.layout.tokenSpatial == spatial && r.layout.outFeatures == outs
              && r.layout.totalSpatial == WeightOffset(spatial, outs, |outs|) && |r.layout.weightOffsets| == |outs|
              && forall k :: 0 <= k < |outs| ==> r.layout.weightOffsets[k] == WeightOffset(spatial, outs, k)
  {
    if inF == 0 || spatial == 0 || outs == [] {
      return Refused;
    }
    for k := 0 to |outs|
      invariant forall j :: 0 <= j < k ==> outs[j] >= 1
    {
      if outs[k] == 0 {
        return Refused;
      }
    }
    var ok, weightOffsets, total := PlaceWeights(spatial, outs);
    if !ok {
      return Refused;
    }
    var body := Written(Prelude(inF, spatial, total), Ident);
    for k := 0 to |outs|
      invariant body == Written(Graph(inF, spatial, outs, k), Ident)
    {
      WrittenAppend(Graph(inF, spatial, outs, k), Block(inF, spatial, k, outs[k], weightOffsets[k]), Ident);
      body := body + Written(Block(inF, spatial, k, outs[k], weightOffsets[k]), Ident);
    }
    return Built(body, Layout(inF, spatial, total, weightOffsets, outs));
  }

  lemma {:induction false} OffsetsRise(spatial: nat, outs: seq<nat>, j: nat, k: nat)
    requires j <= k <= |outs|
    ensures WeightOffset(spatial, outs, j) <= WeightOffset(spatial, outs, k)
    decreases k
  {
    if j < k {
      OffsetsRise(spatial, outs, j, k - 1);
    }
  }

  // ----- The weight regions tile the row -----

  predicate InRegion(spatial: nat, outs: seq<nat>, k: nat, col: nat)
    requires k < |outs|
  {
    WeightOffset(spatial, outs, k) <= col < WeightOffset(spatial, outs, k + 1)
  }

  /** Every column behind the activation belongs to exactly one projection. */
  lemma RegionsTile(spatial: nat, outs: seq<nat>, col: nat) returns (k: nat)
    requires spatial <= col < WeightOffset(spatial, outs, |outs|)
    ensures k < |outs| && InRegion(spatial, outs, k, col)
    ensures forall j :: 0 <= j < |outs| && InRegion(spatial, outs, j, col) ==> j == k
  {
    k := FindRegion(spatial, outs, |outs|, col);
    forall j | 0 <= j < |outs| && InRegion(spatial, outs, j, col)
      ensures j == k
    {
      if j < k {
        OffsetsRise(spatial, outs, j + 1, k);
      } else if k < j {
        OffsetsRise(spatial, outs, k + 1, j);
      }
    }
  }

  lemma {:induction false} FindRegion(spatial: nat, outs: seq<nat>, n: nat, col: nat) returns (k: nat)
    requires n <= |outs| && spatial <= col < WeightOffset(spatial, outs, n)
    ensures k < n && InRegion(spatial, outs, k, col)
    decreases n
  {
    if col >= WeightOffset(spatial, outs, n - 1) {
      k := n - 1;
    } else {
      k := FindRegion(spatial, outs, n - 1, col);
    }
  }

  // ----- Running it -----

  /** The projection index a name belongs to; -1 for the shared ones. */
  function IndexOf(n: Name): int
  {
    match n
    case Wt(k) => k
    case W(k) => k
    case Yh(k) => k
    case Yt(k) => k
    case Yr(k) => k
    case Y(k) => k
    case _ => -1
  }

  ghost predicate OnlyBelow(env: map<Name, Tensor>, k: nat)
  {
    forall n :: n in env ==> IndexOf(n) < k
  }

  /** The packing contract: activation columns first, then each weight matrix transposed. */
  ghost predicate Packs(packed: Tensor, inF: nat, spatial: nat, outs: seq<nat>, x: (int, int) -> real,
                        w: (int, int, int) -> real)
  {
    && packed.shape == Shape(1, inF, 1, WeightOffset(spatial, outs, |outs|))
    && (forall i, s :: 0 <= i < inF && 0 <= s < spatial ==> packed.at(0, i, 0, s) == x(i, s))
    && (forall k: nat, o, i :: k < |outs| && 0 <= o < outs[k] && 0 <= i < inF ==>
          packed.at(0, i, 0, WeightOffset(spatial, outs, k) + o) == w(k, o, i))
  }

  /** The plain dense projection. */
  function Dense(inF: nat, x: (int, int) -> real, w: (int, int, int) -> real, k: nat, o: int, s: int): real
  {
    SumTo(inF, i => w(k, o, i) * x(i, s))
  }

  ghost predicate Shared(env: map<Name, Tensor>, packed: Tensor, inF: nat, spatial: nat)
  {
    && Xh in env && env[Xh] == packed
    && A3 in env && env[A3].shape == Shape(1, 1, spatial, inF)
    && forall s, i :: 0 <= s < spatial && 0 <= i < inF ==> env[A3].at(0, 0, s, i) == packed.at(0, i, 0, s)
  }

  lemma PreludeRuns(world: World, packed: Tensor, inF: nat, spatial: nat, total: nat)
    requires packed.shape == Shape(1, inF, 1, total) && spatial <= total
    ensures var r := Run(world, map[X := packed], Prelude(inF, spatial, total));
            r.Some? && Shared(r.value, packed, inF, spatial) && OnlyBelow(r.value, 0)
  {
    var act := Slice(packed, Shape(0, 0, 0, 0), Shape(1, inF, 1, spatial));
    var a2 := Reshaped(act, Shape(1, 1, inF, spatial));
    var a3 := Swapped(a2);
    var p := Prelude(inF, spatial, total);
    var e0 := map[X := packed];
    var e1 := e0[Xh := packed];
    var e2 := e1[Act := act];
    var e3 := e2[A2 := a2];
    var e4 := e3[A3 := a3];
    UnitSizes(inF, spatial);
    assert Run(world, e3, p[3..]) == Some(e4);
    assert p[2..][1..] == p[3..] && p[1..][1..] == p[2..];
    assert Run(world, e2, p[2..]) == Some(e4);
    assert Run(world, e1, p[1..]) == Some(e4);
    assert Run(world, e0, p) == Some(e4);
    forall s, i | 0 <= s < spatial && 0 <= i < inF
      ensures a3.at(0, 0, s, i) == packed.at(0, i, 0, s)
    {
      ReshapeToRows(act, inF, spatial, i, s);
    }
  }

  /** The six tensors of one block, as values. */
  function BlockWeights(packed: Tensor, inF: nat, out: nat, off: nat): Tensor
  {
    Reshaped(Slice(packed, Shape(0, 0, 0, off), Shape(1, inF, 1, out)), Shape(1, 1, inF, out))
  }

  function BlockOutput(a3: Tensor, w: Tensor, spatial: nat, out: nat): Tensor
  {
    Reshaped(Swapped(Product(a3, w)), Shape(1, out, 1, spatial))
  }

  ghost predicate Keeps(env: map<Name, Tensor>, later: map<Name, Tensor>)
  {
    forall n :: n in env ==> n in later && later[n] == env[n]
  }

  /** What is bound after a block. */
  function BlockEnv(env: map<Name, Tensor>, packed: Tensor, inF: nat, spatial: nat, k: nat, out: nat,
                    off: nat): map<Name, Tensor>
    requires A3 in env
  {
    var w := BlockWeights(packed, inF, out, off);
    var y := BlockOutput(env[A3], w, spatial, out);
    env[Wt(k) := Slice(packed, Shape(0, 0, 0, off), Shape(1, inF, 1, out))][W(k) := w]
    [Yh(k) := Product(env[A3], w)][Yt(k) := Swapped(Product(env[A3], w))][Yr(k) := y][Y(k) := y]
  }

  lemma BlockRuns(world: World, env: map<Name, Tensor>, packed: Tensor, inF: nat, spatial: nat, k: nat, out: nat,
                  off: nat)
    requires Shared(env, packed, inF, spatial)
    requires Wt(k) !in env && W(k) !in env && Yh(k) !in env && Yt(k) !in env && Yr(k) !in env && Y(k) !in env
    requires packed.shape.n == packed.shape.h == 1 && packed.shape.c == inF && off + out <= packed.shape.w
    ensures Run(world, env, Block(inF, spatial, k, out, off)) == Some(BlockEnv(env, packed, inF, spatial, k, out, off))
  {
    var wt := Slice(packed, Shape(0, 0, 0, off), Shape(1, inF, 1, out));
    var w := BlockWeights(packed, inF, out, off);
    var yh := Product(env[A3], w);
    var yt := Swapped(yh);
    var yr := BlockOutput(env[A3], w, spatial, out);
    var p := Block(inF, spatial, k, out, off);
    var e2 := env[Wt(k) := wt][W(k) := w];
    var e4 := e2[Yh(k) := yh][Yt(k) := yt];
    UnitSizes(inF, out);
    UnitSizes(out, spatial);
    RunTwo(world, env, p[0], wt, p[1], w);
    RunTwo(world, e2, p[2], yh, p[3], yt);
    RunTwo(world, e4, p[4], yr, p[5], yr);
    RunSix(world, p, env, e2, e4, e4[Yr(k) := yr][Y(k) := yr]);
  }

  lemma RunSix(world: World, p: seq<Stmt<Name>>, env: map<Name, Tensor>, e2: map<Name, Tensor>, e4: map<Name, Tensor>,
               e6: map<Name, Tensor>)
    requires |p| == 6 && Run(world, env, [p[0], p[1]]) == Some(e2) && Run(world, e2, [p[2], p[3]]) == Some(e4)
    requires Run(world, e4, [p[4], p[5]]) == Some(e6)
    ensures Run(world, env, p) == Some(e6)
  {
    RunsThrough(world, env, [p[0], p[1]], e2, [p[2], p[3]], e4);
    RunsThrough(world, env, [p[0], p[1]] + [p[2], p[3]], e4, [p[4], p[5]], e6);
    assert p == [p[0], p[1]] + [p[2], p[3]] + [p[4], p[5]];
  }

  /** A block binds its output and keeps everything bound before. */
  lemma BlockBinds(env: map<Name, Tensor>, packed: Tensor, inF: nat, spatial: nat, k: nat, out: nat, off: nat)
    requires Shared(env, packed, inF, spatial) && OnlyBelow(env, k)
    ensures var r := BlockEnv(env, packed, inF, spatial, k, out, off);
            && Keeps(env, r) && OnlyBelow(r, k + 1) && Shared(r, packed, inF, spatial)
            && Y(k) in r && r[Y(k)] == BlockOutput(r[A3], BlockWeights(packed, inF, out, off), spatial, out)
  {
  }

  /** The product of the transposed activation and a sliced weight matrix, element by element. */
  lemma ProductAt(a3: Tensor, packed: Tensor, inF: nat, spatial: nat, out: nat, off: nat, o: nat, s: nat)
    requires a3.shape == Shape(1, 1, spatial, inF) && o < out && s < spatial
    requires forall t, i :: 0 <= t < spatial && 0 <= i < inF ==> a3.at(0, 0, t, i) == packed.at(0, i, 0, t)
    ensures Product(a3, BlockWeights(packed, inF, out, off)).at(0, 0, s, o)
            == SumTo(inF, i => packed.at(0, i, 0, off + o) * packed.at(0, i, 0, s))
  {
    var w := BlockWeights(packed, inF, out, off);
    forall i | 0 <= i < inF
      ensures w.at(0, 0, i, o) == packed.at(0, i, 0, off + o)
    {
      ReshapeToRows(Slice(packed, Shape(0, 0, 0, off), Shape(1, inF, 1, out)), inF, out, i, o);
    }
    SumSame(inF, m => a3.at(0, 0, s, m) * w.at(0, 0, m, o), i => packed.at(0, i, 0, off + o) * packed.at(0, i, 0, s));
  }

  /** What a block's output holds: the dot product of a weight column and an activation column. */
  lemma BlockComputes(a3: Tensor, packed: Tensor, inF: nat, spatial: nat, out: nat, off: nat, o: nat, s: nat)
    requires a3.shape == Shape(1, 1, spatial, inF) && o < out && s < spatial
    requires forall t, i :: 0 <= t < spatial && 0 <= i < inF ==> a3.at(0, 0, t, i) == packed.at(0, i, 0, t)
    ensures BlockOutput(a3, BlockWeights(packed, inF, out, off), spatial, out).at(0, o, 0, s)
            == SumTo(inF, i => packed.at(0, i, 0, off + o) * packed.at(0, i, 0, s))
  {
    ProductAt(a3, packed, inF, spatial, out, off, o, s);
    ReshapeFromRows(Swapped(Product(a3, BlockWeights(packed, inF, out, off))), out, spatial, o, s);
  }

  /** Output `k` is the plain dense projection. */
  ghost predicate Computes(env: map<Name, Tensor>, inF: nat, spatial: nat, out: nat, x: (int, int) -> real,
                           w: (int, int, int) -> real, k: nat)
  {
    && Y(k) in env && env[Y(k)].shape == Shape(1, out, 1, spatial)
    && forall o, s :: 0 <= o < out && 0 <= s < spatial ==> env[Y(k)].at(0, o, 0, s) == Dense(inF, x, w, k, o, s)
  }

  lemma BlockIsDense(env: map<Name, Tensor>, packed: Tensor, inF: nat, spatial: nat, outs: seq<nat>,
                     x: (int, int) -> real, w: (int, int, int) -> real, k: nat)
    requires k < |outs| && Packs(packed, inF, spatial, outs, x, w) && Shared(env, packed, inF, spatial)
    requires var off := WeightOffset(spatial, outs, k);
             Y(k) in env && env[Y(k)] == BlockOutput(env[A3], BlockWeights(packed, inF, outs[k], off), spatial, outs[k])
    ensures Computes(env, inF, spatial, outs[k], x, w, k)
  {
    var off := WeightOffset(spatial, outs, k);
    forall o, s | 0 <= o < outs[k] && 0 <= s < spatial
      ensures env[Y(k)].at(0, o, 0, s) == Dense(inF, x, w, k, o, s)
    {
      BlockComputes(env[A3], packed, inF, spatial, outs[k], off, o, s);
      SumSame(inF, i => packed.at(0, i, 0, off + o) * packed.at(0, i, 0, s), i => w(k, o, i) * x(i, s));
    }
  }

  /** One more block computes its projection and keeps the earlier ones. */
  lemma BlockStep(env: map<Name, Tensor>, packed: Tensor, inF: nat, spatial: nat, outs: seq<nat>, x: (int, int) -> real,
                  w: (int, int, int) -> real, k: nat)
    requires k < |outs| && Packs(packed, inF, spatial, outs, x, w) && Shared(env, packed, inF, spatial)
    requires OnlyBelow(env, k)
    requires forall j: nat :: j < k ==> Computes(env, inF, spatial, outs[j], x, w, j)
    ensures var r := BlockEnv(env, packed, inF, spatial, k, outs[k], WeightOffset(spatial, outs, k));
            && Shared(r, packed, inF, spatial) && OnlyBelow(r, k + 1)
            && forall j: nat :: j <= k ==> Computes(r, inF, spatial, outs[j], x, w, j)
  {
    var r := BlockEnv(env, packed, inF, spatial, k, outs[k], WeightOffset(spatial, outs, k));
    BlockBinds(env, packed, inF, spatial, k, outs[k], WeightOffset(spatial, outs, k));
    BlockIsDense(r, packed, inF, spatial, outs, x, w, k);
    forall j: nat | j < k
      ensures Computes(r, inF, spatial, outs[j], x, w, j)
    {
      assert Computes(env, inF, spatial, outs[j], x, w, j);
      assert r[Y(j)] == env[Y(j)];
    }
  }

  /** Everything bound after the first `n` projections, with each of them computed. */
  ghost predicate After(env: map<Name, Tensor>, packed: Tensor, inF: nat, spatial: nat, outs: seq<nat>,
                        x: (int, int) -> real, w: (int, int, int) -> real, n: nat)
    requires n <= |outs|
  {
    && Shared(env, packed, inF, spatial) && OnlyBelow(env, n)
    && forall k: nat :: k < n ==> Computes(env, inF, spatial, outs[k], x, w, k)
  }

  lemma BlockAdvances(world: World, env: map<Name, Tensor>, packed: Tensor, inF: nat, spatial: nat, outs: seq<nat>,
                      x: (int, int) -> real, w: (int, int, int) -> real, k: nat)
    returns (later: map<Name, Tensor>)
    requires k < |outs| && Packs(packed, inF, spatial, outs, x, w) && After(env, packed, inF, spatial, outs, x, w, k)
    ensures Run(world, env, Block(inF, spatial, k, outs[k], WeightOffset(spatial, outs, k))) == Some(later)
    ensures After(later, packed, inF, spatial, outs, x, w, k + 1)
  {
    var off := WeightOffset(spatial, outs, k);
    OffsetsRise(spatial, outs, k + 1, |outs|);
    later := BlockEnv(env, packed, inF, spatial, k, outs[k], off);
    BlockRuns(world, env, packed, inF, spatial, k, outs[k], off);
    BlockStep(env, packed, inF, spatial, outs, x, w, k);
  }

  /** The graph of the first `n` projections runs and computes each of them. */
  ghost predicate Reached(world: World, packed: Tensor, inF: nat, spatial: nat, outs: seq<nat>, x: (int, int) -> real,
                          w: (int, int, int) -> real, n: nat)
    requires n <= |outs|
  {
    exists env :: After(env, packed, inF, spatial, outs, x, w, n)
                  && Run(world, map[X := packed], Graph(inF, spatial, outs, n)) == Some(env)
  }

  lemma {:induction false} GraphRuns(world: World, packed: Tensor, inF: nat, spatial: nat, outs: seq<nat>,
                                     x: (int, int) -> real, w: (int, int, int) -> real, n: nat)
    requires n <= |outs| && Packs(packed, inF, spatial, outs, x, w)
    ensures Reached(world, packed, inF, spatial, outs, x, w, n)
    decreases n
  {
    if n == 0 {
      GraphBase(world, packed, inF, spatial, outs, x, w);
    } else {
      GraphRuns(world, packed, inF, spatial, outs, x, w, n - 1);
      GraphStep(world, packed, inF, spatial, outs, x, w, n - 1, n);
    }
  }

  lemma GraphBase(world: World, packed: Tensor, inF: nat, spatial: nat, outs: seq<nat>, x: (int, int) -> real,
                  w: (int, int, int) -> real)
    requires Packs(packed, inF, spatial, outs, x, w)
    ensures Reached(world, packed, inF, spatial, outs, x, w, 0)
  {
    PreludeRuns(world, packed, inF, spatial, WeightOffset(spatial, outs, |outs|));
    var env := Run(world, map[X := packed], Graph(inF, spatial, outs, 0)).value;
    assert After(env, packed, inF, spatial, outs, x, w, 0);
  }

  lemma GraphStep(world: World, packed: Tensor, inF: nat, spatial: nat, outs: seq<nat>, x: (int, int) -> real,
                  w: (int, int, int) -> real, k: nat, next: nat)
    requires k < next == k + 1 <= |outs| && Packs(packed, inF, spatial, outs, x, w)
    requires Reached(world, packed, inF, spatial, outs, x, w, k)
    ensures Reached(world, packed, inF, spatial, outs, x, w, next)
  {
    var mid :| After(mid, packed, inF, spatial, outs, x, w, k)
               && Run(world, map[X := packed], Graph(inF, spatial, outs, k)) == Some(mid);
    var env := BlockAdvances(world, mid, packed, inF, spatial, outs, x, w, k);
    RunsThrough(world, map[X := packed], Graph(inF, spatial, outs, k), mid,
                Block(inF, spatial, k, outs[k], WeightOffset(spatial, outs, k)), env);
  }

  // ----- The written program -----

  /** No two tensors are written with one identifier. */
  lemma IdentsApart(a: Name, b: Name)
    requires Ident(a) == Ident(b)
    ensures a == b
  {
    var s, t := Ident(a), Ident(b);
    assert s[0] == t[0] && |s| == |t|;
    assert |s| > 1 ==> s[1] == t[1];
    if a.Wt? && b.Wt? {
      NumbersApart("wt", a.k, b.k);
    } else if a.W? && b.W? {
      NumbersApart("W", a.k, b.k);
    } else if a.Yh? && b.Yh? {
      NumbersApart("yh", a.k, b.k);
    } else if a.Yt? && b.Yt? {
      NumbersApart("yt", a.k, b.k);
    } else if a.Yr? && b.Yr? {
      NumbersApart("yr", a.k, b.k);
    } else if a.Y? && b.Y? {
      NumbersApart("y", a.k, b.k);
    }
  }

  /** The shape and attribute constants of the program. */
  datatype Const =
    | To16 | Ba | Sa | Ra | Pm | Bw(k: nat) | Sw(k: nat) | Rw(k: nat) | BF(k: nat) | Ro(k: nat) | To32(k: nat)

  function ConstIdent(c: Const): string
  {
    match c
    case To16 => "to16"
    case Ba => "ba"
    case Sa => "sa"
    case Ra => "ra"
    case Pm => "pm"
    case Bw(k) => "bw" + Decimal(k)
    case Sw(k) => "sw" + Decimal(k)
    case Rw(k) => "rw" + Decimal(k)
    case BF(k) => "bF" + Decimal(k)
    case Ro(k) => "ro" + Decimal(k)
    case To32(k) => "to32_" + Decimal(k)
  }

  /** No constant shares its identifier with a tensor. */
  lemma ConstantsApart(c: Const, n: Name)
    ensures ConstIdent(c) != Ident(n)
  {
    assert ConstIdent(c)[0] in {'t', 'b', 's', 'r', 'p'};
    assert Ident(n)[0] in {'x', 'a', 'w', 'W', 'y'};
  }

  /** No two constants share one. */
  lemma ConstantsDiffer(c: Const, d: Const)
    requires ConstIdent(c) == ConstIdent(d)
    ensures c == d
  {
    var s, t := ConstIdent(c), ConstIdent(d);
    assert s[0] == t[0] && s[1] == t[1] && (|s| > 2 ==> s[2] == t[2]);
    match c
    case Bw(k) => NumbersApart("bw", k, d.k);
    case Sw(k) => NumbersApart("sw", k, d.k);
    case Rw(k) => NumbersApart("rw", k, d.k);
    case BF(k) => NumbersApart("bF", k, d.k);
    case Ro(k) => NumbersApart("ro", k, d.k);
    case To32(k) => NumbersApart("to32_", k, d.k);
    case _ =>
  }

  lemma AllApart(env: map<Name, Tensor>)
    ensures Apart(env, Ident)
  {
    var f := Ident;
    forall a, b | a in env && b in env && f(a) == f(b)
      ensures a == b
    {
      assert f(a) == Ident(a) && f(b) == Ident(b);
      IdentsApart(a, b);
    }
  }

  /** The program's output `y<k>` is the plain dense product. */
  ghost predicate Yields(end: map<string, Tensor>, inF: nat, spatial: nat, out: nat, x: (int, int) -> real,
                         w: (int, int, int) -> real, k: nat)
  {
    var y := "y" + Decimal(k);
    && y in end && end[y].shape == Shape(1, out, 1, spatial)
    && forall o, s :: 0 <= o < out && 0 <= s < spatial ==> end[y].at(0, o, 0, s) == Dense(inF, x, w, k, o, s)
  }

  lemma OutputYields(env: map<Name, Tensor>, end: map<string, Tensor>, inF: nat, spatial: nat, out: nat,
                     x: (int, int) -> real, w: (int, int, int) -> real, k: nat)
    requires Mirrors(env, end, Ident) && Computes(env, inF, spatial, out, x, w, k)
    ensures Yields(end, inF, spatial, out, x, w, k)
  {
    var f := Ident;
    assert f(Y(k)) == "y" + Decimal(k);
  }

  lemma WrittenRuns(world: World, packed: Tensor, inF: nat, spatial: nat, outs: seq<nat>, x: (int, int) -> real,
                    w: (int, int, int) -> real)
    returns (env: map<Name, Tensor>, end: map<string, Tensor>)
    requires Packs(packed, inF, spatial, outs, x, w)
    ensures Run(world, map["x" := packed], Written(Graph(inF, spatial, outs, |outs|), Ident)) == Some(end)
    ensures After(env, packed, inF, spatial, outs, x, w, |outs|) && Mirrors(env, end, Ident)
  {
    GraphRuns(world, packed, inF, spatial, outs, x, w, |outs|);
    env :| After(env, packed, inF, spatial, outs, x, w, |outs|)
           && Run(world, map[X := packed], Graph(inF, spatial, outs, |outs|)) == Some(env);
    AllApart(env);
    var f := Ident;
    assert f(X) == "x";
    end := RunWritten(world, map[X := packed], map["x" := packed], Graph(inF, spatial, outs, |outs|), Ident);
  }

  /**
   For every accepted shape the whole written program runs on the documented packing, with every
   declared shape correct and every identifier bound once, and output `k` is
   y_k[o, s] = sum over i of W_k[o, i] * x[i, s].
   */
  lemma IslandIsDense(world: World, packed: Tensor, inF: nat, spatial: nat, outs: seq<nat>, x: (int, int) -> real,
                      w: (int, int, int) -> real)
    requires Accepts(inF, spatial, outs) && Packs(packed, inF, spatial, outs, x, w)
    ensures var r := Run(world, map["x" := packed], Written(Graph(inF, spatial, outs, |outs|), Ident));
            r.Some? && forall k: nat :: k < |outs| ==> Yields(r.value, inF, spatial, outs[k], x, w, k)
  {
    var env, end := WrittenRuns(world, packed, inF, spatial, outs, x, w);
    forall k: nat | k < |outs|
      ensures Yields(end, inF, spatial, outs[k], x, w, k)
    {
      OutputYields(env, end, inF, spatial, outs[k], x, w, k);
    }
  }
}
