/**
 The fused front of a gated delta-net layer: projections of the current token, the causal
 depthwise convolution over each channel's history, and SiLU, as one graph over one packed input.
 */
module GdnFront {
  import opened MilGraph

  /** The tensors of the graph; indexed ones carry the projection or the tap. */
  datatype Name =
    | Packed | Packed16 | X16 | Hp16 | H16
    | W(k: nat) | P(k: nat)
    | Qc
    | T(k: nat) | H(k: nat) | M(k: nat)
    | Cv(k: nat)
    | Sg | Y1 | Y16 | Yout | Qkv | Aux16 | Aux

  /** The shape of a front and where its constants lie in the weight file. */
  datatype Plan = Plan(inF: nat, spatial: nat, kernel: nat, outs: seq<nat>, offsets: seq<nat>, tapOffsets: seq<nat>)

  /** The shapes that pass the builder's checks. */
  predicate ShapeOk(f: Plan)
  {
    && 1 <= |f.outs| == |f.offsets| <= 4 && f.inF >= 1
    && f.spatial >= 16 && f.spatial % 16 == 0 && 1 <= f.kernel <= f.spatial
    && (forall k :: 0 <= k < |f.outs| ==> f.outs[k] >= 1)
    && |f.tapOffsets| == f.kernel
    && f.outs[0] * f.kernel == f.inF * f.spatial
  }

  type Front = f: Plan | ShapeOk(f) witness Plan(1, 16, 16, [1], [0], seq(16, _ => 0))

  // ----- The graph -----

  function Head(f: Front): seq<Stmt<Name>>
  {
    [Stmt(Packed16, Shape(1, f.inF, 1, 2 * f.spatial), Cast(Packed)),
     Stmt(X16, Shape(1, f.inF, 1, f.spatial), SliceBySize(Packed16, Shape(0, 0, 0, 0), Shape(1, f.inF, 1, f.spatial))),
     Stmt(Hp16, Shape(1, f.inF, 1, f.spatial),
          SliceBySize(Packed16, Shape(0, 0, 0, f.spatial), Shape(1, f.inF, 1, f.spatial))),
     Stmt(H16, Shape(1, f.outs[0], 1, f.kernel), Reshape(Hp16, Shape(1, f.outs[0], 1, f.kernel)))]
  }

  function Projection(f: Front, k: nat): seq<Stmt<Name>>
    requires k < |f.outs|
  {
    [Stmt(W(k), Shape(f.outs[k], f.inF, 1, 1), Const(Shape(f.outs[k], f.inF, 1, 1), f.offsets[k])),
     Stmt(P(k), Shape(1, f.outs[k], 1, f.spatial), Conv1x1(W(k), X16))]
  }

  /** One column of all qkv channels. */
  function One(f: Front): Shape
  {
    Shape(1, f.outs[0], 1, 1)
  }

  function Current(f: Front): seq<Stmt<Name>>
  {
    [Stmt(Qc, One(f), SliceBySize(P(0), Shape(0, 0, 0, 0), One(f)))]
  }

  /** What tap `t` reads: its history column, or the current column for the last tap. */
  function Source(f: Front, t: nat): Name
  {
    if t + 1 < f.kernel then H(t) else Qc
  }

  function Tap(f: Front, t: nat): seq<Stmt<Name>>
    requires t < f.kernel
  {
    [Stmt(T(t), One(f), Const(One(f), f.tapOffsets[t]))]
    + (if t + 1 < f.kernel then [Stmt(H(t), One(f), SliceBySize(H16, Shape(0, 0, 0, t), One(f)))] else [])
    + [Stmt(M(t), One(f), Mul(Source(f, t), T(t)))]
  }

  /** The name that holds the sum of taps `0..t`. */
  function AccName(t: nat): Name
  {
    if t == 0 then M(0) else Cv(t)
  }

  function Sum(f: Front, t: nat): seq<Stmt<Name>>
    requires 1 <= t
  {
    [Stmt(Cv(t), One(f), Add(AccName(t - 1), M(t)))]
  }

  function Tail(f: Front): seq<Stmt<Name>>
  {
    var wide := Shape(1, f.outs[0], 1, f.spatial);
    [Stmt(Sg, One(f), Sigmoid(AccName(f.kernel - 1))),
     Stmt(Y1, One(f), Mul(AccName(f.kernel - 1), Sg)),
     Stmt(Y16, wide, Concat(Width, seq(f.spatial, _ => Y1))),
     Stmt(Yout, wide, Cast(Y16)),
     Stmt(Qkv, wide, Cast(P(0)))]
  }

  function AuxNames(f: Front): seq<Name>
  {
    seq(|f.outs| - 1, i requires 0 <= i => P(i + 1))
  }

  function SumOf(outs: seq<nat>): nat
  {
    if outs == [] then 0 else outs[0] + SumOf(outs[1..])
  }

  function AuxPart(f: Front): seq<Stmt<Name>>
  {
    var shape := Shape(1, SumOf(f.outs[1..]), 1, f.spatial);
    if |f.outs| == 1 then []
    else if |f.outs| == 2 then [Stmt(Aux, shape, Cast(P(1)))]
    else [Stmt(Aux16, shape, Concat(Channel, AuxNames(f))), Stmt(Aux, shape, Cast(Aux16))]
  }

  function Projections(f: Front, k: nat): seq<Stmt<Name>>
    requires k <= |f.outs|
  {
    if k == 0 then Head(f) else Projections(f, k - 1) + Projection(f, k - 1)
  }

  function Taps(f: Front, t: nat): seq<Stmt<Name>>
    requires t <= f.kernel
  {
    if t == 0 then Projections(f, |f.outs|) + Current(f) else Taps(f, t - 1) + Tap(f, t - 1)
  }

  function Sums(f: Front, t: nat): seq<Stmt<Name>>
    requires t < f.kernel
  {
    if t == 0 then Taps(f, f.kernel) else Sums(f, t - 1) + Sum(f, t)
  }

  function Graph(f: Front): seq<Stmt<Name>>
  {
    Sums(f, f.kernel - 1) + Tail(f) + AuxPart(f)
  }

  // ----- The tensors it binds -----

  function Activation(f: Front, packed: Tensor): Tensor
  {
    Slice(packed, Shape(0, 0, 0, 0), Shape(1, f.inF, 1, f.spatial))
  }

  function HistoryPart(f: Front, packed: Tensor): Tensor
  {
    Slice(packed, Shape(0, 0, 0, f.spatial), Shape(1, f.inF, 1, f.spatial))
  }

  function History(f: Front, packed: Tensor): Tensor
  {
    Reshaped(HistoryPart(f, packed), Shape(1, f.outs[0], 1, f.kernel))
  }

  function ProjectionOf(world: World, f: Front, packed: Tensor, k: nat): Tensor
    requires k < |f.outs|
  {
    Convolved(Constant(world, Shape(f.outs[k], f.inF, 1, 1), f.offsets[k]), Activation(f, packed))
  }

  function CurrentOf(world: World, f: Front, packed: Tensor): Tensor
  {
    Slice(ProjectionOf(world, f, packed, 0), Shape(0, 0, 0, 0), One(f))
  }

  function SourceOf(world: World, f: Front, packed: Tensor, t: nat): Tensor
  {
    if t + 1 < f.kernel then Slice(History(f, packed), Shape(0, 0, 0, t), One(f)) else CurrentOf(world, f, packed)
  }

  function TapOf(world: World, f: Front, packed: Tensor, t: nat): Tensor
    requires t < f.kernel
  {
    Times(SourceOf(world, f, packed, t), Constant(world, One(f), f.tapOffsets[t]))
  }

  function TapList(world: World, f: Front, packed: Tensor): (ts: seq<Tensor>)
    ensures |ts| == f.kernel && ts[0].shape == One(f)
  {
    seq(f.kernel, t requires 0 <= t < f.kernel => TapOf(world, f, packed, t))
  }

  function AccOf(world: World, f: Front, packed: Tensor, t: nat): (r: Tensor)
    requires t < f.kernel
    ensures r.shape == One(f)
  {
    SumChain(TapList(world, f, packed), t)
  }

  function SiluOf(world: World, f: Front, packed: Tensor): Tensor
  {
    var acc := AccOf(world, f, packed, f.kernel - 1);
    Times(acc, SigmoidOf(world, acc))
  }

  // ----- Running it -----

  /** The part of the graph that binds a name, and its index there. */
  function Stage(n: Name): nat
  {
    match n
    case Packed => 0
    case Packed16 => 0
    case X16 => 0
    case Hp16 => 0
    case H16 => 0
    case W(_) => 1
    case P(_) => 1
    case Qc => 2
    case T(_) => 3
    case H(_) => 3
    case M(_) => 3
    case Cv(_) => 4
    case Sg => 5
    case Y1 => 5
    case Y16 => 5
    case Yout => 5
    case Qkv => 5
    case Aux16 => 6
    case Aux => 6
  }

  function IndexOf(n: Name): nat
  {
    if n.W? || n.P? || n.T? || n.H? || n.M? || n.Cv? then n.k else 0
  }

  /** Only names of earlier stages, or of this stage with a smaller index, are bound. */
  ghost predicate OnlyBelow(env: map<Name, Tensor>, stage: nat, k: nat)
  {
    forall n :: n in env ==> Stage(n) < stage || (Stage(n) == stage && IndexOf(n) < k)
  }

  ghost predicate Has(env: map<Name, Tensor>, n: Name, t: Tensor)
  {
    n in env && env[n] == t
  }

  ghost predicate Projected(world: World, f: Front, packed: Tensor, env: map<Name, Tensor>, k: nat)
    requires k <= |f.outs|
  {
    && Has(env, X16, Activation(f, packed)) && Has(env, H16, History(f, packed))
    && forall j: nat :: j < k ==> Has(env, P(j), ProjectionOf(world, f, packed, j))
  }

  ghost predicate Tapped(world: World, f: Front, packed: Tensor, env: map<Name, Tensor>, t: nat)
    requires t <= f.kernel
  {
    && Projected(world, f, packed, env, |f.outs|) && Has(env, Qc, CurrentOf(world, f, packed))
    && forall j: nat :: j < t ==> Has(env, M(j), TapOf(world, f, packed, j))
  }

  ghost predicate Summed(world: World, f: Front, packed: Tensor, env: map<Name, Tensor>, t: nat)
    requires t < f.kernel
  {
    Tapped(world, f, packed, env, f.kernel) && Has(env, AccName(t), AccOf(world, f, packed, t))
  }

  predicate PackedShape(f: Front, packed: Tensor)
  {
    packed.shape == Shape(1, f.inF, 1, 2 * f.spatial)
  }

  lemma HeadRuns(world: World, f: Front, packed: Tensor) returns (env: map<Name, Tensor>)
    requires PackedShape(f, packed)
    ensures Run(world, map[Packed := packed], Head(f)) == Some(env)
    ensures Projected(world, f, packed, env, 0) && OnlyBelow(env, 1, 0)
  {
    var p := Head(f);
    var e0 := map[Packed := packed];
    var e1 := e0[Packed16 := packed];
    var e2 := e1[X16 := Activation(f, packed)];
    var e3 := e2[Hp16 := HistoryPart(f, packed)];
    env := e3[H16 := History(f, packed)];
    SameSize(f.inF, f.spatial, f.outs[0], f.kernel);
    assert p[2..][1..] == p[3..] && p[1..][1..] == p[2..];
    assert Run(world, e3, p[3..]) == Some(env);
    assert Run(world, e2, p[2..]) == Some(env);
    assert Run(world, e1, p[1..]) == Some(env);
  }

  lemma SameSize(a: nat, b: nat, c: nat, d: nat)
    requires c * d == a * b
    ensures Size(Shape(1, c, 1, d)) == Size(Shape(1, a, 1, b))
  {
    UnitSizes(a, b);
    UnitSizes(c, d);
  }

  lemma ProjectionRuns(world: World, f: Front, packed: Tensor, mid: map<Name, Tensor>, k: nat)
    returns (env: map<Name, Tensor>)
    requires k < |f.outs| && Projected(world, f, packed, mid, k) && OnlyBelow(mid, 1, k)
    ensures Run(world, mid, Projection(f, k)) == Some(env)
    ensures Projected(world, f, packed, env, k + 1) && OnlyBelow(env, 1, k + 1)
  {
    var w := Constant(world, Shape(f.outs[k], f.inF, 1, 1), f.offsets[k]);
    var p := ProjectionOf(world, f, packed, k);
    var s := Projection(f, k);
    RunTwo(world, mid, s[0], w, s[1], p);
    assert s == [s[0], s[1]];
    env := mid[W(k) := w][P(k) := p];
  }

  lemma CurrentRuns(world: World, f: Front, packed: Tensor, mid: map<Name, Tensor>) returns (env: map<Name, Tensor>)
    requires Projected(world, f, packed, mid, |f.outs|) && OnlyBelow(mid, 1, |f.outs|)
    ensures Run(world, mid, Current(f)) == Some(env)
    ensures Tapped(world, f, packed, env, 0) && OnlyBelow(env, 3, 0)
  {
    var q := CurrentOf(world, f, packed);
    assert Has(mid, P(0), ProjectionOf(world, f, packed, 0));
    RunStep(world, mid, Current(f)[0], q);
    assert Current(f) == [Current(f)[0]];
    env := mid[Qc := q];
    forall j: nat | j < |f.outs|
      ensures Has(env, P(j), ProjectionOf(world, f, packed, j))
    {
      assert Has(mid, P(j), ProjectionOf(world, f, packed, j));
    }
  }

  /** A tap that reads its history column. */
  lemma HistoryTapRuns(world: World, f: Front, packed: Tensor, mid: map<Name, Tensor>, t: nat)
    returns (env: map<Name, Tensor>)
    requires t + 1 < f.kernel && Tapped(world, f, packed, mid, t) && OnlyBelow(mid, 3, t)
    ensures Run(world, mid, Tap(f, t)) == Some(env)
    ensures env == mid[T(t) := Constant(world, One(f), f.tapOffsets[t])]
                      [H(t) := SourceOf(world, f, packed, t)][M(t) := TapOf(world, f, packed, t)]
  {
    var w, m := Constant(world, One(f), f.tapOffsets[t]), TapOf(world, f, packed, t);
    var s := Tap(f, t);
    var h := SourceOf(world, f, packed, t);
    var both := mid[T(t) := w][H(t) := h];
    RunTwo(world, mid, s[0], w, s[1], h);
    env := both[M(t) := m];
    RunStep(world, both, s[2], m);
    RunsThrough(world, mid, [s[0], s[1]], both, [s[2]], env);
    assert s == [s[0], s[1]] + [s[2]];
  }

  /** The last tap reads the current column. */
  lemma CurrentTapRuns(world: World, f: Front, packed: Tensor, mid: map<Name, Tensor>, t: nat)
    returns (env: map<Name, Tensor>)
    requires t + 1 == f.kernel && Tapped(world, f, packed, mid, t) && OnlyBelow(mid, 3, t)
    ensures Run(world, mid, Tap(f, t)) == Some(env)
    ensures env == mid[T(t) := Constant(world, One(f), f.tapOffsets[t])][M(t) := TapOf(world, f, packed, t)]
  {
    var w, m := Constant(world, One(f), f.tapOffsets[t]), TapOf(world, f, packed, t);
    var s := Tap(f, t);
    RunTwo(world, mid, s[0], w, s[1], m);
    assert s == [s[0], s[1]];
    env := mid[T(t) := w][M(t) := m];
  }

  lemma TapRuns(world: World, f: Front, packed: Tensor, mid: map<Name, Tensor>, t: nat) returns (env: map<Name, Tensor>)
    requires t < f.kernel && Tapped(world, f, packed, mid, t) && OnlyBelow(mid, 3, t)
    ensures Run(world, mid, Tap(f, t)) == Some(env)
    ensures Tapped(world, f, packed, env, t + 1) && OnlyBelow(env, 3, t + 1)
  {
    if t + 1 < f.kernel {
      env := HistoryTapRuns(world, f, packed, mid, t);
    } else {
      env := CurrentTapRuns(world, f, packed, mid, t);
    }
    TappedKept(world, f, packed, mid, env, t);
  }

  lemma TappedKept(world: World, f: Front, packed: Tensor, mid: map<Name, Tensor>, env: map<Name, Tensor>, t: nat)
    requires t < f.kernel && Tapped(world, f, packed, mid, t) && Has(env, M(t), TapOf(world, f, packed, t))
    requires forall n :: n in mid ==> n in env && env[n] == mid[n]
    ensures Tapped(world, f, packed, env, t + 1)
  {
    ProjectedStays(world, f, packed, mid, env);
    forall j: nat | j <= t
      ensures Has(env, M(j), TapOf(world, f, packed, j))
    {
      assert j < t ==> Has(mid, M(j), TapOf(world, f, packed, j));
    }
  }

  /** More bindings do not disturb what is there. */
  lemma TappedStays(world: World, f: Front, packed: Tensor, mid: map<Name, Tensor>, env: map<Name, Tensor>)
    requires Tapped(world, f, packed, mid, f.kernel)
    requires forall n :: n in mid ==> n in env && env[n] == mid[n]
    ensures Tapped(world, f, packed, env, f.kernel)
  {
    ProjectedStays(world, f, packed, mid, env);
    forall j: nat | j < f.kernel
      ensures Has(env, M(j), TapOf(world, f, packed, j))
    {
      assert Has(mid, M(j), TapOf(world, f, packed, j));
    }
  }

  lemma SumRuns(world: World, f: Front, packed: Tensor, mid: map<Name, Tensor>, t: nat) returns (env: map<Name, Tensor>)
    requires 1 <= t < f.kernel && Summed(world, f, packed, mid, t - 1) && OnlyBelow(mid, 4, t)
    ensures Run(world, mid, Sum(f, t)) == Some(env)
    ensures Summed(world, f, packed, env, t) && OnlyBelow(env, 4, t + 1)
  {
    var acc := AccOf(world, f, packed, t);
    assert Has(mid, M(t), TapOf(world, f, packed, t));
    RunStep(world, mid, Sum(f, t)[0], acc);
    assert Sum(f, t) == [Sum(f, t)[0]];
    env := mid[Cv(t) := acc];
    TappedStays(world, f, packed, mid, env);
  }

  lemma {:induction false} ProjectionsRun(world: World, f: Front, packed: Tensor, k: nat)
    returns (env: map<Name, Tensor>)
    requires PackedShape(f, packed) && k <= |f.outs|
    ensures Run(world, map[Packed := packed], Projections(f, k)) == Some(env)
    ensures Projected(world, f, packed, env, k) && OnlyBelow(env, 1, k)
    decreases k
  {
    if k == 0 {
      env := HeadRuns(world, f, packed);
    } else {
      var mid := ProjectionsRun(world, f, packed, k - 1);
      env := ProjectionRuns(world, f, packed, mid, k - 1);
      RunsThrough(world, map[Packed := packed], Projections(f, k - 1), mid, Projection(f, k - 1), env);
    }
  }

  /** The graph up to `t` taps runs and binds what it should. */
  ghost predicate TapsReached(world: World, f: Front, packed: Tensor, t: nat)
    requires t <= f.kernel
  {
    exists env :: Tapped(world, f, packed, env, t) && OnlyBelow(env, 3, t)
                  && Run(world, map[Packed := packed], Taps(f, t)) == Some(env)
  }

  lemma {:induction false} TapsRun(world: World, f: Front, packed: Tensor, t: nat)
    requires PackedShape(f, packed) && t <= f.kernel
    ensures TapsReached(world, f, packed, t)
    decreases t
  {
    if t == 0 {
      TapsStart(world, f, packed);
    } else {
      TapsRun(world, f, packed, t - 1);
      TapsStep(world, f, packed, t - 1, t);
    }
  }

  lemma TapsStart(world: World, f: Front, packed: Tensor)
    requires PackedShape(f, packed)
    ensures TapsReached(world, f, packed, 0)
  {
    var mid := ProjectionsRun(world, f, packed, |f.outs|);
    var env := CurrentRuns(world, f, packed, mid);
    RunsThrough(world, map[Packed := packed], Projections(f, |f.outs|), mid, Current(f), env);
  }

  lemma TapsStep(world: World, f: Front, packed: Tensor, t: nat, next: nat)
    requires t < next == t + 1 <= f.kernel && TapsReached(world, f, packed, t)
    ensures TapsReached(world, f, packed, next)
  {
    var mid :| Tapped(world, f, packed, mid, t) && OnlyBelow(mid, 3, t)
               && Run(world, map[Packed := packed], Taps(f, t)) == Some(mid);
    var env := TapRuns(world, f, packed, mid, t);
    RunsThrough(world, map[Packed := packed], Taps(f, t), mid, Tap(f, t), env);
  }

  lemma {:induction false} SumsRun(world: World, f: Front, packed: Tensor, t: nat) returns (env: map<Name, Tensor>)
    requires PackedShape(f, packed) && t < f.kernel
    ensures Run(world, map[Packed := packed], Sums(f, t)) == Some(env)
    ensures Summed(world, f, packed, env, t) && OnlyBelow(env, 4, t + 1)
    decreases t
  {
    if t == 0 {
      TapsRun(world, f, packed, f.kernel);
      env :| Tapped(world, f, packed, env, f.kernel) && OnlyBelow(env, 3, f.kernel)
             && Run(world, map[Packed := packed], Taps(f, f.kernel)) == Some(env);
      assert Has(env, M(0), TapOf(world, f, packed, 0));
    } else {
      var mid := SumsRun(world, f, packed, t - 1);
      env := SumRuns(world, f, packed, mid, t);
      RunsThrough(world, map[Packed := packed], Sums(f, t - 1), mid, Sum(f, t), env);
    }
  }

  // ----- Outputs -----

  function Repeated(t: Tensor, n: nat): (ts: seq<Tensor>)
    ensures |ts| == n && forall m :: 0 <= m < n ==> ts[m] == t
  {
    seq(n, _ => t)
  }

  function WideOf(world: World, f: Front, packed: Tensor): Tensor
  {
    Joined(Repeated(SiluOf(world, f, packed), f.spatial), Width)
  }

  lemma RepeatEval(world: World, env: map<Name, Tensor>, y: Tensor, n: nat)
    requires n >= 1 && Has(env, Y1, y) && y.shape.w == 1
    ensures Eval(world, env, Concat(Width, seq(n, _ => Y1))) == Some(Joined(Repeated(y, n), Width))
    ensures Joined(Repeated(y, n), Width).shape == y.shape.(w := n)
  {
    var names := seq(n, _ => Y1);
    assert Lookup(env, names) == Repeated(y, n);
    JoinUnits(Repeated(y, n), Width, 0);
  }

  /** What is bound after the tail. */
  function TailEnv(world: World, f: Front, packed: Tensor, mid: map<Name, Tensor>): map<Name, Tensor>
  {
    var wide := WideOf(world, f, packed);
    mid[Sg := SigmoidOf(world, AccOf(world, f, packed, f.kernel - 1))][Y1 := SiluOf(world, f, packed)]
    [Y16 := wide][Yout := wide][Qkv := ProjectionOf(world, f, packed, 0)]
  }

  lemma SiluRuns(world: World, f: Front, mid: map<Name, Tensor>, acc: Tensor, a: Stmt<Name>, b: Stmt<Name>)
    requires a == Tail(f)[0] && b == Tail(f)[1]
    requires Has(mid, AccName(f.kernel - 1), acc) && acc.shape == One(f) && Sg !in mid && Y1 !in mid
    ensures Run(world, mid, [a, b]) == Some(mid[Sg := SigmoidOf(world, acc)][Y1 := Times(acc, SigmoidOf(world, acc))])
  {
    RunTwo(world, mid, a, SigmoidOf(world, acc), b, Times(acc, SigmoidOf(world, acc)));
  }

  lemma WideRuns(world: World, f: Front, mid: map<Name, Tensor>, y1: Tensor, a: Stmt<Name>, b: Stmt<Name>)
    requires a == Tail(f)[2] && b == Tail(f)[3]
    requires Has(mid, Y1, y1) && y1.shape == One(f) && Y16 !in mid && Yout !in mid
    ensures var wide := Joined(Repeated(y1, f.spatial), Width);
            Run(world, mid, [a, b]) == Some(mid[Y16 := wide][Yout := wide])
  {
    RepeatEval(world, mid, y1, f.spatial);
    var wide := Joined(Repeated(y1, f.spatial), Width);
    RunTwo(world, mid, a, wide, b, wide);
  }

  lemma QkvRuns(world: World, f: Front, mid: map<Name, Tensor>, q: Tensor, a: Stmt<Name>)
    requires a == Tail(f)[4] && Has(mid, P(0), q) && q.shape == Shape(1, f.outs[0], 1, f.spatial) && Qkv !in mid
    ensures Run(world, mid, [a]) == Some(mid[Qkv := q])
  {
    RunStep(world, mid, a, q);
  }

  lemma RunFive(world: World, s: seq<Stmt<Name>>, mid: map<Name, Tensor>, e2: map<Name, Tensor>, e4: map<Name, Tensor>,
                env: map<Name, Tensor>)
    requires |s| == 5 && Run(world, mid, [s[0], s[1]]) == Some(e2) && Run(world, e2, [s[2], s[3]]) == Some(e4)
    requires Run(world, e4, [s[4]]) == Some(env)
    ensures Run(world, mid, s) == Some(env)
  {
    RunsThrough(world, mid, [s[0], s[1]], e2, [s[2], s[3]], e4);
    RunsThrough(world, mid, [s[0], s[1]] + [s[2], s[3]], e4, [s[4]], env);
    assert s == [s[0], s[1]] + [s[2], s[3]] + [s[4]];
  }

  lemma TailRuns(world: World, f: Front, packed: Tensor, mid: map<Name, Tensor>)
    requires Has(mid, AccName(f.kernel - 1), AccOf(world, f, packed, f.kernel - 1))
    requires Has(mid, P(0), ProjectionOf(world, f, packed, 0))
    requires Sg !in mid && Y1 !in mid && Y16 !in mid && Yout !in mid && Qkv !in mid
    ensures Run(world, mid, Tail(f)) == Some(TailEnv(world, f, packed, mid))
  {
    var s := Tail(f);
    var acc, y1, wide := AccOf(world, f, packed, f.kernel - 1), SiluOf(world, f, packed), WideOf(world, f, packed);
    var e2 := mid[Sg := SigmoidOf(world, acc)][Y1 := y1];
    var e4 := e2[Y16 := wide][Yout := wide];
    SiluRuns(world, f, mid, acc, s[0], s[1]);
    WideRuns(world, f, e2, y1, s[2], s[3]);
    QkvRuns(world, f, e4, ProjectionOf(world, f, packed, 0), s[4]);
    RunFive(world, s, mid, e2, e4, TailEnv(world, f, packed, mid));
  }

  lemma ProjectedStays(world: World, f: Front, packed: Tensor, mid: map<Name, Tensor>, env: map<Name, Tensor>)
    requires Projected(world, f, packed, mid, |f.outs|)
    requires forall n :: n in mid ==> n in env && env[n] == mid[n]
    ensures Projected(world, f, packed, env, |f.outs|)
  {
    forall j: nat | j < |f.outs|
      ensures Has(env, P(j), ProjectionOf(world, f, packed, j))
    {
      assert Has(mid, P(j), ProjectionOf(world, f, packed, j));
    }
  }

  // ----- The auxiliary output -----

  function AuxList(world: World, f: Front, packed: Tensor): (ts: seq<Tensor>)
    ensures |ts| == |f.outs| - 1
    ensures forall m :: 0 <= m < |ts| ==> ts[m] == ProjectionOf(world, f, packed, m + 1)
  {
    seq(|f.outs| - 1, m requires 0 <= m < |f.outs| - 1 => ProjectionOf(world, f, packed, m + 1))
  }

  function AuxOf(world: World, f: Front, packed: Tensor): Tensor
    requires |f.outs| >= 2
  {
    if |f.outs| == 2 then ProjectionOf(world, f, packed, 1) else Joined(AuxList(world, f, packed), Channel)
  }

  lemma {:induction false} ExtentIsSum(ts: seq<Tensor>, outs: seq<nat>)
    requires |ts| == |outs| && forall m :: 0 <= m < |ts| ==> ts[m].shape.c == outs[m]
    ensures TotalExtent(ts, Channel) == SumOf(outs)
    decreases |ts|
  {
    if ts != [] {
      ExtentIsSum(ts[1..], outs[1..]);
    }
  }

  lemma AuxJoins(world: World, f: Front, packed: Tensor, env: map<Name, Tensor>)
    requires |f.outs| >= 3 && Projected(world, f, packed, env, |f.outs|)
    ensures Eval(world, env, Concat(Channel, AuxNames(f))) == Some(Joined(AuxList(world, f, packed), Channel))
    ensures Joined(AuxList(world, f, packed), Channel).shape == Shape(1, SumOf(f.outs[1..]), 1, f.spatial)
  {
    var names, ts := AuxNames(f), AuxList(world, f, packed);
    forall m | 0 <= m < |names|
      ensures names[m] in env && env[names[m]] == ts[m]
    {
      assert Has(env, P(m + 1), ProjectionOf(world, f, packed, m + 1));
    }
    assert Lookup(env, names) == ts;
    ExtentIsSum(ts, f.outs[1..]);
  }

  lemma AuxRuns(world: World, f: Front, packed: Tensor, mid: map<Name, Tensor>) returns (env: map<Name, Tensor>)
    requires Projected(world, f, packed, mid, |f.outs|) && Aux !in mid && Aux16 !in mid
    ensures Run(world, mid, AuxPart(f)) == Some(env)
    ensures |f.outs| >= 2 ==> Has(env, Aux, AuxOf(world, f, packed))
    ensures forall n :: n in mid ==> n in env && env[n] == mid[n]
  {
    var s := AuxPart(f);
    if |f.outs| == 1 {
      env := mid;
    } else if |f.outs| == 2 {
      assert Has(mid, P(1), ProjectionOf(world, f, packed, 1));
      assert SumOf(f.outs[1..]) == f.outs[1];
      RunStep(world, mid, s[0], AuxOf(world, f, packed));
      assert s == [s[0]];
      env := mid[Aux := AuxOf(world, f, packed)];
    } else {
      AuxJoins(world, f, packed, mid);
      var aux := AuxOf(world, f, packed);
      RunTwo(world, mid, s[0], aux, s[1], aux);
      assert s == [s[0], s[1]];
      env := mid[Aux16 := aux][Aux := aux];
    }
  }

  // ----- The plain formulas -----

  /** Constants in the weight file: `w` for the projections, `conv` for channel and tap. */
  ghost predicate WeightsAre(world: World, f: Front, w: (int, int, int) -> real, conv: (int, int) -> real)
  {
    && (forall k, o, i :: 0 <= k < |f.outs| && 0 <= o < f.outs[k] && 0 <= i < f.inF ==> WeightIs(world, f, w, k, o, i))
    && (forall t, c :: 0 <= t < f.kernel && 0 <= c < f.outs[0] ==> world.weights(f.tapOffsets[t])(c) == conv(c, t))
  }

  ghost predicate WeightIs(world: World, f: Front, w: (int, int, int) -> real, k: int, o: int, i: int)
    requires 0 <= k < |f.outs|
  {
    world.weights(f.offsets[k])(o * f.inF + i) == w(k, o, i)
  }

  /** A projection of the activation's column `s`. */
  function Dense(f: Front, packed: Tensor, w: (int, int, int) -> real, k: int, o: int, s: int): real
  {
    SumTo(f.inF, i => w(k, o, i) * packed.at(0, i, 0, s))
  }

  /** History slot `t` of channel `c`: entry `c * kernel + t` of the flattened second half. */
  function Past(f: Front, packed: Tensor, c: int, t: int): real
  {
    var p := c * f.kernel + t;
    packed.at(0, Div(p, f.spatial), 0, f.spatial + Mod(p, f.spatial))
  }

  /** The causal window: kernel - 1 history slots, then the current value. */
  function Window(f: Front, packed: Tensor, w: (int, int, int) -> real, c: int, t: int): real
  {
    if t + 1 < f.kernel then Past(f, packed, c, t) else Dense(f, packed, w, 0, c, 0)
  }

  /** What tap `t` of channel `c` contributes. */
  function TapTerm(f: Front, packed: Tensor, w: (int, int, int) -> real, conv: (int, int) -> real, c: int): int -> real
  {
    t => Window(f, packed, w, c, t) * conv(c, t)
  }

  /** The dot product of the window and the channel's taps. */
  function Convolution(f: Front, packed: Tensor, w: (int, int, int) -> real, conv: (int, int) -> real, c: int): real
  {
    SumTo(f.kernel, TapTerm(f, packed, w, conv, c))
  }

  function Silu(world: World, u: real): real
  {
    u * world.sigmoid(u)
  }

  lemma ProjectionAt(world: World, f: Front, packed: Tensor, w: (int, int, int) -> real, conv: (int, int) -> real,
                     k: nat, o: nat, s: nat)
    requires WeightsAre(world, f, w, conv) && k < |f.outs| && o < f.outs[k] && s < f.spatial
    ensures ProjectionOf(world, f, packed, k).at(0, o, 0, s) == Dense(f, packed, w, k, o, s)
  {
    var shape := Shape(f.outs[k], f.inF, 1, 1);
    var c, x := Constant(world, shape, f.offsets[k]), Activation(f, packed);
    forall i | 0 <= i < f.inF
      ensures c.at(o, i, 0, 0) * x.at(0, i, 0, s) == w(k, o, i) * packed.at(0, i, 0, s)
    {
      assert Flat(shape, o, i, 0, 0) == o * f.inF + i;
      assert WeightIs(world, f, w, k, o, i);
    }
    SumSame(f.inF, m => c.at(o, m, 0, 0) * x.at(0, m, 0, s), i => w(k, o, i) * packed.at(0, i, 0, s));
  }

  /** The reshape lines up: history slot `t` of channel `c`. */
  lemma HistoryAt(f: Front, packed: Tensor, c: nat, t: nat)
    requires c < f.outs[0] && t < f.kernel
    ensures History(f, packed).at(0, c, 0, t) == Past(f, packed, c, t)
  {
    ReshapeUnits(HistoryPart(f, packed), f.inF, f.spatial, f.outs[0], f.kernel, c, t);
  }

  lemma TapAt(world: World, f: Front, packed: Tensor, w: (int, int, int) -> real, conv: (int, int) -> real, c: nat,
              t: nat)
    requires WeightsAre(world, f, w, conv) && c < f.outs[0] && t < f.kernel
    ensures TapOf(world, f, packed, t).at(0, c, 0, 0) == TapTerm(f, packed, w, conv, c)(t)
  {
    assert Flat(One(f), 0, c, 0, 0) == c;
    if t + 1 < f.kernel {
      HistoryAt(f, packed, c, t);
    } else {
      ProjectionAt(world, f, packed, w, conv, 0, c, 0);
    }
  }

  lemma ChainOfTaps(world: World, f: Front, packed: Tensor, c: int, g: int -> real)
    requires forall j :: 0 <= j < f.kernel ==> TapOf(world, f, packed, j).at(0, c, 0, 0) == g(j)
    ensures AccOf(world, f, packed, f.kernel - 1).at(0, c, 0, 0) == SumTo(f.kernel, g)
  {
    var ts := TapList(world, f, packed);
    forall j | 0 <= j < f.kernel
      ensures ts[j].at(0, c, 0, 0) == g(j)
    {
      assert ts[j] == TapOf(world, f, packed, j);
    }
    ChainAt(ts, f.kernel - 1, 0, c, 0, 0, g);
  }

  lemma AccAt(world: World, f: Front, packed: Tensor, w: (int, int, int) -> real, conv: (int, int) -> real, c: nat)
    requires WeightsAre(world, f, w, conv) && c < f.outs[0]
    ensures AccOf(world, f, packed, f.kernel - 1).at(0, c, 0, 0) == Convolution(f, packed, w, conv, c)
  {
    var g := TapTerm(f, packed, w, conv, c);
    forall j | 0 <= j < f.kernel
      ensures TapOf(world, f, packed, j).at(0, c, 0, 0) == g(j)
    {
      TapAt(world, f, packed, w, conv, c, j);
    }
    ChainOfTaps(world, f, packed, c, g);
  }

  lemma RepeatedAt(y: Tensor, n: nat, c: int, s: nat)
    requires y.shape.w == 1 && s < n
    ensures Joined(Repeated(y, n), Width).at(0, c, 0, s) == y.at(0, c, 0, 0)
  {
    var ts := Repeated(y, n);
    JoinUnits(ts, Width, s);
    JoinedPart(ts, Width, s, 0, 0, c, 0, s);
  }

  lemma SiluAt(world: World, acc: Tensor, c: int, u: real)
    requires acc.at(0, c, 0, 0) == u
    ensures Times(acc, SigmoidOf(world, acc)).at(0, c, 0, 0) == Silu(world, u)
  {
  }

  lemma WideAt(world: World, f: Front, packed: Tensor, w: (int, int, int) -> real, conv: (int, int) -> real, c: nat,
               s: nat)
    requires WeightsAre(world, f, w, conv) && c < f.outs[0] && s < f.spatial
    ensures WideOf(world, f, packed).at(0, c, 0, s) == Silu(world, Convolution(f, packed, w, conv, c))
  {
    AccAt(world, f, packed, w, conv, c);
    WideFrom(world, f, packed, c, s, Convolution(f, packed, w, conv, c));
  }

  lemma WideFrom(world: World, f: Front, packed: Tensor, c: nat, s: nat, u: real)
    requires s < f.spatial && AccOf(world, f, packed, f.kernel - 1).at(0, c, 0, 0) == u
    ensures WideOf(world, f, packed).at(0, c, 0, s) == Silu(world, u)
  {
    hide AccOf, Joined, Repeated, Silu, SigmoidOf;
    SiluAt(world, AccOf(world, f, packed, f.kernel - 1), c, u);
    RepeatedAt(SiluOf(world, f, packed), f.spatial, c, s);
  }

  // ----- What the outputs should be -----

  ghost predicate YIsConvolution(world: World, f: Front, packed: Tensor, w: (int, int, int) -> real,
                                 conv: (int, int) -> real, y: Tensor)
  {
    && y.shape == Shape(1, f.outs[0], 1, f.spatial)
    && forall c, s :: 0 <= c < f.outs[0] && 0 <= s < f.spatial ==>
         y.at(0, c, 0, s) == Silu(world, Convolution(f, packed, w, conv, c))
  }

  ghost predicate QkvIsDense(f: Front, packed: Tensor, w: (int, int, int) -> real, q: Tensor)
  {
    && q.shape == Shape(1, f.outs[0], 1, f.spatial)
    && forall o, s :: 0 <= o < f.outs[0] && 0 <= s < f.spatial ==> q.at(0, o, 0, s) == Dense(f, packed, w, 0, o, s)
  }

  /** Projection `k` sits behind the auxiliary projections before it. */
  ghost predicate AuxIsDense(f: Front, packed: Tensor, w: (int, int, int) -> real, aux: Tensor, k: nat)
    requires 1 <= k < |f.outs|
  {
    forall o, s :: 0 <= o < f.outs[k] && 0 <= s < f.spatial ==>
      aux.at(0, SumOf(f.outs[1..k]) + o, 0, s) == Dense(f, packed, w, k, o, s)
  }

  lemma {:induction false} JoinStartIsSum(ts: seq<Tensor>, outs: seq<nat>, m: nat)
    requires m <= |ts| == |outs| && forall j :: 0 <= j < |ts| ==> ts[j].shape.c == outs[j]
    ensures JoinStart(ts, Channel, m) == SumOf(outs[..m])
    decreases m
  {
    if m > 0 {
      JoinStartIsSum(ts[1..], outs[1..], m - 1);
      assert outs[..m][1..] == outs[1..][..m - 1];
    }
  }

  lemma AuxAt(world: World, f: Front, packed: Tensor, w: (int, int, int) -> real, conv: (int, int) -> real, k: nat)
    requires WeightsAre(world, f, w, conv) && 1 <= k < |f.outs|
    ensures AuxIsDense(f, packed, w, AuxOf(world, f, packed), k)
  {
    forall o, s | 0 <= o < f.outs[k] && 0 <= s < f.spatial
      ensures AuxOf(world, f, packed).at(0, SumOf(f.outs[1..k]) + o, 0, s) == Dense(f, packed, w, k, o, s)
    {
      ProjectionAt(world, f, packed, w, conv, k, o, s);
      AuxPicks(world, f, packed, k, o, s);
    }
  }

  /** Row `o` of projection `k` in the joined tensor. */
  lemma AuxPicks(world: World, f: Front, packed: Tensor, k: nat, o: nat, s: nat)
    requires 1 <= k < |f.outs| && o < f.outs[k] && s < f.spatial
    ensures AuxOf(world, f, packed).at(0, SumOf(f.outs[1..k]) + o, 0, s)
            == ProjectionOf(world, f, packed, k).at(0, o, 0, s)
  {
    var ts, outs := AuxList(world, f, packed), f.outs[1..];
    JoinStartIsSum(ts, outs, k - 1);
    assert outs[..k - 1] == f.outs[1..k];
    if |f.outs| > 2 {
      JoinedPart(ts, Channel, k - 1, o, 0, SumOf(f.outs[1..k]) + o, 0, s);
    } else {
      assert SumOf(f.outs[1..k]) == 0;
    }
  }

  /** What running the whole graph leaves: `y`, `qkv` and, with auxiliary projections, `aux`. */
  ghost predicate Outputs(world: World, f: Front, packed: Tensor, env: map<Name, Tensor>)
  {
    && Has(env, Yout, WideOf(world, f, packed)) && Has(env, Qkv, ProjectionOf(world, f, packed, 0))
    && (|f.outs| >= 2 ==> Has(env, Aux, AuxOf(world, f, packed)))
  }

  /** Bound after the tail: both main outputs, and the projections for the auxiliary one. */
  ghost predicate Tailed(world: World, f: Front, packed: Tensor, env: map<Name, Tensor>)
  {
    && Has(env, Yout, WideOf(world, f, packed)) && Has(env, Qkv, ProjectionOf(world, f, packed, 0))
    && Projected(world, f, packed, env, |f.outs|) && Aux !in env && Aux16 !in env
  }

  lemma TailBinds(world: World, f: Front, packed: Tensor, mid: map<Name, Tensor>)
    requires Projected(world, f, packed, mid, |f.outs|) && OnlyBelow(mid, 4, f.kernel)
    ensures Tailed(world, f, packed, TailEnv(world, f, packed, mid))
  {
    hide WideOf, SiluOf, SigmoidOf, AccOf, ProjectionOf;
    ProjectedStays(world, f, packed, mid, TailEnv(world, f, packed, mid));
  }

  ghost predicate TailReached(world: World, f: Front, packed: Tensor)
  {
    exists env ::
      && Tailed(world, f, packed, env)
      && Run(world, map[Packed := packed], Sums(f, f.kernel - 1) + Tail(f)) == Some(env)
  }

  lemma TailReaches(world: World, f: Front, packed: Tensor)
    requires PackedShape(f, packed)
    ensures TailReached(world, f, packed)
  {
    var mid := SumsRun(world, f, packed, f.kernel - 1);
    var env := TailStep(world, f, packed, mid);
    RunsThrough(world, map[Packed := packed], Sums(f, f.kernel - 1), mid, Tail(f), env);
  }

  lemma TailStep(world: World, f: Front, packed: Tensor, mid: map<Name, Tensor>) returns (env: map<Name, Tensor>)
    requires Summed(world, f, packed, mid, f.kernel - 1) && OnlyBelow(mid, 4, f.kernel)
    ensures Run(world, mid, Tail(f)) == Some(env) && Tailed(world, f, packed, env)
  {
    assert Has(mid, P(0), ProjectionOf(world, f, packed, 0));
    TailRuns(world, f, packed, mid);
    TailBinds(world, f, packed, mid);
    env := TailEnv(world, f, packed, mid);
  }

  lemma GraphRuns(world: World, f: Front, packed: Tensor) returns (env: map<Name, Tensor>)
    requires PackedShape(f, packed)
    ensures Run(world, map[Packed := packed], Graph(f)) == Some(env) && Outputs(world, f, packed, env)
  {
    TailReaches(world, f, packed);
    var tail :| Tailed(world, f, packed, tail)
                && Run(world, map[Packed := packed], Sums(f, f.kernel - 1) + Tail(f)) == Some(tail);
    env := AuxRuns(world, f, packed, tail);
    RunsThrough(world, map[Packed := packed], Sums(f, f.kernel - 1) + Tail(f), tail, AuxPart(f), env);
  }

  // ----- The identifiers of the written program -----

  /** The identifier each tensor is written with. */
  function Ident(n: Name): string
  {
    match n
    case Packed => "packed"
    case Packed16 => "packed16"
    case X16 => "x16"
    case Hp16 => "hp16"
    case H16 => "h16"
    case W(k) => "W" + Decimal(k)
    case P(k) => "p" + Decimal(k)
    case Qc => "qc"
    case T(k) => "T" + Decimal(k)
    case H(k) => "h" + Decimal(k)
    case M(k) => "m" + Decimal(k)
    case Cv(k) => "cv" + Decimal(k)
    case Sg => "sg"
    case Y1 => "y1"
    case Y16 => "y16"
    case Yout => "y"
    case Qkv => "qkv"
    case Aux16 => "aux16"
    case Aux => "aux"
  }

  /** The written program. */
  function Emitted(f: Front): seq<Stmt<string>>
  {
    Written(Graph(f), Ident)
  }

  lemma Sixteen(k: nat)
    ensures "h" + Decimal(k) == "h16" <==> k == 16
  {
    assert Decimal(16) == Decimal(1) + ['6'] == "16";
    if "h" + Decimal(k) == "h16" {
      assert Decimal(k) == ("h" + Decimal(k))[1..] == "16";
      DecimalInjective(k, 16);
    }
  }

  /** The only two tensors written with one identifier: the history and the column of tap 16. */
  lemma SharedIdent(a: Name, b: Name)
    requires a != b && Ident(a) == Ident(b)
    ensures (a == H16 && b == H(16)) || (a == H(16) && b == H16)
  {
    var s, t := Ident(a), Ident(b);
    assert s[0] == t[0] && |s| == |t|;
    assert |s| > 1 ==> s[1] == t[1];
    if a.W? && b.W? {
      NumbersApart("W", a.k, b.k);
    } else if a.P? && b.P? {
      NumbersApart("p", a.k, b.k);
    } else if a.T? && b.T? {
      NumbersApart("T", a.k, b.k);
    } else if a.H? && b.H? {
      NumbersApart("h", a.k, b.k);
    } else if a.M? && b.M? {
      NumbersApart("m", a.k, b.k);
    } else if a.Cv? && b.Cv? {
      NumbersApart("cv", a.k, b.k);
    } else if a.H? && b.H16? {
      Sixteen(a.k);
    } else if b.H? && a.H16? {
      Sixteen(b.k);
    }
  }

  /** The shape and attribute constants of the program. */
  datatype Const =
    | ToFp16 | ToFp32 | Xb | Xs | HbPack | HShape | Pt | St | Pd | Dl | Gr1 | OneColumn | Bq | Bh(tap: nat)
    | Sax | Sint | Cax | Cint

  function ConstIdent(c: Const): string
  {
    match c
    case ToFp16 => "to_fp16"
    case ToFp32 => "to_fp32"
    case Xb => "xb"
    case Xs => "xs"
    case HbPack => "hbpack"
    case HShape => "hshape"
    case Pt => "pt"
    case St => "st"
    case Pd => "pd"
    case Dl => "dl"
    case Gr1 => "gr1"
    case OneColumn => "one"
    case Bq => "bq"
    case Bh(tap) => "bh" + Decimal(tap)
    case Sax => "sax"
    case Sint => "sint"
    case Cax => "cax"
    case Cint => "cint"
  }

  /** The first two characters of a constant's identifier. */
  predicate StartsConstant(a: char, b: char)
  {
    match a
    case 't' => b == 'o'
    case 'x' => b == 'b' || b == 's'
    case 'h' => b == 'b' || b == 's'
    case 'p' => b == 't' || b == 'd'
    case 's' => b == 't' || b == 'a' || b == 'i'
    case 'd' => b == 'l'
    case 'g' => b == 'r'
    case 'o' => b == 'n'
    case 'b' => b == 'q' || b == 'h'
    case 'c' => b == 'a' || b == 'i'
    case _ => false
  }

  lemma ConstantStarts(c: Const)
    ensures var s := ConstIdent(c); |s| >= 2 && StartsConstant(s[0], s[1])
  {
  }

  lemma TensorStarts(n: Name)
    ensures var s := Ident(n); |s| < 2 || !StartsConstant(s[0], s[1])
  {
  }

  /** No constant shares its identifier with a tensor. */
  lemma ConstantsApart(c: Const, n: Name)
    ensures ConstIdent(c) != Ident(n)
  {
    hide StartsConstant, Ident, ConstIdent;
    TensorStarts(n);
    ConstantStarts(c);
  }

  /** No two constants share one. */
  lemma ConstantsDiffer(c: Const, d: Const)
    requires ConstIdent(c) == ConstIdent(d)
    ensures c == d
  {
    var s, t := ConstIdent(c), ConstIdent(d);
    assert |s| == |t| && s[0] == t[0] && s[1] == t[1] && s[|s| - 2] == t[|t| - 2];
    if c.Bh? && d.Bh? {
      NumbersApart("bh", c.tap, d.tap);
    }
  }

  lemma ApartWithout(env: map<Name, Tensor>)
    requires H(16) !in env
    ensures Apart(env, Ident)
  {
    var f := Ident;
    forall a, b | a in env && b in env && f(a) == f(b)
      ensures a == b
    {
      assert f(a) == Ident(a) && f(b) == Ident(b);
      if a != b {
        SharedIdent(a, b);
      }
    }
  }

  lemma StartMirrors(packed: Tensor)
    ensures Mirrors(map[Packed := packed], map["packed" := packed], Ident)
  {
    var f := Ident;
    assert f(Packed) == "packed";
  }

  // ----- Up to kernel 17 -----

  ghost predicate Spares(stmts: seq<Stmt<Name>>, n: Name)
  {
    forall i :: 0 <= i < |stmts| ==> stmts[i].name != n
  }

  lemma {:induction false} ProjectionsSpare(f: Front, k: nat)
    requires k <= |f.outs|
    ensures Spares(Projections(f, k), H(16))
    decreases k
  {
    if k > 0 {
      ProjectionsSpare(f, k - 1);
    }
  }

  lemma {:induction false} TapsSpare(f: Front, t: nat)
    requires t <= f.kernel <= 17
    ensures Spares(Taps(f, t), H(16))
    decreases t
  {
    if t == 0 {
      ProjectionsSpare(f, |f.outs|);
    } else {
      TapsSpare(f, t - 1);
    }
  }

  lemma {:induction false} SumsSpare(f: Front, t: nat)
    requires t < f.kernel <= 17
    ensures Spares(Sums(f, t), H(16))
    decreases t
  {
    if t == 0 {
      TapsSpare(f, f.kernel);
    } else {
      SumsSpare(f, t - 1);
    }
  }

  /** With at most 17 taps the written program runs and binds what the graph does. */
  lemma EmittedRuns(world: World, f: Front, packed: Tensor) returns (env: map<Name, Tensor>, end: map<string, Tensor>)
    requires PackedShape(f, packed) && f.kernel <= 17
    ensures Run(world, map["packed" := packed], Emitted(f)) == Some(end)
    ensures Outputs(world, f, packed, env) && Mirrors(env, end, Ident)
  {
    env := GraphRuns(world, f, packed);
    SumsSpare(f, f.kernel - 1);
    RunSpares(world, map[Packed := packed], Graph(f), H(16));
    ApartWithout(env);
    StartMirrors(packed);
    end := RunWritten(world, map[Packed := packed], map["packed" := packed], Graph(f), Ident);
  }

  // ----- From kernel 18 on -----

  lemma {:induction false} TapsInTaps(f: Front, t: nat, u: nat)
    requires t <= u <= f.kernel
    ensures Taps(f, t) <= Taps(f, u)
    decreases u
  {
    if t < u {
      TapsInTaps(f, t, u - 1);
    }
  }

  lemma {:induction false} TapsInSums(f: Front, t: nat)
    requires t < f.kernel
    ensures Taps(f, f.kernel) <= Sums(f, t)
    decreases t
  {
    if t > 0 {
      TapsInSums(f, t - 1);
    }
  }

  lemma TapsInGraph(f: Front, t: nat)
    requires t <= f.kernel
    ensures Taps(f, t) <= Graph(f)
  {
    TapsInTaps(f, t, f.kernel);
    TapsInSums(f, f.kernel - 1);
  }

  lemma PrefixFails(world: World, env: map<string, Tensor>, a: seq<Stmt<Name>>, all: seq<Stmt<Name>>)
    requires a <= all && Run(world, env, Written(a, Ident)).None?
    ensures Run(world, env, Written(all, Ident)).None?
  {
    var rest := all[|a|..];
    assert all == a + rest;
    WrittenAppend(a, rest, Ident);
    RunAppend(world, env, Written(a, Ident), Written(rest, Ident));
  }

  /** Tap 16 reads its history column into `h16`, which the history itself already binds. */
  lemma TapSixteenFails(world: World, f: Front, env: map<Name, Tensor>, other: map<string, Tensor>)
    requires f.kernel >= 18 && Mirrors(env, other, Ident) && H16 in env
    ensures Run(world, other, Written(Tap(f, 16), Ident)).None?
  {
    var g := Ident;
    assert g(H16) == "h16" && "h16" in other;
    Sixteen(16);
    assert Tap(f, 16)[1].name == H(16) && g(H(16)) == "h16";
    ReboundFails(world, other, Written(Tap(f, 16), Ident), 1);
  }

  /** The written statements up to tap 16 do not run. */
  lemma SeventeenTapsFail(world: World, f: Front, packed: Tensor)
    requires PackedShape(f, packed) && f.kernel >= 18
    ensures Run(world, map["packed" := packed], Written(Taps(f, 17), Ident)).None?
  {
    TapsRun(world, f, packed, 16);
    var env :| Tapped(world, f, packed, env, 16) && OnlyBelow(env, 3, 16)
               && Run(world, map[Packed := packed], Taps(f, 16)) == Some(env);
    assert H(16) in env ==> Stage(H(16)) < 3 || IndexOf(H(16)) < 16;
    ApartWithout(env);
    StartMirrors(packed);
    var start := map["packed" := packed];
    var other := RunWritten(world, map[Packed := packed], start, Taps(f, 16), Ident);
    assert Has(env, H16, History(f, packed));
    TapSixteenFails(world, f, env, other);
    assert Taps(f, 17) == Taps(f, 16) + Tap(f, 16);
    WrittenAppend(Taps(f, 16), Tap(f, 16), Ident);
    RunAppend(world, start, Written(Taps(f, 16), Ident), Written(Tap(f, 16), Ident));
  }

  /** With 18 taps or more the written program binds `h16` twice and does not run. */
  lemma EmittedFails(world: World, f: Front, packed: Tensor)
    requires PackedShape(f, packed) && f.kernel >= 18
    ensures Run(world, map["packed" := packed], Emitted(f)).None?
  {
    hide Taps, Graph, Run, Written;
    SeventeenTapsFail(world, f, packed);
    TapsInGraph(f, 17);
    PrefixFails(world, map["packed" := packed], Taps(f, 17), Graph(f));
  }

  /** A shape that passes every check and whose program does not run: 18 taps over 32 columns. */
  lemma KernelEighteenFails(world: World, packed: Tensor)
    requires packed.shape == Shape(1, 9, 1, 64)
    ensures var f := Plan(9, 32, 18, [16], [64], seq(18, t => 1024));
            ShapeOk(f) && Run(world, map["packed" := packed], Emitted(f)).None?
  {
    var f := Plan(9, 32, 18, [16], [64], seq(18, t => 1024));
    EmittedFails(world, f, packed);
  }

  // ----- The main result -----

  /** The three outputs are the plain formulas. */
  ghost predicate ComputesFront(world: World, f: Front, packed: Tensor, w: (int, int, int) -> real,
                                conv: (int, int) -> real, env: map<string, Tensor>)
  {
    && "y" in env && YIsConvolution(world, f, packed, w, conv, env["y"])
    && "qkv" in env && QkvIsDense(f, packed, w, env["qkv"])
    && forall k: nat :: 1 <= k < |f.outs| ==> "aux" in env && AuxIsDense(f, packed, w, env["aux"], k)
  }

  lemma OutputsAreFormulas(world: World, f: Front, packed: Tensor, w: (int, int, int) -> real, conv: (int, int) -> real,
                           env: map<Name, Tensor>, end: map<string, Tensor>)
    requires WeightsAre(world, f, w, conv) && Outputs(world, f, packed, env) && Mirrors(env, end, Ident)
    ensures ComputesFront(world, f, packed, w, conv, end)
  {
    var g := Ident;
    assert g(Yout) == "y" && g(Qkv) == "qkv" && g(Aux) == "aux";
    forall c, s | 0 <= c < f.outs[0] && 0 <= s < f.spatial
      ensures env[Yout].at(0, c, 0, s) == Silu(world, Convolution(f, packed, w, conv, c))
    {
      WideAt(world, f, packed, w, conv, c, s);
    }
    JoinUnits(Repeated(SiluOf(world, f, packed), f.spatial), Width, 0);
    forall o, s | 0 <= o < f.outs[0] && 0 <= s < f.spatial
      ensures env[Qkv].at(0, o, 0, s) == Dense(f, packed, w, 0, o, s)
    {
      ProjectionAt(world, f, packed, w, conv, 0, o, s);
    }
    forall k: nat | 1 <= k < |f.outs|
      ensures AuxIsDense(f, packed, w, env[Aux], k)
    {
      AuxAt(world, f, packed, w, conv, k);
    }
  }

  /**
   For every shape that passes the checks, the written program runs on any packed input and
   computes the plain formulas if and only if there are at most 17 taps: then every declared shape
   is right, `y` is SiLU of the exact causal depthwise dot product (repeated across the tile),
   `qkv` is the first projection and `aux` holds the others one behind the other. With more taps
   it does not run at all.
   */
  lemma FrontIsExact(world: World, f: Front, packed: Tensor, w: (int, int, int) -> real, conv: (int, int) -> real)
    requires PackedShape(f, packed) && WeightsAre(world, f, w, conv)
    ensures var r := Run(world, map["packed" := packed], Emitted(f));
            && (r.Some? && ComputesFront(world, f, packed, w, conv, r.value) <==> f.kernel <= 17)
            && (r.None? <==> f.kernel >= 18)
  {
    if f.kernel <= 17 {
      var env, end := EmittedRuns(world, f, packed);
      OutputsAreFormulas(world, f, packed, w, conv, env, end);
    } else {
      EmittedFails(world, f, packed);
    }
  }
}
