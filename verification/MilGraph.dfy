/**
 A small tensor language: the MIL operations that the graph builders emit, with their meaning on
 rank-4 tensors over the reals. Casts between float formats are exact here.
 */
module MilGraph {
  import opened Arithmetic

  datatype Shape = Shape(n: nat, c: nat, h: nat, w: nat)

  /** A rank-4 tensor; `at` gives the element at four indices inside the shape. */
  datatype Tensor = Tensor(shape: Shape, at: (int, int, int, int) -> real)

  datatype Option<T> = None | Some(value: T)

  datatype Axis = Channel | Width

  datatype Op<N> =
    | Cast(x: N)
    | SliceBySize(x: N, begin: Shape, size: Shape)
    | Reshape(x: N, to: Shape)
    | SwapLast(x: N) // transpose with permutation [0, 1, 3, 2]
    | MatMul(x: N, y: N)
    | Const(of: Shape, offset: nat) // a constant read from the weight file
    | Conv1x1(weight: N, x: N) // stride 1, no padding, one group
    | Mul(x: N, y: N)
    | Add(x: N, y: N)
    | Sigmoid(x: N)
    | Concat(axis: Axis, values: seq<N>)

  /** A statement declares the shape of what it binds. */
  datatype Stmt<N> = Stmt(name: N, declared: Shape, op: Op<N>)

  /** What a graph is run against: the weight file's elements by record offset, and the sigmoid. */
  datatype World = World(weights: nat -> int -> real, sigmoid: real -> real)

  // ----- Element order -----

  function Size(s: Shape): nat
  {
    s.n * s.c * s.h * s.w
  }

  /** Position of an element in row-major order. */
  function Flat(s: Shape, i: int, j: int, k: int, l: int): int
  {
    ((i * s.c + j) * s.h + k) * s.w + l
  }

  function Div(a: int, b: nat): int
  {
    if b == 0 then 0 else a / b
  }

  function Mod(a: int, b: nat): int
  {
    if b == 0 then 0 else a % b
  }

  /** The element of `t` at a row-major position. */
  function AtFlat(t: Tensor, p: int): real
  {
    var l := Mod(p, t.shape.w);
    var q := Div(p, t.shape.w);
    var k := Mod(q, t.shape.h);
    var r := Div(q, t.shape.h);
    t.at(Div(r, t.shape.c), Mod(r, t.shape.c), k, l)
  }

  // ----- Meaning of the operations -----

  function SumTo(n: nat, f: int -> real): real
  {
    if n == 0 then 0.0 else SumTo(n - 1, f) + f(n - 1)
  }

  function Slice(t: Tensor, b: Shape, size: Shape): Tensor
  {
    Tensor(size, (i, j, k, l) => t.at(b.n + i, b.c + j, b.h + k, b.w + l))
  }

  function Reshaped(t: Tensor, to: Shape): Tensor
  {
    Tensor(to, (i, j, k, l) => AtFlat(t, Flat(to, i, j, k, l)))
  }

  function Swapped(t: Tensor): Tensor
  {
    Tensor(Shape(t.shape.n, t.shape.c, t.shape.w, t.shape.h), (i, j, k, l) => t.at(i, j, l, k))
  }

  function Product(a: Tensor, b: Tensor): Tensor
  {
    Tensor(Shape(a.shape.n, a.shape.c, a.shape.h, b.shape.w),
           (i, j, k, l) => SumTo(a.shape.w, m => a.at(i, j, k, m) * b.at(i, j, m, l)))
  }

  function Convolved(w: Tensor, x: Tensor): Tensor
  {
    Tensor(Shape(x.shape.n, w.shape.n, x.shape.h, x.shape.w),
           (i, j, k, l) => SumTo(x.shape.c, m => w.at(j, m, 0, 0) * x.at(i, m, k, l)))
  }

  function Times(a: Tensor, b: Tensor): Tensor
  {
    Tensor(a.shape, (i, j, k, l) => a.at(i, j, k, l) * b.at(i, j, k, l))
  }

  function Plus(a: Tensor, b: Tensor): Tensor
  {
    Tensor(a.shape, (i, j, k, l) => a.at(i, j, k, l) + b.at(i, j, k, l))
  }

  function SigmoidOf(world: World, a: Tensor): Tensor
  {
    Tensor(a.shape, (i, j, k, l) => world.sigmoid(a.at(i, j, k, l)))
  }

  function Extent(s: Shape, axis: Axis): nat
  {
    if axis.Channel? then s.c else s.w
  }

  function WithExtent(s: Shape, axis: Axis, n: nat): Shape
  {
    if axis.Channel? then s.(c := n) else s.(w := n)
  }

  function TotalExtent(ts: seq<Tensor>, axis: Axis): nat
  {
    if ts == [] then 0 else Extent(ts[0].shape, axis) + TotalExtent(ts[1..], axis)
  }

  /** The element at `pos` along the axis: in the first tensor, or further on in the rest. */
  function JoinedAt(ts: seq<Tensor>, axis: Axis, pos: int, i: int, j: int, k: int, l: int): real
    decreases |ts|
  {
    if ts == [] then 0.0
    else if pos < Extent(ts[0].shape, axis) then
      if axis.Channel? then ts[0].at(i, pos, k, l) else ts[0].at(i, j, k, pos)
    else JoinedAt(ts[1..], axis, pos - Extent(ts[0].shape, axis), i, j, k, l)
  }

  function Joined(ts: seq<Tensor>, axis: Axis): Tensor
    requires ts != []
  {
    Tensor(WithExtent(ts[0].shape, axis, TotalExtent(ts, axis)),
           (i, j, k, l) => JoinedAt(ts, axis, if axis.Channel? then j else l, i, j, k, l))
  }

  predicate Inside(b: Shape, size: Shape, of: Shape)
  {
    b.n + size.n <= of.n && b.c + size.c <= of.c && b.h + size.h <= of.h && b.w + size.w <= of.w
  }

  function Constant(world: World, of: Shape, offset: nat): Tensor
  {
    Tensor(of, (i, j, k, l) => world.weights(offset)(Flat(of, i, j, k, l)))
  }

  /** All tensors agree in shape but for the joined axis. */
  predicate Joinable(ts: seq<Tensor>, axis: Axis)
  {
    ts != [] && forall m :: 0 <= m < |ts| ==> WithExtent(ts[m].shape, axis, 0) == WithExtent(ts[0].shape, axis, 0)
  }

  function Lookup<N(==)>(env: map<N, Tensor>, names: seq<N>): (r: seq<Tensor>)
    requires forall m :: 0 <= m < |names| ==> names[m] in env
    ensures |r| == |names| && forall m :: 0 <= m < |names| ==> r[m] == env[names[m]]
  {
    seq(|names|, m requires 0 <= m < |names| => env[names[m]])
  }

  /** An operation's result, or nothing when an operand is missing or its shape does not fit. */
  function Eval<N(==)>(world: World, env: map<N, Tensor>, op: Op<N>): Option<Tensor>
  {
    match op
    case Cast(x) => if x in env then Some(env[x]) else None
    case SliceBySize(x, b, size) =>
      if x in env && Inside(b, size, env[x].shape) then Some(Slice(env[x], b, size)) else None
    case Reshape(x, to) =>
      if x in env && Size(to) == Size(env[x].shape) then Some(Reshaped(env[x], to)) else None
    case SwapLast(x) => if x in env then Some(Swapped(env[x])) else None
    case MatMul(x, y) =>
      if x in env && y in env && env[x].shape.w == env[y].shape.h
         && env[x].shape.n == env[y].shape.n && env[x].shape.c == env[y].shape.c
      then Some(Product(env[x], env[y])) else None
    case Const(of, offset) => Some(Constant(world, of, offset))
    case Conv1x1(w, x) =>
      if w in env && x in env && env[w].shape.c == env[x].shape.c && env[w].shape.h == env[w].shape.w == 1
      then Some(Convolved(env[w], env[x])) else None
    case Mul(x, y) =>
      if x in env && y in env && env[x].shape == env[y].shape
      then Some(Times(env[x], env[y])) else None
    case Add(x, y) =>
      if x in env && y in env && env[x].shape == env[y].shape
      then Some(Plus(env[x], env[y])) else None
    case Sigmoid(x) =>
      if x in env then Some(SigmoidOf(world, env[x])) else None
    case Concat(axis, values) =>
      if (forall m :: 0 <= m < |values| ==> values[m] in env) && Joinable(Lookup(env, values), axis)
      then Some(Joined(Lookup(env, values), axis)) else None
  }

  /** Binds each statement's result in turn; a wrong declared shape or a rebound name is an error. */
  function Run<N(==)>(world: World, env: map<N, Tensor>, stmts: seq<Stmt<N>>): Option<map<N, Tensor>>
    decreases |stmts|
  {
    if stmts == [] then Some(env)
    else
      var s := stmts[0];
      var t := Eval(world, env, s.op);
      if s.name in env || t.None? || t.value.shape != s.declared then None
      else Run(world, env[s.name := t.value], stmts[1..])
  }

  lemma {:induction false} RunAppend<N>(world: World, env: map<N, Tensor>, a: seq<Stmt<N>>, b: seq<Stmt<N>>)
    ensures Run(world, env, a + b) ==
            (var mid := Run(world, env, a); if mid.None? then None else Run(world, mid.value, b))
    decreases |a|
  {
    if a == [] {
      assert a + b == b;
    } else {
      assert (a + b)[1..] == a[1..] + b;
      var t := Eval(world, env, a[0].op);
      if !(a[0].name in env || t.None? || t.value.shape != a[0].declared) {
        RunAppend(world, env[a[0].name := t.value], a[1..], b);
      }
    }
  }

  lemma RunsThrough<N>(world: World, env: map<N, Tensor>, a: seq<Stmt<N>>, mid: map<N, Tensor>, b: seq<Stmt<N>>,
                       end: map<N, Tensor>)
    requires Run(world, env, a) == Some(mid) && Run(world, mid, b) == Some(end)
    ensures Run(world, env, a + b) == Some(end)
  {
    RunAppend(world, env, a, b);
  }

  /** One statement that evaluates to its declared shape. */
  lemma RunStep<N>(world: World, env: map<N, Tensor>, s: Stmt<N>, t: Tensor)
    requires s.name !in env && Eval(world, env, s.op) == Some(t) && t.shape == s.declared
    ensures Run(world, env, [s]) == Some(env[s.name := t])
  {
    var rest: seq<Stmt<N>> := [];
    assert [s][1..] == rest;
  }

  lemma RunTwo<N>(world: World, e0: map<N, Tensor>, a: Stmt<N>, ta: Tensor, b: Stmt<N>, tb: Tensor)
    requires a.name !in e0 && Eval(world, e0, a.op) == Some(ta) && ta.shape == a.declared
    requires b.name !in e0 && b.name != a.name && Eval(world, e0[a.name := ta], b.op) == Some(tb)
    requires tb.shape == b.declared
    ensures Run(world, e0, [a, b]) == Some(e0[a.name := ta][b.name := tb])
  {
    RunStep(world, e0, a, ta);
    RunStep(world, e0[a.name := ta], b, tb);
    RunsThrough(world, e0, [a], e0[a.name := ta], [b], e0[a.name := ta][b.name := tb]);
    assert [a] + [b] == [a, b];
  }

  // ----- Identifiers -----

  /** The operation with every operand replaced by its identifier. */
  function WithIdents<N, M>(op: Op<N>, f: N -> M): Op<M>
  {
    match op
    case Cast(x) => Op.Cast(f(x))
    case SliceBySize(x, b, size) => Op.SliceBySize(f(x), b, size)
    case Reshape(x, to) => Op.Reshape(f(x), to)
    case SwapLast(x) => Op.SwapLast(f(x))
    case MatMul(x, y) => Op.MatMul(f(x), f(y))
    case Const(of, offset) => Op.Const(of, offset)
    case Conv1x1(w, x) => Op.Conv1x1(f(w), f(x))
    case Mul(x, y) => Op.Mul(f(x), f(y))
    case Add(x, y) => Op.Add(f(x), f(y))
    case Sigmoid(x) => Op.Sigmoid(f(x))
    case Concat(axis, values) => Op.Concat(axis, seq(|values|, i requires 0 <= i < |values| => f(values[i])))
  }

  /** The statements as they are written out: every name is replaced by its identifier. */
  function Written<N, M>(stmts: seq<Stmt<N>>, f: N -> M): (r: seq<Stmt<M>>)
    ensures |r| == |stmts|
  {
    seq(|stmts|, i requires 0 <= i < |stmts| =>
      Stmt(f(stmts[i].name), stmts[i].declared, WithIdents(stmts[i].op, f)))
  }

  lemma WrittenAppend<N, M>(a: seq<Stmt<N>>, b: seq<Stmt<N>>, f: N -> M)
    ensures Written(a + b, f) == Written(a, f) + Written(b, f)
  {
  }

  /** `other` binds the identifiers of the names that `env` binds, to the same tensors. */
  ghost predicate Mirrors<N, M>(env: map<N, Tensor>, other: map<M, Tensor>, f: N -> M)
  {
    && (forall n :: n in env ==> f(n) in other && other[f(n)] == env[n])
    && (forall m :: m in other ==> exists n :: n in env && f(n) == m)
  }

  /** No two bound names share an identifier. */
  ghost predicate Apart<N, M>(env: map<N, Tensor>, f: N -> M)
  {
    forall a, b :: a in env && b in env && f(a) == f(b) ==> a == b
  }

  lemma EvalWritten<N, M>(world: World, env: map<N, Tensor>, other: map<M, Tensor>, op: Op<N>, f: N -> M)
    requires Mirrors(env, other, f) && Eval(world, env, op).Some?
    ensures Eval(world, other, WithIdents(op, f)) == Eval(world, env, op)
  {
    if op.Concat? {
      var idents := WithIdents(op, f).values;
      assert Lookup(other, idents) == Lookup(env, op.values);
    }
  }

  lemma {:induction false} RunGrows<N>(world: World, env: map<N, Tensor>, stmts: seq<Stmt<N>>)
    requires Run(world, env, stmts).Some?
    ensures var end := Run(world, env, stmts).value; forall n :: n in env ==> n in end && end[n] == env[n]
    decreases |stmts|
  {
    if stmts != [] {
      var t := Eval(world, env, stmts[0].op);
      RunGrows(world, env[stmts[0].name := t.value], stmts[1..]);
    }
  }

  /** A run binds only what it had and the names of its statements. */
  lemma {:induction false} RunSpares<N>(world: World, env: map<N, Tensor>, stmts: seq<Stmt<N>>, n: N)
    requires Run(world, env, stmts).Some? && n !in env && forall i :: 0 <= i < |stmts| ==> stmts[i].name != n
    ensures n !in Run(world, env, stmts).value
    decreases |stmts|
  {
    if stmts != [] {
      var t := Eval(world, env, stmts[0].op);
      RunSpares(world, env[stmts[0].name := t.value], stmts[1..], n);
    }
  }

  lemma MirrorsBind<N, M>(env: map<N, Tensor>, other: map<M, Tensor>, f: N -> M, n: N, t: Tensor)
    requires Mirrors(env, other, f) && f(n) !in other
    ensures Mirrors(env[n := t], other[f(n) := t], f)
  {
    var e, o := env[n := t], other[f(n) := t];
    forall m | m in o
      ensures exists x :: x in e && f(x) == m
    {
      if m == f(n) {
        assert n in e;
      } else {
        var x :| x in env && f(x) == m;
        assert x in e;
      }
    }
  }

  /** Statements that run over names run over identifiers too, as long as the names bound stay apart. */
  lemma {:induction false} RunWritten<N, M>(world: World, env: map<N, Tensor>, other: map<M, Tensor>,
                                            stmts: seq<Stmt<N>>, f: N -> M)
    returns (end: map<M, Tensor>)
    requires Mirrors(env, other, f) && Run(world, env, stmts).Some? && Apart(Run(world, env, stmts).value, f)
    ensures Run(world, other, Written(stmts, f)) == Some(end)
    ensures Mirrors(Run(world, env, stmts).value, end, f)
    decreases |stmts|
  {
    if stmts == [] {
      end := other;
    } else {
      var s := stmts[0];
      var t := Eval(world, env, s.op).value;
      RunGrows(world, env, stmts);
      RunGrows(world, env[s.name := t], stmts[1..]);
      assert s.name in Run(world, env, stmts).value;
      EvalWritten(world, env, other, s.op, f);
      assert f(s.name) !in other;
      MirrorsBind(env, other, f, s.name, t);
      end := RunWritten(world, env[s.name := t], other[f(s.name) := t], stmts[1..], f);
      assert Written(stmts, f)[1..] == Written(stmts[1..], f);
    }
  }

  /** A statement whose name is bound before the list starts makes the whole list fail. */
  lemma {:induction false} ReboundFails<M>(world: World, env: map<M, Tensor>, stmts: seq<Stmt<M>>, k: nat)
    requires k < |stmts| && stmts[k].name in env
    ensures Run(world, env, stmts).None?
    decreases k
  {
    if k > 0 {
      var s := stmts[0];
      var t := Eval(world, env, s.op);
      if !(s.name in env || t.None? || t.value.shape != s.declared) {
        ReboundFails(world, env[s.name := t.value], stmts[1..], k - 1);
      }
    }
  }

  /** Decimal digits of a number. */
  function Decimal(n: nat): (s: string)
    ensures s != [] && forall i :: 0 <= i < |s| ==> '0' <= s[i] <= '9'
  {
    var digit := ('0' as int + n % 10) as char;
    if n < 10 then [digit] else Decimal(n / 10) + [digit]
  }

  lemma {:induction false} DecimalInjective(a: nat, b: nat)
    requires Decimal(a) == Decimal(b)
    ensures a == b
  {
    var s, t := Decimal(a), Decimal(b);
    assert s[|s| - 1] == ('0' as int + a % 10) as char && t[|t| - 1] == ('0' as int + b % 10) as char;
    if a >= 10 && b >= 10 {
      assert s[..|s| - 1] == Decimal(a / 10) && t[..|t| - 1] == Decimal(b / 10);
      DecimalInjective(a / 10, b / 10);
    }
  }

  /** Numbered identifiers with the same prefix differ when their numbers do. */
  lemma NumbersApart(prefix: string, j: nat, k: nat)
    requires prefix + Decimal(j) == prefix + Decimal(k)
    ensures j == k
  {
    assert Decimal(j) == (prefix + Decimal(j))[|prefix|..] == (prefix + Decimal(k))[|prefix|..] == Decimal(k);
    DecimalInjective(j, k);
  }

  // ----- Facts about element order -----

  lemma UnitSizes(c: nat, w: nat)
    ensures Size(Shape(1, c, 1, w)) == Size(Shape(1, 1, c, w)) == c * w
  {
  }

  /** Moving a unit dimension keeps the elements: [1, c, 1, w] read as [1, 1, c, w]. */
  lemma ReshapeToRows(t: Tensor, c: nat, w: nat, i: nat, l: nat)
    requires t.shape == Shape(1, c, 1, w) && i < c && l < w
    ensures Reshaped(t, Shape(1, 1, c, w)).at(0, 0, i, l) == t.at(0, i, 0, l)
  {
    var p := i * w + l;
    assert Flat(Shape(1, 1, c, w), 0, 0, i, l) == p;
    RowElement(t, c, w, i, l, p);
  }

  /** The same the other way: [1, 1, c, w] read as [1, c, 1, w]. */
  lemma ReshapeFromRows(t: Tensor, c: nat, w: nat, i: nat, l: nat)
    requires t.shape == Shape(1, 1, c, w) && i < c && l < w
    ensures Reshaped(t, Shape(1, c, 1, w)).at(0, i, 0, l) == t.at(0, 0, i, l)
  {
    var p := i * w + l;
    assert Flat(Shape(1, c, 1, w), 0, i, 0, l) == p;
    DivModProduct(i, w, l);
    DivModProduct(0, c, i);
    assert i / 1 == i && i % 1 == 0;
    assert AtFlat(t, p) == t.at(0, 0, i, l);
  }

  lemma RowElement(t: Tensor, c: nat, w: nat, i: nat, l: nat, p: nat)
    requires t.shape == Shape(1, c, 1, w) && i < c && l < w && p == i * w + l
    ensures AtFlat(t, p) == t.at(0, i, 0, l)
  {
    DivModProduct(i, w, l);
    DivModProduct(0, c, i);
    assert i / 1 == i && i % 1 == 0;
  }

  /** An element of [1, a, 1, b] by its row-major position. */
  lemma UnitElement(t: Tensor, a: nat, b: nat, p: nat)
    requires t.shape == Shape(1, a, 1, b) && b >= 1 && p < a * b
    ensures AtFlat(t, p) == t.at(0, p / b, 0, p % b)
  {
    QuotientBelow(p, a, b);
    var q := p / b;
    DivUnique(q, a, 0, q);
    DivUnique(q, 1, q, 0);
  }

  /** Reading [1, a, 1, b] as [1, c, 1, d] keeps the row-major position. */
  lemma ReshapeUnits(t: Tensor, a: nat, b: nat, c: nat, d: nat, i: nat, l: nat)
    requires t.shape == Shape(1, a, 1, b) && b >= 1 && c * d == a * b && i < c && l < d
    ensures Reshaped(t, Shape(1, c, 1, d)).at(0, i, 0, l) == t.at(0, (i * d + l) / b, 0, (i * d + l) % b)
  {
    FlatBound(i, c, d, l);
    UnitElement(t, a, b, i * d + l);
    assert Flat(Shape(1, c, 1, d), 0, i, 0, l) == i * d + l;
  }

  lemma {:induction false} SumSame(n: nat, f: int -> real, g: int -> real)
    requires forall m :: 0 <= m < n ==> f(m) == g(m)
    ensures SumTo(n, f) == SumTo(n, g)
  {
    if n > 0 {
      SumSame(n - 1, f, g);
    }
  }

  // ----- Chains of additions -----

  function SumChain(ts: seq<Tensor>, t: nat): (r: Tensor)
    requires t < |ts|
    ensures r.shape == ts[0].shape
  {
    if t == 0 then ts[0] else Plus(SumChain(ts, t - 1), ts[t])
  }

  /** A chain of additions sums element by element. */
  lemma {:induction false} ChainAt(ts: seq<Tensor>, t: nat, i: int, j: int, k: int, l: int, g: int -> real)
    requires t < |ts| && forall m :: 0 <= m <= t ==> ts[m].at(i, j, k, l) == g(m)
    ensures SumChain(ts, t).at(i, j, k, l) == SumTo(t + 1, g)
    decreases t
  {
    assert ts[t].at(i, j, k, l) == g(t);
    if t > 0 {
      ChainAt(ts, t - 1, i, j, k, l, g);
    } else {
      assert SumTo(1, g) == SumTo(0, g) + g(0);
    }
  }

  // ----- Facts about concatenation -----

  /** Where tensor `m` starts along the joined axis. */
  function JoinStart(ts: seq<Tensor>, axis: Axis, m: nat): nat
    requires m <= |ts|
  {
    if m == 0 then 0 else Extent(ts[0].shape, axis) + JoinStart(ts[1..], axis, m - 1)
  }

  /** The joined tensor holds each part at its start. */
  lemma {:induction false} JoinedPart(ts: seq<Tensor>, axis: Axis, m: nat, pos: nat, i: int, j: int, k: int, l: int)
    requires m < |ts| && pos < Extent(ts[m].shape, axis)
    ensures JoinedAt(ts, axis, JoinStart(ts, axis, m) + pos, i, j, k, l)
            == if axis.Channel? then ts[m].at(i, pos, k, l) else ts[m].at(i, j, k, pos)
    decreases m
  {
    if m > 0 {
      JoinedPart(ts[1..], axis, m - 1, pos, i, j, k, l);
    }
  }

  lemma {:induction false} JoinUnits(ts: seq<Tensor>, axis: Axis, m: nat)
    requires m <= |ts| && forall q :: 0 <= q < |ts| ==> Extent(ts[q].shape, axis) == 1
    ensures JoinStart(ts, axis, m) == m && TotalExtent(ts, axis) == |ts|
    decreases |ts|
  {
    if ts != [] {
      JoinUnits(ts[1..], axis, if m == 0 then 0 else m - 1);
    }
  }
}
