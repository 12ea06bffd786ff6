/**
 The builder of the gated delta-net front: it checks shapes, stores the projections and one weight
 column per tap in the weight file, and emits the graph that reads them back.
 */
module GdnBuilder {
  import opened Arithmetic
  import opened Bytes
  import WeightBlob
  import opened MilGraph
  import opened GdnFront

  /** A projection with its row-major half-precision weights. */
  datatype Weighted = Weighted(out: nat, weights: seq<nat>)

  datatype Result =
    | BadShape
    | BlobRefused
    | Built(front: Plan, stmts: seq<Stmt<string>>, bytes: seq<byte>)

  predicate AllHalves(values: seq<nat>)
  {
    forall v :: v in values ==> v < U16_LIMIT
  }

  /** The shape checks that come before anything is stored. */
  predicate ShapeChecks(inF: nat, spatial: nat, projections: seq<Weighted>, conv: seq<nat>, kernel: nat)
  {
    && 1 <= |projections| <= 4 && inF >= 1 && spatial >= 16 && spatial % 16 == 0
    && 1 <= kernel <= spatial && projections[0].out >= 1
    && |conv| == projections[0].out * kernel == inF * spatial
  }

  predicate ProjectionOk(inF: nat, p: Weighted)
  {
    p.out >= 1 && |p.weights| == p.out * inF
  }

  ghost predicate Checks(inF: nat, spatial: nat, projections: seq<Weighted>, conv: seq<nat>, kernel: nat)
  {
    && ShapeChecks(inF, spatial, projections, conv, kernel)
    && forall k :: 0 <= k < |projections| ==> ProjectionOk(inF, projections[k])
  }

  function Outs(projections: seq<Weighted>): (r: seq<nat>)
    ensures |r| == |projections| && forall k :: 0 <= k < |r| ==> r[k] == projections[k].out
  {
    seq(|projections|, k requires 0 <= k < |projections| => projections[k].out)
  }

  /** Column `t` of the convolution weights: one tap for every channel. */
  function TapColumn(conv: seq<nat>, rows: nat, kernel: nat, t: nat): (r: seq<nat>)
    requires |conv| == rows * kernel && t < kernel
    ensures |r| == rows
  {
    seq(rows, c requires 0 <= c < rows => FlatBound(c, rows, kernel, t); conv[c * kernel + t])
  }

  lemma ColumnAt(conv: seq<nat>, rows: nat, kernel: nat, t: nat, c: nat)
    requires |conv| == rows * kernel && t < kernel && c < rows
    ensures c * kernel + t < |conv| && TapColumn(conv, rows, kernel, t)[c] == conv[c * kernel + t]
  {
    FlatBound(c, rows, kernel, t);
  }

  lemma ColumnHalves(conv: seq<nat>, rows: nat, kernel: nat, t: nat)
    requires |conv| == rows * kernel && t < kernel && AllHalves(conv)
    ensures AllHalves(TapColumn(conv, rows, kernel, t))
  {
    var col := TapColumn(conv, rows, kernel, t);
    forall c | 0 <= c < |col|
      ensures col[c] < U16_LIMIT
    {
      ColumnAt(conv, rows, kernel, t, c);
      Member(conv, c * kernel + t);
    }
  }

  lemma Member(values: seq<nat>, n: nat)
    requires AllHalves(values) && n < |values|
    ensures values[n] < U16_LIMIT
  {
    assert values[n] in values;
  }

  /** The weight file stores these half-precision values at the offset. */
  predicate Holds(bytes: seq<byte>, offset: nat, values: seq<nat>)
  {
    WeightBlob.Stores(bytes, WeightBlob.Record(offset, WeightBlob.FLOAT16, WeightBlob.Fp16Bytes(values)))
  }

  ghost predicate HoldsProjections(bytes: seq<byte>, offsets: seq<nat>, projections: seq<Weighted>)
  {
    |offsets| <= |projections| && forall k :: 0 <= k < |offsets| ==> Holds(bytes, offsets[k], projections[k].weights)
  }

  ghost predicate HoldsTaps(bytes: seq<byte>, offsets: seq<nat>, conv: seq<nat>, rows: nat, kernel: nat)
    requires |conv| == rows * kernel
  {
    |offsets| <= kernel && forall t :: 0 <= t < |offsets| ==> Holds(bytes, offsets[t], TapColumn(conv, rows, kernel, t))
  }

  /** Every record of the first file is still in the second. */
  ghost predicate Preserves(before: seq<byte>, after: seq<byte>)
  {
    forall r :: WeightBlob.Stores(before, r) ==> WeightBlob.Stores(after, r)
  }

  // ----- Where the records lie -----

  /** The next multiple of the alignment. */
  function RoundUp(n: nat): (r: nat)
    ensures n <= r
  {
    if n == 0 then 0 else if n <= WeightBlob.ALIGNMENT then WeightBlob.ALIGNMENT
    else WeightBlob.ALIGNMENT + RoundUp(n - WeightBlob.ALIGNMENT)
  }

  /** The bytes one record of `n` half-precision values takes, up to the next record. */
  function RecordSpan(n: nat): (r: nat)
    ensures r >= WeightBlob.METADATA_BYTES + 2 * n
  {
    WeightBlob.METADATA_BYTES + RoundUp(2 * n)
  }

  /** Where the record behind the first `k` projections starts. */
  function ProjectionStart(projections: seq<Weighted>, k: nat): nat
    requires k <= |projections|
  {
    if k == 0 then WeightBlob.HEADER_BYTES
    else ProjectionStart(projections, k - 1) + RecordSpan(|projections[k - 1].weights|)
  }

  /** Where tap column `t` starts. */
  function TapStart(projections: seq<Weighted>, rows: nat, t: nat): nat
  {
    if t == 0 then ProjectionStart(projections, |projections|)
    else TapStart(projections, rows, t - 1) + RecordSpan(rows)
  }

  /** A record of `n` values at `start` is within the limits of the file format. */
  predicate RecordFits(start: nat, n: nat)
  {
    n >= 1 && start + WeightBlob.METADATA_BYTES < U64_LIMIT && 2 * n < U64_LIMIT
  }

  /** The whole weight file is: its last record starts in range, and so many records can be counted. */
  predicate FileFits(projections: seq<Weighted>, rows: nat, kernel: nat)
    requires kernel >= 1
  {
    && TapStart(projections, rows, kernel - 1) + WeightBlob.METADATA_BYTES < U64_LIMIT
    && 2 * rows < U64_LIMIT
    && |projections| + kernel < U32_LIMIT
  }

  /** Positions that records can start at. */
  predicate OnBoundary(n: nat)
  {
    n == 0 || (n >= WeightBlob.ALIGNMENT && OnBoundary(n - WeightBlob.ALIGNMENT))
  }

  lemma {:induction false} BoundaryIsMultiple(n: nat)
    ensures OnBoundary(n) <==> n % WeightBlob.ALIGNMENT == 0
  {
    if n >= WeightBlob.ALIGNMENT {
      BoundaryIsMultiple(n - WeightBlob.ALIGNMENT);
    }
  }

  lemma {:induction false} BoundaryRoundUp(base: nat, n: nat)
    requires OnBoundary(base)
    ensures OnBoundary(base + RoundUp(n))
    decreases n
  {
    if n > WeightBlob.ALIGNMENT {
      BoundaryRoundUp(base + WeightBlob.ALIGNMENT, n - WeightBlob.ALIGNMENT);
    }
  }

  lemma {:induction false} SpanOnBoundary(base: nat, n: nat)
    requires OnBoundary(base)
    ensures OnBoundary(base + RecordSpan(n))
  {
    BoundaryRoundUp(base + WeightBlob.METADATA_BYTES, 2 * n);
  }

  lemma {:induction false} ProjectionStartOnBoundary(projections: seq<Weighted>, k: nat)
    requires k <= |projections|
    ensures OnBoundary(ProjectionStart(projections, k))
    decreases k
  {
    if k > 0 {
      ProjectionStartOnBoundary(projections, k - 1);
      SpanOnBoundary(ProjectionStart(projections, k - 1), |projections[k - 1].weights|);
    }
  }

  lemma {:induction false} TapStartOnBoundary(projections: seq<Weighted>, rows: nat, t: nat)
    ensures OnBoundary(TapStart(projections, rows, t))
    decreases t
  {
    if t == 0 {
      ProjectionStartOnBoundary(projections, |projections|);
    } else {
      TapStartOnBoundary(projections, rows, t - 1);
      SpanOnBoundary(TapStart(projections, rows, t - 1), rows);
    }
  }

  /** The file ends within one alignment below `start`: the next record goes there. */
  ghost predicate EndsBelow(bytes: seq<byte>, start: nat)
  {
    |bytes| <= start < |bytes| + WeightBlob.ALIGNMENT
  }

  lemma {:induction false} AlignedEnd(bytes: seq<byte>, start: nat)
    requires OnBoundary(start) && EndsBelow(bytes, start)
    ensures |WeightBlob.Aligned(bytes)| == start
  {
    BoundaryIsMultiple(start);
    MultiplesApart(|bytes|, start, |WeightBlob.Aligned(bytes)|);
  }

  lemma MultiplesApart(low: nat, a: nat, b: nat)
    requires a % 64 == 0 && b % 64 == 0 && low <= a < low + 64 && low <= b < low + 64
    ensures a == b
  {
  }

  lemma {:induction false} RoundUpBelow(n: nat)
    ensures n <= RoundUp(n) < n + WeightBlob.ALIGNMENT
  {
    if n > WeightBlob.ALIGNMENT {
      RoundUpBelow(n - WeightBlob.ALIGNMENT);
    }
  }

  /**
   Stores one record at the next place; it is refused exactly when it does not fit there or
   cannot be counted.
   */
  method StoreOne(blob: WeightBlob.BlobV2Builder, values: seq<nat>, ghost start: nat) returns (ok: bool, offset: nat)
    requires blob.Valid() && OnBoundary(start) && EndsBelow(blob.bytes, start) && AllHalves(values)
    modifies blob
    ensures blob.Valid() && Preserves(old(blob.bytes), blob.bytes)
    ensures ok <==> RecordFits(start, |values|) && old(blob.count) + 1 < U32_LIMIT
    ensures ok ==> Holds(blob.bytes, offset, values) && blob.count == old(blob.count) + 1
    ensures ok ==> EndsBelow(blob.bytes, start + RecordSpan(|values|))
  {
    AlignedEnd(blob.bytes, start);
    ok, offset := blob.PushFp16(values);
    RoundUpBelow(2 * |values|);
  }

  // ----- Storing -----

  lemma ProjectionStored(before: seq<byte>, after: seq<byte>, offsets: seq<nat>, offset: nat,
                         projections: seq<Weighted>)
    requires |offsets| < |projections| && HoldsProjections(before, offsets, projections) && Preserves(before, after)
    requires Holds(after, offset, projections[|offsets|].weights)
    ensures HoldsProjections(after, offsets + [offset], projections)
  {
    StillHolds(before, after, offsets, projections);
  }

  lemma TapStored(before: seq<byte>, after: seq<byte>, offsets: seq<nat>, offset: nat, conv: seq<nat>, rows: nat,
                  kernel: nat)
    requires |conv| == rows * kernel && |offsets| < kernel && HoldsTaps(before, offsets, conv, rows, kernel)
    requires Preserves(before, after)
    requires Holds(after, offset, TapColumn(conv, rows, kernel, |offsets|))
    ensures HoldsTaps(after, offsets + [offset], conv, rows, kernel)
  {
    forall t | 0 <= t < |offsets|
      ensures Holds(after, offsets[t], TapColumn(conv, rows, kernel, t))
    {
      assert Holds(before, offsets[t], TapColumn(conv, rows, kernel, t));
    }
  }

  lemma {:induction false} StartsRise(projections: seq<Weighted>, j: nat, k: nat)
    requires j <= k <= |projections|
    ensures ProjectionStart(projections, j) <= ProjectionStart(projections, k)
    decreases k
  {
    if j < k {
      StartsRise(projections, j, k - 1);
    }
  }

  /** Projection `k` passes its check and its record fits. */
  predicate StoredAt(inF: nat, projections: seq<Weighted>, k: nat)
    requires k < |projections|
  {
    ProjectionOk(inF, projections[k]) && RecordFits(ProjectionStart(projections, k), |projections[k].weights|)
  }

  /** Checks one projection and stores it. */
  method StoreProjection(blob: WeightBlob.BlobV2Builder, inF: nat, p: Weighted, ghost start: nat)
    returns (ok: bool, refused: bool, offset: nat)
    requires blob.Valid() && OnBoundary(start) && EndsBelow(blob.bytes, start) && AllHalves(p.weights) && blob.count < 4
    modifies blob
    ensures blob.Valid() && Preserves(old(blob.bytes), blob.bytes)
    ensures ok <==> ProjectionOk(inF, p) && RecordFits(start, |p.weights|)
    ensures ok ==> Holds(blob.bytes, offset, p.weights) && blob.count == old(blob.count) + 1
    ensures ok ==> EndsBelow(blob.bytes, start + RecordSpan(|p.weights|))
    ensures !ok ==> (refused <==> ProjectionOk(inF, p))
  {
    if p.out == 0 || |p.weights| != p.out * inF {
      return false, false, 0;
    }
    ok, offset := StoreOne(blob, p.weights, start);
    refused := !ok;
  }

  /** Stores every projection, checking each first; `at` is the one that failed. */
  method StoreProjections(blob: WeightBlob.BlobV2Builder, inF: nat, projections: seq<Weighted>)
    returns (ok: bool, refused: bool, offsets: seq<nat>, ghost at: nat)
    requires blob.Valid() && EndsBelow(blob.bytes, ProjectionStart(projections, 0)) && blob.count == 0
    requires |projections| <= 4
    requires forall k :: 0 <= k < |projections| ==> AllHalves(projections[k].weights)
    modifies blob
    ensures blob.Valid()
    ensures ok ==> |offsets| == |projections| && HoldsProjections(blob.bytes, offsets, projections)
    ensures ok ==> forall k :: 0 <= k < |projections| ==> StoredAt(inF, projections, k)
    ensures ok ==> EndsBelow(blob.bytes, ProjectionStart(projections, |projections|)) && blob.count == |projections|
    ensures !ok ==> at < |projections| && !StoredAt(inF, projections, at)
    ensures !ok ==> (refused <==> ProjectionOk(inF, projections[at]))
  {
    hide Holds, WeightBlob.HeaderSays;
    offsets, at := [], 0;
    for k := 0 to |projections|
      invariant blob.Valid() && |offsets| == k && HoldsProjections(blob.bytes, offsets, projections)
      invariant EndsBelow(blob.bytes, ProjectionStart(projections, k)) && blob.count == k
      invariant forall j :: 0 <= j < k ==> StoredAt(inF, projections, j)
    {
      at := k;
      ghost var before := blob.bytes;
      ProjectionStartOnBoundary(projections, k);
      var stored, refuse, offset := StoreProjection(blob, inF, projections[k], ProjectionStart(projections, k));
      if !stored {
        return false, refuse, offsets, at;
      }
      ProjectionStored(before, blob.bytes, offsets, offset, projections);
      assert StoredAt(inF, projections, k);
      offsets := offsets + [offset];
    }
    return true, false, offsets, at;
  }

  lemma {:induction false} TapStartMono(projections: seq<Weighted>, rows: nat, t: nat, u: nat)
    requires t <= u
    ensures TapStart(projections, rows, t) <= TapStart(projections, rows, u)
    decreases u
  {
    if t < u {
      TapStartMono(projections, rows, t, u - 1);
    }
  }

  /** Stores one column per tap behind the projections; every record stored before stays. */
  method StoreTaps(blob: WeightBlob.BlobV2Builder, conv: seq<nat>, rows: nat, kernel: nat,
                   ghost projections: seq<Weighted>)
    returns (ok: bool, offsets: seq<nat>)
    requires blob.Valid() && |conv| == rows * kernel && rows >= 1 && kernel >= 1 && AllHalves(conv)
    requires EndsBelow(blob.bytes, TapStart(projections, rows, 0)) && blob.count == |projections|
    modifies blob
    ensures blob.Valid()
    ensures ok <==> FileFits(projections, rows, kernel)
    ensures ok ==> |offsets| == kernel && HoldsTaps(blob.bytes, offsets, conv, rows, kernel)
    ensures Preserves(old(blob.bytes), blob.bytes)
  {
    hide WeightBlob.Stores, TapColumn;
    offsets := [];
    for t := 0 to kernel
      invariant blob.Valid() && |offsets| == t && HoldsTaps(blob.bytes, offsets, conv, rows, kernel)
      invariant Preserves(old(blob.bytes), blob.bytes)
      invariant EndsBelow(blob.bytes, TapStart(projections, rows, t)) && blob.count == |projections| + t
      invariant t >= 1 ==> TapStart(projections, rows, t - 1) + WeightBlob.METADATA_BYTES < U64_LIMIT
      invariant t >= 1 ==> 2 * rows < U64_LIMIT && |projections| + t < U32_LIMIT
    {
      ColumnHalves(conv, rows, kernel, t);
      TapStartOnBoundary(projections, rows, t);
      TapStartMono(projections, rows, t, kernel - 1);
      ghost var before := blob.bytes;
      var pushed, offset := StoreOne(blob, TapColumn(conv, rows, kernel, t), TapStart(projections, rows, t));
      if !pushed {
        return false, offsets;
      }
      TapStored(before, blob.bytes, offsets, offset, conv, rows, kernel);
      offsets := offsets + [offset];
    }
    return true, offsets;
  }

  /** Writes the statements out part by part. */
  method Emit(f: Front) returns (stmts: seq<Stmt<string>>)
    ensures stmts == Emitted(f)
  {
    stmts := Written(Head(f), Ident);
    for k := 0 to |f.outs|
      invariant stmts == Written(Projections(f, k), Ident)
    {
      WrittenAppend(Projections(f, k), Projection(f, k), Ident);
      stmts := stmts + Written(Projection(f, k), Ident);
    }
    WrittenAppend(Projections(f, |f.outs|), Current(f), Ident);
    stmts := stmts + Written(Current(f), Ident);
    for t := 0 to f.kernel
      invariant stmts == Written(Taps(f, t), Ident)
    {
      WrittenAppend(Taps(f, t), Tap(f, t), Ident);
      stmts := stmts + Written(Tap(f, t), Ident);
    }
    for t := 1 to f.kernel
      invariant stmts == Written(Sums(f, t - 1), Ident)
    {
      WrittenAppend(Sums(f, t - 1), Sum(f, t), Ident);
      stmts := stmts + Written(Sum(f, t), Ident);
    }
    WrittenAppend(Sums(f, f.kernel - 1), Tail(f), Ident);
    WrittenAppend(Sums(f, f.kernel - 1) + Tail(f), AuxPart(f), Ident);
    stmts := stmts + Written(Tail(f), Ident) + Written(AuxPart(f), Ident);
  }

  /** What a built front promises: its shape, its graph and its constants in the weight file. */
  ghost predicate IsFront(r: Result, inF: nat, spatial: nat, projections: seq<Weighted>, conv: seq<nat>, kernel: nat)
    requires r.Built? && Checks(inF, spatial, projections, conv, kernel)
  {
    && ShapeOk(r.front) && r.stmts == Emitted(r.front)
    && r.front.inF == inF && r.front.spatial == spatial && r.front.kernel == kernel && r.front.outs == Outs(projections)
    && HoldsProjections(r.bytes, r.front.offsets, projections)
    && HoldsTaps(r.bytes, r.front.tapOffsets, conv, projections[0].out, kernel)
  }

  /** Every record of a file that fits, fits itself. */
  lemma {:induction false} FileFitsProjections(projections: seq<Weighted>, rows: nat, kernel: nat, k: nat)
    requires kernel >= 1 && FileFits(projections, rows, kernel) && k < |projections| && projections[k].weights != []
    ensures RecordFits(ProjectionStart(projections, k), |projections[k].weights|)
  {
    TapStartMono(projections, rows, 0, kernel - 1);
    StartsRise(projections, k + 1, |projections|);
  }

  lemma {:induction false} FailureDecides(inF: nat, spatial: nat, projections: seq<Weighted>, conv: seq<nat>,
                                          kernel: nat, at: nat)
    requires ShapeChecks(inF, spatial, projections, conv, kernel)
    requires at < |projections| && !StoredAt(inF, projections, at)
    ensures ProjectionOk(inF, projections[at]) ==> !FileFits(projections, projections[0].out, kernel)
    ensures !ProjectionOk(inF, projections[at]) ==> !Checks(inF, spatial, projections, conv, kernel)
  {
    if ProjectionOk(inF, projections[at]) && FileFits(projections, projections[0].out, kernel) {
      NonEmpty(projections[at].out, inF);
      FileFitsProjections(projections, projections[0].out, kernel, at);
    }
  }

  lemma NonEmpty(a: nat, b: nat)
    requires a >= 1 && b >= 1
    ensures a * b >= 1
  {
  }

  /**
   A front is built exactly when all checks pass and its weight file fits the format's limits. A
   shape is called bad only when a check fails, and a record is refused only when the file does not fit.
   */
  method BuildFront(inF: nat, spatial: nat, projections: seq<Weighted>, conv: seq<nat>, kernel: nat) returns (r: Result)
    requires AllHalves(conv) && forall k :: 0 <= k < |projections| ==> AllHalves(projections[k].weights)
    ensures r.BadShape? ==> !Checks(inF, spatial, projections, conv, kernel)
    ensures r.BlobRefused? ==> ShapeChecks(inF, spatial, projections, conv, kernel)
                               && !FileFits(projections, projections[0].out, kernel)
    ensures r.Built? <==>
              Checks(inF, spatial, projections, conv, kernel) && FileFits(projections, projections[0].out, kernel)
    ensures r.Built? ==> IsFront(r, inF, spatial, projections, conv, kernel)
  {
    if projections == [] || |projections| > 4 {
      return BadShape;
    }
    if inF == 0 || spatial < 16 || spatial % 16 != 0 {
      return BadShape;
    }
    if kernel == 0 || kernel > spatial {
      return BadShape;
    }
    var rows := projections[0].out;
    if rows == 0 || |conv| != rows * kernel {
      return BadShape;
    }
    if rows * kernel != inF * spatial {
      return BadShape;
    }
    r := BuildChecked(inF, spatial, projections, conv, kernel);
  }

  /** The build once the shape checks have passed. */
  method BuildChecked(inF: nat, spatial: nat, projections: seq<Weighted>, conv: seq<nat>,
                      kernel: nat) returns (r: Result)
    requires AllHalves(conv) && forall k :: 0 <= k < |projections| ==> AllHalves(projections[k].weights)
    requires ShapeChecks(inF, spatial, projections, conv, kernel)
    ensures r.BadShape? ==> !Checks(inF, spatial, projections, conv, kernel)
    ensures r.BlobRefused? ==> !FileFits(projections, projections[0].out, kernel)
    ensures r.Built? ==>
              Checks(inF, spatial, projections, conv, kernel) && FileFits(projections, projections[0].out, kernel)
    ensures r.Built? ==> IsFront(r, inF, spatial, projections, conv, kernel)
  {
    var blob := new WeightBlob.BlobV2Builder();
    var ok, refused, offsets, at := StoreProjections(blob, inF, projections);
    if !ok {
      FailureDecides(inF, spatial, projections, conv, kernel, at);
      return if refused then BlobRefused else BadShape;
    }
    forall k | 0 <= k < |projections|
      ensures ProjectionOk(inF, projections[k])
    {
      assert StoredAt(inF, projections, k);
    }
    r := BuildStored(blob, inF, spatial, projections, conv, kernel, offsets);
  }

  lemma PlanOk(inF: nat, spatial: nat, projections: seq<Weighted>, conv: seq<nat>, kernel: nat,
               offsets: seq<nat>, tapOffsets: seq<nat>)
    requires Checks(inF, spatial, projections, conv, kernel)
    requires |offsets| == |projections| && |tapOffsets| == kernel
    ensures ShapeOk(Plan(inF, spatial, kernel, Outs(projections), offsets, tapOffsets))
  {
    assert forall k :: 0 <= k < |projections| ==> ProjectionOk(inF, projections[k]);
  }

  /** The rest of the build, once the projections are stored: the taps and the program. */
  method BuildStored(blob: WeightBlob.BlobV2Builder, inF: nat, spatial: nat, projections: seq<Weighted>, conv: seq<nat>,
                     kernel: nat, offsets: seq<nat>)
    returns (r: Result)
    requires Checks(inF, spatial, projections, conv, kernel) && AllHalves(conv)
    requires blob.Valid() && |offsets| == |projections| == blob.count
    requires HoldsProjections(blob.bytes, offsets, projections)
    requires EndsBelow(blob.bytes, TapStart(projections, projections[0].out, 0))
    modifies blob
    ensures r.Built? || (r.BlobRefused? && !FileFits(projections, projections[0].out, kernel))
    ensures r.Built? ==> FileFits(projections, projections[0].out, kernel)
    ensures r.Built? ==> IsFront(r, inF, spatial, projections, conv, kernel)
  {
    ghost var before := blob.bytes;
    var stored, tapOffsets := StoreTaps(blob, conv, projections[0].out, kernel, projections);
    if !stored {
      return BlobRefused;
    }
    StillHolds(before, blob.bytes, offsets, projections);
    PlanOk(inF, spatial, projections, conv, kernel, offsets, tapOffsets);
    var f := Plan(inF, spatial, kernel, Outs(projections), offsets, tapOffsets);
    var stmts := Emit(f);
    return Built(f, stmts, blob.bytes);
  }

  lemma StillHolds(before: seq<byte>, after: seq<byte>, offsets: seq<nat>, projections: seq<Weighted>)
    requires HoldsProjections(before, offsets, projections)
    requires Preserves(before, after)
    ensures HoldsProjections(after, offsets, projections)
  {
    forall k | 0 <= k < |offsets|
      ensures Holds(after, offsets[k], projections[k].weights)
    {
      assert Holds(before, offsets[k], projections[k].weights);
    }
  }

  // ----- Reading the constants back -----

  /** Element `n` of the half-precision record at an offset; `half` is the value of a bit pattern. */
  function HalfAt(bytes: seq<byte>, half: nat -> real, offset: nat, n: int): real
  {
    var at := offset + WeightBlob.METADATA_BYTES + 2 * n;
    if 0 <= n && at + 2 <= |bytes| then half(FromLE(bytes[at..at + 2])) else 0.0
  }

  /** The world whose constants come from the weight file. */
  function BlobWorld(bytes: seq<byte>, half: nat -> real, sigmoid: real -> real): World
  {
    World(offset => n => HalfAt(bytes, half, offset, n), sigmoid)
  }

  lemma {:induction false} WordInRecord(values: seq<nat>, n: nat)
    requires n < |values|
    ensures WeightBlob.Fp16Bytes(values)[2 * n..2 * n + 2] == ToLE(values[n], 2)
    decreases |values|
  {
    var front := values[..|values| - 1];
    if n < |front| {
      WordInRecord(front, n);
      PrefixSlice(WeightBlob.Fp16Bytes(front), WeightBlob.Fp16Bytes(values), 2 * n, 2 * n + 2);
    }
  }

  /** A stored value reads back as what was pushed. */
  lemma StoredValue(bytes: seq<byte>, half: nat -> real, offset: nat, values: seq<nat>, n: nat)
    requires Holds(bytes, offset, values) && n < |values| && AllHalves(values)
    ensures HalfAt(bytes, half, offset, n) == half(values[n])
  {
    WordInRecord(values, n);
    Member(values, n);
    WordAt(bytes, offset + WeightBlob.METADATA_BYTES, WeightBlob.Fp16Bytes(values), n, values[n]);
  }

  lemma WordAt(bytes: seq<byte>, body: nat, payload: seq<byte>, n: nat, v: nat)
    requires body + |payload| <= |bytes| && bytes[body..body + |payload|] == payload
    requires 2 * n + 2 <= |payload| && payload[2 * n..2 * n + 2] == ToLE(v, 2) && v < U16_LIMIT
    ensures FromLE(bytes[body + 2 * n..body + 2 * n + 2]) == v
  {
    SubSlice(bytes, body, body + |payload|, 2 * n, 2 * n + 2);
    WidthRoundTrip(v);
  }

  function Weight(projections: seq<Weighted>, inF: nat, half: nat -> real): (int, int, int) -> real
  {
    (k, o, i) =>
      var n := o * inF + i;
      if 0 <= k < |projections| && 0 <= n < |projections[k].weights| then half(projections[k].weights[n]) else 0.0
  }

  function ConvWeight(conv: seq<nat>, kernel: nat, half: nat -> real): (int, int) -> real
  {
    (c, t) =>
      var n := c * kernel + t;
      if 0 <= n < |conv| then half(conv[n]) else 0.0
  }

  lemma BlobConstant(bytes: seq<byte>, half: nat -> real, sigmoid: real -> real, offset: nat, values: seq<nat>, n: nat)
    requires Holds(bytes, offset, values) && n < |values| && AllHalves(values)
    ensures BlobWorld(bytes, half, sigmoid).weights(offset)(n) == half(values[n])
  {
    StoredValue(bytes, half, offset, values, n);
  }

  ghost predicate AllHold(bytes: seq<byte>, half: nat -> real, sigmoid: real -> real, offset: nat, values: seq<nat>)
  {
    forall n: nat :: n < |values| ==> BlobWorld(bytes, half, sigmoid).weights(offset)(n) == half(values[n])
  }

  lemma BlobConstants(bytes: seq<byte>, half: nat -> real, sigmoid: real -> real, offset: nat, values: seq<nat>)
    requires Holds(bytes, offset, values) && AllHalves(values)
    ensures AllHold(bytes, half, sigmoid, offset, values)
  {
    forall n: nat | n < |values|
      ensures BlobWorld(bytes, half, sigmoid).weights(offset)(n) == half(values[n])
    {
      BlobConstant(bytes, half, sigmoid, offset, values, n);
    }
  }

  lemma ProjectionWeight(bytes: seq<byte>, half: nat -> real, sigmoid: real -> real, f: Front,
                         projections: seq<Weighted>, k: nat, o: nat, i: nat)
    requires k < |projections| == |f.outs| && ProjectionOk(f.inF, projections[k])
    requires AllHold(bytes, half, sigmoid, f.offsets[k], projections[k].weights) && o < projections[k].out && i < f.inF
    ensures WeightIs(BlobWorld(bytes, half, sigmoid), f, Weight(projections, f.inF, half), k, o, i)
  {
    var n := o * f.inF + i;
    FlatBound(o, projections[k].out, f.inF, i);
    WeightAt(BlobWorld(bytes, half, sigmoid), f, projections, half, k, o, i, n);
  }

  lemma WeightAt(world: World, f: Front, projections: seq<Weighted>, half: nat -> real, k: nat, o: nat, i: nat, n: nat)
    requires k < |projections| == |f.outs| && n == o * f.inF + i && n < |projections[k].weights|
    requires world.weights(f.offsets[k])(n) == half(projections[k].weights[n])
    ensures WeightIs(world, f, Weight(projections, f.inF, half), k, o, i)
  {
  }

  lemma TapWeight(bytes: seq<byte>, half: nat -> real, sigmoid: real -> real, offset: nat, conv: seq<nat>, rows: nat,
                  kernel: nat, t: nat, c: nat)
    requires |conv| == rows * kernel && t < kernel && c < rows && AllHalves(conv)
    requires Holds(bytes, offset, TapColumn(conv, rows, kernel, t))
    ensures BlobWorld(bytes, half, sigmoid).weights(offset)(c) == ConvWeight(conv, kernel, half)(c, t)
  {
    ColumnHalves(conv, rows, kernel, t);
    StoredValue(bytes, half, offset, TapColumn(conv, rows, kernel, t), c);
    ColumnAt(conv, rows, kernel, t, c);
  }

  /** The graph's constants are the weights handed to the builder, each tap with its own column. */
  lemma ConstantsLineUp(r: Result, inF: nat, spatial: nat, projections: seq<Weighted>, conv: seq<nat>, kernel: nat,
                        half: nat -> real, sigmoid: real -> real, f: Front)
    requires AllHalves(conv) && forall k :: 0 <= k < |projections| ==> AllHalves(projections[k].weights)
    requires Checks(inF, spatial, projections, conv, kernel) && r.Built? && r.front == f
    requires IsFront(r, inF, spatial, projections, conv, kernel)
    ensures WeightsAre(BlobWorld(r.bytes, half, sigmoid), f, Weight(projections, inF, half),
                       ConvWeight(conv, kernel, half))
  {
    var world := BlobWorld(r.bytes, half, sigmoid);
    forall k, o, i | 0 <= k < |f.outs| && 0 <= o < f.outs[k] && 0 <= i < f.inF
      ensures WeightIs(world, f, Weight(projections, inF, half), k, o, i)
    {
      BlobConstants(r.bytes, half, sigmoid, f.offsets[k], projections[k].weights);
      ProjectionWeight(r.bytes, half, sigmoid, f, projections, k, o, i);
    }
    forall t, c | 0 <= t < f.kernel && 0 <= c < f.outs[0]
      ensures world.weights(f.tapOffsets[t])(c) == ConvWeight(conv, kernel, half)(c, t)
    {
      TapWeight(r.bytes, half, sigmoid, f.tapOffsets[t], conv, projections[0].out, kernel, t, c);
    }
  }

  /**
   A built front, run against the weight file it wrote, computes the plain formulas with the
   weights it was given if and only if it has at most 17 taps; with more it does not run.
   */
  lemma BuiltFrontIsExact(r: Result, inF: nat, spatial: nat, projections: seq<Weighted>, conv: seq<nat>, kernel: nat,
                          half: nat -> real, sigmoid: real -> real, packed: Tensor, f: Front)
    requires AllHalves(conv) && forall k :: 0 <= k < |projections| ==> AllHalves(projections[k].weights)
    requires Checks(inF, spatial, projections, conv, kernel) && r.Built? && r.front == f
    requires IsFront(r, inF, spatial, projections, conv, kernel)
    requires packed.shape == Shape(1, inF, 1, 2 * spatial)
    ensures var world := BlobWorld(r.bytes, half, sigmoid);
            var w, taps := Weight(projections, inF, half), ConvWeight(conv, kernel, half);
            var end := Run(world, map["packed" := packed], r.stmts);
            && (end.Some? && ComputesFront(world, f, packed, w, taps, end.value) <==> kernel <= 17)
            && (end.None? <==> kernel >= 18)
  {
    ConstantsLineUp(r, inF, spatial, projections, conv, kernel, half, sigmoid, f);
    var w, taps := Weight(projections, inF, half), ConvWeight(conv, kernel, half);
    FrontIsExact(BlobWorld(r.bytes, half, sigmoid), f, packed, w, taps);
  }
}
