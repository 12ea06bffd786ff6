/**
 Hashed n-gram addressing of the Qwen4 oracle: end-of-sequence aware token shifts, odd
 multipliers, prime-sized head tables and the ids that index the padded table.
 */
module NgramIds {
  import opened Arithmetic
  import opened Bits
  import opened Primes

  const TWO63 := 0x8000_0000_0000_0000
  const TWO64 := 0x1_0000_0000_0000_0000
  const GAMMA := 0x9E3779B97F4A7C15
  const M1 := 0xBF58476D1CE4E5B9
  const M2 := 0x94D049BB133111EB

  type Token = nat

  // ----- Shifting within an end-of-sequence segment -----

  /** The position if it holds the end token, else -1. */
  function EosPosition(tokens: seq<Token>, eos: Token, i: nat): int
    requires i < |tokens|
  {
    if tokens[i] == eos then i else -1
  }

  /** Running maximum of the end positions up to and including `i`. */
  function PrevEosIncl(tokens: seq<Token>, eos: Token, i: nat): int
    requires i < |tokens|
  {
    var here := EosPosition(tokens, eos, i);
    if i == 0 then here
    else
      var before := PrevEosIncl(tokens, eos, i - 1);
      if here > before then here else before
  }

  /** Element `i` of the tokens shifted right by `shift`, as the array expressions compute it. */
  function ShiftAt(tokens: seq<Token>, eos: Token, shift: nat, i: nat): Token
    requires i < |tokens|
  {
    var prevEos := if i == 0 then -1 else PrevEosIncl(tokens, eos, i - 1);
    var posInSeg := i - (prevEos + 1);
    var src := if i - shift < 0 then 0 else i - shift;
    if posInSeg >= shift && i - shift >= 0 then tokens[src] else eos
  }

  lemma {:induction false} PrevEosIsLast(tokens: seq<Token>, eos: Token, i: nat)
    requires i < |tokens|
    ensures var p := PrevEosIncl(tokens, eos, i);
            && -1 <= p <= i && (p >= 0 ==> tokens[p] == eos)
            && forall j :: p < j <= i ==> tokens[j] != eos
  {
    if i > 0 {
      PrevEosIsLast(tokens, eos, i - 1);
    }
  }

  predicate NoEosIn(tokens: seq<Token>, eos: Token, lo: nat, hi: nat)
    requires hi <= |tokens|
  {
    forall j :: lo <= j < hi ==> tokens[j] != eos
  }

  /** The shift returns the token `shift` places back when no end token lies between, and the end token otherwise. */
  lemma ShiftMeaning(tokens: seq<Token>, eos: Token, shift: nat, i: nat)
    requires i < |tokens|
    ensures ShiftAt(tokens, eos, shift, i) ==
            if shift <= i && NoEosIn(tokens, eos, i - shift, i) then tokens[i - shift] else eos
  {
    if i > 0 {
      PrevEosIsLast(tokens, eos, i - 1);
    }
  }

  // ----- Hashing -----

  /** The mixing function on 64-bit words; shifts are divisions and every result is masked. */
  function SplitMix64(value: nat): nat
  {
    var v0 := (value + GAMMA) % TWO64;
    var v1 := Xor(v0, v0 / 0x4000_0000) * M1 % TWO64;
    var v2 := Xor(v1, v1 / 0x800_0000) * M2 % TWO64;
    Xor(v2, v2 / 0x8000_0000) % TWO64
  }

  function HalfBound(vocab: nat): (b: nat)
    ensures b >= 1
  {
    var multMax := (TWO63 - 1) / (if vocab > 1 then vocab else 1);
    if multMax / 2 > 1 then multMax / 2 else 1
  }

  /**
   The bound is the largest number whose double, times the vocabulary size, is a signed 64-bit integer;
   it is 1 when there is none.
   */
  lemma HalfBoundIs(vocab: nat)
    requires vocab >= 1
    ensures var h := HalfBound(vocab);
            && (h == 1 || 2 * h * vocab < TWO63) && TWO63 <= 2 * (h + 1) * vocab
    ensures HalfBound(0) == HalfBound(1)
  {
    var q := (TWO63 - 1) / vocab;
    QuotientTimes(TWO63 - 1, vocab);
    HalfOf(TWO63 - 1, vocab, q, HalfBound(vocab));
  }

  lemma HalfOf(x: nat, v: nat, q: nat, h: nat)
    requires v >= 1 && v * q <= x < v * q + v && h == if q / 2 > 1 then q / 2 else 1
    ensures (h == 1 || 2 * h * v <= x) && x < 2 * (h + 1) * v
  {
    if h > 1 {
      MulBound(2 * h, q, v, v);
    }
    MulBound(q + 1, 2 * (h + 1), v, v);
    assert (q + 1) * v == v * q + v;
  }

  function OddBelow(word: nat, half: nat): (m: nat)
    requires half >= 1
    ensures m % 2 == 1 && m < 2 * half
  {
    2 * (word % half) + 1
  }

  /** The multiplier drawn for one position. */
  function Multiplier(vocab: nat, seed: int, i: nat): (m: nat)
    ensures m % 2 == 1 && m < 2 * HalfBound(vocab)
  {
    OddBelow(SplitMix64((seed + GAMMA * (i + 1)) % TWO64), HalfBound(vocab))
  }

  /** One odd multiplier per n-gram position, below twice the bound. */
  method BuildMultipliers(vocab: nat, seed: int, ngramSize: nat) returns (out: seq<nat>)
    ensures |out| == ngramSize
    ensures forall i :: 0 <= i < |out| ==> out[i] == Multiplier(vocab, seed, i)
    ensures forall i :: 0 <= i < |out| ==> out[i] % 2 == 1 && out[i] < 2 * HalfBound(vocab)
  {
    out := [];
    for i := 0 to ngramSize
      invariant |out| == i
      invariant forall j :: 0 <= j < i ==> out[j] == Multiplier(vocab, seed, j)
    {
      out := out + [Multiplier(vocab, seed, i)];
    }
  }

  /**
   Every product of a token below the vocabulary size and a multiplier below the bound stays
   below 2^63, exactly when the vocabulary is no larger than 2^63.
   */
  lemma ProductsFit(vocab: nat)
    ensures (forall token: nat, m: nat :: token < vocab && m < 2 * HalfBound(vocab) ==> token * m < TWO63)
            <==> vocab <= TWO63
  {
    if vocab <= TWO63 {
      forall token: nat, m: nat | token < vocab && m < 2 * HalfBound(vocab)
        ensures token * m < TWO63
      {
        ProductFits(vocab, token, m);
      }
    } else {
      assert TWO63 * 1 == TWO63;
    }
  }

  lemma ProductFits(vocab: nat, token: nat, m: nat)
    requires token < vocab <= TWO63 && m < 2 * HalfBound(vocab)
    ensures token * m < TWO63
  {
    var multMax := (TWO63 - 1) / vocab;
    if multMax / 2 > 1 {
      MulBound(token, vocab, m, multMax);
      QuotientTimes(TWO63 - 1, vocab);
    } else {
      assert m <= 1;
      MulBound(token, token, m, 1);
    }
  }

  lemma MulBound(a: nat, b: nat, c: nat, d: nat)
    requires a <= b && c <= d
    ensures a * c <= b * d
  {
    assert a * c <= b * c;
    assert b * c <= b * d;
  }

  lemma QuotientTimes(x: nat, d: nat)
    requires d >= 1
    ensures d * (x / d) <= x < d * (x / d) + d
  {
  }

  // ----- Head tables -----

  function Sum(sizes: seq<nat>): nat
  {
    if sizes == [] then 0 else Sum(sizes[..|sizes| - 1]) + sizes[|sizes| - 1]
  }

  /** Prime sizes, each head's slice starting where the previous one ends. */
  ghost predicate HeadTables(sizes: seq<nat>, offsets: seq<nat>, total: nat)
  {
    && |sizes| == |offsets| && total == Sum(sizes)
    && (forall h :: 0 <= h < |sizes| ==> IsPrime(sizes[h]) && offsets[h] == Sum(sizes[..h]))
    && (forall g, h :: 0 <= g < h < |sizes| ==> sizes[g] < sizes[h])
  }

  /** Builds the head sizes and offsets; sizes are the successive primes from the base on. */
  method BuildHeads(base: int, heads: nat) returns (sizes: seq<nat>, offsets: seq<nat>, total: nat)
    ensures |sizes| == heads && HeadTables(sizes, offsets, total)
    ensures forall h :: 0 <= h < heads ==> IsNthAfter(base - 1, h + 1, sizes[h])
  {
    sizes, offsets, total := [], [], 0;
    for h := 0 to heads
      invariant |sizes| == h && HeadTables(sizes, offsets, total)
      invariant forall g :: 0 <= g < h ==> IsNthAfter(base - 1, g + 1, sizes[g])
    {
      var s := NthPrimeAfter(base - 1, h + 1);
      forall g | 0 <= g < h
        ensures sizes[g] < s
      {
        NthIncreasing(base - 1, g + 1, h + 1, sizes[g], s);
      }
      AppendHead(sizes, offsets, total, s);
      sizes := sizes + [s];
      offsets := offsets + [total];
      total := total + s;
    }
  }

  lemma AppendHead(sizes: seq<nat>, offsets: seq<nat>, total: nat, s: nat)
    requires HeadTables(sizes, offsets, total) && IsPrime(s)
    requires forall g :: 0 <= g < |sizes| ==> sizes[g] < s
    ensures HeadTables(sizes + [s], offsets + [total], total + s)
  {
    var longer := sizes + [s];
    assert longer[..|sizes|] == sizes;
    assert forall g :: 0 <= g < |sizes| ==> longer[..g] == sizes[..g];
  }

  lemma {:induction false} SumPrefix(sizes: seq<nat>, g: nat, h: nat)
    requires g < h <= |sizes|
    ensures Sum(sizes[..g]) + sizes[g] <= Sum(sizes[..h])
    decreases h
  {
    assert sizes[..h][..h - 1] == sizes[..h - 1];
    if g < h - 1 {
      SumPrefix(sizes, g, h - 1);
    }
  }

  /** Which slice of the table an id falls into. */
  ghost predicate InSlice(sizes: seq<nat>, offsets: seq<nat>, h: nat, id: int)
    requires |sizes| == |offsets| && h < |sizes|
  {
    offsets[h] <= id < offsets[h] + sizes[h]
  }

  ghost predicate InSomeSlice(sizes: seq<nat>, offsets: seq<nat>, id: nat)
    requires |sizes| == |offsets|
  {
    exists h :: 0 <= h < |sizes| && InSlice(sizes, offsets, h, id)
  }

  /** The slices are disjoint and lie inside the table; together they leave no gap. */
  lemma SlicesTile(sizes: seq<nat>, offsets: seq<nat>, total: nat)
    requires HeadTables(sizes, offsets, total)
    ensures forall h, id: nat :: 0 <= h < |sizes| && InSlice(sizes, offsets, h, id) ==> id < total
    ensures forall g, h, id: nat :: 0 <= g < h < |sizes| && InSlice(sizes, offsets, g, id) ==>
              !InSlice(sizes, offsets, h, id)
    ensures forall id: nat :: id < total ==> InSomeSlice(sizes, offsets, id)
  {
    assert sizes[..|sizes|] == sizes;
    forall h, id: nat | 0 <= h < |sizes| && InSlice(sizes, offsets, h, id)
      ensures id < total
    {
      SumPrefix(sizes, h, |sizes|);
    }
    forall g, h, id: nat | 0 <= g < h < |sizes| && InSlice(sizes, offsets, g, id)
      ensures !InSlice(sizes, offsets, h, id)
    {
      SumPrefix(sizes, g, h);
    }
    forall id: nat | id < total
      ensures InSomeSlice(sizes, offsets, id)
    {
      FindSlice(sizes, offsets, |sizes|, id);
    }
  }

  lemma {:induction false} FindSlice(sizes: seq<nat>, offsets: seq<nat>, n: nat, id: nat)
    requires n <= |sizes| == |offsets| && id < Sum(sizes[..n])
    requires forall h :: 0 <= h < |sizes| ==> offsets[h] == Sum(sizes[..h])
    ensures exists h :: 0 <= h < n && InSlice(sizes, offsets, h, id)
    decreases n
  {
    assert sizes[..n][..n - 1] == sizes[..n - 1];
    if id < Sum(sizes[..n - 1]) {
      FindSlice(sizes, offsets, n - 1, id);
    } else {
      assert InSlice(sizes, offsets, n - 1, id);
    }
  }

  // ----- Table padding -----

  const TWO53 := 0x20_0000_0000_0000

  /**
   What is used of rounding a quotient to the nearest double, ties to even: the relative error from
   the smallest normal double `tiny` on, integers up to 2^53 exact, and the first integer that is not.
   */
  ghost predicate RoundsToDouble(fl: real -> real, tiny: real)
  {
    && 0.0 < tiny <= 1.0
    && (forall q: real :: q >= tiny ==> -q <= (fl(q) - q) * 9007199254740993.0 <= q)
    && (forall q: real :: 0.0 <= q <= 9007199254740992.0 && q.Floor as real == q ==> fl(q) == q)
    && fl(9007199254740993.0) == 9007199254740992.0
  }

  /** A multiple whose reciprocal is still a normal double; with `tiny` 2^-1022 that is every multiple up to 2^1022. */
  predicate FitsMultiple(multiple: nat, tiny: real)
  {
    multiple >= 1 && multiple as real * tiny <= 1.0
  }

  /** The padded table size; the quotient is a double. */
  function Padded(fl: real -> real, total: nat, multiple: nat): int
    requires multiple >= 1
  {
    Ceil(fl(total as real / multiple as real)) * multiple
  }

  /** The next multiple at or above `total`. */
  predicate IsNextMultiple(padded: int, total: nat, multiple: nat)
    requires multiple >= 1
  {
    total <= padded < total + multiple && padded % multiple == 0
  }

  /** Up to 2^53 entries, padding rounds up to the next multiple despite the double quotient. */
  lemma PaddedFits(fl: real -> real, tiny: real, total: nat, multiple: nat)
    requires RoundsToDouble(fl, tiny) && FitsMultiple(multiple, tiny) && total <= TWO53
    ensures IsNextMultiple(Padded(fl, total, multiple), total, multiple)
  {
    var k, r := total / multiple, total % multiple;
    var q := total as real / multiple as real;
    QuotientTimes(total, multiple);
    CeilQuotient(fl, tiny, total, multiple, k, r, q);
    PaddedValue(total, multiple, k, r, Ceil(fl(q)));
  }

  /** A table of 2^53 + 1 entries is padded to less than its size. */
  lemma PaddedTooSmall(fl: real -> real, tiny: real)
    requires RoundsToDouble(fl, tiny)
    ensures Padded(fl, TWO53 + 1, 1) == TWO53
  {
    assert (TWO53 + 1) as real / 1.0 == 9007199254740993.0;
  }

  /** Padding is right for all tables up to a size, whatever the multiple, exactly when that size is at most 2^53. */
  lemma PaddedExactly(fl: real -> real, tiny: real, bound: nat)
    requires RoundsToDouble(fl, tiny)
    ensures (forall total: nat, multiple: nat :: total <= bound && FitsMultiple(multiple, tiny) ==>
               IsNextMultiple(Padded(fl, total, multiple), total, multiple))
            <==> bound <= TWO53
  {
    if bound <= TWO53 {
      forall total: nat, multiple: nat | total <= bound && FitsMultiple(multiple, tiny)
        ensures IsNextMultiple(Padded(fl, total, multiple), total, multiple)
      {
        PaddedFits(fl, tiny, total, multiple);
      }
    } else {
      PaddedTooSmall(fl, tiny);
      assert FitsMultiple(1, tiny) && !IsNextMultiple(Padded(fl, TWO53 + 1, 1), TWO53 + 1, 1);
    }
  }

  lemma PaddedValue(total: nat, multiple: nat, k: nat, r: nat, c: int)
    requires multiple >= 1 && r < multiple && total == k * multiple + r && c == if r == 0 then k else k + 1
    ensures total <= c * multiple < total + multiple && (c * multiple) % multiple == 0
  {
    assert (k + 1) * multiple == k * multiple + multiple;
    MultipleMod(multiple, c);
    assert multiple * c == c * multiple;
  }

  lemma CeilQuotient(fl: real -> real, tiny: real, total: nat, multiple: nat, k: nat, r: nat, q: real)
    requires RoundsToDouble(fl, tiny) && FitsMultiple(multiple, tiny) && total <= TWO53
    requires r < multiple && total == k * multiple + r && q == total as real / multiple as real
    ensures Ceil(fl(q)) == if r == 0 then k else k + 1
  {
    if r == 0 {
      ExactQuotient(total, multiple, k);
      assert q.Floor as real == q;
    } else {
      hide Ceil, FitsMultiple;
      QuotientNormal(total, multiple, tiny, q);
      assert -q <= (fl(q) - q) * 9007199254740993.0 <= q;
      QuotientStrict(fl(q), k, total, r, multiple, q);
    }
  }

  lemma QuotientNormal(total: nat, multiple: nat, tiny: real, q: real)
    requires 1 <= total && tiny > 0.0 && FitsMultiple(multiple, tiny) && q == total as real / multiple as real
    ensures q * multiple as real == total as real && q >= tiny
  {
    var d := multiple as real;
    assert q * d == total as real;
    if q < tiny {
      MulStrict(q, tiny, d);
    }
  }

  lemma MulStrict(a: real, b: real, d: real)
    requires a < b && d > 0.0
    ensures a * d < b * d
  {
  }

  lemma ExactQuotient(total: nat, multiple: nat, k: nat)
    requires multiple >= 1 && total == k * multiple && total <= TWO53
    ensures total as real / multiple as real == k as real && k <= total
  {
    assert total as real == k as real * multiple as real;
    assert k * multiple >= k;
  }

  lemma QuotientStrict(x: real, k: nat, total: nat, r: nat, multiple: nat, q: real)
    requires multiple >= 1 && total <= TWO53 && 0 < r < multiple && total == k * multiple + r
    requires q * multiple as real == total as real
    requires -q <= (x - q) * 9007199254740993.0 <= q
    ensures k as real < x < (k + 1) as real
  {
    var d := multiple as real;
    ErrorSmall(x, q, d, total);
    RealProduct(k, multiple);
    RealProduct(k + 1, multiple);
    assert (k + 1) * multiple == total - r + multiple;
    assert k as real * d == (k * multiple) as real <= total as real - 1.0;
    assert (k + 1) as real * d == ((k + 1) * multiple) as real >= total as real + 1.0;
    Cancel(k as real, x, d);
    Cancel(x, (k + 1) as real, d);
  }

  lemma RealProduct(a: nat, b: nat)
    ensures a as real * b as real == (a * b) as real
  {
  }

  lemma ErrorSmall(x: real, q: real, d: real, total: nat)
    requires d >= 1.0 && q * d == total as real && total <= TWO53
    requires -q <= (x - q) * 9007199254740993.0 <= q
    ensures total as real - 1.0 < x * d < total as real + 1.0
  {
    var e := (x - q) * 9007199254740993.0;
    MulMono(-q, e, d);
    MulMono(e, q, d);
    ErrorTimes(x, q, d);
    Small(x * d - q * d, total);
  }

  lemma Small(e: real, total: nat)
    requires -(total as real) <= e * 9007199254740993.0 <= total as real && total <= TWO53
    ensures -1.0 < e < 1.0
  {
  }

  lemma MulMono(a: real, b: real, d: real)
    requires a <= b && d >= 0.0
    ensures a * d <= b * d
  {
  }

  lemma ErrorTimes(x: real, q: real, d: real)
    ensures ((x - q) * 9007199254740993.0) * d == (x * d - q * d) * 9007199254740993.0
    ensures (-q) * d == -(q * d)
  {
    assert (x - q) * d == x * d - q * d;
  }

  lemma Cancel(a: real, b: real, d: real)
    requires d > 0.0 && a * d < b * d
    ensures a < b
  {
    assert a >= b ==> a * d >= b * d;
  }

  // ----- Ids -----

  /** Unsigned 64-bit multiplication. */
  function WrapMul(a: nat, b: nat): nat
  {
    a * b % TWO64
  }

  /** With tokens and multipliers in range, no product reaches the sign bit, so nothing wraps. */
  lemma NoWrap(vocab: nat, token: nat, m: nat)
    requires token < vocab <= TWO63 && m < 2 * HalfBound(vocab)
    ensures WrapMul(token, m) == token * m < TWO63
  {
    ProductFits(vocab, token, m);
  }

  datatype Tables = Tables(eos: Token, multipliers: seq<nat>, sizes: seq<nat>, offsets: seq<nat>, headsPerNgram: nat)

  ghost predicate Valid(t: Tables)
  {
    && |t.multipliers| >= 2
    && HeadTables(t.sizes, t.offsets, Sum(t.sizes))
    && |t.sizes| == (|t.multipliers| - 1) * t.headsPerNgram
  }

  /** The mixed hash of the first `ngram` shifted tokens at a position; unsigned 64-bit arithmetic. */
  function Mixed(t: Tables, history: seq<Token>, i: nat, ngram: nat): nat
    requires 1 <= ngram <= |t.multipliers| && i < |history|
  {
    var last := WrapMul(ShiftAt(history, t.eos, ngram - 1, i), t.multipliers[ngram - 1]);
    if ngram == 1 then last else Xor(Mixed(t, history, i, ngram - 1), last)
  }

  predicate HeadOk(t: Tables, h: nat)
  {
    && h < |t.sizes| == |t.offsets| && t.sizes[h] >= 1 && t.headsPerNgram >= 1
    && h / t.headsPerNgram + 2 <= |t.multipliers|
  }

  /** A remainder plus its head's offset, added in unsigned and cast to signed 64 bits. */
  function Placed(remainder: nat, offset: nat): int
  {
    var sum := (remainder + offset) % TWO64;
    if sum < TWO63 then sum else sum - TWO64
  }

  /** Every remainder is placed in the head's slice exactly when the slice ends at or below 2^63. */
  lemma PlacedExactly(size: nat, offset: nat)
    requires size >= 1
    ensures (forall r: nat :: r < size ==> offset <= Placed(r, offset) < offset + size) <==> offset + size <= TWO63
  {
    if offset + size > TWO63 {
      PlacedOutside(size, offset);
    }
  }

  lemma PlacedOutside(size: nat, offset: nat)
    requires offset + size > TWO63 && size >= 1
    ensures exists r: nat :: r < size && Placed(r, offset) < offset
  {
    var r: nat := if offset <= TWO63 then TWO63 - offset else 0;
    assert Placed(r, offset) < offset;
  }

  /** The id of one head: heads are grouped per n-gram length, shortest first. */
  function HeadId(t: Tables, history: seq<Token>, i: nat, h: nat): int
    requires HeadOk(t, h) && i < |history|
  {
    Placed(Mixed(t, history, i, h / t.headsPerNgram + 2) % t.sizes[h], t.offsets[h])
  }

  /** The tokens behind the end-token padding that opens every sequence. */
  function History(t: Tables, ids: seq<Token>): (s: seq<Token>)
    requires |t.multipliers| >= 1
    ensures |s| == |t.multipliers| - 1 + |ids|
  {
    seq(|t.multipliers| - 1, _ => t.eos) + ids
  }

  lemma HeadInRange(t: Tables, h: nat)
    requires Valid(t) && h < |t.sizes|
    ensures HeadOk(t, h)
  {
    DivBound(h, t.headsPerNgram, |t.multipliers| - 1);
    assert IsPrime(t.sizes[h]);
  }

  lemma DivBound(h: nat, g: nat, n: nat)
    requires h < n * g
    ensures g >= 1 && h / g < n
  {
    assert g == 0 ==> n * g == 0;
    QuotientTimes(h, g);
    if h / g >= n {
      MulBound(n, h / g, g, g);
    }
  }

  /** Every id of a head whose slice ends at or below 2^63 lies in that slice of the table. */
  lemma IdInOwnSlice(t: Tables, history: seq<Token>, i: nat, h: nat)
    requires Valid(t) && h < |t.sizes| && i < |history| && t.offsets[h] + t.sizes[h] <= TWO63
    ensures HeadOk(t, h) && InSlice(t.sizes, t.offsets, h, HeadId(t, history, i, h))
  {
    hide Mixed, Valid;
    HeadInRange(t, h);
    PlacedExactly(t.sizes[h], t.offsets[h]);
  }

  /** In a table of at most 2^63 entries every slice ends there. */
  lemma SliceEnds(t: Tables, h: nat)
    requires Valid(t) && h < |t.sizes| && Sum(t.sizes) <= TWO63
    ensures t.offsets[h] + t.sizes[h] <= TWO63
  {
    assert t.sizes[..|t.sizes|] == t.sizes;
    SumPrefix(t.sizes, h, |t.sizes|);
  }

  /**
   In a table of at most 2^63 entries two heads never share an id; with at most 2^53 entries every id
   indexes the padded table.
   */
  lemma IdsDisjointAndFit(fl: real -> real, tiny: real, t: Tables, a: seq<Token>, i: nat, g: nat,
                          b: seq<Token>, j: nat, h: nat, multiple: nat)
    requires Valid(t) && g < h < |t.sizes| && i < |a| && j < |b| && Sum(t.sizes) <= TWO63
    requires RoundsToDouble(fl, tiny) && FitsMultiple(multiple, tiny)
    ensures HeadOk(t, g) && HeadOk(t, h) && HeadId(t, a, i, g) != HeadId(t, b, j, h)
    ensures Sum(t.sizes) <= TWO53 ==>
              && 0 <= HeadId(t, a, i, g) < Padded(fl, Sum(t.sizes), multiple)
              && 0 <= HeadId(t, b, j, h) < Padded(fl, Sum(t.sizes), multiple)
  {
    hide Mixed, HeadId, HeadOk;
    SliceEnds(t, g);
    SliceEnds(t, h);
    IdInOwnSlice(t, a, i, g);
    IdInOwnSlice(t, b, j, h);
    SlicesTile(t.sizes, t.offsets, Sum(t.sizes));
    if Sum(t.sizes) <= TWO53 {
      PaddedFits(fl, tiny, Sum(t.sizes), multiple);
    }
  }

  /** Positions that end in the same `ngramSize` tokens have the same mixed hash. */
  lemma {:induction false} MixedLocal(t: Tables, a: seq<Token>, i: nat, b: seq<Token>, j: nat, ngram: nat)
    requires 1 <= ngram <= |t.multipliers| && i < |a| && j < |b|
    requires |t.multipliers| - 1 <= i && |t.multipliers| - 1 <= j
    requires a[i - (|t.multipliers| - 1)..i + 1] == b[j - (|t.multipliers| - 1)..j + 1]
    ensures Mixed(t, a, i, ngram) == Mixed(t, b, j, ngram)
    decreases ngram
  {
    ShiftLocal(a, i, b, j, t.eos, ngram - 1, |t.multipliers| - 1);
    if ngram > 1 {
      MixedLocal(t, a, i, b, j, ngram - 1);
    }
  }

  lemma ShiftLocal(a: seq<Token>, i: nat, b: seq<Token>, j: nat, eos: Token, shift: nat, ctx: nat)
    requires shift <= ctx <= i < |a| && ctx <= j < |b|
    requires a[i - ctx..i + 1] == b[j - ctx..j + 1]
    ensures ShiftAt(a, eos, shift, i) == ShiftAt(b, eos, shift, j)
  {
    ShiftMeaning(a, eos, shift, i);
    ShiftMeaning(b, eos, shift, j);
    var u, v := a[i - ctx..i + 1], b[j - ctx..j + 1];
    assert forall k {:trigger u[k]} :: 0 <= k <= ctx ==> u[k] == a[i - ctx + k] && v[k] == b[j - ctx + k];
    assert u[ctx - shift] == v[ctx - shift];
    if NoEosIn(a, eos, i - shift, i) {
      forall p | j - shift <= p < j
        ensures b[p] != eos
      {
        assert u[p - j + ctx] == v[p - j + ctx];
      }
    } else {
      var p :| i - shift <= p < i && a[p] == eos;
      assert u[p - i + ctx] == v[p - i + ctx];
    }
  }

  lemma HeadLocal(t: Tables, a: seq<Token>, i: nat, b: seq<Token>, j: nat, h: nat)
    requires HeadOk(t, h) && i < |a| && j < |b| && |t.multipliers| - 1 <= i && |t.multipliers| - 1 <= j
    requires a[i - (|t.multipliers| - 1)..i + 1] == b[j - (|t.multipliers| - 1)..j + 1]
    ensures HeadId(t, a, i, h) == HeadId(t, b, j, h)
  {
    MixedLocal(t, a, i, b, j, h / t.headsPerNgram + 2);
  }

  lemma SameWindow(t: Tables, ids: seq<Token>, p: nat, lo: nat)
    requires |t.multipliers| >= 1 && lo <= p < |ids| && (lo == 0 || p - lo == |t.multipliers| - 1)
    ensures var ctx := |t.multipliers| - 1;
            History(t, ids)[p..ctx + p + 1] == History(t, ids[lo..p + 1])[p - lo..ctx + p - lo + 1]
  {
    var ctx := |t.multipliers| - 1;
    var a, part := History(t, ids), ids[lo..p + 1];
    var b := History(t, part);
    var u, v := a[p..ctx + p + 1], b[p - lo..ctx + p - lo + 1];
    forall k | 0 <= k < |u|
      ensures u[k] == v[k]
    {
      assert u[k] == a[p + k] && v[k] == b[p - lo + k];
      if p - lo + k >= ctx {
        var m := p - lo + k - ctx;
        assert b[p - lo + k] == part[m] == ids[lo + m] == a[p + k];
      }
    }
  }

  /**
   Recomputing from a context of `ngramSize - 1` tokens (or all there are) gives the same ids as
   recomputing the whole sequence.
   */
  lemma ContextSuffices(t: Tables, ids: seq<Token>, p: nat, lo: nat, h: nat)
    requires HeadOk(t, h) && lo <= p < |ids|
    requires lo == if p < |t.multipliers| - 1 then 0 else p - (|t.multipliers| - 1)
    ensures var ctx := |t.multipliers| - 1;
            HeadId(t, History(t, ids), ctx + p, h) == HeadId(t, History(t, ids[lo..p + 1]), ctx + p - lo, h)
  {
    hide HeadId, HeadOk;
    SameWindow(t, ids, p, lo);
    var ctx := |t.multipliers| - 1;
    HeadLocal(t, History(t, ids), ctx + p, History(t, ids[lo..p + 1]), ctx + p - lo, h);
  }
}
