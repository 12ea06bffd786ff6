/**
 Fixed-width little-endian fields laid end to end, and byte strings made of adjacent zones.
 */
module Packing {
  import opened Bytes

  type u16 = x: int | 0 <= x < 0x1_0000
  type u32 = x: int | 0 <= x < 0x1_0000_0000
  type u64 = x: int | 0 <= x < 0x1_0000_0000_0000_0000

  /** The little-endian integer in `n` bytes at `at`. */
  function Field(s: seq<byte>, at: nat, n: nat): nat
    requires at + n <= |s|
  {
    FromLE(s[at..at + n])
  }

  function U16At(s: seq<byte>, at: nat): u16
    requires at + 2 <= |s|
  {
    s[at] as int + 0x100 * s[at + 1] as int
  }

  function U32At(s: seq<byte>, at: nat): u32
    requires at + 4 <= |s|
  {
    s[at] as int + 0x100 * s[at + 1] as int + 0x1_0000 * s[at + 2] as int + 0x100_0000 * s[at + 3] as int
  }

  function U64At(s: seq<byte>, at: nat): u64
    requires at + 8 <= |s|
  {
    U32At(s, at) + 0x1_0000_0000 * U32At(s, at + 4)
  }

  /** The fixed-width readers agree with the general little-endian value. */
  lemma ReadersAgree(s: seq<byte>, at: nat)
    ensures at + 2 <= |s| ==> U16At(s, at) == Field(s, at, 2)
    ensures at + 4 <= |s| ==> U32At(s, at) == Field(s, at, 4)
    ensures at + 8 <= |s| ==> U64At(s, at) == Field(s, at, 8)
  {
    if at + 2 <= |s| {
      TwoBytes(s[at..at + 2]);
    }
    if at + 4 <= |s| {
      FourBytes(s[at..at + 4]);
    }
    if at + 8 <= |s| {
      EightBytes(s[at..at + 8]);
    }
  }

  lemma TwoBytes(b: seq<byte>)
    requires |b| == 2
    ensures FromLE(b) == U16At(b, 0)
  {
    var t: seq<byte> := b[1..];
    assert FromLE(t) == t[0] + 256 * FromLE(t[1..]);
  }

  lemma FourBytes(b: seq<byte>)
    requires |b| == 4
    ensures FromLE(b) == U32At(b, 0)
  {
    var t: seq<byte> := b[1..];
    var u: seq<byte> := t[1..];
    assert FromLE(t) == t[0] + 256 * FromLE(u);
    TwoBytes(u);
  }

  lemma {:induction false} FromLEAppend(a: seq<byte>, b: seq<byte>)
    requires |a| == 4
    ensures FromLE(a + b) == FromLE(a) + 0x1_0000_0000 * FromLE(b)
  {
    var s := a + b;
    var t: seq<byte> := s[1..];
    var u: seq<byte> := t[1..];
    var v: seq<byte> := u[1..];
    assert FromLE(s) == s[0] + 256 * FromLE(t);
    assert FromLE(t) == t[0] + 256 * FromLE(u);
    assert FromLE(u) == u[0] + 256 * FromLE(v);
    assert FromLE(v) == v[0] + 256 * FromLE(v[1..]);
    assert v[1..] == b;
    FourBytes(a);
  }

  lemma EightBytes(b: seq<byte>)
    requires |b| == 8
    ensures FromLE(b) == U32At(b, 0) + 0x1_0000_0000 * U32At(b, 4)
  {
    assert b == b[..4] + b[4..];
    FromLEAppend(b[..4], b[4..]);
    FourBytes(b[..4]);
    FourBytes(b[4..]);
  }

  datatype Num = Num(value: nat, width: nat)

  predicate NumOk(f: Num)
  {
    f.value < Pow256(f.width)
  }

  /** Fields laid end to end. */
  function Pack(fs: seq<Num>): seq<byte>
  {
    if fs == [] then [] else Pack(fs[..|fs| - 1]) + ToLE(fs[|fs| - 1].value, fs[|fs| - 1].width)
  }

  /** Where field `i` starts. */
  function Offset(fs: seq<Num>, i: nat): nat
    requires i <= |fs|
  {
    if i == 0 then 0 else Offset(fs, i - 1) + fs[i - 1].width
  }

  lemma PackSnoc(fs: seq<Num>, f: Num)
    ensures Pack(fs + [f]) == Pack(fs) + ToLE(f.value, f.width)
  {
    assert (fs + [f])[..|fs|] == fs;
  }

  lemma {:induction false} PackLength(fs: seq<Num>, i: nat)
    requires i <= |fs|
    ensures |Pack(fs[..i])| == Offset(fs, i)
    decreases i
  {
    if i > 0 {
      PackLength(fs, i - 1);
      PackSnoc(fs[..i - 1], fs[i - 1]);
      assert fs[..i] == fs[..i - 1] + [fs[i - 1]];
    }
  }

  lemma {:induction false} PackSlice(fs: seq<Num>, n: nat, i: nat)
    requires i < n <= |fs|
    ensures Offset(fs, i) + fs[i].width <= |Pack(fs[..n])|
    ensures Pack(fs[..n])[Offset(fs, i)..Offset(fs, i) + fs[i].width] == ToLE(fs[i].value, fs[i].width)
    decreases n
  {
    PackLength(fs, n - 1);
    PackSnoc(fs[..n - 1], fs[n - 1]);
    assert fs[..n] == fs[..n - 1] + [fs[n - 1]];
    if i < n - 1 {
      PackSlice(fs, n - 1, i);
    }
  }

  /** Reading a packed field gives its value. */
  lemma PackField(fs: seq<Num>, i: nat)
    requires i < |fs| && NumOk(fs[i])
    ensures Offset(fs, i) + fs[i].width <= |Pack(fs)|
    ensures Field(Pack(fs), Offset(fs, i), fs[i].width) == fs[i].value
  {
    PackSlice(fs, |fs|, i);
    assert fs[..|fs|] == fs;
    FromToLE(fs[i].value, fs[i].width);
  }

  lemma SliceIn(a: seq<byte>, b: seq<byte>, c: seq<byte>, lo: nat, hi: nat)
    requires lo <= hi <= |b|
    ensures (a + b + c)[|a| + lo..|a| + hi] == b[lo..hi]
  {
    MiddlePart(a, b, c);
    SubSlice(a + b + c, |a|, |a| + |b|, lo, hi);
  }

  /** A write inside the middle zone leaves the others alone. */
  lemma SpliceIn(a: seq<byte>, b: seq<byte>, c: seq<byte>, k: nat, part: seq<byte>)
    requires k + |part| <= |b|
    ensures Splice(a + b + c, |a| + k, part) == a + Splice(b, k, part) + c
  {
    var s := a + b + c;
    assert s[..|a| + k] == a + b[..k];
    assert s[|a| + k + |part|..] == b[k + |part|..] + c;
  }

  lemma {:induction false} ZeroField(n: nat)
    ensures ToLE(0, n) == Zeros(n)
  {
    if n > 0 {
      ZeroField(n - 1);
      assert Zeros(n) == [0] + Zeros(n - 1);
    }
  }

  /** The readers find field `k` of a packed block inside a longer string. */
  lemma ReadNum(s: seq<byte>, at: nat, fs: seq<Num>, k: nat, off: nat)
    requires at + |Pack(fs)| <= |s| && s[at..at + |Pack(fs)|] == Pack(fs)
    requires k < |fs| && NumOk(fs[k]) && off == Offset(fs, k)
    ensures at + off + fs[k].width <= |s|
    ensures fs[k].width == 2 ==> U16At(s, at + off) == fs[k].value
    ensures fs[k].width == 4 ==> U32At(s, at + off) == fs[k].value
    ensures fs[k].width == 8 ==> U64At(s, at + off) == fs[k].value
  {
    PackField(fs, k);
    FieldInBlock(s, at, Pack(fs), off, fs[k].width);
    ReadersAgree(s, at + off);
  }

  lemma FieldInBlock(s: seq<byte>, at: nat, block: seq<byte>, off: nat, n: nat)
    requires at + |block| <= |s| && s[at..at + |block|] == block && off + n <= |block|
    ensures Field(s, at + off, n) == Field(block, off, n)
  {
    SubSlice(s, at, at + |block|, off, off + n);
  }

  // ----- Blocks end to end -----

  function Concat(bs: seq<seq<byte>>): seq<byte>
  {
    if bs == [] then [] else Concat(bs[..|bs| - 1]) + bs[|bs| - 1]
  }

  lemma ConcatSnoc(bs: seq<seq<byte>>, i: nat)
    requires i < |bs|
    ensures Concat(bs[..i + 1]) == Concat(bs[..i]) + bs[i]
  {
    assert bs[..i + 1][..i] == bs[..i];
  }

  /** Each block lies behind the blocks before it. */
  lemma {:induction false} ConcatSlice(bs: seq<seq<byte>>, n: nat, i: nat)
    requires i < n <= |bs|
    ensures var at := |Concat(bs[..i])|;
            at + |bs[i]| <= |Concat(bs[..n])| && Concat(bs[..n])[at..at + |bs[i]|] == bs[i]
    decreases n
  {
    ConcatSnoc(bs, n - 1);
    if i < n - 1 {
      ConcatSlice(bs, n - 1, i);
    }
  }

  lemma {:induction false} ConcatLength(bs: seq<seq<byte>>, n: nat, w: nat)
    requires n <= |bs| && forall k :: 0 <= k < |bs| ==> |bs[k]| == w
    ensures |Concat(bs[..n])| == n * w
    decreases n
  {
    if n > 0 {
      ConcatSnoc(bs, n - 1);
      ConcatLength(bs, n - 1, w);
      assert n * w == (n - 1) * w + w;
    }
  }
}
