/**
 Bytes, little-endian integers and in-place byte writes, as the artifact writer and the
 weight-blob builder use them.
 */
module Bytes {

  type byte = x: int | 0 <= x < 256

  const U16_LIMIT := 0x1_0000
  const U32_LIMIT := 0x1_0000_0000
  const U64_LIMIT := 0x1_0000_0000_0000_0000

  function Pow256(n: nat): (p: nat)
    ensures p >= 1
  {
    if n == 0 then 1 else 256 * Pow256(n - 1)
  }

  /** The `n` low bytes of `v`, least significant first (`to_le_bytes`). */
  function ToLE(v: nat, n: nat): (s: seq<byte>)
    ensures |s| == n
  {
    if n == 0 then [] else [v % 256] + ToLE(v / 256, n - 1)
  }

  /** The value of a little-endian byte string (`from_le_bytes`). */
  function FromLE(s: seq<byte>): (v: nat)
    ensures v < Pow256(|s|)
  {
    if s == [] then 0 else s[0] + 256 * FromLE(s[1..])
  }

  lemma {:induction false} FromToLE(v: nat, n: nat)
    requires v < Pow256(n)
    ensures FromLE(ToLE(v, n)) == v
  {
    if n > 0 {
      FromToLE(v / 256, n - 1);
      assert ToLE(v, n)[1..] == ToLE(v / 256, n - 1);
    }
  }

  lemma Pow256Widths()
    ensures Pow256(2) == U16_LIMIT && Pow256(4) == U32_LIMIT && Pow256(8) == U64_LIMIT
  {
    assert Pow256(2) == 256 * Pow256(1) == 0x1_0000;
    assert Pow256(4) == 256 * Pow256(3) == 0x1_0000_0000;
    assert Pow256(6) == 256 * Pow256(5) == 0x1_0000_0000_0000;
    assert Pow256(8) == 256 * Pow256(7);
  }

  /** Reading back a 16-, 32- or 64-bit integer gives the value written. */
  lemma WidthRoundTrip(v: nat)
    ensures v < U16_LIMIT ==> FromLE(ToLE(v, 2)) == v
    ensures v < U32_LIMIT ==> FromLE(ToLE(v, 4)) == v
    ensures v < U64_LIMIT ==> FromLE(ToLE(v, 8)) == v
  {
    Pow256Widths();
    if v < U16_LIMIT { FromToLE(v, 2); }
    if v < U32_LIMIT { FromToLE(v, 4); }
    if v < U64_LIMIT { FromToLE(v, 8); }
  }

  /** `n` zero bytes. */
  function Zeros(n: nat): (s: seq<byte>)
    ensures |s| == n && forall i :: 0 <= i < n ==> s[i] == 0
  {
    seq(n, _ => 0)
  }

  lemma {:induction false} ZeroBytes(n: nat)
    ensures FromLE(Zeros(n)) == 0 && ToLE(0, n) == Zeros(n)
  {
    if n > 0 {
      ZeroBytes(n - 1);
      assert Zeros(n)[1..] == Zeros(n - 1);
    }
  }

  /** A number below 256 is one byte and zeros. */
  lemma SmallBytes(v: byte, n: nat)
    ensures FromLE([v] + Zeros(n)) == v && ToLE(v, n + 1) == [v] + Zeros(n)
  {
    ZeroBytes(n);
    SmallParts(v);
    assert ([v] + Zeros(n))[1..] == Zeros(n);
    assert ToLE(v, n + 1) == [v % 256] + ToLE(v / 256, n);
  }

  lemma SmallParts(v: byte)
    ensures v % 256 == v && v / 256 == 0
  {
  }

  /** `s` with `part` written over it at `at` (`copy_from_slice` into a sub-slice). */
  function Splice(s: seq<byte>, at: nat, part: seq<byte>): (r: seq<byte>)
    requires at + |part| <= |s|
    ensures |r| == |s|
    ensures r[..at] == s[..at] && r[at..at + |part|] == part && r[at + |part|..] == s[at + |part|..]
  {
    s[..at] + part + s[at + |part|..]
  }

  /** A slice that a write does not touch reads as before. */
  lemma SpliceElsewhere(s: seq<byte>, at: nat, part: seq<byte>, lo: nat, hi: nat)
    requires at + |part| <= |s| && lo <= hi <= |s|
    requires hi <= at || at + |part| <= lo
    ensures Splice(s, at, part)[lo..hi] == s[lo..hi]
  {
    var r := Splice(s, at, part);
    forall i | lo <= i < hi
      ensures r[i] == s[i]
    {
      if i >= at + |part| {
        assert r[at + |part|..][i - at - |part|] == s[at + |part|..][i - at - |part|];
      }
    }
  }

  lemma SubSlice(s: seq<byte>, lo: nat, hi: nat, a: nat, b: nat)
    requires lo <= hi <= |s| && a <= b <= hi - lo
    ensures s[lo..hi][a..b] == s[lo + a..lo + b]
  {
    forall i | 0 <= i < b - a
      ensures s[lo..hi][a..b][i] == s[lo + a..lo + b][i]
    {
    }
  }

  lemma PrefixSlice(s: seq<byte>, t: seq<byte>, lo: nat, hi: nat)
    requires s <= t && lo <= hi <= |s|
    ensures t[lo..hi] == s[lo..hi]
  {
  }

  /** Writing at the end of a prefix, over zeros, extends the prefix. */
  lemma SpliceZeros(s: seq<byte>, part: seq<byte>, n: nat)
    requires |part| <= n
    ensures Splice(s + Zeros(n), |s|, part) == s + part + Zeros(n - |part|)
  {
    assert (s + Zeros(n))[|s| + |part|..] == Zeros(n - |part|);
  }

  /** The second of three concatenated parts is the slice between their lengths. */
  lemma MiddlePart(a: seq<byte>, b: seq<byte>, c: seq<byte>)
    ensures (a + b + c)[|a|..|a| + |b|] == b
  {
  }
}
