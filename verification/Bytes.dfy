/** Bytes, little-endian words, and reading and writing at an offset of a file. */
module Bytes {
  import opened Wrap

  type Byte = x: int | 0 <= x < 256

  function Pow256(n: nat): (p: nat)
    ensures p >= 1
  {
    if n == 0 then 1 else 256 * Pow256(n - 1)
  }

  const U32: nat := 0x1_0000_0000
  const U64: nat := 0x1_0000_0000_0000_0000

  lemma WordSizes()
    ensures Pow256(4) == U32 && Pow256(8) == U64
  {
  }

  /** The low `n` bytes of `x`, least significant first. */
  function Le(x: nat, n: nat): (s: seq<Byte>)
    ensures |s| == n
    decreases n
  {
    if n == 0 then [] else [x % 256] + Le(x / 256, n - 1)
  }

  function FromLe(s: seq<Byte>): nat {
    if s == [] then 0 else s[0] + 256 * FromLe(s[1..])
  }

  /** Encoding keeps a value exactly when it fits; a larger one comes back reduced. */
  lemma {:induction false} LeRoundTrip(x: nat, n: nat)
    ensures FromLe(Le(x, n)) < Pow256(n)
    ensures FromLe(Le(x, n)) == x <==> x < Pow256(n)
  {
    if n > 0 {
      LeRoundTrip(x / 256, n - 1);
      assert Le(x, n)[1..] == Le(x / 256, n - 1);
      assert x == x % 256 + 256 * (x / 256);
    }
  }

  /** Byte `i` of a word is its digit of weight 256 to the `i`. */
  lemma {:induction false} LeByte(x: nat, n: nat, i: nat)
    requires i < n
    ensures Le(x, n)[i] == x / Pow256(i) % 256
    decreases n
  {
    if i > 0 {
      LeByte(x / 256, n - 1, i - 1);
      DivideTwice(x, Pow256(i - 1));
    }
  }

  lemma DivideTwice(x: nat, p: nat)
    requires p > 0
    ensures x / 256 / p == x / (256 * p)
  {
    var q := x / 256;
    var r, s := q % p, x % 256;
    assert x == 256 * (p * (q / p) + r) + s;
    assert 256 * (p * (q / p)) == (256 * p) * (q / p);
    assert x == (256 * p) * (q / p) + (256 * r + s);
    assert 256 * r + s < 256 * p;
    QuotientIs(x, 256 * p, q / p, 256 * r + s);
  }

  lemma QuotientIs(x: nat, d: nat, q: nat, r: nat)
    requires d > 0 && x == d * q + r && r < d
    ensures x / d == q
  {
    assert x == d * (x / d) + x % d;
    NotAbove(d, q, r, x / d, x % d);
    NotAbove(d, x / d, x % d, q, r);
  }

  lemma NotAbove(d: nat, q: nat, r: nat, q': nat, r': nat)
    requires d * q + r == d * q' + r' && r' < d
    ensures q <= q'
  {
    if q > q' { LessTimes(d, q', q); }
  }

  lemma {:induction false} LessTimes(d: nat, a: nat, b: nat)
    requires a < b
    ensures d * a + d <= d * b
    decreases b
  {
    var k: nat := b - 1;
    assert d * b == d * k + d;
    if a < k { LessTimes(d, a, k); }
  }

  function Zeros(n: nat): (s: seq<Byte>)
    ensures |s| == n
  {
    seq(n, i => 0)
  }

  /** A write past the end leaves a hole of zeros. */
  function WriteAt(b: seq<Byte>, off: nat, data: seq<Byte>): (r: seq<Byte>)
    ensures |r| == if off + |data| > |b| then off + |data| else |b|
  {
    if off + |data| <= |b| then b[..off] + data + b[off + |data|..]
    else if off <= |b| then b[..off] + data
    else b + Zeros(off - |b|) + data
  }

  /** `read_exact`: all `n` bytes or nothing. */
  function ReadAt(b: seq<Byte>, off: nat, n: nat): Option<seq<Byte>> {
    if off + n <= |b| then Some(b[off..off + n]) else None
  }

  /** Two consecutive writes are one longer write. */
  lemma WriteTwice(b: seq<Byte>, off: nat, d1: seq<Byte>, d2: seq<Byte>)
    requires off <= |b|
    ensures WriteAt(WriteAt(b, off, d1), off + |d1|, d2) == WriteAt(b, off, d1 + d2)
  {
  }

  /** The bytes `d` stand at offset `off` of `b`. */
  ghost predicate At(b: seq<Byte>, off: nat, d: seq<Byte>) {
    off + |d| <= |b| && b[off..off + |d|] == d
  }

  lemma AtRead(b: seq<Byte>, off: nat, d: seq<Byte>)
    requires At(b, off, d)
    ensures ReadAt(b, off, |d|) == Some(d)
  {
  }

  lemma AtSplit(b: seq<Byte>, off: nat, d1: seq<Byte>, d2: seq<Byte>)
    requires At(b, off, d1 + d2)
    ensures At(b, off, d1) && At(b, off + |d1|, d2)
  {
    var d := d1 + d2;
    forall i | 0 <= i < |d1| ensures b[off..off + |d1|][i] == d1[i] {
      assert b[off..off + |d|][i] == d[i];
    }
    forall i | 0 <= i < |d2| ensures b[off + |d1|..off + |d1| + |d2|][i] == d2[i] {
      assert b[off..off + |d|][|d1| + i] == d[|d1| + i];
    }
  }

  lemma AtJoin(b: seq<Byte>, off: nat, d1: seq<Byte>, d2: seq<Byte>)
    requires At(b, off, d1) && At(b, off + |d1|, d2)
    ensures At(b, off, d1 + d2)
  {
  }

  lemma AtWritten(b: seq<Byte>, off: nat, d: seq<Byte>)
    ensures At(WriteAt(b, off, d), off, d)
  {
  }

  /** Bytes outside the written range stay where they are. */
  lemma AtKept(b: seq<Byte>, off: nat, data: seq<Byte>, p: nat, d: seq<Byte>)
    requires At(b, p, d) && (p + |d| <= off || off + |data| <= p)
    ensures At(WriteAt(b, off, data), p, d)
  {
  }

  ghost predicate SamePrefix(a: seq<Byte>, b: seq<Byte>, n: nat) {
    n <= |a| && n <= |b| && a[..n] == b[..n]
  }

  lemma AtPrefix(a: seq<Byte>, b: seq<Byte>, n: nat, p: nat, d: seq<Byte>)
    requires SamePrefix(a, b, n) && At(a, p, d) && p + |d| <= n
    ensures At(b, p, d)
  {
    assert a[..n][p..p + |d|] == a[p..p + |d|] && b[..n][p..p + |d|] == b[p..p + |d|];
  }

  lemma WritePrefix(b: seq<Byte>, off: nat, data: seq<Byte>, n: nat)
    requires n <= off && n <= |b|
    ensures SamePrefix(b, WriteAt(b, off, data), n)
  {
  }

  lemma ShorterPrefix(a: seq<Byte>, b: seq<Byte>, m: nat, n: nat)
    requires SamePrefix(a, b, m) && n <= m
    ensures SamePrefix(a, b, n)
  {
    assert forall i | 0 <= i < n :: a[..m][i] == b[..m][i];
  }

  lemma PrefixTrans(a: seq<Byte>, b: seq<Byte>, d: seq<Byte>, n: nat)
    requires SamePrefix(a, b, n) && SamePrefix(b, d, n)
    ensures SamePrefix(a, d, n) && SamePrefix(b, a, n)
  {
  }
}
