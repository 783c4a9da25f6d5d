/**
  Compaction of a full analytical store: destinations of a block as bit-packed differences, and
  property columns as a bitmap with per-group counts over a dense value array. The repository has no
  reader for the compact form; decoding is defined here.
 */
module Compression {
  import opened Wrap
  import opened Stamps
  import opened OlapStore
  import opened OlapBlock
  import opened Counting

  function Pow2(n: nat): (r: nat)
    ensures r >= 1
  {
    if n == 0 then 1 else 2 * Pow2(n - 1)
  }

  /** The number of bits of `n`: 64 less the leading zeros of a 64-bit word. */
  function BitLen(n: nat): (w: nat)
    ensures n < Pow2(w)
    ensures n > 0 ==> w > 0 && Pow2(w - 1) <= n
  {
    if n == 0 then 0 else 1 + BitLen(n / 2)
  }

  lemma {:induction false} Pow2Mono(a: nat, b: nat)
    requires a <= b
    ensures Pow2(a) <= Pow2(b)
    decreases b
  {
    if a < b { Pow2Mono(a, b - 1); }
  }

  // ----- bit fields -----

  function BitsOf(n: nat, w: nat): (r: seq<bool>)
    ensures |r| == w
  {
    if w == 0 then [] else [n % 2 == 1] + BitsOf(n / 2, w - 1)
  }

  function Value(bits: seq<bool>): nat {
    if bits == [] then 0 else (if bits[0] then 1 else 0) + 2 * Value(bits[1..])
  }

  /** `n >> j`. */
  function Shr(n: nat, j: nat): nat { if j == 0 then n else Shr(n / 2, j - 1) }

  /** Bit `j` of a word, as the shift and mask compute it. */
  predicate Bit(n: nat, j: nat) { Shr(n, j) % 2 == 1 }

  lemma {:induction false} BitOfField(n: nat, w: nat, j: nat)
    requires j < w
    ensures BitsOf(n, w)[j] == Bit(n, j)
    decreases j
  {
    if j > 0 { BitOfField(n / 2, w - 1, j - 1); }
  }

  /** A field of `w` bits holds a number modulo 2 to the `w`. */
  lemma {:induction false} FieldValue(n: nat, w: nat)
    ensures Value(BitsOf(n, w)) < Pow2(w)
    ensures Value(BitsOf(n, w)) == n <==> n < Pow2(w)
    decreases w
  {
    if w > 0 {
      FieldValue(n / 2, w - 1);
      var rest := BitsOf(n / 2, w - 1);
      assert BitsOf(n, w)[1..] == rest;
    }
  }

  /** The fields of all differences, one after the other. */
  function Packed(deltas: seq<nat>, w: nat): (r: seq<bool>)
    decreases |deltas|
  {
    if deltas == [] then [] else Packed(deltas[..|deltas| - 1], w) + BitsOf(deltas[|deltas| - 1], w)
  }

  /** The size of `n` fields of `w` bits. */
  function Size(n: nat, w: nat): nat { if n == 0 then 0 else Size(n - 1, w) + w }

  lemma {:induction false} SizeIs(n: nat, w: nat)
    ensures Size(n, w) == n * w
  {
    if n > 0 {
      SizeIs(n - 1, w);
      assert n * w == (n - 1) * w + w;
    }
  }

  /** Where field `n` starts. */
  function FieldStart(n: nat, w: nat): (r: nat)
    ensures r == Size(n, w)
  {
    SizeIs(n, w);
    n * w
  }

  lemma {:induction false} SizeMono(n: nat, m: nat, w: nat)
    requires n <= m
    ensures Size(n, w) <= Size(m, w)
    decreases m
  {
    if n < m { SizeMono(n, m - 1, w); }
  }

  lemma {:induction false} PackedLength(deltas: seq<nat>, w: nat)
    ensures |Packed(deltas, w)| == Size(|deltas|, w)
    decreases |deltas|
  {
    if deltas != [] { PackedLength(deltas[..|deltas| - 1], w); }
  }

  // ----- decoding -----

  /** `n` fields of `w` bits. */
  function Fields(bits: seq<bool>, w: nat, n: nat): seq<nat>
    requires |bits| == Size(n, w)
    decreases n
  {
    if n == 0 then [] else Fields(bits[..Size(n - 1, w)], w, n - 1) + [Value(bits[Size(n - 1, w)..])]
  }

  /** Running sums. */
  function Sums(first: nat, deltas: seq<nat>): (r: seq<nat>)
    ensures |r| == |deltas| + 1
    decreases |deltas|
  {
    if deltas == [] then [first]
    else
      var r := Sums(first, deltas[..|deltas| - 1]);
      r + [r[|r| - 1] + deltas[|deltas| - 1]]
  }

  datatype Compact = Compact(count: nat, width: nat, first: nat, bits: seq<bool>, labels: seq<nat>)

  ghost predicate WellSized(c: Compact) { c.count >= 1 && |c.bits| == Size(c.count - 1, c.width) && |c.labels| == BLOCK_CAPACITY >= c.count }

  function DecodeDsts(c: Compact): seq<nat>
    requires WellSized(c)
  {
    Sums(c.first, Fields(c.bits, c.width, c.count - 1))
  }

  // ----- destinations and their differences -----

  ghost predicate Ascending(ds: seq<nat>) { forall i, j | 0 <= i < j < |ds| :: ds[i] <= ds[j] }

  /** A block kept in order is ready for compaction: its destinations ascend. */
  lemma SortedAscends(live: seq<Slot>)
    requires Sorted(live)
    ensures Ascending(seq(|live|, i requires 0 <= i < |live| => live[i].dst))
  {
  }

  function Deltas(ds: seq<nat>): (r: seq<nat>)
    requires ds != [] && Ascending(ds)
    ensures |r| == |ds| - 1 && forall i | 0 <= i < |r| :: r[i] == ds[i + 1] - ds[i]
  {
    seq(|ds| - 1, i requires 0 <= i < |ds| - 1 => ds[i + 1] - ds[i])
  }

  lemma SumsMore(first: nat, d: seq<nat>, x: nat)
    ensures Sums(first, d + [x]) == Sums(first, d) + [Sums(first, d)[|d|] + x]
  {
    assert (d + [x])[..|d|] == d;
  }

  lemma DeltasMore(ds: seq<nat>, x: nat)
    requires ds != [] && Ascending(ds + [x])
    ensures Ascending(ds) && ds[|ds| - 1] <= x && Deltas(ds + [x]) == Deltas(ds) + [x - ds[|ds| - 1]]
  {
    var all := ds + [x];
    assert forall i | 0 <= i < |ds| :: all[i] == ds[i];
    assert all[|ds| - 1] <= all[|ds|];
  }

  lemma SumsOneMore(ds: seq<nat>, x: nat)
    requires ds != [] && Ascending(ds + [x]) && Ascending(ds) && Sums(ds[0], Deltas(ds)) == ds
    ensures Sums(ds[0], Deltas(ds + [x])) == ds + [x]
  {
    DeltasMore(ds, x);
    hide Sums, Deltas, Ascending;
    SumsMore(ds[0], Deltas(ds), x - ds[|ds| - 1]);
  }

  lemma {:induction false} SumsOfDeltas(ds: seq<nat>)
    requires ds != [] && Ascending(ds)
    ensures Sums(ds[0], Deltas(ds)) == ds
    decreases |ds|
  {
    if |ds| > 1 {
      var init, x := ds[..|ds| - 1], ds[|ds| - 1];
      assert init + [x] == ds;
      assert Ascending(init);
      hide Sums, Deltas, Ascending;
      SumsOfDeltas(init);
      SumsOneMore(init, x);
    } else {
      assert Deltas(ds) == [];
    }
  }

  /** Different differences give different sums. */
  lemma {:induction false} SumsInjective(first: nat, d: seq<nat>, e: seq<nat>)
    requires |d| == |e| && Sums(first, d) == Sums(first, e)
    ensures d == e
    decreases |d|
  {
    if d != [] {
      var n := |d| - 1;
      var p, q := Sums(first, d[..n]), Sums(first, e[..n]);
      assert p == Sums(first, d)[..n + 1] && q == Sums(first, e)[..n + 1];
      SumsInjective(first, d[..n], e[..n]);
      assert Sums(first, d)[n + 1] == p[n] + d[n] && Sums(first, e)[n + 1] == q[n] + e[n];
      assert d == d[..n] + [d[n]] && e == e[..n] + [e[n]];
    }
  }

  ghost predicate Fit(deltas: seq<nat>, w: nat) { forall i | 0 <= i < |deltas| :: deltas[i] < Pow2(w) }

  /** The packed fields read back as the differences exactly when each fits the width. */
  lemma {:induction false} FieldsExact(deltas: seq<nat>, w: nat)
    ensures |Packed(deltas, w)| == Size(|deltas|, w)
    ensures |Fields(Packed(deltas, w), w, |deltas|)| == |deltas|
    ensures Fields(Packed(deltas, w), w, |deltas|) == deltas <==> Fit(deltas, w)
    decreases |deltas|
  {
    hide *;
    PackedLength(deltas, w);
    if deltas == [] {
      EmptyFields(w);
    } else {
      var n := |deltas| - 1;
      var init, d := deltas[..n], deltas[n];
      PackedLength(init, w);
      FieldsExact(init, w);
      PackedMore(init, d, w);
      FieldsStep(Packed(init, w), d, w, n);
      FieldValue(d, w);
      FitMore(init, d, w);
      assert deltas == init + [d];
      SnocEqual(Fields(Packed(init, w), w, n), Value(BitsOf(d, w)), init, d);
    }
  }

  lemma EmptyFields(w: nat)
    ensures Packed([], w) == [] && Size(0, w) == 0 && Fields([], w, 0) == [] && Fit([], w)
  {
  }

  lemma FitMore(deltas: seq<nat>, d: nat, w: nat)
    ensures Fit(deltas + [d], w) <==> Fit(deltas, w) && d < Pow2(w)
  {
    var all := deltas + [d];
    assert all[|deltas|] == d && forall i | 0 <= i < |deltas| :: all[i] == deltas[i];
  }

  lemma SnocEqual(f: seq<nat>, v: nat, g: seq<nat>, d: nat)
    requires |f| == |g|
    ensures f + [v] == g + [d] <==> f == g && v == d
  {
    assert (f + [v])[..|f|] == f && (g + [d])[..|g|] == g;
    assert (f + [v])[|f|] == v && (g + [d])[|g|] == d;
  }

  lemma FieldsStep(bits: seq<bool>, d: nat, w: nat, n: nat)
    requires |bits| == Size(n, w)
    ensures |bits + BitsOf(d, w)| == Size(n + 1, w)
    ensures Fields(bits + BitsOf(d, w), w, n + 1) == Fields(bits, w, n) + [Value(BitsOf(d, w))]
  {
    var all := bits + BitsOf(d, w);
    assert all[..Size(n, w)] == bits && all[Size(n, w)..] == BitsOf(d, w);
  }

  // ----- the width the scan chooses -----

  /** Where the scan for the largest difference stops: at the first destination 1 after slot 0. */
  ghost predicate StopsAt(ds: seq<nat>, stop: nat) {
    && 1 <= stop <= |ds| && (forall i | 1 <= i < stop :: ds[i] != 1) && (stop < |ds| ==> ds[stop] == 1)
  }

  /** The width covers every difference before the stop, and is no larger than needed. */
  ghost predicate WidthFor(ds: seq<nat>, stop: nat, w: nat)
    requires ds != [] && Ascending(ds)
  {
    && w >= 1 && stop <= |ds|
    && (forall i | 0 <= i < stop - 1 :: Deltas(ds)[i] < Pow2(w))
    && (w == 1 || Reaches(Deltas(ds), stop - 1, Pow2(w - 1)))
  }

  ghost predicate Reaches(deltas: seq<nat>, n: int, low: nat) {
    exists i | 0 <= i < n && i < |deltas| :: deltas[i] >= low
  }

  lemma ZeroReachesNothing(deltas: seq<nat>, n: int, low: nat)
    requires low >= 1 && forall i | 0 <= i < n && i < |deltas| :: deltas[i] == 0
    ensures !Reaches(deltas, n, low)
  {
  }

  lemma ZeroBeforeOne(ds: seq<nat>, stop: nat)
    requires ds != [] && Ascending(ds) && StopsAt(ds, stop) && stop < |ds|
    ensures forall i | 0 <= i < stop - 1 :: Deltas(ds)[i] == 0
  {
    forall i | 0 <= i < stop - 1 ensures Deltas(ds)[i] == 0 {
      assert ds[i + 1] <= ds[stop] && ds[i + 1] != 1 && ds[i] <= ds[i + 1];
    }
  }

  /** The scan stopping early does no harm exactly when all differences are 0 or 1. */
  lemma WidthFits(ds: seq<nat>, stop: nat, w: nat)
    requires ds != [] && Ascending(ds) && StopsAt(ds, stop) && WidthFor(ds, stop, w)
    ensures Fit(Deltas(ds), w) <==> (stop == |ds| || forall i | 0 <= i < |ds| - 1 :: Deltas(ds)[i] <= 1)
  {
    assert Pow2(1) == 2 by { assert Pow2(0) == 1; }
    if stop < |ds| {
      ZeroBeforeOne(ds, stop);
      ZeroReachesNothing(Deltas(ds), stop - 1, Pow2(w - 1));
      assert w == 1;
    }
  }

  ghost predicate NoInnerOne(ds: seq<nat>) { forall i | 1 <= i < |ds| :: ds[i] != 1 }

  ghost predicate PackedFrom(c: Compact, ds: seq<nat>, stop: nat)
    requires ds != [] && Ascending(ds)
  {
    && WellSized(c) && c.count == |ds| && c.first == ds[0] && c.bits == Packed(Deltas(ds), c.width)
    && StopsAt(ds, stop) && WidthFor(ds, stop, c.width)
  }

  ghost predicate SmallSteps(ds: seq<nat>) { forall i | 0 <= i < |ds| - 1 :: ds[i + 1] <= ds[i] + 1 }

  lemma DecodesIffFit(c: Compact, ds: seq<nat>, stop: nat)
    requires ds != [] && Ascending(ds) && PackedFrom(c, ds, stop)
    ensures DecodeDsts(c) == ds <==> Fit(Deltas(ds), c.width)
  {
    var deltas := Deltas(ds);
    var fields := Fields(c.bits, c.width, c.count - 1);
    hide Fields, Sums, Packed, Fit, Ascending, StopsAt, WidthFor, Deltas;
    FieldsExact(deltas, c.width);
    SumsOfDeltas(ds);
    if DecodeDsts(c) == ds { SumsInjective(c.first, fields, deltas); }
  }

  /** The compact block decodes to its destinations if and only if none after the first is 1, or no two
      neighbours differ by more than 1. */
  lemma LosslessIff(c: Compact, ds: seq<nat>, stop: nat)
    requires ds != [] && Ascending(ds) && PackedFrom(c, ds, stop)
    ensures DecodeDsts(c) == ds <==> (NoInnerOne(ds) || SmallSteps(ds))
  {
    DecodesIffFit(c, ds, stop);
    WidthFits(ds, stop, c.width);
    hide DecodeDsts, Fit, Packed, WidthFor, Ascending;
    assert NoInnerOne(ds) <==> stop == |ds|;
  }

  lemma PackTwo(a: nat, b: nat, w: nat)
    ensures Packed([a, b], w) == BitsOf(a, w) + BitsOf(b, w)
  {
    assert [a][..0] == [] && [a, b][..1] == [a];
    assert Packed([a], w) == [] + BitsOf(a, w);
  }

  lemma TwoFields(x: seq<bool>, y: seq<bool>, w: nat)
    requires |x| == |y| == w
    ensures |x + y| == Size(2, w) && Fields(x + y, w, 2) == [Value(x), Value(y)]
  {
    assert Size(1, w) == w && Size(2, w) == 2 * w;
    assert (x + y)[..w] == x && (x + y)[w..] == y;
    assert x[..0] == [] && x[0..] == x;
    assert Fields(x, w, 1) == [] + [Value(x)];
  }

  lemma SumTwo(first: nat, a: nat, b: nat)
    ensures Sums(first, [a, b]) == [first, first + a, first + a + b]
  {
    assert [a][..0] == [] && [a, b][..1] == [a];
    assert Sums(first, [a]) == [first, first + a];
  }

  lemma SmallBits()
    ensures BitsOf(1, 1) == [true] && BitsOf(4, 1) == [false] && Value(BitsOf(1, 1)) == 1 && Value(BitsOf(4, 1)) == 0
  {
  }

  lemma InnerOneScanned()
    ensures var ds: seq<nat> := [0, 1, 5]; Ascending(ds) && Deltas(ds) == [1, 4] && StopsAt(ds, 1) && WidthFor(ds, 1, 1)
  {
  }

  /** Destinations 0, 1 and 5: the scan stops at once, chooses width 1, and 5 comes back as 1. */
  lemma InnerOneLosesDestinations() returns (c: Compact)
    ensures PackedFrom(c, [0, 1, 5], 1) && DecodeDsts(c) == [0, 1, 1]
  {
    InnerOneScanned();
    SmallBits();
    var x, y := BitsOf(1, 1), BitsOf(4, 1);
    hide Packed, Fields, Sums, BitsOf, Value, Deltas, Size, StopsAt, WidthFor, Ascending;
    c := Compact(3, 1, 0, x + y, seq(BLOCK_CAPACITY, _ => 1));
    PackTwo(1, 4, 1);
    TwoFields(x, y, 1);
    SumTwo(0, 1, 0);
  }

  // ----- compressing -----

  lemma Pow2Byte(n: nat)
    ensures Pow2(n + 8) == 256 * Pow2(n)
  {
    assert Pow2(n + 2) == 4 * Pow2(n);
    assert Pow2(n + 4) == 4 * Pow2(n + 2);
    assert Pow2(n + 6) == 4 * Pow2(n + 4);
  }

  lemma Pow2Zero()
    ensures Pow2(0) == 1
  {
  }

  lemma WordIs()
    ensures U64_MAX == 0xFFFF_FFFF_FFFF_FFFF
  {
  }

  lemma WordWidth(n: nat)
    requires 0 < n <= U64_MAX
    ensures BitLen(n) <= 64
  {
    Pow2Zero();
    hide *;
    WordIs();
    Pow2Byte(0); Pow2Byte(8); Pow2Byte(16); Pow2Byte(24); Pow2Byte(32); Pow2Byte(40); Pow2Byte(48); Pow2Byte(56);
    if BitLen(n) > 64 { Pow2Mono(64, BitLen(n) - 1); }
  }

  /** The widest difference before the sentinel, as a number of bits. */
  method ScanWidth(edges: array<Rec>, count: nat) returns (w: nat, stop: nat)
    requires 1 <= count <= edges.Length && Ascending(Dsts(edges[..count]))
    requires forall i | count <= i < edges.Length :: edges[i].dst == 1
    requires forall i | 0 <= i < count :: edges[i].dst <= U64_MAX
    ensures Scanned(Dsts(edges[..count]), stop, w)
  {
    ghost var rs := edges[..count];
    hide *;
    MostFirst(rs);
    var most: nat := 0;
    ghost var at := 0;
    var i := 1;
    while i < edges.Length && edges[i].dst != 1
      invariant 1 <= i <= count && MostSoFar(rs, i, most, at)
    {
      assert i < count && edges[i] == rs[i] && edges[i - 1] == rs[i - 1];
      MostNext(rs, i, most, at);
      var d: nat := edges[i].dst - edges[i - 1].dst;
      if d > most { most, at := d, i - 1; }
      i := i + 1;
    }
    stop := i;
    w := if most == 0 then 1 else BitLen(most);
    WidthIs(rs, stop, most, at, w);
  }

  /** What the scan finds: where it stops and a 64-bit word's width for the differences before that. */
  ghost predicate Scanned(ds: seq<nat>, stop: nat, w: nat) {
    ds != [] && Ascending(ds) && StopsAt(ds, stop) && WidthFor(ds, stop, w) && w <= 64
  }

  /** The largest difference among the first slots, and where it is; none of them but slot 0 is 1. */
  ghost predicate MostSoFar(rs: seq<Rec>, i: nat, most: nat, at: nat) {
    && 1 <= i <= |rs| && Ascending(Dsts(rs))
    && (forall k | 1 <= k < i :: Dsts(rs)[k] != 1)
    && (forall k | 0 <= k < i - 1 :: Deltas(Dsts(rs))[k] <= most)
    && (most == 0 || (at < i - 1 && Deltas(Dsts(rs))[at] == most))
  }

  lemma MostFirst(rs: seq<Rec>)
    requires rs != [] && Ascending(Dsts(rs))
    ensures MostSoFar(rs, 1, 0, 0)
  {
  }

  lemma MostNext(rs: seq<Rec>, i: nat, most: nat, at: nat)
    requires MostSoFar(rs, i, most, at) && i < |rs| && rs[i].dst != 1
    ensures rs[i - 1].dst <= rs[i].dst
    ensures var d := rs[i].dst - rs[i - 1].dst;
            if d > most then MostSoFar(rs, i + 1, d, i - 1) else MostSoFar(rs, i + 1, most, at)
  {
    hide Deltas, Dsts, Ascending;
    DeltaOf(rs, i - 1);
    MostStep(Dsts(rs), Deltas(Dsts(rs)), i, most, at);
  }

  lemma MostStep(ds: seq<nat>, deltas: seq<nat>, i: nat, most: nat, at: nat)
    requires 1 <= i < |ds| == |deltas| + 1 && ds[i] != 1
    requires forall k | 1 <= k < i :: ds[k] != 1
    requires forall k | 0 <= k < i - 1 :: deltas[k] <= most
    ensures forall k | 1 <= k < i + 1 :: ds[k] != 1
    ensures var d := deltas[i - 1]; forall k | 0 <= k < i :: deltas[k] <= if d > most then d else most
  {
  }

  lemma WidthIs(rs: seq<Rec>, stop: nat, most: nat, at: nat, w: nat)
    requires forall i | 0 <= i < |rs| :: rs[i].dst <= U64_MAX
    requires MostSoFar(rs, stop, most, at) && (stop < |rs| ==> rs[stop].dst == 1)
    requires w == if most == 0 then 1 else BitLen(most)
    ensures Scanned(Dsts(rs), stop, w)
  {
    if most > 0 { WordWidth(most); }
  }

  function Dsts(rs: seq<Rec>): (r: seq<nat>)
    ensures |r| == |rs| && forall i | 0 <= i < |rs| :: r[i] == rs[i].dst
  {
    seq(|rs|, i requires 0 <= i < |rs| => rs[i].dst)
  }

  /** Set one field, bit by bit; other bits keep their values. */
  method SetField(bits: array<bool>, start: nat, w: nat, d: nat)
    requires start + w <= bits.Length
    modifies bits
    ensures bits[..] == old(bits[..start]) + BitsOf(d, w) + old(bits[start + w..])
  {
    var j := 0;
    while j < w
      invariant 0 <= j <= w
      invariant forall k | 0 <= k < bits.Length :: bits[k] == if start <= k < start + j then BitsOf(d, w)[k - start] else old(bits[k])
    {
      BitOfField(d, w, j);
      bits[start + j] := Shr(d, j) % 2 == 1;
      j := j + 1;
    }
  }

  lemma PackedMore(deltas: seq<nat>, d: nat, w: nat)
    ensures Packed(deltas + [d], w) == Packed(deltas, w) + BitsOf(d, w)
  {
    assert (deltas + [d])[..|deltas|] == deltas;
  }

  /** The shift and mask pick the binary digit of weight 2 to the `j`. */
  lemma {:induction false} BitIs(n: nat, j: nat)
    ensures Bit(n, j) <==> n / Pow2(j) % 2 == 1
    decreases j
  {
    if j > 0 {
      BitIs(n / 2, j - 1);
      Halves(n, Pow2(j - 1));
    }
  }

  lemma Halves(n: nat, p: nat)
    requires p > 0
    ensures n / 2 / p == n / (2 * p)
  {
    var q := n / 2;
    var r, b := q % p, n % 2;
    assert n == 2 * (p * (q / p) + r) + b;
    assert 2 * (p * (q / p)) == (2 * p) * (q / p);
    DividesTo(n, 2 * p, q / p, 2 * r + b);
  }

  lemma DividesTo(n: nat, d: nat, q: nat, r: nat)
    requires d > 0 && n == d * q + r && r < d
    ensures n / d == q
  {
    assert n == d * (n / d) + n % d;
    NotMore(d, q, r, n / d, n % d);
    NotMore(d, n / d, n % d, q, r);
  }

  lemma NotMore(d: nat, q: nat, r: nat, q': nat, r': nat)
    requires d * q + r == d * q' + r' && r' < d
    ensures q <= q'
  {
    if q > q' { Apart(d, q', q); }
  }

  lemma {:induction false} Apart(d: nat, a: nat, b: nat)
    requires a < b
    ensures d * a + d <= d * b
    decreases b
  {
    var k: nat := b - 1;
    assert d * b == d * k + d;
    if a < k { Apart(d, a, k); }
  }

  /** Bit `j` of difference `i` stands at bit `i * w + j` of the packed words. */
  lemma {:induction false} PackedAt(deltas: seq<nat>, w: nat, i: nat, j: nat)
    requires i < |deltas| && j < w
    ensures FieldStart(i, w) + j < |Packed(deltas, w)| && Packed(deltas, w)[FieldStart(i, w) + j] == Bit(deltas[i], j)
    decreases |deltas|
  {
    var n := |deltas| - 1;
    PackedLength(deltas[..n], w);
    if i == n {
      BitOfField(deltas[n], w, j);
    } else {
      PackedAt(deltas[..n], w, i, j);
    }
  }

  /** Writing field `n` after the first `n` are in place. */
  lemma NextField(before: seq<bool>, after: seq<bool>, deltas: seq<nat>, w: nat, n: nat)
    requires n < |deltas| && |before| == Size(|deltas|, w) && Size(n + 1, w) <= |before|
    requires before[..Size(n, w)] == Packed(deltas[..n], w)
    requires after == before[..Size(n, w)] + BitsOf(deltas[n], w) + before[Size(n, w) + w..]
    ensures |after| == |before| && after[..Size(n + 1, w)] == Packed(deltas[..n + 1], w)
  {
    assert deltas[..n + 1] == deltas[..n] + [deltas[n]];
    PackedMore(deltas[..n], deltas[n], w);
    assert after[..Size(n + 1, w)] == before[..Size(n, w)] + BitsOf(deltas[n], w);
  }

  /** Neighbouring destinations and their difference. */
  lemma DeltaOf(rs: seq<Rec>, i: nat)
    requires rs != [] && Ascending(Dsts(rs)) && i + 1 < |rs|
    ensures |Deltas(Dsts(rs))| == |rs| - 1
    ensures rs[i].dst <= rs[i + 1].dst && Deltas(Dsts(rs))[i] == rs[i + 1].dst - rs[i].dst
  {
    assert Dsts(rs)[i] <= Dsts(rs)[i + 1];
  }

  lemma CapacityIs()
    ensures BLOCK_CAPACITY == 256
  {
  }

  lemma SizeStep(n: nat, w: nat, m: nat)
    requires n < m
    ensures Size(n + 1, w) == Size(n, w) + w <= Size(m, w)
  {
    SizeMono(n + 1, m, w);
  }

  lemma NoFields(deltas: seq<nat>, w: nat)
    ensures Size(0, w) == 0 && Packed(deltas[..0], w) == []
  {
  }

  /** Set field `n`, the first `n` being in place. */
  method PackField(bits: array<bool>, ghost deltas: seq<nat>, ghost n: nat, w: nat, start: nat, d: nat)
    requires n < |deltas| && bits.Length == Size(|deltas|, w) && start == Size(n, w) <= bits.Length && d == deltas[n]
    requires bits[..][..Size(n, w)] == Packed(deltas[..n], w)
    modifies bits
    ensures Size(n + 1, w) <= bits.Length && bits[..][..Size(n + 1, w)] == Packed(deltas[..n + 1], w)
  {
    hide Packed, BitsOf, Size;
    SizeStep(n, w, |deltas|);
    ghost var before := bits[..];
    SetField(bits, start, w, d);
    NextField(before, bits[..], deltas, w, n);
  }

  /** The fields and labels of the slots after the first. */
  method PackSlots(edges: array<Rec>, count: nat, w: nat) returns (bits: array<bool>, labels: array<nat>)
    requires 1 <= count <= edges.Length == BLOCK_CAPACITY && Ascending(Dsts(edges[..count]))
    ensures fresh(bits) && fresh(labels) && labels.Length == BLOCK_CAPACITY && bits.Length == Size(count - 1, w)
    ensures bits[..] == Packed(Deltas(Dsts(edges[..count])), w)
    ensures forall k | 0 <= k < BLOCK_CAPACITY :: labels[k] == if 1 <= k < count then edges[k].labelId else 1
  {
    hide *;
    CapacityIs();
    ghost var rs := edges[..count];
    ghost var deltas := Deltas(Dsts(rs));
    NoFields(deltas, w);
    bits := new bool[FieldStart(count - 1, w)](_ => false);
    labels := new nat[BLOCK_CAPACITY](_ => 1);
    ghost var n := 0;
    var i := 1;
    while i < count
      invariant 1 <= i <= count && n == i - 1
      invariant Size(n, w) <= bits.Length && bits[..][..Size(n, w)] == Packed(deltas[..n], w)
      invariant forall k | 0 <= k < BLOCK_CAPACITY :: labels[k] == if 1 <= k < i then edges[k].labelId else 1
    {
      labels[i] := edges[i].labelId;
      DeltaOf(rs, n);
      assert rs[n] == edges[n] && rs[n + 1] == edges[i];
      PackField(bits, deltas, n, w, FieldStart(i - 1, w), edges[i].dst - edges[i - 1].dst);
      i, n := i + 1, n + 1;
    }
    assert deltas[..count - 1] == deltas && bits[..][..bits.Length] == bits[..];
  }

  /** A compact block made from the records: the labels are theirs and 1 for unused slots; the
      destinations can be recovered exactly when none after the first is 1 or they rise by steps of 1. */
  ghost predicate CompactOf(c: Compact, rs: seq<Rec>) {
    && WellSized(c) && c.count == |rs| && c.width <= 64
    && (forall i | 0 <= i < BLOCK_CAPACITY :: c.labels[i] == if i < |rs| then rs[i].labelId else 1)
    && (DecodeDsts(c) == Dsts(rs) <==> (NoInnerOne(Dsts(rs)) || SmallSteps(Dsts(rs))))
  }

  /** Compact a non-empty block. */
  method CompressEdges(edges: array<Rec>, count: nat) returns (c: Compact)
    requires 1 <= count <= edges.Length == BLOCK_CAPACITY && Ascending(Dsts(edges[..count]))
    requires forall i | count <= i < edges.Length :: edges[i].dst == 1
    requires forall i | 0 <= i < count :: edges[i].dst <= U64_MAX
    ensures CompactOf(c, edges[..count])
  {
    hide *;
    var w, stop := ScanWidth(edges, count);
    var bits, labels := PackSlots(edges, count, w);
    labels[0] := edges[0].labelId;
    c := Compact(count, w, edges[0].dst, bits[..], labels[..]);
    CompactIs(c, edges[..count], stop);
  }

  lemma CompactIs(c: Compact, rs: seq<Rec>, stop: nat)
    requires rs != [] && c.count == |rs| <= BLOCK_CAPACITY == |c.labels| && c.first == rs[0].dst
    requires Ascending(Dsts(rs)) && |c.bits| == Size(c.count - 1, c.width) && c.bits == Packed(Deltas(Dsts(rs)), c.width)
    requires Scanned(Dsts(rs), stop, c.width)
    requires forall i | 0 <= i < BLOCK_CAPACITY :: c.labels[i] == if i < |rs| then rs[i].labelId else 1
    ensures CompactOf(c, rs)
  {
    hide Packed, Deltas, WidthFor, StopsAt, Ascending, DecodeDsts, NoInnerOne, SmallSteps, Size;
    LosslessIff(c, Dsts(rs), stop);
  }

  // ----- property columns -----

  function LatestCommitted(vs: seq<Version>): Option<int>
    decreases |vs|
  {
    if vs == [] then None
    else if !IsTxnId(vs[|vs| - 1].ts) then vs[|vs| - 1].val
    else LatestCommitted(vs[..|vs| - 1])
  }

  /** `r` is what the newest committed version holds, or nothing when none is committed. */
  ghost predicate NewestCommitted(vs: seq<Version>, r: Option<int>) {
    && (forall i | 0 <= i < |vs| && Tops(vs, i) :: r == vs[i].val)
    && ((forall i | 0 <= i < |vs| :: IsTxnId(vs[i].ts)) ==> r == None)
  }

  /** Version `i` is committed and none above it is. */
  ghost predicate Tops(vs: seq<Version>, i: nat)
    requires i < |vs|
  {
    !IsTxnId(vs[i].ts) && forall j | i < j < |vs| :: IsTxnId(vs[j].ts)
  }

  lemma {:induction false} LatestIsNewest(vs: seq<Version>)
    ensures NewestCommitted(vs, LatestCommitted(vs))
    decreases |vs|
  {
    if vs != [] {
      var n := |vs| - 1;
      LatestIsNewest(vs[..n]);
      forall i: nat | i < |vs| && Tops(vs, i) ensures LatestCommitted(vs) == vs[i].val {
        if i < n { assert Tops(vs[..n], i); }
      }
    }
  }

  const GROUP: nat := 16

  datatype CompactColumn = CompactColumn(bitmap: seq<bool>, counts: seq<nat>, values: seq<int>)

  function Total(counts: seq<nat>): nat
    decreases |counts|
  {
    if counts == [] then 0 else Total(counts[..|counts| - 1]) + counts[|counts| - 1]
  }

  /** A slot's value: the counts of the groups before its own, plus the set bits before it in its group. */
  function Lookup(c: CompactColumn, slot: nat): Option<int>
    requires slot < |c.bitmap| && slot / GROUP <= |c.counts|
  {
    if !c.bitmap[slot] then None
    else
      var rank := Total(c.counts[..slot / GROUP]) + Ones(c.bitmap[slot / GROUP * GROUP..slot]);
      if rank < |c.values| then Some(c.values[rank]) else None
  }

  ghost predicate Counted(bitmap: seq<bool>, counts: seq<nat>, n: nat) {
    n <= |counts| && n * GROUP <= |bitmap| && forall g | 0 <= g < n :: counts[g] == Ones(bitmap[g * GROUP..g * GROUP + GROUP])
  }

  lemma {:induction false} TotalIsOnes(bitmap: seq<bool>, counts: seq<nat>, n: nat)
    requires Counted(bitmap, counts, n)
    ensures Total(counts[..n]) == Ones(bitmap[..n * GROUP])
    decreases n
  {
    if n > 0 {
      TotalIsOnes(bitmap, counts, n - 1);
      assert counts[..n][..n - 1] == counts[..n - 1];
      var lo := (n - 1) * GROUP;
      assert bitmap[..n * GROUP] == bitmap[..lo] + bitmap[lo..lo + GROUP];
      OnesSplit(bitmap[..lo], bitmap[lo..lo + GROUP]);
    }
  }

  /** The rank used by a lookup is the number of set bits before the slot. */
  lemma RankIsOnes(bitmap: seq<bool>, counts: seq<nat>, slot: nat)
    requires slot < |bitmap| && Counted(bitmap, counts, slot / GROUP)
    ensures Total(counts[..slot / GROUP]) + Ones(bitmap[slot / GROUP * GROUP..slot]) == Ones(bitmap[..slot])
  {
    var lo := slot / GROUP * GROUP;
    TotalIsOnes(bitmap, counts, slot / GROUP);
    assert bitmap[..slot] == bitmap[..lo] + bitmap[lo..slot];
    OnesSplit(bitmap[..lo], bitmap[lo..slot]);
  }

  /** The first `n` slots are recorded: a bit and a value for each that has one. */
  ghost predicate Recorded(lists: seq<seq<Version>>, bitmap: seq<bool>, values: seq<int>, n: nat) {
    && n <= |lists| && n <= |bitmap| && |values| == Ones(bitmap[..n])
    && forall i | 0 <= i < n ::
         && bitmap[i] == LatestCommitted(lists[i]).Some?
         && (bitmap[i] ==> Ones(bitmap[..i]) < |values| && values[Ones(bitmap[..i])] == LatestCommitted(lists[i]).value)
  }

  lemma RecordMore(lists: seq<seq<Version>>, bitmap: seq<bool>, bitmap': seq<bool>, values: seq<int>, n: nat)
    requires Recorded(lists, bitmap, values, n) && n < |lists| && n < |bitmap|
    requires bitmap' == bitmap[n := LatestCommitted(lists[n]).Some?]
    ensures var v := LatestCommitted(lists[n]);
            Recorded(lists, bitmap', if v.Some? then values + [v.value] else values, n + 1)
  {
    assert bitmap'[..n + 1][..n] == bitmap[..n];
    forall i | 0 <= i <= n ensures bitmap'[..i] == bitmap[..i] { }
  }

  lemma LookupFinds(lists: seq<seq<Version>>, c: CompactColumn)
    requires |lists| == |c.bitmap| == |c.counts| * GROUP
    requires Recorded(lists, c.bitmap, c.values, |lists|) && Counted(c.bitmap, c.counts, |c.counts|)
    ensures forall slot | 0 <= slot < |lists| :: Lookup(c, slot) == LatestCommitted(lists[slot])
    ensures forall slot | 0 <= slot < |lists| && c.bitmap[slot] ::
              Ones(c.bitmap[..slot]) < |c.values| && Lookup(c, slot) == Some(c.values[Ones(c.bitmap[..slot])])
    ensures forall slot | 0 <= slot < |lists| && !c.bitmap[slot] :: Lookup(c, slot) == None
    ensures forall g | 0 <= g < |c.counts| :: c.counts[g] == Ones(c.bitmap[g * GROUP..g * GROUP + GROUP])
    ensures Total(c.counts) == |c.values|
  {
    forall slot | 0 <= slot < |lists| ensures Lookup(c, slot) == LatestCommitted(lists[slot]) {
      assert Counted(c.bitmap, c.counts, slot / GROUP);
      RankIsOnes(c.bitmap, c.counts, slot);
    }
    TotalIsOnes(c.bitmap, c.counts, |c.counts|);
    assert c.counts[..|c.counts|] == c.counts && c.bitmap[..|lists|] == c.bitmap;
  }

  lemma CountMore(bitmap: seq<bool>, counts: seq<nat>, g: nat)
    requires Counted(bitmap, counts, g) && |counts| == g && (g + 1) * GROUP <= |bitmap|
    ensures var ones := Ones(bitmap[g * GROUP..g * GROUP + GROUP]);
            ones <= GROUP && Counted(bitmap, counts + [ones], g + 1)
  {
  }

  lemma NoneYet(lists: seq<seq<Version>>, bitmap: seq<bool>)
    ensures Recorded(lists, bitmap, [], 0) && Counted(bitmap, [], 0)
  {
  }

  /** Compact one property block. Looking any slot up gives its newest committed value, or nothing when
      it has none; the counts add up to the number of stored values and each fits a byte. */
  method CompressColumn(lists: array<seq<Version>>) returns (c: CompactColumn)
    requires lists.Length == BLOCK_CAPACITY
    ensures |c.bitmap| == BLOCK_CAPACITY && |c.counts| == BLOCK_CAPACITY / GROUP
    ensures forall slot | 0 <= slot < BLOCK_CAPACITY :: NewestCommitted(lists[slot], Lookup(c, slot))
    ensures forall slot | 0 <= slot < BLOCK_CAPACITY && c.bitmap[slot] ::
              Ones(c.bitmap[..slot]) < |c.values| && Lookup(c, slot) == Some(c.values[Ones(c.bitmap[..slot])])
    ensures forall slot | 0 <= slot < BLOCK_CAPACITY && !c.bitmap[slot] :: Lookup(c, slot) == None
    ensures forall g | 0 <= g < |c.counts| :: c.counts[g] == Ones(c.bitmap[g * GROUP..g * GROUP + GROUP])
    ensures Total(c.counts) == |c.values| && forall g | 0 <= g < |c.counts| :: c.counts[g] <= 255
  {
    hide Recorded, Counted, LatestCommitted, NewestCommitted, Ones, Lookup, Total;
    var bitmap := new bool[BLOCK_CAPACITY](_ => false);
    var values: seq<int> := [];
    NoneYet(lists[..], bitmap[..]);
    var i := 0;
    while i < lists.Length
      invariant 0 <= i <= lists.Length
      invariant Recorded(lists[..], bitmap[..], values, i)
    {
      ghost var was := bitmap[..];
      ghost var had := values;
      var v := LatestCommitted(lists[i]);
      if v.Some? {
        bitmap[i] := true;
        values := values + [v.value];
      } else {
        bitmap[i] := false;
      }
      RecordMore(lists[..], was, bitmap[..], had, i);
      i := i + 1;
    }
    var counts: seq<nat> := [];
    NoneYet(lists[..], bitmap[..]);
    ghost var marked := bitmap[..];
    var g := 0;
    while g < BLOCK_CAPACITY / GROUP
      invariant 0 <= g <= BLOCK_CAPACITY / GROUP && |counts| == g
      invariant bitmap[..] == marked && Counted(marked, counts, g) && forall k | 0 <= k < g :: counts[k] <= GROUP
    {
      CountMore(bitmap[..], counts, g);
      var ones := Ones(bitmap[..][g * GROUP..g * GROUP + GROUP]);
      counts := counts + [ones];
      g := g + 1;
    }
    c := CompactColumn(bitmap[..], counts, values);
    LookupFinds(lists[..], c);
    forall slot | 0 <= slot < BLOCK_CAPACITY ensures NewestCommitted(lists[slot], Lookup(c, slot)) {
      LatestIsNewest(lists[slot]);
    }
  }
}
