/**
  Filtered data chunks and list columns: compacting applies the filter to every column, and a list
  column is filtered as one flat array whose offsets are then rebuilt.
 */
module DataChunks {
  import opened Counting

  /** The values whose mask bit is set: what the filter kernel returns. */
  function Keep<T>(vs: seq<T>, mask: seq<bool>): (r: seq<T>)
    requires |vs| == |mask|
    decreases |vs|
  {
    if vs == [] then []
    else
      var n := |vs| - 1;
      Keep(vs[..n], mask[..n]) + (if mask[n] then [vs[n]] else [])
  }

  lemma {:induction false} KeepLength<T>(vs: seq<T>, mask: seq<bool>)
    requires |vs| == |mask|
    ensures |Keep(vs, mask)| == Ones(mask)
    decreases |vs|
  {
    if vs != [] { KeepLength(vs[..|vs| - 1], mask[..|mask| - 1]); }
  }

  lemma {:induction false} KeepConcat<T>(a: seq<T>, b: seq<T>, ma: seq<bool>, mb: seq<bool>)
    requires |a| == |ma| && |b| == |mb|
    ensures Keep(a + b, ma + mb) == Keep(a, ma) + Keep(b, mb)
    decreases |b|
  {
    if b == [] {
      assert a + b == a && ma + mb == ma;
    } else {
      var n := |b| - 1;
      assert (a + b)[..|a| + n] == a + b[..n] && (ma + mb)[..|a| + n] == ma + mb[..n];
      KeepConcat(a, b[..n], ma, mb[..n]);
    }
  }

  // ----- chunks -----

  /** Columns of one length, and possibly a filter of that length. */
  datatype DataChunk<T> = DataChunk(cols: seq<seq<T>>, filtered: bool, mask: seq<bool>)

  ghost predicate ChunkOk<T>(c: DataChunk<T>) {
    && c.cols != [] && (forall k | 0 <= k < |c.cols| :: |c.cols[k]| == |c.cols[0]|)
    && (c.filtered ==> |c.mask| == |c.cols[0]|)
  }

  function Cardinality<T>(c: DataChunk<T>): nat
    requires ChunkOk(c)
  {
    if c.filtered then Ones(c.mask) else |c.cols[0]|
  }

  function Compacted<T>(c: DataChunk<T>): DataChunk<T>
    requires ChunkOk(c)
  {
    if c.filtered then
      DataChunk(seq(|c.cols|, k requires 0 <= k < |c.cols| => Keep(c.cols[k], c.mask)), false, c.mask)
    else c
  }

  /** The positions the row iterator visits. */
  function Visited(mask: seq<bool>): (r: seq<nat>)
    ensures |r| == Ones(mask) && forall j | 0 <= j < |r| :: r[j] < |mask| && mask[r[j]]
    decreases |mask|
  {
    if mask == [] then [] else Visited(mask[..|mask| - 1]) + (if mask[|mask| - 1] then [|mask| - 1] else [])
  }

  lemma {:induction false} VisitedAll(mask: seq<bool>, p: nat)
    requires p < |mask|
    ensures p in Visited(mask) <==> mask[p]
    ensures forall i, j | 0 <= i < j < |Visited(mask)| :: Visited(mask)[i] < Visited(mask)[j]
    decreases |mask|
  {
    var n := |mask| - 1;
    if p < n { VisitedAll(mask[..n], p); } else if n > 0 { VisitedAll(mask[..n], 0); }
  }

  lemma {:induction false} KeptAt<T>(vs: seq<T>, mask: seq<bool>, j: nat)
    requires |vs| == |mask| && j < Ones(mask)
    ensures |Keep(vs, mask)| == Ones(mask) && Keep(vs, mask)[j] == vs[Visited(mask)[j]]
    decreases |vs|
  {
    KeepLength(vs, mask);
    var n := |vs| - 1;
    KeepLength(vs[..n], mask[..n]);
    if j < Ones(mask[..n]) { KeptAt(vs[..n], mask[..n], j); }
  }

  /** Compacting keeps the cardinality and the rows: row `j` of the compact chunk, which has no filter, is in
      every column the row the filtered iteration would have visited `j`-th. A chunk without a filter is
      left alone. */
  lemma CompactKeepsRows<T>(c: DataChunk<T>)
    requires ChunkOk(c)
    ensures var r := Compacted(c);
            && ChunkOk(r) && !r.filtered && Cardinality(r) == Cardinality(c) && |r.cols| == |c.cols|
            && if c.filtered then
                 forall k, j | 0 <= k < |c.cols| && 0 <= j < Cardinality(c) :: r.cols[k][j] == c.cols[k][Visited(c.mask)[j]]
               else r == c
  {
    if !c.filtered { return; }
    var r := Compacted(c);
    forall k | 0 <= k < |c.cols| ensures |r.cols[k]| == Ones(c.mask) { KeepLength(c.cols[k], c.mask); }
    forall k, j | 0 <= k < |c.cols| && 0 <= j < Cardinality(c) ensures r.cols[k][j] == c.cols[k][Visited(c.mask)[j]] {
      KeptAt(c.cols[k], c.mask, j);
    }
  }

  // ----- list columns -----

  /** One list per row: list `i` is the values between offsets `i` and `i + 1`. In a sliced column the
      offsets need not start at 0 nor end at the last value. */
  datatype ListColumn<T> = ListColumn(offsets: seq<nat>, values: seq<T>)

  ghost predicate ListOk<T>(c: ListColumn<T>) {
    && c.offsets != [] && c.offsets[|c.offsets| - 1] <= |c.values|
    && (forall i, j | 0 <= i <= j < |c.offsets| :: c.offsets[i] <= c.offsets[j])
  }

  function Segment<T>(vs: seq<T>, offsets: seq<nat>, i: nat): seq<T> {
    if i + 1 < |offsets| && offsets[i] <= offsets[i + 1] <= |vs| then vs[offsets[i]..offsets[i + 1]] else []
  }

  function RowOf<T>(c: ListColumn<T>, i: nat): seq<T> { Segment(c.values, c.offsets, i) }

  /** A prefix of the kept values is what is kept of a prefix. */
  lemma KeepPrefix<T>(vs: seq<T>, mask: seq<bool>, m: nat)
    requires |vs| == |mask| && m <= |vs|
    ensures Ones(mask[..m]) <= |Keep(vs, mask)| == Ones(mask)
    ensures Keep(vs, mask)[..Ones(mask[..m])] == Keep(vs[..m], mask[..m])
    ensures Keep(vs, mask)[Ones(mask[..m])..] == Keep(vs[m..], mask[m..])
  {
    assert vs == vs[..m] + vs[m..] && mask == mask[..m] + mask[m..];
    KeepConcat(vs[..m], vs[m..], mask[..m], mask[m..]);
    KeepLength(vs[..m], mask[..m]);
    KeepLength(vs, mask);
  }

  lemma KeepSegment<T>(vs: seq<T>, mask: seq<bool>, lo: nat, hi: nat)
    requires |vs| == |mask| && lo <= hi <= |vs|
    ensures Ones(mask[..lo]) <= Ones(mask[..hi]) <= |Keep(vs, mask)|
    ensures Keep(vs, mask)[Ones(mask[..lo])..Ones(mask[..hi])] == Keep(vs[lo..hi], mask[lo..hi])
  {
    var p, q := vs[..hi], mask[..hi];
    KeepPrefix(vs, mask, hi);
    assert p[..lo] == vs[..lo] && q[..lo] == mask[..lo] && p[lo..] == vs[lo..hi] && q[lo..] == mask[lo..hi];
    KeepPrefix(p, q, lo);
    var a, b := Ones(mask[..lo]), Ones(mask[..hi]);
    assert Keep(vs, mask)[a..b] == Keep(vs, mask)[..b][a..];
  }

  /** The number of values the filter's rows keep before row `i`. */
  function KeptBefore(filter: ListColumn<bool>, i: nat): nat
    requires i < |filter.offsets|
  {
    var lo, hi := filter.offsets[0], filter.offsets[i];
    if lo <= hi <= |filter.values| then Ones(filter.values[lo..hi]) else 0
  }

  /** The filtered column: the whole flat array filtered, and offsets counted from 0. */
  function ListCompacted<T>(values: seq<T>, filter: ListColumn<bool>): ListColumn<T>
    requires |values| == |filter.values|
  {
    ListColumn(seq(|filter.offsets|, i requires 0 <= i < |filter.offsets| => KeptBefore(filter, i)),
               Keep(values, filter.values))
  }

  /** What the filter's row `i` selects of the flat values it lies over. */
  function KeptRow<T>(vs: seq<T>, filter: ListColumn<bool>, i: nat): seq<T>
    requires |vs| == |filter.values|
  {
    Keep(Segment(vs, filter.offsets, i), RowOf(filter, i))
  }

  /** Filter a list column by a list of booleans for every row. */
  method FactorizedCompact<T>(col: ListColumn<T>, filter: ListColumn<bool>) returns (r: ListColumn<T>)
    requires ListOk(col) && ListOk(filter) && |col.offsets| == |filter.offsets| && |col.values| == |filter.values|
    ensures r == ListCompacted(col.values, filter)
  {
    var values := Keep(col.values, filter.values);
    var offsets: seq<nat> := [0];
    var current := 0;
    var i := 0;
    while i < |filter.offsets| - 1
      invariant 0 <= i <= |filter.offsets| - 1 && |offsets| == i + 1
      invariant forall k | 0 <= k <= i :: offsets[k] == KeptBefore(filter, k)
      invariant current == offsets[i]
    {
      var sub := filter.values[filter.offsets[i]..filter.offsets[i + 1]];
      var lo := filter.offsets[0];
      assert filter.values[lo..filter.offsets[i + 1]] == filter.values[lo..filter.offsets[i]] + sub;
      OnesSplit(filter.values[lo..filter.offsets[i]], sub);
      current := current + Ones(sub);
      offsets := offsets + [current];
      i := i + 1;
    }
    r := ListColumn(offsets, values);
  }

  /** The prefix of the mask up to a row: what comes before the first row, and the rows before. */
  lemma PrefixOnes(filter: ListColumn<bool>, i: nat)
    requires ListOk(filter) && i < |filter.offsets|
    ensures Ones(filter.values[..filter.offsets[i]]) == Ones(filter.values[..filter.offsets[0]]) + KeptBefore(filter, i)
  {
    var lo, hi, mask := filter.offsets[0], filter.offsets[i], filter.values;
    assert mask[..hi] == mask[..lo] + mask[lo..hi];
    OnesSplit(mask[..lo], mask[lo..hi]);
  }

  /** Row `i` of the result and the row it should be are equally long pieces of the kept values; the first
      starts too early by as many values as were kept before the filter's first row. */
  lemma RowsShift<T>(vs: seq<T>, filter: ListColumn<bool>, i: nat)
    requires ListOk(filter) && |vs| == |filter.values| && i + 1 < |filter.offsets|
    ensures var k, skipped := Keep(vs, filter.values), Ones(filter.values[..filter.offsets[0]]);
            var a, b := KeptBefore(filter, i), KeptBefore(filter, i + 1);
            && a <= b && skipped + b <= |k|
            && RowOf(ListCompacted(vs, filter), i) == k[a..b]
            && KeptRow(vs, filter, i) == k[skipped + a..skipped + b]
  {
    PrefixOnes(filter, i);
    PrefixOnes(filter, i + 1);
    assert filter.offsets[i] <= filter.offsets[i + 1] <= |vs|;
    hide Keep, Ones, KeptBefore;
    KeepSegment(vs, filter.values, filter.offsets[i], filter.offsets[i + 1]);
  }

  /** Every row of the result is the row filtered. */
  ghost predicate RowsKept<T>(vs: seq<T>, filter: ListColumn<bool>)
    requires |vs| == |filter.values|
  {
    forall i | 0 <= i < |filter.offsets| - 1 :: RowOf(ListCompacted(vs, filter), i) == KeptRow(vs, filter, i)
  }

  function Positions(n: nat): (r: seq<nat>)
    ensures |r| == n && forall i | 0 <= i < n :: r[i] == i
  {
    seq(n, i => i)
  }

  lemma {:induction false} KeepAscends(vs: seq<nat>, mask: seq<bool>)
    requires |vs| == |mask| && forall i, j | 0 <= i < j < |vs| :: vs[i] < vs[j]
    ensures forall i, j | 0 <= i < j < |Keep(vs, mask)| :: Keep(vs, mask)[i] < Keep(vs, mask)[j]
    ensures forall i | 0 <= i < |Keep(vs, mask)| :: Keep(vs, mask)[i] in vs
    decreases |vs|
  {
    if vs != [] {
      var n := |vs| - 1;
      KeepAscends(vs[..n], mask[..n]);
      assert forall x | x in vs[..n] :: x < vs[n];
    }
  }

  lemma {:induction false} SomeRowKeeps(filter: ListColumn<bool>, n: nat) returns (i: nat)
    requires ListOk(filter) && n < |filter.offsets| && KeptBefore(filter, n) > 0
    ensures i + 1 < |filter.offsets| && KeptBefore(filter, i) < KeptBefore(filter, i + 1)
    decreases n
  {
    assert filter.values[filter.offsets[0]..filter.offsets[0]] == [];
    if KeptBefore(filter, n - 1) < KeptBefore(filter, n) {
      i := n - 1;
    } else {
      i := SomeRowKeeps(filter, n - 1);
    }
  }

  lemma ShiftedDiffers(filter: ListColumn<bool>)
    requires ListOk(filter) && Ones(filter.values[..filter.offsets[0]]) > 0
    requires KeptBefore(filter, |filter.offsets| - 1) > 0
    ensures !RowsKept(Positions(|filter.values|), filter)
  {
    var vs := Positions(|filter.values|);
    var i := SomeRowKeeps(filter, |filter.offsets| - 1);
    RowsShift(vs, filter, i);
    KeepAscends(vs, filter.values);
    hide Keep, Ones, KeptBefore, KeptRow, ListCompacted, Positions;
    var k, a := Keep(vs, filter.values), KeptBefore(filter, i);
    assert k[a] < k[Ones(filter.values[..filter.offsets[0]]) + a];
    assert RowOf(ListCompacted(vs, filter), i)[0] == k[a];
    assert KeptRow(vs, filter, i)[0] != k[a];
  }

  lemma UnshiftedKeeps(vs: seq<nat>, filter: ListColumn<bool>)
    requires ListOk(filter) && |vs| == |filter.values|
    requires Ones(filter.values[..filter.offsets[0]]) == 0 || KeptBefore(filter, |filter.offsets| - 1) == 0
    ensures RowsKept(vs, filter)
  {
    hide Keep, Ones, KeptBefore, KeptRow, ListCompacted;
    forall i | 0 <= i < |filter.offsets| - 1 ensures RowOf(ListCompacted(vs, filter), i) == KeptRow(vs, filter, i) {
      RowsShift(vs, filter, i);
      KeptLess(filter, i + 1, |filter.offsets| - 1);
    }
  }

  /** Filtering keeps the rows of every flat array if and only if the filter keeps nothing before its first
      row, or nothing at all in its rows; in particular whenever its offsets start at 0. */
  lemma RowsKeptIff(filter: ListColumn<bool>)
    requires ListOk(filter)
    ensures (forall vs: seq<nat> | |vs| == |filter.values| :: RowsKept(vs, filter)) <==>
              Ones(filter.values[..filter.offsets[0]]) == 0 || KeptBefore(filter, |filter.offsets| - 1) == 0
  {
    if Ones(filter.values[..filter.offsets[0]]) == 0 || KeptBefore(filter, |filter.offsets| - 1) == 0 {
      forall vs: seq<nat> | |vs| == |filter.values| ensures RowsKept(vs, filter) { UnshiftedKeeps(vs, filter); }
    } else {
      hide Ones, KeptBefore, RowsKept;
      ShiftedDiffers(filter);
    }
  }

  lemma KeptLess(filter: ListColumn<bool>, i: nat, j: nat)
    requires ListOk(filter) && i <= j < |filter.offsets|
    ensures KeptBefore(filter, i) <= KeptBefore(filter, j)
  {
    var lo, mid, hi := filter.offsets[0], filter.offsets[i], filter.offsets[j];
    assert filter.values[lo..hi] == filter.values[lo..mid] + filter.values[mid..hi];
    OnesSplit(filter.values[lo..mid], filter.values[mid..hi]);
  }

  /** When the column has the filter's offsets, a kept row is the row filtered. */
  lemma RowsAreFiltered<T>(col: ListColumn<T>, filter: ListColumn<bool>, i: nat)
    requires ListOk(filter) && col.offsets == filter.offsets && |col.values| == |filter.values|
    requires Ones(filter.values[..filter.offsets[0]]) == 0 && i + 1 < |filter.offsets|
    ensures |RowOf(col, i)| == |RowOf(filter, i)|
    ensures RowOf(ListCompacted(col.values, filter), i) == Keep(RowOf(col, i), RowOf(filter, i))
  {
    RowsShift(col.values, filter, i);
  }

  lemma {:induction false} KeepAll<T>(vs: seq<T>, mask: seq<bool>)
    requires |vs| == |mask| && forall i | 0 <= i < |mask| :: mask[i]
    ensures Keep(vs, mask) == vs && Ones(mask) == |mask|
    decreases |vs|
  {
    if vs != [] {
      KeepAll(vs[..|vs| - 1], mask[..|vs| - 1]);
      assert vs == vs[..|vs| - 1] + [vs[|vs| - 1]];
    }
  }

  /** The second row of two, as a slice, with a filter that keeps everything: the row that comes out is the
      first. */
  lemma SlicedColumnLosesRow()
    ensures var filter := ListColumn([1, 2], [true, true]);
            ListOk(filter) && KeptRow([7, 8], filter, 0) == [8] && RowOf(ListCompacted([7, 8], filter), 0) == [7]
  {
  }
}
