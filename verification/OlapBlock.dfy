/**
  One edge block as the arrays it is stored in: a fixed array of edge records, an array of version
  lists per property column, and the number of slots in use. Inserting and removing shift both.
 */
module OlapBlock {
  import opened Wrap
  import opened Stamps
  import opened OlapStore

  datatype Rec = Rec(eid: nat, labelId: nat, dst: nat, ts: nat)

  datatype Insertion = Insertion(pos: nat, r: Rec, vals: seq<Option<int>>)

  const DEFAULT_REC := Rec(0, TOMBSTONE_LABEL, TOMBSTONE_DST, 0)

  predicate Before(d1: nat, l1: nat, d2: nat, l2: nat) { d1 < d2 || (d1 == d2 && l1 < l2) }

  ghost predicate Sorted(live: seq<Slot>) {
    forall i, j | 0 <= i < j < |live| :: !Before(live[j].dst, live[j].labelId, live[i].dst, live[i].labelId)
  }

  /** `pos` splits the block around the key. */
  ghost predicate Splits(live: seq<Slot>, pos: nat, dst: nat, labelId: nat) {
    && pos <= |live|
    && (forall i | 0 <= i < pos :: !Before(dst, labelId, live[i].dst, live[i].labelId))
    && (forall i | pos <= i < |live| :: !Before(live[i].dst, live[i].labelId, dst, labelId))
  }

  function Bare(r: Rec): Slot { Slot(r.eid, r.labelId, r.dst, r.ts, []) }

  function BareAll(rs: seq<Rec>): (live: seq<Slot>)
    ensures |live| == |rs| && forall i | 0 <= i < |rs| :: live[i] == Bare(rs[i])
  {
    seq(|rs|, i requires 0 <= i < |rs| => Bare(rs[i]))
  }

  class EdgeBlock {
    const columns: nat
    const src: nat
    const pre: Option<nat>
    const edges: array<Rec>
    const values: array2<seq<Version>>
    var count: nat
    var tomb: bool
    var minTs: nat

    /** Unused slots are default and hold no versions, except the first one of a block that was emptied. */
    ghost predicate Valid()
      reads this, edges, values
    {
      && edges.Length == BLOCK_CAPACITY && values.Length0 == columns && values.Length1 == BLOCK_CAPACITY
      && count <= BLOCK_CAPACITY
      && (forall c, i | 0 <= c < columns && count <= i < BLOCK_CAPACITY && !(count == 0 && i == 0) :: values[c, i] == [])
      && (forall i | count <= i < BLOCK_CAPACITY && !(count == 0 && i == 0) :: edges[i] == DEFAULT_REC)
    }

    ghost function Lists(i: nat): (r: seq<seq<Version>>)
      requires values.Length0 == columns && i < values.Length1
      reads this, values
      ensures |r| == columns && forall c | 0 <= c < columns :: r[c] == values[c, i]
    {
      seq(columns, c requires 0 <= c < columns && values.Length0 == columns && i < values.Length1 reads this, values => values[c, i])
    }

    ghost function SlotOf(i: nat): Slot
      requires i < edges.Length && values.Length0 == columns && i < values.Length1
      reads this, edges, values
    {
      Slot(edges[i].eid, edges[i].labelId, edges[i].dst, edges[i].ts, Lists(i))
    }

    /** The slots in use, with their version lists. */
    ghost function Live(): (r: seq<Slot>)
      requires Valid()
      reads this, edges, values
      ensures |r| == count && forall i | 0 <= i < count :: r[i] == SlotOf(i)
    {
      seq(count, i requires Valid() && 0 <= i < count reads this, edges, values => SlotOf(i))
    }

    /** What the block means as a value; with no slot in use the first slot's lists are what is stale. */
    ghost function AsBlock(): Block
      requires Valid()
      reads this, edges, values
    {
      Block(src, pre, tomb, minTs, Live(), if count == 0 then Lists(0) else [])
    }

    constructor (src: nat, pre: Option<nat>, minTs: nat, columns: nat)
      ensures Valid() && fresh(edges) && fresh(values)
      ensures this.src == src && this.pre == pre && this.columns == columns
      ensures AsBlock() == Block(src, pre, false, minTs, [], seq(columns, _ => []))
    {
      this.src, this.pre, this.columns := src, pre, columns;
      this.count, this.tomb, this.minTs := 0, false, minTs;
      this.edges := new Rec[BLOCK_CAPACITY](_ => DEFAULT_REC);
      this.values := new seq<Version>[columns, BLOCK_CAPACITY]((_, _) => []);
    }

    /** Binary search by destination, then label. Without a sorted block it still ends in bounds. */
    method Search(dst: nat, labelId: nat) returns (pos: nat)
      requires Valid()
      ensures pos <= count
      ensures Sorted(Live()) ==> Splits(Live(), pos, dst, labelId)
    {
      var lo, hi := 0, count;
      while lo < hi
        invariant lo <= hi <= count
        invariant Sorted(Live()) ==> forall i | 0 <= i < lo :: Before(Live()[i].dst, Live()[i].labelId, dst, labelId)
        invariant Sorted(Live()) ==> forall i | hi <= i < count :: Before(dst, labelId, Live()[i].dst, Live()[i].labelId)
      {
        var mid := (lo + hi) / 2;
        var r := edges[mid];
        assert Live()[mid] == SlotOf(mid);
        if r.dst == dst && r.labelId == labelId { return mid; }
        if Before(r.dst, r.labelId, dst, labelId) { lo := mid + 1; } else { hi := mid; }
      }
      pos := lo;
    }

    /** Open a gap at `pos` in the records. */
    method ShiftRecordsRight(pos: nat)
      requires edges.Length == BLOCK_CAPACITY && pos <= count < BLOCK_CAPACITY
      modifies edges
      ensures forall i | 0 <= i < edges.Length ::
                edges[i] == if pos < i <= count then old(edges[i - 1]) else old(edges[i])
    {
      var i := count;
      while i > pos
        invariant pos <= i <= count
        invariant forall k | 0 <= k < edges.Length :: edges[k] == if i < k <= count then old(edges[k - 1]) else old(edges[k])
      {
        edges[i] := edges[i - 1];
        i := i - 1;
      }
    }

    /** Open a gap at `pos` in one column, of which the first `n` slots are in use. */
    method ShiftColumnRight(c: nat, pos: nat, n: nat)
      requires values.Length1 == BLOCK_CAPACITY && c < values.Length0 && pos <= n < BLOCK_CAPACITY
      modifies values
      ensures forall k, i | 0 <= k < values.Length0 && 0 <= i < BLOCK_CAPACITY ::
                values[k, i] == if k == c && pos < i <= n then old(values[k, i - 1]) else old(values[k, i])
    {
      var j := n;
      while j > pos
        invariant pos <= j <= n
        invariant forall k, i | 0 <= k < values.Length0 && 0 <= i < BLOCK_CAPACITY ::
                    values[k, i] == if k == c && j < i <= n then old(values[k, i - 1]) else old(values[k, i])
      {
        values[c, j] := values[c, j - 1];
        j := j - 1;
      }
    }

    method ShiftRecordsLeft(o: nat, n: nat)
      requires edges.Length == BLOCK_CAPACITY && o <= n < BLOCK_CAPACITY
      modifies edges
      ensures forall i | 0 <= i < edges.Length ::
                edges[i] == if o <= i < n then old(edges[i + 1]) else old(edges[i])
    {
      var j := o;
      while j < n
        invariant o <= j <= n
        invariant forall k | 0 <= k < edges.Length :: edges[k] == if o <= k < j then old(edges[k + 1]) else old(edges[k])
      {
        edges[j] := edges[j + 1];
        j := j + 1;
      }
    }

    /** Close the gap at `o` in one column that now has `n` slots in use, and clear the slot after them. */
    method ShiftColumnLeft(c: nat, o: nat, n: nat)
      requires values.Length1 == BLOCK_CAPACITY && c < values.Length0 && o <= n < BLOCK_CAPACITY
      modifies values
      ensures forall k, i | 0 <= k < values.Length0 && 0 <= i < BLOCK_CAPACITY ::
                values[k, i] ==
                  if k == c && o <= i < n then old(values[k, i + 1]) else if k == c && i == n then [] else old(values[k, i])
    {
      var j := o;
      while j < n
        invariant o <= j <= n
        invariant forall k, i | 0 <= k < values.Length0 && 0 <= i < BLOCK_CAPACITY ::
                    values[k, i] == if k == c && o <= i < j then old(values[k, i + 1]) else old(values[k, i])
      {
        values[c, j] := values[c, j + 1];
        j := j + 1;
      }
      values[c, n] := [];
    }

    /** Point the index at the records from `from` on. */
    method ReindexFrom(index: map<nat, Loc>, b: nat, from: nat) returns (r: map<nat, Loc>)
      requires edges.Length == BLOCK_CAPACITY && count <= BLOCK_CAPACITY && from <= count
      ensures r == Reindex(index, BareAll(edges[..count]), b, from)
    {
      ghost var live := BareAll(edges[..count]);
      r := index;
      var i := from;
      while i < count
        invariant from <= i <= count
        invariant Reindex(r, live, b, i) == Reindex(index, live, b, from)
      {
        var e := edges[i].eid;
        assert live[i].eid == e;
        if e != 0 { r := r[e := Loc(b, i)]; }
        i := i + 1;
      }
    }

    /** Push each value onto the lists already at `pos`, after opening a gap there. */
    method InsertValues(pos: nat, n: nat, ts: nat, vals: seq<Option<int>>)
      requires values.Length0 == columns == |vals| && values.Length1 == BLOCK_CAPACITY && pos <= n < BLOCK_CAPACITY
      modifies values
      ensures forall k, i | 0 <= k < columns && 0 <= i < BLOCK_CAPACITY ::
                values[k, i] ==
                  if i == pos then old(values[k, pos]) + [Version(ts, vals[k])]
                  else if pos < i <= n then old(values[k, i - 1]) else old(values[k, i])
    {
      var c := 0;
      while c < columns
        invariant 0 <= c <= columns
        invariant forall k, i | c <= k < columns && 0 <= i < BLOCK_CAPACITY :: values[k, i] == old(values[k, i])
        invariant forall k, i | 0 <= k < c && 0 <= i < BLOCK_CAPACITY ::
                    values[k, i] ==
                      if i == pos then old(values[k, pos]) + [Version(ts, vals[k])]
                      else if pos < i <= n then old(values[k, i - 1]) else old(values[k, i])
      {
        ShiftColumnRight(c, pos, n);
        values[c, pos] := values[c, pos] + [Version(ts, vals[c])];
        c := c + 1;
      }
    }

    method RemoveValues(o: nat, n: nat)
      requires values.Length0 == columns && values.Length1 == BLOCK_CAPACITY && o <= n < BLOCK_CAPACITY
      modifies values
      ensures forall k, i | 0 <= k < columns && 0 <= i < BLOCK_CAPACITY ::
                values[k, i] == if o <= i < n then old(values[k, i + 1]) else if i == n then [] else old(values[k, i])
    {
      var c := 0;
      while c < columns
        invariant 0 <= c <= columns
        invariant forall k, i | c <= k < columns && 0 <= i < BLOCK_CAPACITY :: values[k, i] == old(values[k, i])
        invariant forall k, i | 0 <= k < c && 0 <= i < BLOCK_CAPACITY ::
                    values[k, i] == if o <= i < n then old(values[k, i + 1]) else if i == n then [] else old(values[k, i])
      {
        ShiftColumnLeft(c, o, n);
        c := c + 1;
      }
    }

    /** The records with one more at `pos`. */
    twostate predicate RecordsOpened(pos: nat, r: Rec)
      requires old(count) < count <= edges.Length
      reads this, edges
    {
      forall i | 0 <= i < count :: edges[i] == (if i == pos then r else if i > pos then old(edges[i - 1]) else old(edges[i]))
    }

    /** The version lists with one more place at `pos`, each new value on top of the list already there. */
    twostate predicate ValuesOpened(pos: nat, ts: nat, vals: seq<Option<int>>)
      requires |vals| == columns == values.Length0
      requires pos < count <= values.Length1
      reads this, values
    {
      forall k, i | 0 <= k < columns && 0 <= i < count ::
        values[k, i] == (if i == pos then old(values[k, pos]) + [Version(ts, vals[k])]
                         else if i > pos then old(values[k, i - 1]) else old(values[k, i]))
    }

    /** How the arrays changed, slot by slot, is inserting one slot. */
    twostate lemma Inserted(n: Insertion)
      requires old(Valid()) && Valid() && n.pos <= old(count) && count == old(count) + 1 && |n.vals| == columns
      requires RecordsOpened(n.pos, n.r) && ValuesOpened(n.pos, n.r.ts, n.vals)
      ensures Live() ==
                InsertAt(old(Live()), n.pos,
                         Slot(n.r.eid, n.r.labelId, n.r.dst, n.r.ts, PushedLists(old(AsBlock()), n.pos, n.r.ts, n.vals)))
    {
      var Insertion(pos, Rec(eid, labelId, dst, ts), vals) := n;
      var was, blk, below := old(Live()), old(AsBlock()), old(Lists(pos));
      var x := Slot(eid, labelId, dst, ts, PushedLists(blk, pos, ts, vals));
      var now := InsertAt(was, pos, x);
      if pos < old(count) { assert was[pos] == old(SlotOf(pos)); }
      PushedOver(blk, pos, ts, vals, below);
      assert Lists(pos) == x.props;
      forall i | 0 <= i < count && i != pos ensures Live()[i] == now[i] {
        var o := if i > pos then i - 1 else i;
        assert was[o] == old(SlotOf(o)) && Lists(i) == old(Lists(o));
      }
      assert Live() == now;
    }

    /** Insert an edge. The block becomes the specified one, sortedness is kept, and the index follows. */
    method Insert(index: map<nat, Loc>, b: nat, eid: nat, labelId: nat, dst: nat, ts: nat, vals: seq<Option<int>>)
      returns (pos: nat, r: map<nat, Loc>)
      requires Valid() && count < BLOCK_CAPACITY && |vals| == columns
      modifies this`count, this`minTs, edges, values
      ensures Valid() && pos <= old(count)
      ensures old(Sorted(Live())) ==> Splits(old(Live()), pos, dst, labelId)
      ensures AsBlock() == PlacedBlock(old(AsBlock()), pos, eid, labelId, dst, ts, vals)
      ensures r == Reindex(index, Live(), b, pos + 1)[eid := Loc(b, pos)]
    {
      hide Sorted, Splits, Reindex, InsertAt, PushedLists;
      pos := Search(dst, labelId);
      ShiftRecordsRight(pos);
      count := count + 1;
      r := ReindexFrom(index, b, pos + 1);
      ghost var shifted := BareAll(edges[..count]);
      edges[pos] := Rec(eid, labelId, dst, ts);
      r := r[eid := Loc(b, pos)];
      InsertValues(pos, count - 1, ts, vals);
      if IsTxnId(ts) { minTs := Min(minTs, ts); }
      Inserted(Insertion(pos, Rec(eid, labelId, dst, ts), vals));
      ReindexTail(index, shifted, Live(), b, pos + 1);
    }

    /** Take an edge out: the last one leaves the block empty and tombstoned, its record and version
        lists still in place; otherwise both arrays close the gap and clear the freed slot. */
    method Remove(index: map<nat, Loc>, b: nat, eid: nat, o: nat) returns (r: map<nat, Loc>)
      requires Valid() && o < count && edges[o].eid == eid
      modifies this`count, this`tomb, edges, values
      ensures Valid()
      ensures AsBlock() == DroppedBlock(old(AsBlock()), o, old(count) == 1)
      ensures r == Reindex(index, Live(), b, o) - {eid}
    {
      hide Reindex, RemoveAt;
      if count == 1 {
        count := 0;
        tomb := true;
        r := index - {eid};
        EmptiedIndex(index, b, o);
        Emptied();
        return;
      }
      r := CloseGap(index, b, eid, o);
    }

    /** Close the gap in both arrays and clear the freed slot. Undoing a creation does just this: it never
        tombstones the block. */
    method CloseGap(index: map<nat, Loc>, b: nat, eid: nat, o: nat) returns (r: map<nat, Loc>)
      requires Valid() && o < count && edges[o].eid == eid
      modifies this`count, edges, values
      ensures Valid()
      ensures var blk := DroppedBlock(old(AsBlock()), o, false);
              AsBlock() == if count == 0 then blk.(stale := seq(columns, _ => [])) else blk
      ensures r == Reindex(index, Live(), b, o) - {eid}
    {
      hide Reindex, RemoveAt;
      ShiftRecordsLeft(o, count - 1);
      count := count - 1;
      r := ReindexFrom(index, b, o);
      edges[count] := DEFAULT_REC;
      RemoveValues(o, count);
      r := r - {eid};
      Removed(o);
      ReindexTail(index, BareAll(edges[..count]), Live(), b, o);
    }

    twostate lemma Removed(o: nat)
      requires old(Valid()) && Valid() && o < old(count) && count == old(count) - 1
      requires forall i | 0 <= i < count :: edges[i] == if i >= o then old(edges[i + 1]) else old(edges[i])
      requires forall k, i | 0 <= k < columns && 0 <= i < count ::
                 values[k, i] == if i >= o then old(values[k, i + 1]) else old(values[k, i])
      ensures Live() == RemoveAt(old(Live()), o)
    {
      var was := old(Live());
      var now := RemoveAt(was, o);
      forall i | 0 <= i < count ensures Live()[i] == now[i] {
        var k := if i >= o then i + 1 else i;
        assert was[k] == old(SlotOf(k)) && Lists(i) == old(Lists(k));
      }
    }

    twostate lemma Emptied()
      requires old(Valid()) && Valid() && old(count) == 1 && count == 0
      requires forall k | 0 <= k < columns :: values[k, 0] == old(values[k, 0])
      ensures Live() == RemoveAt(old(Live()), 0) && Lists(0) == old(Live())[0].props
    {
      assert old(Live())[0] == old(SlotOf(0));
    }
  }

  /** New lists are the ones at the place, or none, with the new values on top. */
  lemma PushedOver(blk: Block, pos: nat, ts: nat, vals: seq<Option<int>>, below: seq<seq<Version>>)
    requires pos <= |blk.live| && |below| == |vals|
    requires var had := if pos < |blk.live| then blk.live[pos].props else blk.stale;
             forall k | 0 <= k < |below| :: below[k] == if k < |had| then had[k] else []
    ensures forall k | 0 <= k < |vals| :: PushedLists(blk, pos, ts, vals)[k] == below[k] + [Version(ts, vals[k])]
  {
  }

  lemma EmptiedIndex(index: map<nat, Loc>, b: nat, o: nat)
    requires o == 0
    ensures Reindex(index, [], b, o) == index
  {
  }

  /** Reindexing looks at the edge ids from its start on. */
  lemma {:induction false} ReindexTail(index: map<nat, Loc>, l: seq<Slot>, m: seq<Slot>, b: nat, from: nat)
    requires |l| == |m| && from <= |l| && forall i | from <= i < |l| :: l[i].eid == m[i].eid
    ensures Reindex(index, l, b, from) == Reindex(index, m, b, from)
    decreases |l| - from
  {
    if from < |l| {
      var e := l[from].eid;
      ReindexTail(if e != 0 then index[e := Loc(b, from)] else index, l, m, b, from + 1);
    }
  }
}
