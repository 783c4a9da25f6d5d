/**
  Block discipline: over any run of creations, property writes, commits and creation rollbacks, the
  slots of every block stay sorted, and each vertex's blocks are chained newest first.
 */
module OlapDiscipline {
  import opened Wrap
  import opened Stamps
  import opened OlapStore
  import opened OlapIndex
  import opened OlapAbort
  import opened OlapBlock

  // ----- sorted slots -----

  lemma InsertSorted(live: seq<Slot>, pos: nat, x: Slot)
    requires Sorted(live) && Splits(live, pos, x.dst, x.labelId)
    ensures Sorted(InsertAt(live, pos, x)) && multiset(InsertAt(live, pos, x)) == multiset(live) + multiset{x}
  {
    InsertGrows(live, pos, x);
    assert live == live[..pos] + live[pos..];
    var now := InsertAt(live, pos, x);
    forall i, j | 0 <= i < j < |now| ensures !Before(now[j].dst, now[j].labelId, now[i].dst, now[i].labelId) {
      var a, b := if i < pos then i else i - 1, if j < pos then j else j - 1;
      if i == pos { assert now[j] == live[b]; }
      else if j == pos { assert now[i] == live[a]; }
      else { assert now[i] == live[a] && now[j] == live[b]; }
    }
  }

  lemma RemoveSorted(live: seq<Slot>, o: nat)
    requires Sorted(live) && o < |live|
    ensures Sorted(RemoveAt(live, o)) && multiset(RemoveAt(live, o)) == multiset(live) - multiset{live[o]}
  {
    RemoveShrinks(live, o);
    assert live == live[..o] + [live[o]] + live[o + 1..];
    var now := RemoveAt(live, o);
    forall i, j | 0 <= i < j < |now| ensures !Before(now[j].dst, now[j].labelId, now[i].dst, now[i].labelId) {
      assert now[i] == live[if i < o then i else i + 1] && now[j] == live[if j < o then j else j + 1];
    }
  }

  // ----- chained blocks -----

  /** The newest block of `v` among the first `n`. */
  function LastBlock(blocks: seq<Block>, v: nat, n: nat): (r: Option<nat>)
    requires n <= |blocks|
    ensures r.Some? ==> r.value < n && blocks[r.value].src == v && forall b | r.value < b < n :: blocks[b].src != v
    ensures r.None? ==> forall b | 0 <= b < n :: blocks[b].src != v
  {
    if n == 0 then None else if blocks[n - 1].src == v then Some(n - 1) else LastBlock(blocks, v, n - 1)
  }

  /** Each block points at its vertex's block before it; each vertex at its newest block. */
  ghost predicate Linked(s: Store) { PreLinked(s.blocks) && HeadsLinked(s.heads, s.blocks) }

  ghost predicate PreLinked(bs: seq<Block>) {
    forall b | 0 <= b < |bs| :: bs[b].pre == LastBlock(bs, bs[b].src, b)
  }

  ghost predicate HeadsLinked(heads: map<nat, Option<nat>>, bs: seq<Block>) {
    forall v | v in heads :: heads[v] == LastBlock(bs, v, |bs|)
  }

  /** The blocks a reader meets walking back from `b`. */
  function Chain(s: Store, b: Option<nat>): seq<nat>
    requires Linked(s) && (b.Some? ==> b.value < |s.blocks|)
    decreases if b.Some? then b.value + 1 else 0
  {
    if b.None? then [] else [b.value] + Chain(s, s.blocks[b.value].pre)
  }

  ghost predicate Descending(c: seq<nat>) { forall i, j | 0 <= i < j < |c| :: c[i] > c[j] }

  /** `c` names exactly the blocks of `v` among the first `n`. */
  ghost predicate Meets(blocks: seq<Block>, v: nat, n: nat, c: seq<nat>) {
    forall b: nat :: b in c <==> b < n && b < |blocks| && blocks[b].src == v
  }

  lemma ConsMeets(blocks: seq<Block>, v: nat, n: nat, h: nat, rest: seq<nat>)
    requires h < n <= |blocks| && blocks[h].src == v && (forall b | h < b < n :: blocks[b].src != v)
    requires Meets(blocks, v, h, rest) && Descending(rest)
    ensures Meets(blocks, v, n, [h] + rest) && Descending([h] + rest)
  {
    forall j | 0 <= j < |rest| ensures rest[j] < h { assert rest[j] in rest; }
  }

  lemma {:induction false} ChainMeets(s: Store, v: nat, n: nat)
    requires Linked(s) && n <= |s.blocks|
    ensures Descending(Chain(s, LastBlock(s.blocks, v, n))) && Meets(s.blocks, v, n, Chain(s, LastBlock(s.blocks, v, n)))
    decreases n
  {
    var h := LastBlock(s.blocks, v, n);
    hide LastBlock, Meets, Descending;
    if h.Some? {
      assert s.blocks[h.value].pre == LastBlock(s.blocks, v, h.value);
      ChainMeets(s, v, h.value);
      hide Linked;
      ConsMeets(s.blocks, v, n, h.value, Chain(s, s.blocks[h.value].pre));
    } else {
      NoneMeet(s.blocks, v, n);
    }
  }

  lemma NoneMeet(blocks: seq<Block>, v: nat, n: nat)
    requires n <= |blocks| && forall b | 0 <= b < n :: blocks[b].src != v
    ensures Meets(blocks, v, n, []) && Descending([])
  {
  }

  lemma {:induction false} LastBlockSame(p: seq<Block>, q: seq<Block>, v: nat, n: nat)
    requires n <= |p| && n <= |q| && forall b | 0 <= b < n :: p[b].src == q[b].src
    ensures LastBlock(p, v, n) == LastBlock(q, v, n)
    decreases n
  {
    if n > 0 { LastBlockSame(p, q, v, n - 1); }
  }

  lemma LinkedSame(s: Store, s': Store)
    requires Linked(s) && |s'.blocks| == |s.blocks| && s'.heads == s.heads
    requires forall b | 0 <= b < |s.blocks| :: s'.blocks[b].src == s.blocks[b].src && s'.blocks[b].pre == s.blocks[b].pre
    ensures Linked(s')
  {
    forall b | 0 <= b < |s'.blocks| ensures s'.blocks[b].pre == LastBlock(s'.blocks, s'.blocks[b].src, b) {
      LastBlockSame(s.blocks, s'.blocks, s.blocks[b].src, b);
    }
    forall v | v in s'.heads ensures s'.heads[v] == LastBlock(s'.blocks, v, |s'.blocks|) {
      LastBlockSame(s.blocks, s'.blocks, v, |s.blocks|);
    }
  }

  lemma AppendPre(bs: seq<Block>, blk: Block)
    requires PreLinked(bs) && blk.pre == LastBlock(bs, blk.src, |bs|)
    ensures PreLinked(bs + [blk])
  {
    hide LastBlock;
    var cs := bs + [blk];
    forall b | 0 <= b < |cs| ensures cs[b].pre == LastBlock(cs, cs[b].src, b) {
      LastBlockSame(bs, cs, cs[b].src, b);
    }
  }

  lemma AppendHeads(heads: map<nat, Option<nat>>, bs: seq<Block>, blk: Block)
    requires HeadsLinked(heads, bs)
    ensures HeadsLinked(heads[blk.src := Some(|bs|)], bs + [blk])
  {
    hide LastBlock;
    var cs, hs := bs + [blk], heads[blk.src := Some(|bs|)];
    forall v | v in hs ensures hs[v] == LastBlock(cs, v, |cs|) {
      LastBlockSame(bs, cs, v, |bs|);
      LastStep(cs, v, |bs|);
    }
  }

  lemma LastStep(blocks: seq<Block>, v: nat, n: nat)
    requires n < |blocks|
    ensures LastBlock(blocks, v, n + 1) == if blocks[n].src == v then Some(n) else LastBlock(blocks, v, n)
  {
  }

  lemma NewestIs(heads: map<nat, Option<nat>>, bs: seq<Block>, v: nat)
    requires HeadsLinked(heads, bs) && v in heads
    ensures heads[v] == LastBlock(bs, v, |bs|)
  {
  }

  lemma RoomLinked(s: Store, src: nat, ts: nat)
    requires Linked(s) && src in s.heads
    ensures Linked(WithRoom(s, src, ts))
  {
    hide PreLinked, HeadsLinked, LastBlock;
    if WithRoom(s, src, ts) != s {
      var blk := Block(src, s.heads[src], false, if IsTxnId(ts) then ts else MAX_COMMIT_TS, [], []);
      NewestIs(s.heads, s.blocks, src);
      AppendPre(s.blocks, blk);
      AppendHeads(s.heads, s.blocks, blk);
    }
  }

  // ----- runs -----

  ghost predicate AllSorted(s: Store) { forall b | 0 <= b < |s.blocks| :: Sorted(s.blocks[b].live) }

  /** Events without transactional deletion, each insertion at a position the search may return. */
  ghost predicate Orderly(s: Store, ev: Event) {
    match ev
    case Insert(src, lb, dst, ts, _, pos) =>
      CanCreate(s, src, ts, pos) ==>
        var s1 := WithRoom(s, src, ts);
        Splits(s1.blocks[s1.heads[src].value].live, pos, dst, lb)
    case Erase(_, _) => false
    case Back(_, u, _) => !u.WasDeleted?
    case _ => true
  }

  ghost predicate AllOrderly(s: Store, evs: seq<Event>)
    decreases |evs|
  {
    evs == [] || (Orderly(s, evs[0]) && AllOrderly(Apply(s, evs[0]), evs[1..]))
  }

  lemma SortedSame(l: seq<Slot>, m: seq<Slot>)
    requires Sorted(l) && |l| == |m| && forall i | 0 <= i < |l| :: m[i].dst == l[i].dst && m[i].labelId == l[i].labelId
    ensures Sorted(m)
  {
  }

  /** One block's slots changed. */
  lemma OneSorted(s: Store, s': Store, b: nat)
    requires AllSorted(s) && Linked(s) && b < |s.blocks| == |s'.blocks| && s'.heads == s.heads && Sorted(s'.blocks[b].live)
    requires forall k | 0 <= k < |s.blocks| && k != b :: s'.blocks[k] == s.blocks[k]
    requires s'.blocks[b].src == s.blocks[b].src && s'.blocks[b].pre == s.blocks[b].pre
    ensures AllSorted(s') && Linked(s')
  {
    hide Sorted, LastBlock;
    LinkedSame(s, s');
  }

  lemma PlacedSorted(s: Store, b: nat, pos: nat, lb: nat, dst: nat, ts: nat, vals: seq<Option<int>>)
    requires AllSorted(s) && Linked(s) && b < |s.blocks| && Splits(s.blocks[b].live, pos, dst, lb)
    ensures AllSorted(Placed(s, b, pos, lb, dst, ts, vals)) && Linked(Placed(s, b, pos, lb, dst, ts, vals))
  {
    hide Reindex, Sorted, InsertAt, Linked, PushedLists;
    InsertSorted(s.blocks[b].live, pos, Slot(s.nextEid, lb, dst, ts, PushedLists(s.blocks[b], pos, ts, vals)));
    OneSorted(s, Placed(s, b, pos, lb, dst, ts, vals), b);
  }

  lemma DroppedSorted(s: Store, l: Loc, tomb: bool)
    requires AllSorted(s) && Linked(s) && l.b < |s.blocks| && l.o < |s.blocks[l.b].live|
    ensures AllSorted(Dropped(s, l, tomb)) && Linked(Dropped(s, l, tomb))
  {
    hide Reindex, Sorted, RemoveAt, Linked;
    RemoveSorted(s.blocks[l.b].live, l.o);
    OneSorted(s, Dropped(s, l, tomb), l.b);
  }

  lemma PutSorted(s: Store, l: Loc, x: Slot, s': Store)
    requires AllSorted(s) && Linked(s) && l.b < |s.blocks| == |s'.blocks| && l.o < |s.blocks[l.b].live|
    requires x.dst == SlotAt(s, l).dst && x.labelId == SlotAt(s, l).labelId && s'.heads == s.heads
    requires forall k | 0 <= k < |s.blocks| && k != l.b :: s'.blocks[k] == s.blocks[k]
    requires s'.blocks[l.b].live == s.blocks[l.b].live[l.o := x]
    requires s'.blocks[l.b].src == s.blocks[l.b].src && s'.blocks[l.b].pre == s.blocks[l.b].pre
    ensures AllSorted(s') && Linked(s')
  {
    hide Linked;
    SortedSame(s.blocks[l.b].live, s'.blocks[l.b].live);
    OneSorted(s, s', l.b);
  }

  lemma CreateSorted(s: Store, src: nat, lb: nat, dst: nat, ts: nat, vals: seq<Option<int>>, pos: nat)
    requires AllSorted(s) && Linked(s) && Orderly(s, Insert(src, lb, dst, ts, vals, pos))
    ensures AllSorted(CreateEdge(s, src, lb, dst, ts, vals, pos)) && Linked(CreateEdge(s, src, lb, dst, ts, vals, pos))
  {
    if CanCreate(s, src, ts, pos) {
      CreateIs(s, src, lb, dst, ts, vals, pos);
      RoomLinked(s, src, ts);
      RoomShape(s, src, ts);
      var s1 := WithRoom(s, src, ts);
      assert AllSorted(s1);
      hide AllSorted, Linked, Placed, WithRoom, Splits, CreateEdge;
      PlacedSorted(s1, s1.heads[src].value, pos, lb, dst, ts, vals);
    }
  }

  lemma {:induction false} EventSorted(s: Store, ev: Event)
    requires AllSorted(s) && Linked(s) && Orderly(s, ev)
    ensures AllSorted(Apply(s, ev)) && Linked(Apply(s, ev))
  {
    hide AllSorted, Linked;
    match ev
    case Insert(src, lb, dst, ts, vals, pos) =>
      hide CreateEdge;
      CreateSorted(s, src, lb, dst, ts, vals, pos);
    case Write(t, eid, indices, news) =>
      if CanSet(s, eid, indices, news) {
        var l := Find(s, eid).value;
        PutSorted(s, l, SlotAt(s, l).(ts := t, props := PushProps(SlotAt(s, l).props, indices, news, t)), Apply(s, ev));
      }
    case Take(eid) =>
      hide Dropped;
      if Find(s, eid).Some? { DroppedSorted(s, Find(s, eid).value, |s.blocks[Find(s, eid).value.b].live| == 1); }
    case Back(t, u, snap) => BackSorted(s, t, u, snap);
    case Seal(t, c, u) =>
      if Apply(s, ev) != s {
        var l := Find(s, u.eid).value;
        var x := SlotAt(s, l);
        PutSorted(s, l, x.(ts := c, props := if u.WasDeleted? then x.props else Promote(x.props, t, c)), Apply(s, ev));
      }
  }

  lemma BackSorted(s: Store, t: nat, u: UndoOp, snap: map<nat, (nat, nat)>)
    requires AllSorted(s) && Linked(s) && !u.WasDeleted?
    ensures AllSorted(Undo(s, t, u, snap)) && Linked(Undo(s, t, u, snap))
  {
    hide AllSorted, Linked, Dropped;
    if Find(s, u.eid).Some? {
      var l := Find(s, u.eid).value;
      var x := SlotAt(s, l);
      if u.WasSet? {
        PutSorted(s, l, x.(ts := u.oldTs, props := Retract(x.props, u.indices, t)), Undo(s, t, u, snap));
      } else if x.ts == t {
        DroppedSorted(s, l, false);
      }
    }
  }

  lemma {:induction false} RunSorted(s: Store, evs: seq<Event>)
    requires AllSorted(s) && Linked(s) && AllOrderly(s, evs)
    ensures AllSorted(ApplyAll(s, evs)) && Linked(ApplyAll(s, evs))
    decreases |evs|
  {
    hide AllSorted, Linked, Apply, Orderly;
    if evs != [] {
      EventSorted(s, evs[0]);
      RunSorted(Apply(s, evs[0]), evs[1..]);
    }
  }

  /** From an empty store: every block stays sorted, and walking back from a vertex's newest block
      meets exactly that vertex's blocks, strictly descending. */
  lemma BlockDiscipline(s: Store, evs: seq<Event>, v: nat)
    requires Fresh(s) && (forall k | k in s.heads :: s.heads[k].None?) && AllOrderly(s, evs) && v in ApplyAll(s, evs).heads
    ensures var s' := ApplyAll(s, evs);
            && (forall b | 0 <= b < |s'.blocks| :: Sorted(s'.blocks[b].live))
            && Linked(s') && (s'.heads[v].Some? ==> s'.heads[v].value < |s'.blocks|)
            && var c := Chain(s', s'.heads[v]);
            && Descending(c) && Meets(s'.blocks, v, |s'.blocks|, c)
  {
    var s' := ApplyAll(s, evs);
    assert AllSorted(s) && Linked(s);
    RunSorted(s, evs);
    ChainMeets(s', v, |s'.blocks|);
  }
}
