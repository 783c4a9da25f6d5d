/** The edge-id index agrees with a scan of the live slots, in every reachable state. */
module OlapIndex {
  import opened Wrap
  import opened Stamps
  import opened OlapStore

  ghost predicate LiveAt(s: Store, b: int, o: int) { 0 <= b < |s.blocks| && 0 <= o < |s.blocks[b].live| }

  function EidAt(s: Store, b: nat, o: nat): nat
    requires LiveAt(s, b, o)
  {
    s.blocks[b].live[o].eid
  }

  /** Every live slot is indexed at its own place; ids are positive and below the next one issued. */
  ghost predicate Listed(s: Store) {
    forall b, o | LiveAt(s, b, o) ::
      0 < EidAt(s, b, o) < s.nextEid && EidAt(s, b, o) in s.index && s.index[EidAt(s, b, o)] == Loc(b, o)
  }

  /** Every index entry points at a live slot holding that edge. */
  ghost predicate Backed(s: Store) {
    forall e | e in s.index :: LiveAt(s, s.index[e].b, s.index[e].o) && EidAt(s, s.index[e].b, s.index[e].o) == e
  }

  ghost predicate IndexOk(s: Store) { Listed(s) && Backed(s) && s.nextEid > 0 }

  /** The index is exactly what a scan would find: an entry for an edge iff a live slot holds it. */
  lemma IndexIsScan(s: Store, e: nat, b: nat, o: nat)
    requires IndexOk(s)
    ensures (e in s.index && s.index[e] == Loc(b, o)) <==> (LiveAt(s, b, o) && EidAt(s, b, o) == e)
    ensures Find(s, e) == if e in s.index then Some(s.index[e]) else None
  {
  }

  lemma FoundLive(s: Store, eid: nat)
    requires Find(s, eid).Some?
    ensures var l := Find(s, eid).value; LiveAt(s, l.b, l.o) && EidAt(s, l.b, l.o) == eid && SlotAt(s, l).eid == eid
  {
  }

  ghost predicate Distinct(live: seq<Slot>) {
    forall i, j | 0 <= i < j < |live| :: live[i].eid != live[j].eid
  }

  ghost predicate Grown(live: seq<Slot>, live': seq<Slot>, pos: nat, n: nat) {
    && pos <= |live| && |live'| == |live| + 1 && live'[pos].eid == n
    && (forall i | 0 <= i < |live'| && i != pos :: live'[i] == live[if i < pos then i else i - 1])
  }

  ghost predicate Shrunk(live: seq<Slot>, live': seq<Slot>, o: nat) {
    && o < |live| && |live'| == |live| - 1
    && (forall i | 0 <= i < |live'| :: live'[i] == live[if i < o then i else i + 1])
  }

  lemma InsertGrows(live: seq<Slot>, pos: nat, x: Slot)
    requires pos <= |live|
    ensures Grown(live, InsertAt(live, pos, x), pos, x.eid)
  {
  }

  lemma RemoveShrinks(live: seq<Slot>, o: nat)
    requires o < |live|
    ensures Shrunk(live, RemoveAt(live, o), o)
  {
  }

  ghost predicate Positive(live: seq<Slot>, bound: nat) { forall i | 0 <= i < |live| :: 0 < live[i].eid < bound }

  lemma GrownDistinct(live: seq<Slot>, live': seq<Slot>, pos: nat, n: nat)
    requires Distinct(live) && Positive(live, n) && Grown(live, live', pos, n) && n > 0
    ensures Distinct(live') && Positive(live', n + 1)
  {
  }

  lemma ShrunkDistinct(live: seq<Slot>, live': seq<Slot>, o: nat, bound: nat)
    requires Distinct(live) && Positive(live, bound) && Shrunk(live, live', o)
    ensures Distinct(live') && Positive(live', bound)
    ensures forall i | 0 <= i < |live'| :: live'[i].eid != live[o].eid
  {
  }

  /** One block changed from `live` to `live'`; from `from` on its slots are indexed anew. */
  ghost predicate Reindexed(s: Store, s': Store, b: nat, from: nat) {
    && b < |s.blocks| == |s'.blocks|
    && (forall b' | 0 <= b' < |s.blocks| && b' != b :: s'.blocks[b'].live == s.blocks[b'].live)
    && (forall i | from <= i < |s'.blocks[b].live| ::
          var e := s'.blocks[b].live[i].eid; e in s'.index && s'.index[e] == Loc(b, i))
    && (forall e | e in s.index && e in s'.index && !(s.index[e].b == b && s.index[e].o >= from) :: s'.index[e] == s.index[e])
  }

  lemma LiveIndexed(s: Store, b: nat)
    requires Listed(s) && b < |s.blocks|
    ensures forall i | 0 <= i < |s.blocks[b].live| ::
              var e := s.blocks[b].live[i].eid; e in s.index && s.index[e] == Loc(b, i)
    ensures Distinct(s.blocks[b].live) && Positive(s.blocks[b].live, s.nextEid)
  {
    var live := s.blocks[b].live;
    forall i | 0 <= i < |live|
      ensures 0 < live[i].eid < s.nextEid && live[i].eid in s.index && s.index[live[i].eid] == Loc(b, i)
    {
      assert LiveAt(s, b, i) && EidAt(s, b, i) == live[i].eid;
    }
  }

  ghost predicate HeldFrom(live: seq<Slot>, from: nat, e: nat) {
    exists i | from <= i < |live| :: live[i].eid == e
  }

  lemma {:induction false} ReindexAt(index: map<nat, Loc>, live: seq<Slot>, b: nat, from: nat, bound: nat)
    requires Distinct(live) && from <= |live| && Positive(live, bound)
    ensures var r := Reindex(index, live, b, from);
            && (forall i | from <= i < |live| :: live[i].eid in r && r[live[i].eid] == Loc(b, i))
            && (forall e | e in r :: e in index || HeldFrom(live, from, e))
            && (forall e | e in index :: e in r)
            && (forall e | e in index && r[e] != index[e] :: HeldFrom(live, from, e))
    decreases |live| - from
  {
    if from < |live| {
      ReindexAt(index[live[from].eid := Loc(b, from)], live, b, from + 1, bound);
    }
  }

  /** Reindexing slots that were indexed in this block at `lo` or beyond moves only those. */
  lemma ReindexMoves(index: map<nat, Loc>, live: seq<Slot>, b: nat, from: nat, lo: nat, bound: nat)
    requires Distinct(live) && from <= |live| && Positive(live, bound)
    requires forall i | from <= i < |live| :: live[i].eid in index && index[live[i].eid].b == b && index[live[i].eid].o >= lo
    ensures var q := Reindex(index, live, b, from);
            && q.Keys == index.Keys
            && (forall i | from <= i < |live| :: live[i].eid in q && q[live[i].eid] == Loc(b, i))
            && (forall e | e in index && !(index[e].b == b && index[e].o >= lo) :: q[e] == index[e])
  {
    ReindexAt(index, live, b, from, bound);
    hide Reindex, Distinct, Positive;
    forall e | HeldFrom(live, from, e) ensures e in index && index[e].b == b && index[e].o >= lo {
      var i :| from <= i < |live| && live[i].eid == e;
    }
  }

  /** What inserting a slot does to the index. */
  lemma GrownIndex(index: map<nat, Loc>, live: seq<Slot>, live': seq<Slot>, b: nat, pos: nat, n: nat, r: map<nat, Loc>)
    requires Distinct(live) && Positive(live, n) && n > 0 && Grown(live, live', pos, n)
    requires forall i | 0 <= i < |live| :: live[i].eid in index && index[live[i].eid] == Loc(b, i)
    requires r == Reindex(index, live', b, pos + 1)[n := Loc(b, pos)] && n !in index
    ensures r.Keys == index.Keys + {n}
    ensures forall i | pos <= i < |live'| :: live'[i].eid in r && r[live'[i].eid] == Loc(b, i)
    ensures forall e | e in index && !(index[e].b == b && index[e].o >= pos) :: r[e] == index[e]
  {
    hide *;
    GrownDistinct(live, live', pos, n);
    GrownMembers(index, live, live', b, pos, n);
    ReindexMoves(index, live', b, pos + 1, pos, n + 1);
    GrownResult(index, live', b, pos, n, Reindex(index, live', b, pos + 1), r);
  }

  lemma GrownMembers(index: map<nat, Loc>, live: seq<Slot>, live': seq<Slot>, b: nat, pos: nat, n: nat)
    requires Grown(live, live', pos, n)
    requires forall i | 0 <= i < |live| :: live[i].eid in index && index[live[i].eid] == Loc(b, i)
    ensures pos + 1 <= |live'| && live'[pos].eid == n
    ensures forall i | pos + 1 <= i < |live'| ::
              live'[i].eid in index && index[live'[i].eid].b == b && index[live'[i].eid].o >= pos
  {
  }

  lemma GrownResult(index: map<nat, Loc>, live': seq<Slot>, b: nat, pos: nat, n: nat, q: map<nat, Loc>, r: map<nat, Loc>)
    requires pos < |live'| && live'[pos].eid == n && n !in index && q.Keys == index.Keys && r == q[n := Loc(b, pos)]
    requires Distinct(live')
    requires forall i | pos + 1 <= i < |live'| :: live'[i].eid in q && q[live'[i].eid] == Loc(b, i)
    requires forall e | e in index && !(index[e].b == b && index[e].o >= pos) :: q[e] == index[e]
    ensures r.Keys == index.Keys + {n}
    ensures forall i | pos <= i < |live'| :: live'[i].eid in r && r[live'[i].eid] == Loc(b, i)
    ensures forall e | e in index && !(index[e].b == b && index[e].o >= pos) :: r[e] == index[e]
  {
  }

  lemma ShrunkIndex(index: map<nat, Loc>, live: seq<Slot>, live': seq<Slot>, b: nat, o: nat, bound: nat, r: map<nat, Loc>)
    requires Distinct(live) && Positive(live, bound) && Shrunk(live, live', o)
    requires forall i | 0 <= i < |live| :: live[i].eid in index && index[live[i].eid] == Loc(b, i)
    requires r == Reindex(index, live', b, o) - {live[o].eid}
    ensures r.Keys == index.Keys - {live[o].eid}
    ensures forall i | o <= i < |live'| :: live'[i].eid in r && r[live'[i].eid] == Loc(b, i)
    ensures forall e | e in r && !(index[e].b == b && index[e].o >= o) :: r[e] == index[e]
  {
    ShrunkDistinct(live, live', o, bound);
    forall i | o <= i < |live'|
      ensures live'[i].eid in index && index[live'[i].eid].b == b && index[live'[i].eid].o >= o
    {
      assert live'[i] == live[i + 1];
    }
    hide Reindex, Shrunk, Distinct, Positive;
    ReindexMoves(index, live', b, o, o, bound);
  }

  lemma GrownListed(s: Store, s': Store, b: nat, pos: nat)
    requires IndexOk(s) && Reindexed(s, s', b, pos) && s'.nextEid == s.nextEid + 1
    requires Grown(s.blocks[b].live, s'.blocks[b].live, pos, s.nextEid)
    requires s'.index.Keys == s.index.Keys + {s.nextEid}
    ensures Listed(s')
  {
    forall b', o' | LiveAt(s', b', o')
      ensures 0 < EidAt(s', b', o') < s'.nextEid && EidAt(s', b', o') in s'.index && s'.index[EidAt(s', b', o')] == Loc(b', o')
    {
      if b' == b && o' >= pos {
        if o' > pos { assert LiveAt(s, b, o' - 1) && EidAt(s, b, o' - 1) == EidAt(s', b, o'); }
      } else {
        assert LiveAt(s, b', o') && EidAt(s, b', o') == EidAt(s', b', o');
      }
    }
  }

  lemma GrownBacked(s: Store, s': Store, b: nat, pos: nat)
    requires IndexOk(s) && Reindexed(s, s', b, pos)
    requires Grown(s.blocks[b].live, s'.blocks[b].live, pos, s.nextEid)
    requires s'.index.Keys == s.index.Keys + {s.nextEid}
    ensures Backed(s')
  {
    var live' := s'.blocks[b].live;
    forall e | e in s'.index
      ensures LiveAt(s', s'.index[e].b, s'.index[e].o) && EidAt(s', s'.index[e].b, s'.index[e].o) == e
    {
      if e == s.nextEid {
        assert live'[pos].eid == e;
      } else {
        var l := s.index[e];
        assert LiveAt(s, l.b, l.o) && EidAt(s, l.b, l.o) == e;
        if l.b == b && l.o >= pos { assert live'[l.o + 1].eid == e; }
        else if l.b == b { assert live'[l.o].eid == e; }
      }
    }
  }

  lemma IndexedBelow(s: Store)
    requires IndexOk(s)
    ensures forall e | e in s.index :: 0 < e < s.nextEid
  {
    forall e | e in s.index ensures 0 < e < s.nextEid { assert EidAt(s, s.index[e].b, s.index[e].o) == e; }
  }

  lemma PlacedKeeps(s: Store, b: nat, pos: nat, lb: nat, dst: nat, ts: nat, vals: seq<Option<int>>)
    requires IndexOk(s) && b < |s.blocks| && pos <= |s.blocks[b].live|
    ensures IndexOk(Placed(s, b, pos, lb, dst, ts, vals))
  {
    var s' := Placed(s, b, pos, lb, dst, ts, vals);
    var live, live', n := s.blocks[b].live, s'.blocks[b].live, s.nextEid;
    LiveIndexed(s, b);
    InsertGrows(live, pos, live'[pos]);
    assert live'[pos].eid == n;
    IndexedBelow(s);
    hide Reindex, InsertAt, PushedLists, Grown, Listed, Backed, Distinct, Positive;
    GrownIndex(s.index, live, live', b, pos, n, s'.index);
    GrownListed(s, s', b, pos);
    GrownBacked(s, s', b, pos);
  }

  lemma ShrunkListed(s: Store, s': Store, b: nat, o: nat)
    requires IndexOk(s) && Reindexed(s, s', b, o) && s'.nextEid == s.nextEid
    requires Shrunk(s.blocks[b].live, s'.blocks[b].live, o)
    requires s'.index.Keys == s.index.Keys - {s.blocks[b].live[o].eid}
    ensures Listed(s')
  {
    assert LiveAt(s, b, o) && EidAt(s, b, o) == s.blocks[b].live[o].eid;
    forall b', o' | LiveAt(s', b', o')
      ensures 0 < EidAt(s', b', o') < s'.nextEid && EidAt(s', b', o') in s'.index && s'.index[EidAt(s', b', o')] == Loc(b', o')
    {
      if b' == b && o' >= o {
        assert LiveAt(s, b, o' + 1) && EidAt(s, b, o' + 1) == EidAt(s', b, o');
      } else {
        assert LiveAt(s, b', o') && EidAt(s, b', o') == EidAt(s', b', o');
      }
    }
  }

  lemma ShrunkBacked(s: Store, s': Store, b: nat, o: nat)
    requires IndexOk(s) && Reindexed(s, s', b, o)
    requires Shrunk(s.blocks[b].live, s'.blocks[b].live, o)
    requires s'.index.Keys == s.index.Keys - {s.blocks[b].live[o].eid}
    ensures Backed(s')
  {
    forall e | e in s'.index
      ensures LiveAt(s', s'.index[e].b, s'.index[e].o) && EidAt(s', s'.index[e].b, s'.index[e].o) == e
    {
      var m := s.index[e];
      assert LiveAt(s, m.b, m.o) && EidAt(s, m.b, m.o) == e;
      hide IndexOk, Listed, Backed;
      StillBacked(s, s', b, o, e);
    }
  }

  lemma StillBacked(s: Store, s': Store, b: nat, o: nat, e: nat)
    requires Reindexed(s, s', b, o) && Shrunk(s.blocks[b].live, s'.blocks[b].live, o)
    requires e in s.index && e in s'.index && e != s.blocks[b].live[o].eid
    requires LiveAt(s, s.index[e].b, s.index[e].o) && EidAt(s, s.index[e].b, s.index[e].o) == e
    ensures LiveAt(s', s'.index[e].b, s'.index[e].o) && EidAt(s', s'.index[e].b, s'.index[e].o) == e
  {
    var m, live' := s.index[e], s'.blocks[b].live;
    if m.b == b && m.o > o { assert live'[m.o - 1].eid == e; }
    else if m.b == b { assert live'[m.o].eid == e; }
  }

  lemma DroppedKeeps(s: Store, l: Loc, tomb: bool)
    requires IndexOk(s) && l.b < |s.blocks| && l.o < |s.blocks[l.b].live|
    ensures IndexOk(Dropped(s, l, tomb))
  {
    var s' := Dropped(s, l, tomb);
    var live, live' := s.blocks[l.b].live, s'.blocks[l.b].live;
    LiveIndexed(s, l.b);
    RemoveShrinks(live, l.o);
    hide Reindex, RemoveAt, Shrunk, Listed, Backed, Distinct, Positive;
    ShrunkIndex(s.index, live, live', l.b, l.o, s.nextEid, s'.index);
    ShrunkListed(s, s', l.b, l.o);
    ShrunkBacked(s, s', l.b, l.o);
  }

  /** Rewriting a slot in place without changing its edge id. */
  lemma PutKeeps(s: Store, l: Loc, x: Slot)
    requires IndexOk(s) && l.b < |s.blocks| && l.o < |s.blocks[l.b].live| && x.eid == SlotAt(s, l).eid
    ensures IndexOk(PutSlot(s, l, x))
  {
    SameEids(s, PutSlot(s, l, x));
  }

  lemma SameEids(s: Store, s': Store)
    requires IndexOk(s) && s'.index == s.index && s'.nextEid == s.nextEid
    requires forall b, o :: LiveAt(s', b, o) <==> LiveAt(s, b, o)
    requires forall b, o | LiveAt(s, b, o) :: EidAt(s', b, o) == EidAt(s, b, o)
    ensures IndexOk(s')
  {
  }

  lemma RoomKeeps(s: Store, src: nat, ts: nat)
    requires IndexOk(s) && src in s.heads
    ensures IndexOk(WithRoom(s, src, ts))
  {
    SameEids(s, WithRoom(s, src, ts));
  }

  /** Every operation, transactional or not, including commit and abort steps. */
  datatype Event =
    | Insert(src: nat, labelId: nat, dst: nat, ts: nat, vals: seq<Option<int>>, pos: nat)
    | Write(t: nat, eid: nat, indices: seq<nat>, news: seq<int>)
    | Erase(t: nat, eid: nat)
    | Take(eid: nat)
    | Back(t: nat, u: UndoOp, snap: map<nat, (nat, nat)>)
    | Seal(t: nat, c: nat, u: UndoOp)

  function Apply(s: Store, ev: Event): Store {
    match ev
    case Insert(src, lb, dst, ts, vals, pos) => CreateEdge(s, src, lb, dst, ts, vals, pos)
    case Write(t, eid, indices, news) => SetProps(s, t, eid, indices, news)
    case Erase(t, eid) => Delete(s, t, eid)
    case Take(eid) => Remove(s, eid)
    case Back(t, u, snap) => Undo(s, t, u, snap)
    case Seal(t, c, u) => CommitOne(s, t, c, u)
  }

  lemma CreateKeeps(s: Store, src: nat, lb: nat, dst: nat, ts: nat, vals: seq<Option<int>>, pos: nat)
    requires IndexOk(s)
    ensures IndexOk(CreateEdge(s, src, lb, dst, ts, vals, pos))
  {
    hide IndexOk, Placed;
    if CanCreate(s, src, ts, pos) {
      var s1 := WithRoom(s, src, ts);
      assert src in s1.heads;
      RoomKeeps(s, src, ts);
      PlacedKeeps(s1, s1.heads[src].value, pos, lb, dst, ts, vals);
    }
  }

  lemma SetKeeps(s: Store, t: nat, eid: nat, indices: seq<nat>, news: seq<int>)
    requires IndexOk(s)
    ensures IndexOk(SetProps(s, t, eid, indices, news))
  {
  }

  lemma DeleteKeeps(s: Store, t: nat, eid: nat)
    requires IndexOk(s)
    ensures IndexOk(Delete(s, t, eid))
  {
  }

  lemma UndoKeeps(s: Store, t: nat, u: UndoOp, snap: map<nat, (nat, nat)>)
    requires IndexOk(s)
    ensures IndexOk(Undo(s, t, u, snap))
  {
    hide IndexOk, Dropped, PutSlot;
    if Find(s, u.eid).Some? {
      var l := Find(s, u.eid).value;
      var x := SlotAt(s, l);
      match u
      case Created(_) => if x.ts == t { DroppedKeeps(s, l, false); }
      case WasSet(_, indices, oldTs) => PutKeeps(s, l, x.(ts := oldTs, props := Retract(x.props, indices, t)));
      case WasDeleted(eid, oldTs) =>
        PutKeeps(s, l, if eid in snap then x.(ts := oldTs, labelId := snap[eid].0, dst := snap[eid].1) else x.(ts := oldTs));
    }
  }

  lemma SealKeeps(s: Store, t: nat, c: nat, u: UndoOp)
    requires IndexOk(s)
    ensures IndexOk(CommitOne(s, t, c, u))
  {
    SameEids(s, CommitOne(s, t, c, u));
  }

  lemma {:induction false} EventKeeps(s: Store, ev: Event)
    requires IndexOk(s)
    ensures IndexOk(Apply(s, ev))
  {
    hide IndexOk;
    match ev
    case Insert(src, lb, dst, ts, vals, pos) => CreateKeeps(s, src, lb, dst, ts, vals, pos);
    case Write(t, eid, indices, news) => SetKeeps(s, t, eid, indices, news);
    case Erase(t, eid) => DeleteKeeps(s, t, eid);
    case Take(eid) => if Find(s, eid).Some? { DroppedKeeps(s, Find(s, eid).value, |s.blocks[Find(s, eid).value.b].live| == 1); }
    case Back(t, u, snap) => UndoKeeps(s, t, u, snap);
    case Seal(t, c, u) => SealKeeps(s, t, c, u);
  }

  function ApplyAll(s: Store, evs: seq<Event>): Store
    decreases |evs|
  {
    if evs == [] then s else ApplyAll(Apply(s, evs[0]), evs[1..])
  }

  /** A store with vertices and no edges yet; edge ids start at 1. */
  ghost predicate Fresh(s: Store) {
    s.blocks == [] && s.index == map[] && s.nextEid == 1
  }

  lemma {:induction false} RunKeepsIndex(s: Store, evs: seq<Event>)
    requires IndexOk(s)
    ensures IndexOk(ApplyAll(s, evs))
    decreases |evs|
  {
    hide IndexOk, Apply;
    if evs != [] {
      EventKeeps(s, evs[0]);
      RunKeepsIndex(Apply(s, evs[0]), evs[1..]);
    }
  }

  /** Over every interleaving of operations and of commit and abort steps, the index holds an edge at
      a place exactly when the live slot there holds it. */
  lemma IndexOverRuns(s: Store, evs: seq<Event>, e: nat, b: nat, o: nat)
    requires Fresh(s)
    ensures var s' := ApplyAll(s, evs);
            (e in s'.index && s'.index[e] == Loc(b, o)) <==> (LiveAt(s', b, o) && EidAt(s', b, o) == e)
  {
    assert IndexOk(s);
    RunKeepsIndex(s, evs);
    IndexIsScan(ApplyAll(s, evs), e, b, o);
  }
}
