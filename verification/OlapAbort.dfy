/**
  Aborting an analytical transaction: after any sequence of its own creations, property writes and
  deletions, undoing newest first restores every edge, the index and every property version list,
  except that an edge deleted more than once comes back with the tombstone's identity.
 */
module OlapAbort {
  import opened Wrap
  import opened Stamps
  import opened OlapStore
  import opened OlapIndex

  // ----- the relation between the store being unwound and the state to restore -----

  function Ident(x: Slot): (nat, nat) { (x.labelId, x.dst) }

  ghost predicate ListsMatch(p: seq<seq<Version>>, q: seq<seq<Version>>, t: nat) {
    |p| == |q| && forall c | 0 <= c < |p| :: Without(p[c], t) == Without(q[c], t)
  }

  /** `x` is `y` up to versions written by `t`; edges in `gone` carry the identity `snap` has for them. */
  ghost predicate SlotRel(x: Slot, y: Slot, t: nat, gone: set<nat>, snap: map<nat, (nat, nat)>) {
    && x.eid == y.eid && x.ts == y.ts && ListsMatch(x.props, y.props, t)
    && Ident(x) == if y.eid in gone && y.eid in snap then snap[y.eid] else Ident(y)
  }

  ghost predicate LiveRel(l: seq<Slot>, m: seq<Slot>, t: nat, gone: set<nat>, snap: map<nat, (nat, nat)>) {
    |l| == |m| && forall i | 0 <= i < |l| :: SlotRel(l[i], m[i], t, gone, snap)
  }

  /** Blocks allocated since stay behind, empty. */
  ghost predicate StoreRel(s: Store, s1: Store, t: nat, gone: set<nat>, snap: map<nat, (nat, nat)>) {
    && |s.blocks| >= |s1.blocks|
    && (forall b | 0 <= b < |s1.blocks| :: LiveRel(s.blocks[b].live, s1.blocks[b].live, t, gone, snap))
    && (forall b | |s1.blocks| <= b < |s.blocks| :: s.blocks[b].live == [])
  }

  // ----- version lists -----

  lemma {:induction false} WithoutAppend(vs: seq<Version>, v: Version, t: nat)
    ensures Without(vs + [v], t) == Without(vs, t) + (if v.ts != t then [v] else [])
  {
    if vs == [] {
      assert [v][1..] == [] && [] + [v] == [v];
    } else {
      assert (vs + [v])[1..] == vs[1..] + [v];
      WithoutAppend(vs[1..], v, t);
    }
  }

  lemma {:induction false} WithoutTwice(vs: seq<Version>, t: nat)
    ensures Without(Without(vs, t), t) == Without(vs, t)
    ensures forall v | v in Without(vs, t) :: v.ts != t
  {
    if vs != [] {
      WithoutTwice(vs[1..], t);
      var w := Without(vs[1..], t);
      if vs[0].ts != t { assert ([vs[0]] + w)[1..] == w; } else { assert [] + w == w; }
    }
  }

  lemma {:induction false} WithoutNone(vs: seq<Version>, t: nat)
    requires forall v | v in vs :: v.ts != t
    ensures Without(vs, t) == vs
  {
    if vs != [] {
      WithoutNone(vs[1..], t);
      assert [vs[0]] + vs[1..] == vs;
    }
  }

  lemma {:induction false} PushMatches(props: seq<seq<Version>>, indices: seq<nat>, news: seq<int>, t: nat)
    ensures ListsMatch(PushProps(props, indices, news, t), props, t)
    decreases |indices|
  {
    if indices != [] && news != [] {
      var v := Version(t, Some(news[0]));
      var p := if indices[0] < |props| then props[indices[0] := props[indices[0]] + [v]] else props;
      PushMatches(p, indices[1..], news[1..], t);
      if indices[0] < |props| { WithoutAppend(props[indices[0]], v, t); }
      assert ListsMatch(p, props, t);
    }
  }

  lemma {:induction false} RetractMatches(props: seq<seq<Version>>, indices: seq<nat>, t: nat)
    ensures ListsMatch(Retract(props, indices, t), props, t)
    decreases |indices|
  {
    if indices != [] {
      var p := if indices[0] < |props| then props[indices[0] := Without(props[indices[0]], t)] else props;
      RetractMatches(p, indices[1..], t);
      if indices[0] < |props| { WithoutTwice(props[indices[0]], t); }
      assert ListsMatch(p, props, t);
    }
  }

  ghost predicate Clear(vs: seq<Version>, t: nat) { forall v | v in vs :: v.ts != t }

  /** Retracting clears the listed columns and dirties none. */
  lemma {:induction false} RetractClears(props: seq<seq<Version>>, indices: seq<nat>, t: nat)
    ensures forall c | 0 <= c < |props| && (c in indices || Clear(props[c], t)) :: Clear(Retract(props, indices, t)[c], t)
    decreases |indices|
  {
    if indices != [] {
      var p := if indices[0] < |props| then props[indices[0] := Without(props[indices[0]], t)] else props;
      if indices[0] < |props| { WithoutTwice(props[indices[0]], t); }
      RetractClears(p, indices[1..], t);
      forall c | 0 <= c < |props| && (c in indices || Clear(props[c], t)) ensures c in indices[1..] || Clear(p[c], t) {
        if c in indices && c !in indices[1..] { assert c == indices[0]; }
      }
    }
  }

  lemma {:induction false} PushDirties(props: seq<seq<Version>>, indices: seq<nat>, news: seq<int>, t: nat)
    ensures forall c | 0 <= c < |props| && c !in indices :: PushProps(props, indices, news, t)[c] == props[c]
    decreases |indices|
  {
    if indices != [] && news != [] {
      var v := Version(t, Some(news[0]));
      var p := if indices[0] < |props| then props[indices[0] := props[indices[0]] + [v]] else props;
      PushDirties(p, indices[1..], news[1..], t);
      forall c | 0 <= c < |props| && c !in indices ensures PushProps(props, indices, news, t)[c] == props[c] {
        assert c !in indices[1..] && c != indices[0];
      }
    }
  }

  lemma ListsTrans(p: seq<seq<Version>>, q: seq<seq<Version>>, r: seq<seq<Version>>, t: nat)
    requires ListsMatch(p, q, t) && ListsMatch(q, r, t)
    ensures ListsMatch(p, r, t)
  {
  }

  // ----- undoing one operation -----

  predicate Succeeds(s: Store, t: nat, op: TxOp) {
    match op
    case TxCreate(src, _, _, _, pos) => CanCreate(s, src, t, pos)
    case TxSet(eid, indices, news) => CanSet(s, eid, indices, news)
    case TxDelete(eid) => CanTouch(s, eid)
  }

  function UndoOf(s: Store, t: nat, op: TxOp): UndoOp
    requires Succeeds(s, t, op)
  {
    match op
    case TxCreate(_, _, _, _, _) => Created(s.nextEid)
    case TxSet(eid, indices, _) => WasSet(eid, indices, SlotAt(s, Find(s, eid).value).ts)
    case TxDelete(eid) => WasDeleted(eid, SlotAt(s, Find(s, eid).value).ts)
  }

  function DeletedIn(us: seq<UndoOp>): set<nat> {
    if us == [] then {} else (if us[0].WasDeleted? then {us[0].eid} else {}) + DeletedIn(us[1..])
  }

  /** In related stores an edge is found at the same place. */
  lemma SamePlace(s: Store, s1: Store, t: nat, gone: set<nat>, snap: map<nat, (nat, nat)>, b: nat, o: nat)
    requires IndexOk(s) && StoreRel(s, s1, t, gone, snap) && LiveAt(s1, b, o)
    ensures LiveAt(s, b, o) && EidAt(s, b, o) == EidAt(s1, b, o)
    ensures Find(s, EidAt(s1, b, o)) == Some(Loc(b, o))
    ensures SlotRel(s.blocks[b].live[o], s1.blocks[b].live[o], t, gone, snap)
  {
    assert LiveRel(s.blocks[b].live, s1.blocks[b].live, t, gone, snap);
    assert SlotRel(s.blocks[b].live[o], s1.blocks[b].live[o], t, gone, snap);
    assert LiveAt(s, b, o);
    IndexIsScan(s, EidAt(s1, b, o), b, o);
  }

  /** Replacing related slots at one place. */
  lemma PutRel(s: Store, s1: Store, s0: Store, t: nat, gone: set<nat>, gone': set<nat>, snap: map<nat, (nat, nat)>,
               l: Loc, x: Slot)
    requires StoreRel(s, s1, t, gone, snap) && LiveAt(s, l.b, l.o) && LiveAt(s0, l.b, l.o)
    requires |s0.blocks| == |s1.blocks|
    requires forall b | 0 <= b < |s0.blocks| :: |s0.blocks[b].live| == |s1.blocks[b].live|
    requires forall b, o | LiveAt(s0, b, o) && !(b == l.b && o == l.o) ::
               && LiveAt(s1, b, o) && s0.blocks[b].live[o] == s1.blocks[b].live[o]
               && (s0.blocks[b].live[o].eid in gone' <==> s0.blocks[b].live[o].eid in gone)
    requires SlotRel(x, s0.blocks[l.b].live[l.o], t, gone', snap)
    ensures StoreRel(PutSlot(s, l, x), s0, t, gone', snap)
  {
    var s' := PutSlot(s, l, x);
    forall b | 0 <= b < |s0.blocks| ensures LiveRel(s'.blocks[b].live, s0.blocks[b].live, t, gone', snap) {
      assert LiveRel(s.blocks[b].live, s1.blocks[b].live, t, gone, snap);
      forall o | 0 <= o < |s'.blocks[b].live|
        ensures SlotRel(s'.blocks[b].live[o], s0.blocks[b].live[o], t, gone', snap)
      {
        assert LiveAt(s0, b, o);
        if !(b == l.b && o == l.o) { assert SlotRel(s.blocks[b].live[o], s1.blocks[b].live[o], t, gone, snap); }
      }
    }
  }

  lemma StepSetShape(s0: Store, t: nat, l: Loc, y: Slot)
    requires LiveAt(s0, l.b, l.o) && y.eid == SlotAt(s0, l).eid
    ensures var s1 := Touch(PutSlot(s0, l, y), l.b, t);
            && |s1.blocks| == |s0.blocks|
            && (forall b | 0 <= b < |s0.blocks| :: |s0.blocks[b].live| == |s1.blocks[b].live|)
            && (forall b, o | LiveAt(s0, b, o) && !(b == l.b && o == l.o) ::
                  LiveAt(s1, b, o) && s0.blocks[b].live[o] == s1.blocks[b].live[o])
            && LiveAt(s1, l.b, l.o) && s1.blocks[l.b].live[l.o] == y
  {
  }

  function Written(x: Slot, t: nat, indices: seq<nat>, news: seq<int>): Slot {
    x.(ts := t, props := PushProps(x.props, indices, news, t))
  }

  /** What a property write and its undo each do to the slot. */
  lemma SetShape(s0: Store, t: nat, eid: nat, indices: seq<nat>, news: seq<int>)
    requires CanSet(s0, eid, indices, news)
    ensures Find(s0, eid).Some? && var l := Find(s0, eid).value;
            && LiveAt(s0, l.b, l.o) && SlotAt(s0, l).eid == eid
            && SetProps(s0, t, eid, indices, news) == Touch(PutSlot(s0, l, Written(SlotAt(s0, l), t, indices, news)), l.b, t)
  {
  }

  lemma UnsetShape(s0: Store, s: Store, t: nat, eid: nat, indices: seq<nat>, news: seq<int>, l: Loc, snap: map<nat, (nat, nat)>)
    requires CanSet(s0, eid, indices, news) && Find(s0, eid) == Some(l) && Find(s, eid) == Some(l)
    ensures LiveAt(s, l.b, l.o)
    ensures var x := SlotAt(s, l).(ts := SlotAt(s0, l).ts, props := Retract(SlotAt(s, l).props, indices, t));
            Undo(s, t, UndoOf(s0, t, TxSet(eid, indices, news)), snap) == PutSlot(s, l, x)
  {
  }

  lemma UnwrittenSlot(z: Slot, x0: Slot, t: nat, indices: seq<nat>, news: seq<int>, gone: set<nat>, snap: map<nat, (nat, nat)>)
    requires SlotRel(z, Written(x0, t, indices, news), t, gone, snap)
    ensures SlotRel(z.(ts := x0.ts, props := Retract(z.props, indices, t)), x0, t, gone, snap)
  {
    var y := Written(x0, t, indices, news);
    hide ListsMatch;
    RetractMatches(z.props, indices, t);
    PushMatches(x0.props, indices, news, t);
    ListsTrans(Retract(z.props, indices, t), z.props, y.props, t);
    ListsTrans(Retract(z.props, indices, t), y.props, x0.props, t);
  }

  lemma UndoSet(s0: Store, s: Store, t: nat, eid: nat, indices: seq<nat>, news: seq<int>,
                gone: set<nat>, snap: map<nat, (nat, nat)>)
    requires IndexOk(s0) && IndexOk(s) && CanSet(s0, eid, indices, news)
    requires StoreRel(s, SetProps(s0, t, eid, indices, news), t, gone, snap)
    ensures StoreRel(Undo(s, t, UndoOf(s0, t, TxSet(eid, indices, news)), snap), s0, t, gone, snap)
  {
    hide StoreRel, IndexOk, SetProps, PutSlot, Touch, Undo, UndoOf, SlotRel, Find, CanSet, Written;
    SetShape(s0, t, eid, indices, news);
    var l, s1 := Find(s0, eid).value, SetProps(s0, t, eid, indices, news);
    var x0 := SlotAt(s0, l);
    WrittenEid(x0, t, indices, news);
    StepSetShape(s0, t, l, Written(x0, t, indices, news));
    SamePlace(s, s1, t, gone, snap, l.b, l.o);
    UnsetShape(s0, s, t, eid, indices, news, l, snap);
    var z := SlotAt(s, l);
    UnwrittenSlot(z, x0, t, indices, news, gone, snap);
    PutRel(s, s1, s0, t, gone, gone, snap, l, z.(ts := x0.ts, props := Retract(z.props, indices, t)));
  }

  lemma WrittenEid(x: Slot, t: nat, indices: seq<nat>, news: seq<int>)
    ensures Written(x, t, indices, news).eid == x.eid
  {
  }

  lemma OnlyThere(s: Store, eid: nat, l: Loc)
    requires IndexOk(s) && Find(s, eid) == Some(l)
    ensures forall b, o | LiveAt(s, b, o) && !(b == l.b && o == l.o) :: s.blocks[b].live[o].eid != eid
  {
    forall b, o | LiveAt(s, b, o) && !(b == l.b && o == l.o) ensures s.blocks[b].live[o].eid != eid {
      IndexIsScan(s, eid, b, o);
    }
  }

  /** What a deletion and its undo each do to the slot. */
  lemma DeleteShape(s0: Store, t: nat, eid: nat)
    requires CanTouch(s0, eid)
    ensures Find(s0, eid).Some? && var l := Find(s0, eid).value;
            && LiveAt(s0, l.b, l.o) && SlotAt(s0, l).eid == eid
            && Delete(s0, t, eid) == Touch(PutSlot(s0, l, Deleted(SlotAt(s0, l), t)), l.b, t)
  {
  }

  function Deleted(x: Slot, t: nat): Slot { x.(labelId := TOMBSTONE_LABEL, dst := TOMBSTONE_DST, ts := t) }

  lemma UndeleteShape(s0: Store, s: Store, t: nat, eid: nat, l: Loc, snap: map<nat, (nat, nat)>)
    requires CanTouch(s0, eid) && Find(s0, eid) == Some(l) && Find(s, eid) == Some(l) && eid in snap
    ensures LiveAt(s, l.b, l.o)
    ensures var x := SlotAt(s, l).(ts := SlotAt(s0, l).ts, labelId := snap[eid].0, dst := snap[eid].1);
            Undo(s, t, UndoOf(s0, t, TxDelete(eid)), snap) == PutSlot(s, l, x)
  {
  }

  lemma BackSlot(z: Slot, x0: Slot, t: nat, gone: set<nat>, snap: map<nat, (nat, nat)>)
    requires SlotRel(z, Deleted(x0, t), t, gone, snap) && x0.eid in snap
    ensures SlotRel(z.(ts := x0.ts, labelId := snap[x0.eid].0, dst := snap[x0.eid].1), x0, t, gone + {x0.eid}, snap)
  {
    hide ListsMatch;
  }

  lemma UndoDelete(s0: Store, s: Store, t: nat, eid: nat, gone: set<nat>, snap: map<nat, (nat, nat)>)
    requires IndexOk(s0) && IndexOk(s) && CanTouch(s0, eid) && eid in snap
    requires StoreRel(s, Delete(s0, t, eid), t, gone, snap)
    ensures StoreRel(Undo(s, t, UndoOf(s0, t, TxDelete(eid)), snap), s0, t, gone + {eid}, snap)
  {
    hide StoreRel, IndexOk, Delete, PutSlot, Touch, Undo, UndoOf, SlotRel, Find, CanTouch;
    DeleteShape(s0, t, eid);
    var l, s1 := Find(s0, eid).value, Delete(s0, t, eid);
    var x0 := SlotAt(s0, l);
    StepSetShape(s0, t, l, Deleted(x0, t));
    SamePlace(s, s1, t, gone, snap, l.b, l.o);
    UndeleteShape(s0, s, t, eid, l, snap);
    var z := SlotAt(s, l);
    BackSlot(z, x0, t, gone, snap);
    OnlyThere(s0, eid, l);
    PutRel(s, s1, s0, t, gone, gone + {eid}, snap, l, z.(ts := x0.ts, labelId := snap[eid].0, dst := snap[eid].1));
  }

  lemma RemoveRel(l: seq<Slot>, m: seq<Slot>, pos: nat, x: Slot, t: nat, gone: set<nat>, snap: map<nat, (nat, nat)>)
    requires pos <= |m| && LiveRel(l, InsertAt(m, pos, x), t, gone, snap)
    ensures LiveRel(RemoveAt(l, pos), m, t, gone, snap)
  {
    var n := InsertAt(m, pos, x);
    InsertedAt(m, pos, x);
    forall i | 0 <= i < |m| ensures SlotRel(RemoveAt(l, pos)[i], m[i], t, gone, snap) {
      if i < pos { assert SlotRel(l[i], n[i], t, gone, snap); }
      else { assert SlotRel(l[i + 1], n[i + 1], t, gone, snap) && n[i + 1] == m[i]; }
    }
  }

  lemma InsertedAt(m: seq<Slot>, pos: nat, x: Slot)
    requires pos <= |m|
    ensures var n := InsertAt(m, pos, x);
            pos < |n| == |m| + 1 && n[pos] == x && (forall i | 0 <= i < pos :: n[i] == m[i]) && (forall i | pos < i < |n| :: n[i] == m[i - 1])
  {
  }

  lemma PlacedShape(s: Store, b: nat, pos: nat, lb: nat, dst: nat, ts: nat, vals: seq<Option<int>>)
    requires b < |s.blocks| && pos <= |s.blocks[b].live|
    ensures var s1 := Placed(s, b, pos, lb, dst, ts, vals);
            && |s1.blocks| == |s.blocks| && (forall k | 0 <= k < |s.blocks| && k != b :: s1.blocks[k] == s.blocks[k])
            && s1.blocks[b].live ==
                 InsertAt(s.blocks[b].live, pos, Slot(s.nextEid, lb, dst, ts, PushedLists(s.blocks[b], pos, ts, vals)))
  {
    hide Reindex, PushedLists, InsertAt;
  }

  lemma RoomShape(s: Store, src: nat, ts: nat)
    requires src in s.heads
    ensures var sr := WithRoom(s, src, ts);
            && sr.nextEid == s.nextEid && |s.blocks| <= |sr.blocks|
            && (forall k | 0 <= k < |s.blocks| :: sr.blocks[k] == s.blocks[k])
            && (forall k | |s.blocks| <= k < |sr.blocks| :: sr.blocks[k].live == [])
  {
  }

  lemma CreateIs(s: Store, src: nat, lb: nat, dst: nat, ts: nat, vals: seq<Option<int>>, pos: nat)
    requires CanCreate(s, src, ts, pos)
    ensures src in s.heads
    ensures var sr := WithRoom(s, src, ts);
            && src in sr.heads && sr.heads[src].Some? && sr.heads[src].value < |sr.blocks|
            && pos <= |sr.blocks[sr.heads[src].value].live|
            && CreateEdge(s, src, lb, dst, ts, vals, pos) == Placed(sr, sr.heads[src].value, pos, lb, dst, ts, vals)
  {
    hide Placed;
  }

  /** The block an edge creation goes to, and the state with that block allocated. */
  lemma CreateShape(s0: Store, t: nat, src: nat, lb: nat, dst: nat, vals: seq<Option<int>>, pos: nat)
    returns (b: nat, m: seq<Slot>, x: Slot)
    requires CanCreate(s0, src, t, pos)
    ensures var s1 := CreateEdge(s0, src, lb, dst, t, vals, pos);
            && b < |s1.blocks| && |s0.blocks| <= |s1.blocks| && x.eid == s0.nextEid && x.ts == t
            && pos <= |m| && s1.blocks[b].live == InsertAt(m, pos, x)
            && (if b < |s0.blocks| then m == s0.blocks[b].live else m == [])
            && (forall b' | 0 <= b' < |s0.blocks| && b' != b :: s1.blocks[b'].live == s0.blocks[b'].live)
            && (forall b' | |s0.blocks| <= b' < |s1.blocks| && b' != b :: s1.blocks[b'].live == [])
  {
    hide *;
    CreateIs(s0, src, lb, dst, t, vals, pos);
    var sr := WithRoom(s0, src, t);
    b := sr.heads[src].value;
    m := sr.blocks[b].live;
    x := Slot(s0.nextEid, lb, dst, t, PushedLists(sr.blocks[b], pos, t, vals));
    RoomShape(s0, src, t);
    PlacedShape(sr, b, pos, lb, dst, t, vals);
  }

  /** What undoing a creation does to the blocks. */
  lemma UncreateShape(s: Store, t: nat, eid: nat, l: Loc, snap: map<nat, (nat, nat)>)
    requires Find(s, eid) == Some(l) && LiveAt(s, l.b, l.o) && SlotAt(s, l).ts == t
    ensures var s' := Undo(s, t, Created(eid), snap);
            && |s'.blocks| == |s.blocks| && s'.blocks[l.b].live == RemoveAt(s.blocks[l.b].live, l.o)
            && (forall b | 0 <= b < |s.blocks| && b != l.b :: s'.blocks[b].live == s.blocks[b].live)
  {
    hide Reindex, RemoveAt;
  }

  lemma DropRel(s: Store, s': Store, s1: Store, s0: Store, l: Loc, m: seq<Slot>, x: Slot, t: nat, gone: set<nat>,
                snap: map<nat, (nat, nat)>)
    requires StoreRel(s, s1, t, gone, snap) && l.b < |s1.blocks| && |s0.blocks| <= |s1.blocks| && LiveAt(s, l.b, l.o)
    requires |s'.blocks| == |s.blocks| && s'.blocks[l.b].live == RemoveAt(s.blocks[l.b].live, l.o)
    requires forall b | 0 <= b < |s.blocks| && b != l.b :: s'.blocks[b].live == s.blocks[b].live
    requires l.o <= |m| && s1.blocks[l.b].live == InsertAt(m, l.o, x)
    requires if l.b < |s0.blocks| then m == s0.blocks[l.b].live else m == []
    requires forall b | 0 <= b < |s0.blocks| && b != l.b :: s1.blocks[b].live == s0.blocks[b].live
    requires forall b | |s0.blocks| <= b < |s1.blocks| && b != l.b :: s1.blocks[b].live == []
    ensures StoreRel(s', s0, t, gone, snap)
  {
    hide InsertAt, RemoveAt, SlotRel;
    RemoveRel(s.blocks[l.b].live, m, l.o, x, t, gone, snap);
    forall b | 0 <= b < |s0.blocks| ensures LiveRel(s'.blocks[b].live, s0.blocks[b].live, t, gone, snap) {
      if b != l.b { assert LiveRel(s.blocks[b].live, s1.blocks[b].live, t, gone, snap); }
    }
    forall b | |s0.blocks| <= b < |s'.blocks| ensures s'.blocks[b].live == [] {
      if b != l.b && b < |s1.blocks| { assert LiveRel(s.blocks[b].live, s1.blocks[b].live, t, gone, snap); }
    }
  }

  lemma UndoCreate(s0: Store, s: Store, t: nat, op: TxOp, gone: set<nat>, snap: map<nat, (nat, nat)>)
    requires IndexOk(s) && op.TxCreate? && Succeeds(s0, t, op)
    requires StoreRel(s, Step(s0, t, op), t, gone, snap)
    ensures StoreRel(Undo(s, t, Created(s0.nextEid), snap), s0, t, gone, snap)
    ensures Find(s, s0.nextEid).Some? && SlotAt(s, Find(s, s0.nextEid).value).ts == t
  {
    hide *;
    var b, m, x := CreateAt(s0, t, op);
    var s1, l := Step(s0, t, op), Loc(b, op.pos);
    InsertedAt(m, op.pos, x);
    PlaceFacts(s1, b, op.pos, x);
    SamePlace(s, s1, t, gone, snap, b, op.pos);
    StampFacts(s, s1, b, op.pos, t, gone, snap);
    UncreateShape(s, t, s0.nextEid, l, snap);
    DropRel(s, Undo(s, t, Created(s0.nextEid), snap), s1, s0, l, m, x, t, gone, snap);
  }

  lemma PlaceFacts(s: Store, b: nat, o: nat, x: Slot)
    requires b < |s.blocks| && o < |s.blocks[b].live| && s.blocks[b].live[o] == x
    ensures LiveAt(s, b, o) && EidAt(s, b, o) == x.eid && SlotAt(s, Loc(b, o)) == x
  {
  }

  lemma StampFacts(s: Store, s1: Store, b: nat, o: nat, t: nat, gone: set<nat>, snap: map<nat, (nat, nat)>)
    requires LiveAt(s, b, o) && LiveAt(s1, b, o) && SlotRel(s.blocks[b].live[o], s1.blocks[b].live[o], t, gone, snap)
    ensures SlotAt(s, Loc(b, o)).ts == s1.blocks[b].live[o].ts
  {
  }

  lemma CreateAt(s0: Store, t: nat, op: TxOp) returns (b: nat, m: seq<Slot>, x: Slot)
    requires op.TxCreate? && Succeeds(s0, t, op)
    ensures var s1 := Step(s0, t, op);
            && b < |s1.blocks| && |s0.blocks| <= |s1.blocks| && x.eid == s0.nextEid && x.ts == t
            && op.pos <= |m| && s1.blocks[b].live == InsertAt(m, op.pos, x)
            && (if b < |s0.blocks| then m == s0.blocks[b].live else m == [])
            && (forall b' | 0 <= b' < |s0.blocks| && b' != b :: s1.blocks[b'].live == s0.blocks[b'].live)
            && (forall b' | |s0.blocks| <= b' < |s1.blocks| && b' != b :: s1.blocks[b'].live == [])
  {
    hide CanCreate;
    b, m, x := CreateShape(s0, t, op.src, op.labelId, op.dst, op.vals, op.pos);
  }

  /** Undoing the last operation leads back to the state before it. */
  lemma UndoInverts(s0: Store, s: Store, t: nat, op: TxOp, gone: set<nat>, snap: map<nat, (nat, nat)>)
    requires IndexOk(s0) && IndexOk(s) && Succeeds(s0, t, op) && (op.TxDelete? ==> op.eid in snap)
    requires StoreRel(s, Step(s0, t, op), t, gone, snap)
    ensures StoreRel(Undo(s, t, UndoOf(s0, t, op), snap), s0, t, gone + DeletedIn([UndoOf(s0, t, op)]), snap)
  {
    hide *;
    OpParts(s0, t, op);
    match op
    case TxCreate(_, _, _, _, _) =>
      UndoCreate(s0, s, t, op, gone, snap);
      assert gone + {} == gone;
    case TxSet(eid, indices, news) =>
      UndoSet(s0, s, t, eid, indices, news, gone, snap);
      assert gone + {} == gone;
    case TxDelete(eid) => UndoDelete(s0, s, t, eid, gone, snap);
  }

  lemma OpParts(s0: Store, t: nat, op: TxOp)
    requires Succeeds(s0, t, op)
    ensures DeletedIn([UndoOf(s0, t, op)]) == if op.TxDelete? then {op.eid} else {}
    ensures op.TxCreate? ==> UndoOf(s0, t, op) == Created(s0.nextEid)
    ensures op.TxSet? ==> CanSet(s0, op.eid, op.indices, op.news) && Step(s0, t, op) == SetProps(s0, t, op.eid, op.indices, op.news)
    ensures op.TxDelete? ==> CanTouch(s0, op.eid) && Step(s0, t, op) == Delete(s0, t, op.eid)
  {
    assert [UndoOf(s0, t, op)][1..] == [];
    hide SetProps, Delete, CanSet, CanTouch, CanCreate, CreateEdge;
  }
}
