/**
  The analytical (AP) edge store: blocks of edge slots kept in insertion position order, property
  version lists that move with their slot, and an index from edge id to (block, offset).
  Every edge carries the same number of properties.
 */
module OlapStore {
  import opened Wrap
  import opened Stamps

  const BLOCK_CAPACITY: nat := 256
  const TOMBSTONE_LABEL: nat := 1
  const TOMBSTONE_DST: nat := 1

  datatype Version = Version(ts: nat, val: Option<int>)

  datatype Slot = Slot(eid: nat, labelId: nat, dst: nat, ts: nat, props: seq<seq<Version>>)

  /** `stale` is what an emptied block still holds in the version lists of its first slot. */
  datatype Block =
    Block(src: nat, pre: Option<nat>, tomb: bool, minTs: nat, live: seq<Slot>, stale: seq<seq<Version>>)

  datatype Loc = Loc(b: nat, o: nat)

  /** `heads` maps a vertex to its newest block, if it has one. */
  datatype Store = Store(blocks: seq<Block>, index: map<nat, Loc>, heads: map<nat, Option<nat>>, nextEid: nat)

  datatype UndoOp =
    | Created(eid: nat)
    | WasSet(eid: nat, indices: seq<nat>, oldTs: nat)
    | WasDeleted(eid: nat, oldTs: nat)

  /** A transaction's undo buffer and the identities of the edges it deleted. */
  datatype Log = Log(undo: seq<UndoOp>, snap: map<nat, (nat, nat)>)

  const NO_LOG := Log([], map[])

  function Min(a: nat, b: nat): nat { if a < b then a else b }

  // ----- slots and positions -----

  function InsertAt<T>(s: seq<T>, pos: nat, x: T): (r: seq<T>)
    requires pos <= |s|
    ensures |r| == |s| + 1
  {
    s[..pos] + [x] + s[pos..]
  }

  function RemoveAt<T>(s: seq<T>, pos: nat): (r: seq<T>)
    requires pos < |s|
    ensures |r| == |s| - 1
  {
    s[..pos] + s[pos + 1..]
  }

  /** Point the index at every slot from `from` on. */
  function Reindex(index: map<nat, Loc>, live: seq<Slot>, b: nat, from: nat): map<nat, Loc>
    decreases |live| - from
  {
    if from >= |live| then index
    else
      var e := live[from].eid;
      Reindex(if e != 0 then index[e := Loc(b, from)] else index, live, b, from + 1)
  }

  /** The location the index gives, if the slot there really holds the edge. */
  function Find(s: Store, eid: nat): Option<Loc> {
    if eid in s.index then
      var l := s.index[eid];
      if l.b < |s.blocks| && l.o < |s.blocks[l.b].live| && s.blocks[l.b].live[l.o].eid == eid then Some(l) else None
    else None
  }

  function SlotAt(s: Store, l: Loc): Slot
    requires l.b < |s.blocks| && l.o < |s.blocks[l.b].live|
  {
    s.blocks[l.b].live[l.o]
  }

  function PutSlot(s: Store, l: Loc, x: Slot): Store
    requires l.b < |s.blocks| && l.o < |s.blocks[l.b].live|
  {
    var blk := s.blocks[l.b];
    s.(blocks := s.blocks[l.b := blk.(live := blk.live[l.o := x])])
  }

  function Touch(s: Store, b: nat, ts: nat): Store
    requires b < |s.blocks|
  {
    s.(blocks := s.blocks[b := s.blocks[b].(minTs := Min(s.blocks[b].minTs, ts))])
  }

  // ----- creation -----

  /** The vertex's newest block, replaced by a new one when it has none or the block is full. */
  function WithRoom(s: Store, src: nat, ts: nat): Store
    requires src in s.heads
  {
    var head := s.heads[src];
    if head.Some? && (head.value >= |s.blocks| || |s.blocks[head.value].live| < BLOCK_CAPACITY) then s
    else
      var minTs := if IsTxnId(ts) then ts else MAX_COMMIT_TS;
      s.(blocks := s.blocks + [Block(src, head, false, minTs, [], [])], heads := s.heads[src := Some(|s.blocks|)])
  }

  /** A new slot's version lists: the code pushes onto the lists already at the insert position, so
      the new edge keeps the previous occupant's versions below its own. */
  function PushedLists(blk: Block, pos: nat, ts: nat, vals: seq<Option<int>>): (r: seq<seq<Version>>)
    requires pos <= |blk.live|
    ensures |r| == |vals|
  {
    var below := if pos < |blk.live| then blk.live[pos].props else blk.stale;
    seq(|vals|, c requires 0 <= c < |vals| => (if c < |below| then below[c] else []) + [Version(ts, vals[c])])
  }

  function PlacedBlock(blk: Block, pos: nat, eid: nat, labelId: nat, dst: nat, ts: nat, vals: seq<Option<int>>): Block
    requires pos <= |blk.live|
  {
    var x := Slot(eid, labelId, dst, ts, PushedLists(blk, pos, ts, vals));
    var minTs := if IsTxnId(ts) then Min(blk.minTs, ts) else blk.minTs;
    blk.(live := InsertAt(blk.live, pos, x), minTs := minTs, stale := [])
  }

  function Placed(s: Store, b: nat, pos: nat, labelId: nat, dst: nat, ts: nat, vals: seq<Option<int>>): Store
    requires b < |s.blocks| && pos <= |s.blocks[b].live|
  {
    var blk := PlacedBlock(s.blocks[b], pos, s.nextEid, labelId, dst, ts, vals);
    s.(blocks := s.blocks[b := blk],
       index := Reindex(s.index, blk.live, b, pos + 1)[s.nextEid := Loc(b, pos)],
       nextEid := s.nextEid + 1)
  }

  /** Creation outside a transaction stamps the edge with 0 and leaves the block's stamp bounds alone.
      `pos` is where the binary search ends; nothing below depends on which position that is. */
  predicate CanCreate(s: Store, src: nat, ts: nat, pos: nat) {
    src in s.heads &&
    var s1 := WithRoom(s, src, ts);
    s1.heads[src].Some? && s1.heads[src].value < |s1.blocks| && pos <= |s1.blocks[s1.heads[src].value].live|
  }

  function CreateEdge(s: Store, src: nat, labelId: nat, dst: nat, ts: nat, vals: seq<Option<int>>, pos: nat): Store {
    if CanCreate(s, src, ts, pos) then
      var s1 := WithRoom(s, src, ts);
      Placed(s1, s1.heads[src].value, pos, labelId, dst, ts, vals)
    else s
  }

  // ----- transactional writes -----

  predicate CanTouch(s: Store, eid: nat) { Find(s, eid).Some? && !s.blocks[Find(s, eid).value.b].tomb }

  predicate ColumnsExist(s: Store, eid: nat, indices: seq<nat>)
    requires Find(s, eid).Some?
  {
    forall i | 0 <= i < |indices| :: indices[i] < |SlotAt(s, Find(s, eid).value).props|
  }

  function PushProps(props: seq<seq<Version>>, indices: seq<nat>, vals: seq<int>, ts: nat): (r: seq<seq<Version>>)
    ensures |r| == |props|
    decreases |indices|
  {
    if indices == [] || vals == [] then props
    else
      var p := if indices[0] < |props| then props[indices[0] := props[indices[0]] + [Version(ts, Some(vals[0]))]] else props;
      PushProps(p, indices[1..], vals[1..], ts)
  }

  predicate CanSet(s: Store, eid: nat, indices: seq<nat>, vals: seq<int>) {
    |indices| == |vals| && CanTouch(s, eid) && ColumnsExist(s, eid, indices)
  }

  function SetProps(s: Store, t: nat, eid: nat, indices: seq<nat>, vals: seq<int>): Store {
    if CanSet(s, eid, indices, vals) then
      var l := Find(s, eid).value;
      var x := SlotAt(s, l);
      Touch(PutSlot(s, l, x.(ts := t, props := PushProps(x.props, indices, vals, t))), l.b, t)
    else s
  }

  function Delete(s: Store, t: nat, eid: nat): Store {
    if CanTouch(s, eid) then
      var l := Find(s, eid).value;
      Touch(PutSlot(s, l, SlotAt(s, l).(labelId := TOMBSTONE_LABEL, dst := TOMBSTONE_DST, ts := t)), l.b, t)
    else s
  }

  /** The non-transactional delete shifts the block and tombstones it when it becomes empty. */
  function Remove(s: Store, eid: nat): Store {
    if Find(s, eid).Some? then
      var l := Find(s, eid).value;
      Dropped(s, l, |s.blocks[l.b].live| == 1)
    else s
  }

  function DroppedBlock(blk: Block, o: nat, tomb: bool): Block
    requires o < |blk.live|
  {
    blk.(live := RemoveAt(blk.live, o), tomb := blk.tomb || tomb, stale := if tomb then blk.live[o].props else blk.stale)
  }

  function Dropped(s: Store, l: Loc, tomb: bool): Store
    requires l.b < |s.blocks| && l.o < |s.blocks[l.b].live|
  {
    var blk := DroppedBlock(s.blocks[l.b], l.o, tomb);
    s.(blocks := s.blocks[l.b := blk],
       index := Reindex(s.index, blk.live, l.b, l.o) - {s.blocks[l.b].live[l.o].eid})
  }

  // ----- undo, commit -----

  function Without(vs: seq<Version>, t: nat): seq<Version> {
    if vs == [] then [] else (if vs[0].ts != t then [vs[0]] else []) + Without(vs[1..], t)
  }

  function Retract(props: seq<seq<Version>>, indices: seq<nat>, t: nat): (r: seq<seq<Version>>)
    ensures |r| == |props|
    decreases |indices|
  {
    if indices == [] then props
    else
      Retract(if indices[0] < |props| then props[indices[0] := Without(props[indices[0]], t)] else props, indices[1..], t)
  }

  function Undo(s: Store, t: nat, u: UndoOp, snap: map<nat, (nat, nat)>): Store {
    if Find(s, u.eid).None? then s
    else
      var l := Find(s, u.eid).value;
      var x := SlotAt(s, l);
      match u
      case Created(eid) => if x.ts == t then Dropped(s, l, false) else s
      case WasSet(eid, indices, oldTs) => PutSlot(s, l, x.(ts := oldTs, props := Retract(x.props, indices, t)))
      case WasDeleted(eid, oldTs) =>
        PutSlot(s, l, if eid in snap then x.(ts := oldTs, labelId := snap[eid].0, dst := snap[eid].1) else x.(ts := oldTs))
  }

  /** Abort takes the undo buffer newest entry first. */
  function Abort(s: Store, t: nat, undo: seq<UndoOp>, snap: map<nat, (nat, nat)>): Store
    decreases |undo|
  {
    if undo == [] then s else Abort(Undo(s, t, undo[|undo| - 1], snap), t, undo[..|undo| - 1], snap)
  }

  /** Only the newest version of each list is promoted. */
  function PromoteList(vs: seq<Version>, t: nat, c: nat): seq<Version> {
    if vs != [] && vs[|vs| - 1].ts == t then vs[..|vs| - 1] + [vs[|vs| - 1].(ts := c)] else vs
  }

  function Promote(props: seq<seq<Version>>, t: nat, c: nat): (r: seq<seq<Version>>)
    ensures |r| == |props|
  {
    seq(|props|, i requires 0 <= i < |props| => PromoteList(props[i], t, c))
  }

  function CommitOne(s: Store, t: nat, c: nat, u: UndoOp): Store {
    if Find(s, u.eid).None? then s
    else
      var l := Find(s, u.eid).value;
      var x := SlotAt(s, l);
      if x.ts != t then s
      else
        var x' := x.(ts := c, props := if u.WasDeleted? then x.props else Promote(x.props, t, c));
        var s1 := PutSlot(s, l, x');
        var m := s1.blocks[l.b].minTs;
        s1.(blocks := s1.blocks[l.b := s1.blocks[l.b].(minTs := if IsTxnId(m) then c else Min(m, c))])
  }

  function Commit(s: Store, t: nat, c: nat, undo: seq<UndoOp>): Store
    decreases |undo|
  {
    if undo == [] then s else Commit(CommitOne(s, t, c, undo[0]), t, c, undo[1..])
  }

  // ----- one transaction's operations -----

  datatype TxOp =
    | TxCreate(src: nat, labelId: nat, dst: nat, vals: seq<Option<int>>, pos: nat)
    | TxSet(eid: nat, indices: seq<nat>, news: seq<int>)
    | TxDelete(eid: nat)

  function Step(s: Store, t: nat, op: TxOp): Store {
    match op
    case TxCreate(src, lb, dst, vals, pos) => CreateEdge(s, src, lb, dst, t, vals, pos)
    case TxSet(eid, indices, news) => SetProps(s, t, eid, indices, news)
    case TxDelete(eid) => Delete(s, t, eid)
  }

  /** What the operation records, given the state it starts from. */
  function Record(s: Store, t: nat, op: TxOp, log: Log): Log {
    match op
    case TxCreate(src, lb, dst, vals, pos) =>
      if CanCreate(s, src, t, pos) then log.(undo := log.undo + [Created(s.nextEid)]) else log
    case TxSet(eid, indices, news) =>
      if CanSet(s, eid, indices, news) then
        log.(undo := log.undo + [WasSet(eid, indices, SlotAt(s, Find(s, eid).value).ts)])
      else log
    case TxDelete(eid) =>
      if CanTouch(s, eid) then
        var x := SlotAt(s, Find(s, eid).value);
        Log(log.undo + [WasDeleted(eid, x.ts)], log.snap[eid := (x.labelId, x.dst)])
      else log
  }

  function Steps(s: Store, t: nat, ops: seq<TxOp>): Store
    decreases |ops|
  {
    if ops == [] then s else Steps(Step(s, t, ops[0]), t, ops[1..])
  }

  function Records(s: Store, t: nat, ops: seq<TxOp>, log: Log): Log
    decreases |ops|
  {
    if ops == [] then log else Records(Step(s, t, ops[0]), t, ops[1..], Record(s, t, ops[0], log))
  }
}
