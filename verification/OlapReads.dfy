/**
  Reads at a timestamp, over every interleaving of analytical transactions: who sees a created edge and
  when, what the block bound hides, and when reading panics.
 */
module OlapReads {
  import opened Wrap
  import opened Stamps
  import opened OlapStore
  import opened OlapIndex
  import opened OlapAbort
  import opened OlapRestore
  import opened OlapAbortTheorem
  import opened OlapVisibility
  import opened OlapColumns

  /** From a successful creation by `t` on: whatever interleaves without naming the edge, the edge is
      invisible to every other reader until `t` commits; from then on exactly the readers that started
      at or after the commit stamp find it, with the label and destination it was created with. They see
      its values when those present come first; otherwise reading panics. The creator finds it before
      commit unless the block's bound is a commit stamp after its start. With one number of properties
      for all edges nothing in the run itself panics. */
  lemma CommitVisibility(w0: World, t: nat, op: TxOp, before: seq<Act>, c: nat, after: seq<Act>, me: nat, start: nat,
                         lens: seq<nat>, n: nat)
    requires Inv(w0) && IsTxnId(t) && !IsTxnId(c) && op.TxCreate? && Succeeds(w0.store, t, op)
    requires (op.labelId, op.dst) != DEAD
    requires AllLegal(before + after) && AllLeave(before + after, w0.store.nextEid) && StillOpen(before, t)
    requires Uniform(w0.store, lens, n) && OpArity(op, n) && ActsArity(before + after, n)
    ensures RunColumns(w0, lens, [DoOp(t, op)] + before + [DoCommit(t, c)] + after).Some?
    ensures var e := w0.store.nextEid;
            var w1 := RunActs(Next(w0, DoOp(t, op)), before);
            var w2 := RunActs(Next(w1, DoCommit(t, c)), after);
            var shown := Shown(op.labelId, op.dst, op.vals);
            && Find(w1.store, e).Some?
            && ReadEdge(w1.store, e, me, start) ==
                 (if me == t && !Pruned(w1.store.blocks[Find(w1.store, e).value.b], start) then shown else Hidden)
            && ReadEdge(w2.store, e, me, start) == (if c <= start then shown else Hidden)
  {
    var e := w0.store.nextEid;
    Halves(before, after, e);
    AritySpread(t, op, before, c, after, n);
    var x := CreatePends(w0, t, op);
    hide *;
    UniformNeverPanics(w0, lens, [DoOp(t, op)] + before + [DoCommit(t, c)] + after, n);
    var w1 := RunActs(Next(w0, DoOp(t, op)), before);
    PendingRun(Next(w0, DoOp(t, op)), before, e, t, x, Created(e));
    CommitSettles(w1, e, t, c, x, Created(e)) by { NewSlotStamp(x, e, t, op); }
    var w2 := RunActs(Next(w1, DoCommit(t, c)), after);
    SettledRun(Next(w1, DoCommit(t, c)), after, e, Sealed(x, t, c, Created(e)));
    PendingRead(w1, e, t, op, x, me, start);
    SettledRead(w2, e, t, op, c, x, me, start);
  }

  lemma AritySpread(t: nat, op: TxOp, before: seq<Act>, c: nat, after: seq<Act>, n: nat)
    requires OpArity(op, n) && ActsArity(before + after, n)
    ensures ActsArity([DoOp(t, op)] + before + [DoCommit(t, c)] + after, n)
  {
    assert forall a | a in before || a in after :: a in before + after;
  }

  lemma NewSlotStamp(x: Slot, e: nat, t: nat, op: TxOp)
    requires op.TxCreate? && NewSlot(x, e, t, op)
    ensures x.ts == t
  {
  }

  lemma Halves(before: seq<Act>, after: seq<Act>, e: nat)
    requires AllLegal(before + after) && AllLeave(before + after, e)
    ensures AllLegal(before) && AllLegal(after) && AllLeave(before, e) && AllLeave(after, e)
  {
    assert forall a | a in before || a in after :: a in before + after;
  }

  lemma PendingRead(w: World, e: nat, t: nat, op: TxOp, x: Slot, me: nat, start: nat)
    requires Pending(w, e, t, x, Created(e)) && op.TxCreate? && NewSlot(x, e, t, op) && IsTxnId(t) && (op.labelId, op.dst) != DEAD
    ensures Find(w.store, e).Some?
    ensures ReadEdge(w.store, e, me, start) ==
              if me == t && !Pruned(w.store.blocks[Find(w.store, e).value.b], start)
              then Shown(op.labelId, op.dst, op.vals) else Hidden
  {
    PruneExact(w, e, me, start);
    NewView(x, e, t, op, start);
    hide Inv, ReadEdge, FirstFor, Shown;
  }

  lemma SettledRead(w: World, e: nat, t: nat, op: TxOp, c: nat, x: Slot, me: nat, start: nat)
    requires Settled(w, e, Sealed(x, t, c, Created(e))) && op.TxCreate? && NewSlot(x, e, t, op) && !IsTxnId(c)
    requires (op.labelId, op.dst) != DEAD
    ensures ReadEdge(w.store, e, me, start) == if c <= start then Shown(op.labelId, op.dst, op.vals) else Hidden
  {
    PruneExact(w, e, me, start);
    if c <= start { SealedView(x, e, t, op, c, me, start); }
    hide Inv, ReadEdge, Shown;
  }

  /** In every state reached from an empty store by transactions over edges with one number of
      properties, nothing panicked on the way and the bound hides no committed edge; reading one panics
      exactly when a column without a visible value comes before one with. */
  lemma PruningIsSound(s: Store, acts: seq<Act>, e: nat, me: nat, start: nat, n: nat)
    requires Fresh(s) && AllLegal(acts) && ActsArity(acts, n)
    requires var s' := RunActs(World(s, map[]), acts).store;
             Find(s', e).Some? && !IsTxnId(SlotAt(s', Find(s', e).value).ts)
    ensures RunColumns(World(s, map[]), [], acts).Some?
    ensures var s' := RunActs(World(s, map[]), acts).store;
            var x := SlotAt(s', Find(s', e).value);
            ReadEdge(s', e, me, start) ==
              if Ident(x) != DEAD && x.ts <= start then Shown(x.labelId, x.dst, VisibleVals(x, me, start)) else Hidden
  {
    var w := World(s, map[]);
    assert IndexOk(s);
    RunKeepsInv(w, acts);
    UniformNeverPanics(w, [], acts, n);
    hide Inv, Uniform, RunColumns, IndexOk;
    PruneExact(RunActs(w, acts), e, me, start);
  }

  /** The vertex's newest block is reused and hides what is put into it: it was once emptied by a
      non-transactional delete, or its bound is a commit stamp after the start. */
  predicate Blocked(s: Store, src: nat, start: nat) {
    && src in s.heads && s.heads[src].Some? && s.heads[src].value < |s.blocks|
    && var blk := s.blocks[s.heads[src].value];
       |blk.live| < BLOCK_CAPACITY && (blk.tomb || Pruned(blk, start))
  }

  /** Its creator reads a new edge if and only if the block it goes into is not blocked beforehand. No
      insertion clears the flag of a block once emptied. */
  lemma NewEdgeReadableIff(s: Store, t: nat, op: TxOp, start: nat)
    requires IndexOk(s) && IsTxnId(t) && op.TxCreate? && Succeeds(s, t, op) && (op.labelId, op.dst) != DEAD
    ensures ReadEdge(Step(s, t, op), s.nextEid, t, start) ==
              if Blocked(s, op.src, start) then Hidden else Shown(op.labelId, op.dst, op.vals)
  {
    var x := CreatesNew(s, t, op);
    NewEdgeBlock(s, t, op, start);
    NewView(x, s.nextEid, t, op, start);
    ReadSlotShows(x, t, start);
    hide Step, Succeeds, Blocked, IndexOk, Find, Shown, ReadSlot, VisibleVals, Pruned;
  }

  lemma NewEdgeBlock(s: Store, t: nat, op: TxOp, start: nat)
    requires IndexOk(s) && IsTxnId(t) && op.TxCreate? && Succeeds(s, t, op)
    ensures var s' := Step(s, t, op);
            && Find(s', s.nextEid).Some?
            && var blk := s'.blocks[Find(s', s.nextEid).value.b];
               (blk.tomb || Pruned(blk, start) <==> Blocked(s, op.src, start))
  {
    var sr := WithRoom(s, op.src, t);
    var b := sr.heads[op.src].value;
    StepIndex(s, t, op);
    var s' := Step(s, t, op);
    PlacedThere(sr, b, op.pos, op.labelId, op.dst, t, op.vals);
    PlacedFlags(sr, b, op.pos, op.labelId, op.dst, t, op.vals);
    assert s' == Placed(sr, b, op.pos, op.labelId, op.dst, t, op.vals);
    hide Placed, Step, IndexOk;
    FoundIs(s', s.nextEid, b, op.pos);
  }

  lemma PlacedFlags(s: Store, b: nat, pos: nat, lb: nat, dst: nat, t: nat, vals: seq<Option<int>>)
    requires b < |s.blocks| && pos <= |s.blocks[b].live| && IsTxnId(t)
    ensures var blk := Placed(s, b, pos, lb, dst, t, vals).blocks[b];
            blk.tomb == s.blocks[b].tomb && blk.minTs == Min(s.blocks[b].minTs, t)
  {
    hide Reindex, PushedLists, InsertAt;
  }

  /** The only edge of a block is deleted outside a transaction; an edge created there afterwards and
      committed at 5 is read by nobody, at any start. */
  lemma EmptiedBlockHides(me: nat, start: nat)
    ensures var t, op := TXN_ID_START, TxCreate(9, 5, 8, [], 0);
            var s := Remove(OneEdgeAt(3), 1);
            var s' := CommitOne(Step(s, t, op), t, 5, Created(2));
            && Succeeds(s, t, op) && Find(s', 2) == Some(Loc(0, 0)) && SlotAt(s', Loc(0, 0)).ts == 5
            && ReadEdge(s', 2, me, start) == Hidden
  {
    var t, op := TXN_ID_START, TxCreate(9, 5, 8, [], 0);
    var s0 := OneEdgeAt(3);
    assert Find(s0, 1) == Some(Loc(0, 0));
    var s := Remove(s0, 1);
    assert s.blocks == [Block(9, None, true, 3, [], [])] && s.heads == map[9 := Some(0)] && s.nextEid == 2;
    var s1 := Step(s, t, op);
    assert WithRoom(s, 9, t) == s;
    PlacedThere(s, 0, 0, 5, 8, t, []);
    PlacedFlags(s, 0, 0, 5, 8, t, []);
    assert s1 == Placed(s, 0, 0, 5, 8, t, []);
    assert s1.index[2] == Loc(0, 0);
    hide Placed, Reindex, InsertAt, Remove;
    assert Find(s1, 2) == Some(Loc(0, 0));
  }

  /** An edge created with its first property absent and its second present cannot be read. */
  lemma GapPanics(start: nat)
    requires 1 <= start
    ensures var t, op := TXN_ID_START, TxCreate(9, 5, 8, [None, Some(5)], 0);
            var w := Next(Next(World(NoEdges(), map[]), DoOp(t, op)), DoCommit(t, 1));
            Succeeds(NoEdges(), t, op) && ReadEdge(w.store, 1, t + 1, start) == Panics
  {
    var t, op := TXN_ID_START, TxCreate(9, 5, 8, [None, Some(5)], 0);
    var w0 := World(NoEdges(), map[]);
    assert Inv(w0) && Succeeds(w0.store, t, op) && Uniform(w0.store, [], 2);
    var none: seq<Act> := [];
    assert none + none == none;
    CommitVisibility(w0, t, op, none, 1, none, t + 1, start, [], 2);
    assert op.vals[1].Some? && op.vals[0].None?;
    hide ReadEdge, Next, Inv;
    assert RunActs(Next(Next(w0, DoOp(t, op)), DoCommit(t, 1)), none) == Next(Next(w0, DoOp(t, op)), DoCommit(t, 1));
  }

  function NoEdges(): Store { Store([], map[], map[9 := None], 1) }

  const PAST: Version := Version(3, Some(1))

  function OneValue(): Store {
    Store([Block(9, None, false, 3, [Slot(1, 5, 7, 3, [[PAST]])], [])], map[1 := Loc(0, 0)], map[9 := Some(0)], 2)
  }

  /** A new edge's list keeps the versions of the edge whose place it took. */
  lemma NewEdgeInherits(t: nat)
    requires IsTxnId(t)
    ensures var s' := Step(OneValue(), t, TxCreate(9, 5, 6, [Some(2)], 0));
            Find(s', 2) == Some(Loc(0, 0)) && SlotAt(s', Loc(0, 0)).props == [[PAST, Version(t, Some(2))]]
  {
    var s, op := OneValue(), TxCreate(9, 5, 6, [Some(2)], 0);
    assert WithRoom(s, 9, t) == s && CanCreate(s, 9, t, 0);
    PlacedThere(s, 0, 0, 5, 6, t, [Some(2)]);
    hide Reindex, InsertAt;
    assert PushedLists(s.blocks[0], 0, t, [Some(2)])[0] == [PAST, Version(t, Some(2))];
    assert Step(s, t, op).index[2] == Loc(0, 0);
  }

  /** A transaction can fail to see its own edge: one that started before its block's only commit. */
  lemma OwnEdgeHidden()
    ensures var me := TXN_ID_START + 1;
            var op := TxCreate(9, 5, 8, [], 1);
            var w := Next(World(OneEdgeAt(10), map[]), DoOp(me, op));
            Inv(World(OneEdgeAt(10), map[])) && ReadEdge(w.store, 2, me, 6) == Hidden && ReadEdge(w.store, 2, me, 10).Seen?
  {
    var s, me := OneEdgeAt(10), TXN_ID_START + 1;
    var op := TxCreate(9, 5, 8, [], 1);
    var w0 := World(s, map[]);
    assert LiveAt(s, 0, 0) && EidAt(s, 0, 0) == 1;
    assert IndexOk(s) && Inv(w0);
    CreateBounds(s, me, op);
    var x := CreatePends(w0, me, op);
    var w := Next(w0, DoOp(me, op));
    HiddenBlock(s, me, op);
    PendingRead(w, 2, me, op, x, me, 6);
    PendingRead(w, 2, me, op, x, me, 10);
  }

  lemma HiddenBlock(s: Store, t: nat, op: TxOp)
    requires op.TxCreate? && Succeeds(s, t, op) && IndexOk(s) && IsTxnId(t) && |s.blocks| == 1
    requires s.heads[op.src] == Some(0) && |s.blocks[0].live| < BLOCK_CAPACITY && !IsTxnId(s.blocks[0].minTs)
    ensures var s' := Step(s, t, op);
            Find(s', s.nextEid).Some? && Find(s', s.nextEid).value.b == 0 && s'.blocks[0].minTs == s.blocks[0].minTs
  {
  }

  function OneEdgeAt(ts: nat): Store {
    Store([Block(9, None, false, ts, [Slot(1, 5, 7, ts, [])], [])], map[1 := Loc(0, 0)], map[9 := Some(0)], 2)
  }
}
