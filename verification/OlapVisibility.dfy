/**
  Reads at a timestamp over interleaved analytical transactions: when a created edge is seen, by whom,
  and what the block's lower stamp bound may hide.
 */
module OlapVisibility {
  import opened Wrap
  import opened Stamps
  import opened OlapStore
  import opened OlapIndex
  import opened OlapAbort
  import opened OlapRestore
  import opened OlapAbortTheorem

  // ----- reading -----

  function VisibleValue(vs: seq<Version>, me: nat, start: nat): Option<int>
    decreases |vs|
  {
    if vs == [] then None
    else
      var v := vs[|vs| - 1];
      if (if IsTxnId(v.ts) then v.ts == me else v.ts <= start) then v.val
      else VisibleValue(vs[..|vs| - 1], me, start)
  }

  /** It is the newest version the reader may see: its own, or one committed at or before its start. */
  lemma {:induction false} VisibleIsNewest(vs: seq<Version>, me: nat, start: nat, i: nat)
    requires i < |vs| && Sees(vs[i].ts, me, start) && forall j | i < j < |vs| :: !Sees(vs[j].ts, me, start)
    ensures VisibleValue(vs, me, start) == vs[i].val
    decreases |vs|
  {
    if i < |vs| - 1 { VisibleIsNewest(vs[..|vs| - 1], me, start, i); }
  }

  lemma {:induction false} NoneVisible(vs: seq<Version>, me: nat, start: nat)
    requires forall j | 0 <= j < |vs| :: !Sees(vs[j].ts, me, start)
    ensures VisibleValue(vs, me, start) == None
    decreases |vs|
  {
    if vs != [] { NoneVisible(vs[..|vs| - 1], me, start); }
  }

  /** The values as the reader's property list holds them. */
  datatype View = View(labelId: nat, dst: nat, vals: seq<Option<int>>)

  /** Assembling the property list can panic. */
  datatype ReadResult = Hidden | Panics | Seen(view: View)

  predicate Sees(ts: nat, me: nat, start: nat) { if IsTxnId(ts) then ts == me else ts <= start }

  predicate Pruned(blk: Block, start: nat) { !IsTxnId(blk.minTs) && start < blk.minTs }

  function VisibleVals(x: Slot, me: nat, start: nat): (r: seq<Option<int>>)
    ensures |r| == |x.props|
  {
    seq(|x.props|, c requires 0 <= c < |x.props| => VisibleValue(x.props[c], me, start))
  }

  /** Columns with no visible value are skipped; the others are inserted at their column's number, which
      is a panic when it lies past the end of the list so far. */
  function Assemble(vals: seq<Option<int>>, c: nat, acc: seq<Option<int>>): Option<seq<Option<int>>>
    requires c <= |vals|
    decreases |vals| - c
  {
    if c == |vals| then Some(acc)
    else if vals[c].None? then Assemble(vals, c + 1, acc)
    else if c > |acc| then None
    else Assemble(vals, c + 1, acc[..c] + [vals[c]] + acc[c..])
  }

  /** The columns with a value come before those without. */
  predicate Leading(vals: seq<Option<int>>) {
    forall i, j | 0 <= i < j < |vals| :: vals[j].Some? ==> vals[i].Some?
  }

  /** The values up to the first column without one. */
  function Present(vals: seq<Option<int>>): (r: seq<Option<int>>)
    ensures |r| <= |vals| && r == vals[..|r|] && (forall i | 0 <= i < |r| :: r[i].Some?)
    ensures |r| < |vals| ==> vals[|r|].None?
  {
    if vals == [] || vals[0].None? then [] else [vals[0]] + Present(vals[1..])
  }

  lemma {:induction false} AssembleAfterGap(vals: seq<Option<int>>, c: nat, acc: seq<Option<int>>)
    requires |acc| < c <= |vals|
    ensures Assemble(vals, c, acc) == if forall i | c <= i < |vals| :: vals[i].None? then Some(acc) else None
    decreases |vals| - c
  {
    if c < |vals| && vals[c].None? { AssembleAfterGap(vals, c + 1, acc); }
  }

  lemma {:induction false} AssembleFrom(vals: seq<Option<int>>, c: nat)
    requires c <= |vals| && forall i | 0 <= i < c :: vals[i].Some?
    ensures Assemble(vals, c, vals[..c]) == if Leading(vals) then Some(Present(vals)) else None
    decreases |vals| - c
  {
    if c < |vals| && vals[c].Some? {
      assert vals[..c][..c] + [vals[c]] + vals[..c][c..] == vals[..c + 1];
      AssembleFrom(vals, c + 1);
    } else {
      assert |Present(vals)| == c && Present(vals) == vals[..c];
      if c < |vals| { AssembleAfterGap(vals, c + 1, vals[..c]); }
    }
  }

  /** The property list can be assembled if and only if the columns with a visible value are the first
      ones; it then holds those values, and reads as absent beyond them. */
  lemma AssembleIff(vals: seq<Option<int>>)
    ensures Assemble(vals, 0, []) == if Leading(vals) then Some(Present(vals)) else None
    ensures Leading(vals) ==> forall i | 0 <= i < |vals| :: vals[i] == if i < |Present(vals)| then Present(vals)[i] else None
  {
    AssembleFrom(vals, 0);
    assert vals[..0] == [];
  }

  /** The reader's loop over the columns. */
  method AssembleProps(vals: seq<Option<int>>) returns (r: Option<seq<Option<int>>>)
    ensures r == if Leading(vals) then Some(Present(vals)) else None
  {
    var acc: seq<Option<int>> := [];
    var c := 0;
    while c < |vals|
      invariant 0 <= c <= |vals| && Assemble(vals, 0, []) == Assemble(vals, c, acc)
    {
      if vals[c].Some? {
        if c > |acc| { AssembleIff(vals); return None; }
        acc := acc[..c] + [vals[c]] + acc[c..];
      }
      c := c + 1;
    }
    AssembleIff(vals);
    r := Some(acc);
  }

  /** Reading an edge with these visible values. */
  function Shown(labelId: nat, dst: nat, vals: seq<Option<int>>): ReadResult {
    if Leading(vals) then Seen(View(labelId, dst, Present(vals))) else Panics
  }

  function ReadSlot(x: Slot, me: nat, start: nat): ReadResult {
    match Assemble(VisibleVals(x, me, start), 0, [])
    case Some(r) => Seen(View(x.labelId, x.dst, r))
    case None => Panics
  }

  lemma ReadSlotShows(x: Slot, me: nat, start: nat)
    ensures ReadSlot(x, me, start) == Shown(x.labelId, x.dst, VisibleVals(x, me, start))
  {
    AssembleIff(VisibleVals(x, me, start));
  }

  function ReadEdge(s: Store, e: nat, me: nat, start: nat): ReadResult {
    if Find(s, e).None? then Hidden
    else
      var l := Find(s, e).value;
      var blk, x := s.blocks[l.b], SlotAt(s, l);
      if blk.tomb || Pruned(blk, start) || Ident(x) == DEAD || !Sees(x.ts, me, start) then Hidden
      else ReadSlot(x, me, start)
  }

  // ----- interleaved transactions -----

  /** The store and the logs of the transactions still running. */
  datatype World = World(store: Store, logs: map<nat, Log>)

  datatype Act =
    | DoOp(t: nat, op: TxOp)
    | DoCommit(t: nat, c: nat)
    | DoAbort(t: nat)

  function LogOf(w: World, t: nat): Log { if t in w.logs then w.logs[t] else NO_LOG }

  /** Commit and abort hold the edge lock throughout, so each is one step. */
  function Next(w: World, a: Act): World {
    match a
    case DoOp(t, op) => World(Step(w.store, t, op), w.logs[t := Record(w.store, t, op, LogOf(w, t))])
    case DoCommit(t, c) => World(Commit(w.store, t, c, LogOf(w, t).undo), w.logs - {t})
    case DoAbort(t) => World(Abort(w.store, t, LogOf(w, t).undo, LogOf(w, t).snap), w.logs - {t})
  }

  predicate Legal(a: Act) { IsTxnId(a.t) && (a.DoCommit? ==> !IsTxnId(a.c)) }

  function RunActs(w: World, acts: seq<Act>): World
    decreases |acts|
  {
    if acts == [] then w else RunActs(Next(w, acts[0]), acts[1..])
  }

  ghost predicate AllLegal(acts: seq<Act>) { forall a | a in acts :: Legal(a) }

  // ----- the stamp bound of a block -----

  ghost predicate BoundOk(blk: Block, ts: nat) { IsTxnId(ts) || (!IsTxnId(blk.minTs) && blk.minTs <= ts) }

  ghost predicate BlockOk(blk: Block) { !blk.tomb && forall x | x in blk.live :: BoundOk(blk, x.ts) }

  /** The stamp an undo entry would put back also respects the bound of the edge's block. */
  ghost predicate EntryOk(s: Store, u: UndoOp) {
    u.eid < s.nextEid && (!u.Created? && Find(s, u.eid).Some? ==> BoundOk(s.blocks[Find(s, u.eid).value.b], u.oldTs))
  }

  ghost predicate EntriesOk(s: Store, us: seq<UndoOp>) { forall u | u in us :: EntryOk(s, u) }

  ghost predicate BlocksOk(s: Store) { forall b | 0 <= b < |s.blocks| :: BlockOk(s.blocks[b]) }

  ghost predicate Inv(w: World) {
    IndexOk(w.store) && BlocksOk(w.store) && forall t | t in w.logs :: EntriesOk(w.store, w.logs[t].undo)
  }

  /** A block's bound, once a commit stamp, only ever gets lower; edges stay in their blocks; ids are
      not issued again. */
  ghost predicate Onward(s: Store, s': Store) {
    && s.nextEid <= s'.nextEid && |s.blocks| <= |s'.blocks|
    && (forall b | 0 <= b < |s.blocks| && !IsTxnId(s.blocks[b].minTs) ::
          !IsTxnId(s'.blocks[b].minTs) && s'.blocks[b].minTs <= s.blocks[b].minTs)
    && (forall e: nat | e < s.nextEid && Find(s', e).Some? :: Find(s, e).Some? && Find(s, e).value.b == Find(s', e).value.b)
  }

  lemma EntryOnward(s: Store, s': Store, u: UndoOp)
    requires Onward(s, s') && EntryOk(s, u)
    ensures EntryOk(s', u)
  {
  }

  lemma EntriesOnward(s: Store, s': Store, us: seq<UndoOp>)
    requires Onward(s, s') && EntriesOk(s, us)
    ensures EntriesOk(s', us)
  {
    forall u | u in us ensures EntryOk(s', u) { EntryOnward(s, s', u); }
  }

  /** Where a block's slots come from: kept from before, or stamped within the bound. */
  ghost predicate BlockNext(blk: Block, blk': Block) {
    && blk'.tomb == blk.tomb
    && (!IsTxnId(blk.minTs) ==> !IsTxnId(blk'.minTs) && blk'.minTs <= blk.minTs)
    && (forall x | x in blk'.live :: BoundOk(blk', x.ts) || x in blk.live)
  }

  lemma BlockNextOk(blk: Block, blk': Block)
    requires BlockOk(blk) && BlockNext(blk, blk')
    ensures BlockOk(blk')
  {
  }

  /** One block changed; the slots' edges are those from before. */
  ghost predicate OneBlock(s: Store, s': Store, b: nat) {
    && b < |s.blocks| == |s'.blocks| && s'.nextEid == s.nextEid
    && (forall k | 0 <= k < |s.blocks| && k != b :: s'.blocks[k] == s.blocks[k])
    && BlockNext(s.blocks[b], s'.blocks[b])
    && (forall x | x in s'.blocks[b].live :: exists y :: y in s.blocks[b].live && y.eid == x.eid)
  }

  lemma OneBlockOnward(s: Store, s': Store, b: nat)
    requires IndexOk(s) && IndexOk(s') && OneBlock(s, s', b)
    ensures Onward(s, s') && (BlocksOk(s) ==> BlocksOk(s'))
  {
    forall e: nat | e < s.nextEid && Find(s', e).Some?
      ensures Find(s, e).Some? && Find(s, e).value.b == Find(s', e).value.b
    {
      var l := Find(s', e).value;
      var x := SlotAt(s', l);
      var o := FoundFrom(s, s', b, l);
      FoundIs(s, e, l.b, o);
    }
    if BlocksOk(s) {
      forall k | 0 <= k < |s'.blocks| ensures BlockOk(s'.blocks[k]) {
        assert BlockOk(s.blocks[k]);
        if k == b { BlockNextOk(s.blocks[b], s'.blocks[b]); }
      }
    }
  }

  lemma FoundFrom(s: Store, s': Store, b: nat, l: Loc) returns (o: nat)
    requires OneBlock(s, s', b) && l.b < |s'.blocks| && l.o < |s'.blocks[l.b].live|
    ensures LiveAt(s, l.b, o) && EidAt(s, l.b, o) == SlotAt(s', l).eid
  {
    if l.b == b {
      assert SlotAt(s', l) in s'.blocks[b].live;
      var y :| y in s.blocks[b].live && y.eid == SlotAt(s', l).eid;
      o :| 0 <= o < |s.blocks[b].live| && s.blocks[b].live[o] == y;
    } else {
      o := l.o;
    }
  }

  // ----- every step goes onward -----

  /** A slot rewritten under a bound that covers its stamp. */
  lemma RewriteOneBlock(s: Store, l: Loc, x: Slot, minTs: nat)
    requires l.b < |s.blocks| && l.o < |s.blocks[l.b].live| && x.eid == SlotAt(s, l).eid
    requires !IsTxnId(s.blocks[l.b].minTs) ==> !IsTxnId(minTs) && minTs <= s.blocks[l.b].minTs
    requires IsTxnId(x.ts) || (!IsTxnId(minTs) && minTs <= x.ts)
    ensures var s1 := PutSlot(s, l, x);
            OneBlock(s, s1.(blocks := s1.blocks[l.b := s1.blocks[l.b].(minTs := minTs)]), l.b)
  {
  }

  lemma DroppedOneBlock(s: Store, l: Loc)
    requires l.b < |s.blocks| && l.o < |s.blocks[l.b].live|
    ensures OneBlock(s, Dropped(s, l, false), l.b)
  {
  }

  lemma CreateOnward(s: Store, t: nat, op: TxOp)
    requires IndexOk(s) && IndexOk(Step(s, t, op)) && IsTxnId(t) && op.TxCreate? && Succeeds(s, t, op)
    ensures Onward(s, Step(s, t, op)) && (BlocksOk(s) ==> BlocksOk(Step(s, t, op)))
  {
    var s' := Step(s, t, op);
    CreateBounds(s, t, op);
    var b, m, x := CreateAt(s, t, op);
    hide Step, Succeeds, InsertAt, IndexOk, BlocksOk, Find;
    CreateKeepsPlaces(s, s', b, m, op.pos, x);
    if BlocksOk(s) { CreateBlocks(s, s', t, b, m, op.pos, x); }
  }

  /** Edges from before the creation stay in their blocks. */
  lemma CreateKeepsPlaces(s: Store, s': Store, b: nat, m: seq<Slot>, pos: nat, x: Slot)
    requires IndexOk(s) && b < |s'.blocks| && |s.blocks| <= |s'.blocks| && pos <= |m| && x.eid == s.nextEid
    requires s'.blocks[b].live == InsertAt(m, pos, x)
    requires if b < |s.blocks| then m == s.blocks[b].live else m == []
    requires forall k | 0 <= k < |s.blocks| && k != b :: s'.blocks[k].live == s.blocks[k].live
    requires forall k | |s.blocks| <= k < |s'.blocks| && k != b :: s'.blocks[k].live == []
    ensures forall e: nat | e < s.nextEid && Find(s', e).Some? ::
              Find(s, e).Some? && Find(s, e).value.b == Find(s', e).value.b
  {
    InsertedAt(m, pos, x);
    hide InsertAt, IndexOk, Find;
    forall e: nat | e < s.nextEid && Find(s', e).Some?
      ensures Find(s, e).Some? && Find(s, e).value.b == Find(s', e).value.b
    {
      FoundLive(s', e);
      var l := Find(s', e).value;
      var o: nat := if l.b == b && l.o > pos then l.o - 1 else l.o;
      assert LiveAt(s, l.b, o) && EidAt(s, l.b, o) == e;
      FoundIs(s, e, l.b, o);
    }
  }

  lemma CreateBounds(s: Store, t: nat, op: TxOp)
    requires op.TxCreate? && Succeeds(s, t, op) && IsTxnId(t)
    ensures var s' := Step(s, t, op);
            && s'.nextEid == s.nextEid + 1 && |s.blocks| <= |s'.blocks|
            && (forall b | 0 <= b < |s.blocks| && !IsTxnId(s.blocks[b].minTs) :: s'.blocks[b].minTs == s.blocks[b].minTs)
            && (forall b | 0 <= b < |s'.blocks| :: s'.blocks[b].tomb == (b < |s.blocks| && s.blocks[b].tomb))
  {
    hide Reindex, PushedLists, InsertAt;
  }

  lemma CreateBlocks(s: Store, s': Store, t: nat, b: nat, m: seq<Slot>, pos: nat, x: Slot)
    requires BlocksOk(s) && IsTxnId(t) && b < |s'.blocks| && |s.blocks| <= |s'.blocks| && pos <= |m| && x.ts == t
    requires s'.blocks[b].live == InsertAt(m, pos, x)
    requires if b < |s.blocks| then m == s.blocks[b].live else m == []
    requires forall k | 0 <= k < |s.blocks| && k != b :: s'.blocks[k].live == s.blocks[k].live
    requires forall k | |s.blocks| <= k < |s'.blocks| && k != b :: s'.blocks[k].live == []
    requires forall k | 0 <= k < |s.blocks| && !IsTxnId(s.blocks[k].minTs) :: s'.blocks[k].minTs == s.blocks[k].minTs
    requires forall k | 0 <= k < |s'.blocks| :: s'.blocks[k].tomb == (k < |s.blocks| && s.blocks[k].tomb)
    ensures BlocksOk(s')
  {
  }

  lemma StepOnward(s: Store, t: nat, op: TxOp)
    requires IndexOk(s) && IsTxnId(t)
    ensures IndexOk(Step(s, t, op)) && Onward(s, Step(s, t, op)) && (BlocksOk(s) ==> BlocksOk(Step(s, t, op)))
  {
    StepIndex(s, t, op);
    if !Succeeds(s, t, op) {
      FailsSame(s, t, op);
    } else if op.TxCreate? {
      CreateOnward(s, t, op);
    } else {
      InPlaceOnward(s, t, op);
    }
  }

  lemma InPlaceOnward(s: Store, t: nat, op: TxOp)
    requires IndexOk(s) && IndexOk(Step(s, t, op)) && IsTxnId(t) && !op.TxCreate? && Succeeds(s, t, op)
    ensures Onward(s, Step(s, t, op)) && (BlocksOk(s) ==> BlocksOk(Step(s, t, op)))
  {
    var l := Find(s, op.eid).value;
    var x := SlotAt(s, l);
    var y := if op.TxSet? then x.(ts := t, props := PushProps(x.props, op.indices, op.news, t)) else Deleted(x, t);
    var m := Min(s.blocks[l.b].minTs, t);
    var s1 := PutSlot(s, l, y);
    assert Step(s, t, op) == s1.(blocks := s1.blocks[l.b := s1.blocks[l.b].(minTs := m)]);
    hide Step, IndexOk, Onward, OneBlock, BlocksOk, Succeeds, PutSlot, Find;
    RewriteOneBlock(s, l, y, m);
    OneBlockOnward(s, Step(s, t, op), l.b);
  }

  lemma UndoOnward(s: Store, t: nat, u: UndoOp, snap: map<nat, (nat, nat)>)
    requires IndexOk(s) && EntryOk(s, u)
    ensures var s' := Undo(s, t, u, snap); IndexOk(s') && Onward(s, s') && (BlocksOk(s) ==> BlocksOk(s'))
  {
    var s' := Undo(s, t, u, snap);
    UndoKeeps(s, t, u, snap);
    if s' != s {
      var l := Find(s, u.eid).value;
      var x := SlotAt(s, l);
      if u.Created? {
        DroppedOneBlock(s, l);
      } else {
        var y := if u.WasSet? then x.(ts := u.oldTs, props := Retract(x.props, u.indices, t))
                 else if u.eid in snap then x.(ts := u.oldTs, labelId := snap[u.eid].0, dst := snap[u.eid].1) else x.(ts := u.oldTs);
        var s1 := PutSlot(s, l, y);
        var m := s.blocks[l.b].minTs;
        assert s1.blocks[l.b].(minTs := m) == s1.blocks[l.b];
        assert s1.blocks[l.b := s1.blocks[l.b]] == s1.blocks;
        RewriteOneBlock(s, l, y, m);
      }
      hide IndexOk, Onward, OneBlock, BlocksOk, Undo;
      OneBlockOnward(s, s', l.b);
    }
  }

  lemma SealOnward(s: Store, t: nat, c: nat, u: UndoOp)
    requires IndexOk(s) && !IsTxnId(c)
    ensures var s' := CommitOne(s, t, c, u); IndexOk(s') && Onward(s, s') && (BlocksOk(s) ==> BlocksOk(s'))
  {
    var s' := CommitOne(s, t, c, u);
    OlapIndex.SealKeeps(s, t, c, u);
    if s' != s {
      var l := Find(s, u.eid).value;
      var x := SlotAt(s, l);
      var y := x.(ts := c, props := if u.WasDeleted? then x.props else Promote(x.props, t, c));
      var m := s.blocks[l.b].minTs;
      RewriteOneBlock(s, l, y, if IsTxnId(m) then c else Min(m, c));
      hide IndexOk, Onward, OneBlock, BlocksOk, CommitOne;
      OneBlockOnward(s, s', l.b);
    }
  }

  lemma OnwardTrans(s: Store, s1: Store, s2: Store)
    requires Onward(s, s1) && Onward(s1, s2)
    ensures Onward(s, s2)
  {
  }

  lemma {:induction false} CommitOnward(s: Store, t: nat, c: nat, us: seq<UndoOp>)
    requires IndexOk(s) && !IsTxnId(c)
    ensures var s' := Commit(s, t, c, us); IndexOk(s') && Onward(s, s') && (BlocksOk(s) ==> BlocksOk(s'))
    decreases |us|
  {
    hide IndexOk, BlocksOk, CommitOne;
    if us != [] {
      hide Onward;
      SealOnward(s, t, c, us[0]);
      var s1 := CommitOne(s, t, c, us[0]);
      CommitOnward(s1, t, c, us[1..]);
      OnwardTrans(s, s1, Commit(s1, t, c, us[1..]));
    }
  }

  lemma {:induction false} AbortOnward(s: Store, t: nat, us: seq<UndoOp>, snap: map<nat, (nat, nat)>)
    requires IndexOk(s) && EntriesOk(s, us)
    ensures var s' := Abort(s, t, us, snap); IndexOk(s') && Onward(s, s') && (BlocksOk(s) ==> BlocksOk(s'))
    decreases |us|
  {
    hide IndexOk, BlocksOk, Undo, EntryOk;
    if us != [] {
      hide Onward;
      var u, rest := us[|us| - 1], us[..|us| - 1];
      UndoOnward(s, t, u, snap);
      var s1 := Undo(s, t, u, snap);
      assert EntriesOk(s, rest);
      EntriesOnward(s, s1, rest);
      AbortOnward(s1, t, rest, snap);
      OnwardTrans(s, s1, Abort(s1, t, rest, snap));
    }
  }

  /** The undo entry an operation records restores a stamp within the block's bound. */
  lemma RecordOk(s: Store, t: nat, op: TxOp)
    requires IndexOk(s) && BlocksOk(s) && Succeeds(s, t, op)
    ensures UndoOf(s, t, op).Created? || EntryOk(s, UndoOf(s, t, op))
    ensures UndoOf(s, t, op).eid < s.nextEid || (op.TxCreate? && UndoOf(s, t, op) == Created(s.nextEid))
  {
  }

  lemma OpLog(s: Store, t: nat, op: TxOp, log: Log)
    requires IndexOk(s) && BlocksOk(s) && EntriesOk(s, log.undo) && Onward(s, Step(s, t, op))
    ensures EntriesOk(Step(s, t, op), Record(s, t, op, log).undo)
  {
    var s' := Step(s, t, op);
    RecordUndo(s, t, op, log);
    EntriesOnward(s, s', log.undo);
    if Succeeds(s, t, op) {
      var u := UndoOf(s, t, op);
      RecordOk(s, t, op);
      if op.TxCreate? { CreatedBelow(s, t, op); } else { EntryOnward(s, s', u); }
    }
  }

  lemma CreatedBelow(s: Store, t: nat, op: TxOp)
    requires op.TxCreate? && Succeeds(s, t, op)
    ensures Step(s, t, op).nextEid == s.nextEid + 1 && UndoOf(s, t, op) == Created(s.nextEid)
  {
    hide Reindex, PushedLists, InsertAt;
  }

  lemma ActKeeps(w: World, a: Act)
    requires Inv(w) && Legal(a)
    ensures Inv(Next(w, a))
  {
    var w', log := Next(w, a), LogOf(w, a.t);
    assert EntriesOk(w.store, log.undo);
    hide EntriesOk, IndexOk, BlocksOk, Onward, Step, Commit, Abort, Record;
    match a {
      case DoOp(t, op) => StepOnward(w.store, t, op); OpLog(w.store, t, op, log);
      case DoCommit(t, c) => CommitOnward(w.store, t, c, log.undo);
      case DoAbort(t) => AbortOnward(w.store, t, log.undo, log.snap);
    }
    forall t | t in w'.logs ensures EntriesOk(w'.store, w'.logs[t].undo) {
      if !(a.DoOp? && t == a.t) { EntriesOnward(w.store, w'.store, w.logs[t].undo); }
    }
  }

  lemma {:induction false} RunKeepsInv(w: World, acts: seq<Act>)
    requires Inv(w) && AllLegal(acts)
    ensures Inv(RunActs(w, acts))
    decreases |acts|
  {
    hide Inv, Next;
    if acts != [] {
      ActKeeps(w, acts[0]);
      RunKeepsInv(Next(w, acts[0]), acts[1..]);
    }
  }

  /** The bound hides no committed edge a reader may see; all it can hide is a reader's own edge. */
  lemma PruneExact(w: World, e: nat, me: nat, start: nat)
    requires Inv(w) && Find(w.store, e).Some?
    ensures var l := Find(w.store, e).value;
            var blk, x := w.store.blocks[l.b], SlotAt(w.store, l);
            ReadEdge(w.store, e, me, start) ==
              if Ident(x) != DEAD && Sees(x.ts, me, start) && !(IsTxnId(x.ts) && Pruned(blk, start))
              then Shown(x.labelId, x.dst, VisibleVals(x, me, start)) else Hidden
  {
    var l := Find(w.store, e).value;
    FoundLive(w.store, e);
    assert BlockOk(w.store.blocks[l.b]) && SlotAt(w.store, l) in w.store.blocks[l.b].live;
    ReadSlotShows(SlotAt(w.store, l), me, start);
    hide Shown, ReadSlot, VisibleVals;
  }

  // ----- what leaves an edge alone -----

  ghost predicate Kept(s: Store, s': Store, e: nat) {
    Find(s, e).Some? ==> Find(s', e).Some? && SlotAt(s', Find(s', e).value) == SlotAt(s, Find(s, e).value)
  }

  predicate Names(op: TxOp, e: nat) { !op.TxCreate? && op.eid == e }

  lemma StepLeaves(s: Store, t: nat, op: TxOp, e: nat)
    requires IndexOk(s) && !Names(op, e)
    ensures Kept(s, Step(s, t, op), e)
  {
    StepIndex(s, t, op);
    if Find(s, e).Some? && Succeeds(s, t, op) {
      var l := Find(s, e).value;
      FoundLive(s, e);
      var s1 := Step(s, t, op);
      if op.TxCreate? {
        CreateMoves(s, t, op, l.b, l.o);
        hide Step, Succeeds, IndexOk;
        var o: nat :| LiveAt(s1, l.b, o) && s1.blocks[l.b].live[o] == s.blocks[l.b].live[l.o];
        FoundIs(s1, e, l.b, o);
      } else {
        InPlaceLeaves(s, t, op, e);
      }
    }
  }

  lemma InPlaceLeaves(s: Store, t: nat, op: TxOp, e: nat)
    requires IndexOk(s) && IndexOk(Step(s, t, op)) && !op.TxCreate? && op.eid != e && Succeeds(s, t, op) && Find(s, e).Some?
    ensures Kept(s, Step(s, t, op), e)
  {
    var l, k := Find(s, e).value, Find(s, op.eid).value;
    var x, s1 := SlotAt(s, k), Step(s, t, op);
    var y := if op.TxSet? then x.(ts := t, props := PushProps(x.props, op.indices, op.news, t)) else Deleted(x, t);
    StepSetShape(s, t, k, y);
    assert s1 == Touch(PutSlot(s, k, y), k.b, t);
    assert LiveAt(s1, l.b, l.o) && s1.blocks[l.b].live[l.o] == SlotAt(s, l);
    FoundIs(s1, e, l.b, l.o);
  }

  lemma SealLeaves(s: Store, t: nat, c: nat, u: UndoOp, e: nat)
    requires IndexOk(s) && u.eid != e
    ensures Kept(s, CommitOne(s, t, c, u), e)
  {
    OlapIndex.SealKeeps(s, t, c, u);
    if Find(s, e).Some? {
      var l, s1 := Find(s, e).value, CommitOne(s, t, c, u);
      assert LiveAt(s1, l.b, l.o) && s1.blocks[l.b].live[l.o] == SlotAt(s, l);
      FoundIs(s1, e, l.b, l.o);
    }
  }

  lemma UndoLeaves(s: Store, t: nat, u: UndoOp, snap: map<nat, (nat, nat)>, e: nat)
    requires IndexOk(s) && u.eid != e
    ensures Kept(s, Undo(s, t, u, snap), e)
  {
    UndoKeeps(s, t, u, snap);
    var s1 := Undo(s, t, u, snap);
    if Find(s, e).Some? && s1 != s {
      var l, k := Find(s, e).value, Find(s, u.eid).value;
      if u.Created? {
        DropMoves(s, k, l);
        var o: nat :| LiveAt(s1, l.b, o) && s1.blocks[l.b].live[o] == SlotAt(s, l);
        FoundIs(s1, e, l.b, o);
      } else {
        assert LiveAt(s1, l.b, l.o) && s1.blocks[l.b].live[l.o] == SlotAt(s, l);
        FoundIs(s1, e, l.b, l.o);
      }
    }
  }

  lemma DropMoves(s: Store, k: Loc, l: Loc)
    requires LiveAt(s, k.b, k.o) && LiveAt(s, l.b, l.o) && k != l
    ensures exists o: nat :: LiveAt(Dropped(s, k, false), l.b, o) && Dropped(s, k, false).blocks[l.b].live[o] == SlotAt(s, l)
  {
    hide Reindex;
    var o: nat := if k.b == l.b && k.o < l.o then l.o - 1 else l.o;
    assert LiveAt(Dropped(s, k, false), l.b, o) && Dropped(s, k, false).blocks[l.b].live[o] == SlotAt(s, l);
  }

  ghost predicate Silent(us: seq<UndoOp>, e: nat) { forall u | u in us :: u.eid != e }

  lemma {:induction false} CommitLeaves(s: Store, t: nat, c: nat, us: seq<UndoOp>, e: nat)
    requires IndexOk(s) && Silent(us, e)
    ensures Kept(s, Commit(s, t, c, us), e)
    decreases |us|
  {
    hide IndexOk, CommitOne, Find;
    if us != [] {
      SealLeaves(s, t, c, us[0], e);
      OlapIndex.SealKeeps(s, t, c, us[0]);
      CommitLeaves(CommitOne(s, t, c, us[0]), t, c, us[1..], e);
    }
  }

  lemma {:induction false} AbortLeaves(s: Store, t: nat, us: seq<UndoOp>, snap: map<nat, (nat, nat)>, e: nat)
    requires IndexOk(s) && Silent(us, e)
    ensures Kept(s, Abort(s, t, us, snap), e)
    decreases |us|
  {
    hide IndexOk, Undo, Find;
    if us != [] {
      UndoLeaves(s, t, us[|us| - 1], snap, e);
      UndoKeeps(s, t, us[|us| - 1], snap);
      AbortLeaves(Undo(s, t, us[|us| - 1], snap), t, us[..|us| - 1], snap, e);
    }
  }

  // ----- from a write to its commit -----

  /** `u` is the log's first entry for the edge. */
  ghost predicate FirstFor(us: seq<UndoOp>, e: nat, u: UndoOp) {
    u.eid == e && exists i | 0 <= i < |us| :: us[i] == u && forall j | 0 <= j < i :: us[j].eid != e
  }

  /** The slot after the commit, which acts on the first entry only. */
  function Sealed(x: Slot, t: nat, c: nat, u: UndoOp): Slot {
    x.(ts := c, props := if u.WasDeleted? then x.props else Promote(x.props, t, c))
  }

  lemma {:induction false} CommitSeals(s: Store, t: nat, c: nat, us: seq<UndoOp>, e: nat, u: UndoOp)
    requires IndexOk(s) && FirstFor(us, e, u) && Find(s, e).Some? && SlotAt(s, Find(s, e).value).ts == t && c != t
    ensures var s' := Commit(s, t, c, us);
            Find(s', e).Some? && SlotAt(s', Find(s', e).value) == Sealed(SlotAt(s, Find(s, e).value), t, c, u)
    decreases |us|
  {
    var s1 := CommitOne(s, t, c, us[0]);
    OlapIndex.SealKeeps(s, t, c, us[0]);
    if us[0].eid == e {
      FirstHead(us, e, u);
      SealsOne(s, t, c, e, u);
      hide IndexOk, CommitOne, Find;
      CommitSkips(s1, t, c, us[1..], e);
    } else {
      SealLeaves(s, t, c, us[0], e);
      FirstTail(us, e, u);
      hide IndexOk, CommitOne, Find;
      CommitSeals(s1, t, c, us[1..], e, u);
    }
  }

  lemma SealsOne(s: Store, t: nat, c: nat, e: nat, u: UndoOp)
    requires IndexOk(s) && Find(s, e).Some? && SlotAt(s, Find(s, e).value).ts == t && u.eid == e
    ensures var s1 := CommitOne(s, t, c, u);
            Find(s1, e).Some? && SlotAt(s1, Find(s1, e).value) == Sealed(SlotAt(s, Find(s, e).value), t, c, u)
  {
  }

  /** Further entries for an edge already stamped do nothing. */
  lemma {:induction false} CommitSkips(s: Store, t: nat, c: nat, us: seq<UndoOp>, e: nat)
    requires IndexOk(s) && Find(s, e).Some? && SlotAt(s, Find(s, e).value).ts != t
    ensures Kept(s, Commit(s, t, c, us), e)
    decreases |us|
  {
    if us != [] {
      if us[0].eid == e {
        assert CommitOne(s, t, c, us[0]) == s;
      } else {
        SealLeaves(s, t, c, us[0], e);
      }
      OlapIndex.SealKeeps(s, t, c, us[0]);
      hide IndexOk, CommitOne, Find;
      CommitSkips(CommitOne(s, t, c, us[0]), t, c, us[1..], e);
    }
  }

  lemma FirstHead(us: seq<UndoOp>, e: nat, u: UndoOp)
    requires FirstFor(us, e, u) && us[0].eid == e
    ensures us[0] == u
  {
  }

  lemma FirstTail(us: seq<UndoOp>, e: nat, u: UndoOp)
    requires FirstFor(us, e, u) && us[0].eid != e
    ensures FirstFor(us[1..], e, u)
  {
    var i :| 0 <= i < |us| && us[i] == u && forall j | 0 <= j < i :: us[j].eid != e;
    assert us[1..][i - 1] == u;
  }

  /** An act that neither names the edge nor, for its creator, ends the transaction. */
  predicate Leaves(a: Act, e: nat) { a.DoOp? ==> !Names(a.op, e) }

  ghost predicate AllLeave(acts: seq<Act>, e: nat) { forall a | a in acts :: Leaves(a, e) }

  ghost predicate StillOpen(acts: seq<Act>, t: nat) { forall a | a in acts :: a.t == t ==> a.DoOp? }

  /** No running transaction but `t` has an undo entry for the edge. */
  ghost predicate OthersSilent(w: World, e: nat, t: nat) {
    forall k | k in w.logs && k != t :: Silent(w.logs[k].undo, e)
  }

  lemma FirstMore(us: seq<UndoOp>, v: UndoOp, e: nat, u: UndoOp)
    requires FirstFor(us, e, u)
    ensures FirstFor(us + [v], e, u)
  {
    var i :| 0 <= i < |us| && us[i] == u && forall j | 0 <= j < i :: us[j].eid != e;
    assert (us + [v])[i] == u;
  }

  /** The state between a write and its commit. */
  ghost predicate Pending(w: World, e: nat, t: nat, x: Slot, u: UndoOp) {
    && Inv(w) && OthersSilent(w, e, t) && t in w.logs && FirstFor(w.logs[t].undo, e, u)
    && 0 < e < w.store.nextEid && Find(w.store, e).Some? && SlotAt(w.store, Find(w.store, e).value) == x
  }

  /** The state after commit. */
  ghost predicate Settled(w: World, e: nat, x: Slot) {
    && Inv(w) && (forall k | k in w.logs :: Silent(w.logs[k].undo, e))
    && 0 < e < w.store.nextEid && Find(w.store, e).Some? && SlotAt(w.store, Find(w.store, e).value) == x
  }

  lemma StoreLeaves(w: World, a: Act, e: nat)
    requires Inv(w) && Legal(a) && Leaves(a, e) && (a.DoOp? || Silent(LogOf(w, a.t).undo, e))
    ensures Kept(w.store, Next(w, a).store, e) && w.store.nextEid <= Next(w, a).store.nextEid
  {
    var log := LogOf(w, a.t);
    assert EntriesOk(w.store, log.undo);
    hide IndexOk, EntriesOk, Step, Commit, Abort, Record, Kept, BlocksOk;
    match a {
      case DoOp(t, op) => StepLeaves(w.store, t, op, e); StepOnward(w.store, t, op);
      case DoCommit(t, c) => CommitLeaves(w.store, t, c, log.undo, e); CommitOnward(w.store, t, c, log.undo);
      case DoAbort(t) => AbortLeaves(w.store, t, log.undo, log.snap, e); AbortOnward(w.store, t, log.undo, log.snap);
    }
  }

  /** A log silent about the edge stays so. */
  lemma LogLeaves(w: World, a: Act, e: nat, k: nat)
    requires Leaves(a, e) && 0 < e < w.store.nextEid && k in Next(w, a).logs && Silent(LogOf(w, k).undo, e)
    ensures Silent(Next(w, a).logs[k].undo, e)
  {
  }

  lemma PendingStep(w: World, a: Act, e: nat, t: nat, x: Slot, u: UndoOp)
    requires Pending(w, e, t, x, u) && Legal(a) && Leaves(a, e) && (a.t == t ==> a.DoOp?)
    ensures Pending(Next(w, a), e, t, x, u)
  {
    var w' := Next(w, a);
    ActKeeps(w, a);
    StoreLeaves(w, a, e);
    forall k | k in w'.logs && k != t ensures Silent(w'.logs[k].undo, e) { LogLeaves(w, a, e, k); }
    hide Inv, Step, Commit, Abort, Record, FirstFor, Kept;
    if a.t == t { OwnLogFirst(w, a, e, u); }
    KeptSlot(w.store, w'.store, e);
  }

  lemma KeptSlot(s: Store, s': Store, e: nat)
    requires Kept(s, s', e) && Find(s, e).Some?
    ensures Find(s', e).Some? && SlotAt(s', Find(s', e).value) == SlotAt(s, Find(s, e).value)
  {
  }

  lemma OwnLogFirst(w: World, a: Act, e: nat, u: UndoOp)
    requires a.DoOp? && a.t in w.logs && FirstFor(w.logs[a.t].undo, e, u)
    ensures FirstFor(Next(w, a).logs[a.t].undo, e, u)
  {
    var us, us' := w.logs[a.t].undo, Next(w, a).logs[a.t].undo;
    RecordUndo(w.store, a.t, a.op, w.logs[a.t]);
    hide Step, Record, FirstFor;
    if Succeeds(w.store, a.t, a.op) { FirstMore(us, UndoOf(w.store, a.t, a.op), e, u); }
    assert us + [] == us;
  }

  lemma {:induction false} PendingRun(w: World, acts: seq<Act>, e: nat, t: nat, x: Slot, u: UndoOp)
    requires Pending(w, e, t, x, u) && AllLegal(acts) && AllLeave(acts, e) && StillOpen(acts, t)
    ensures Pending(RunActs(w, acts), e, t, x, u)
    decreases |acts|
  {
    hide Pending, Next;
    if acts != [] {
      PendingStep(w, acts[0], e, t, x, u);
      PendingRun(Next(w, acts[0]), acts[1..], e, t, x, u);
    }
  }

  lemma SettledStep(w: World, a: Act, e: nat, x: Slot)
    requires Settled(w, e, x) && Legal(a) && Leaves(a, e)
    ensures Settled(Next(w, a), e, x)
  {
    var w' := Next(w, a);
    ActKeeps(w, a);
    StoreLeaves(w, a, e);
    forall k | k in w'.logs ensures Silent(w'.logs[k].undo, e) { LogLeaves(w, a, e, k); }
  }

  lemma {:induction false} SettledRun(w: World, acts: seq<Act>, e: nat, x: Slot)
    requires Settled(w, e, x) && AllLegal(acts) && AllLeave(acts, e)
    ensures Settled(RunActs(w, acts), e, x)
    decreases |acts|
  {
    hide Settled, Next;
    if acts != [] {
      SettledStep(w, acts[0], e, x);
      SettledRun(Next(w, acts[0]), acts[1..], e, x);
    }
  }

  lemma CommitSettles(w: World, e: nat, t: nat, c: nat, x: Slot, u: UndoOp)
    requires Pending(w, e, t, x, u) && x.ts == t && IsTxnId(t) && !IsTxnId(c)
    ensures Settled(Next(w, DoCommit(t, c)), e, Sealed(x, t, c, u))
  {
    var a := DoCommit(t, c);
    ActKeeps(w, a);
    CommitSeals(w.store, t, c, w.logs[t].undo, e, u);
    CommitOnward(w.store, t, c, w.logs[t].undo);
    hide Inv, Commit, FirstFor, Find;
  }

  /** The slot a successful creation puts in place. */
  ghost predicate NewSlot(x: Slot, e: nat, t: nat, op: TxOp)
    requires op.TxCreate?
  {
    && x.eid == e && x.ts == t && x.labelId == op.labelId && x.dst == op.dst && |x.props| == |op.vals|
    && forall c | 0 <= c < |x.props| :: LastIs(x.props[c], Version(t, op.vals[c]))
  }

  ghost predicate LastIs(vs: seq<Version>, v: Version) { vs != [] && vs[|vs| - 1] == v }

  lemma CreatesNew(s: Store, t: nat, op: TxOp) returns (x: Slot)
    requires IndexOk(s) && op.TxCreate? && Succeeds(s, t, op)
    ensures NewSlot(x, s.nextEid, t, op)
    ensures var s1 := Step(s, t, op); Find(s1, s.nextEid).Some? && SlotAt(s1, Find(s1, s.nextEid).value) == x
  {
    var sr := WithRoom(s, op.src, t);
    var b := sr.heads[op.src].value;
    x := Slot(s.nextEid, op.labelId, op.dst, t, PushedLists(sr.blocks[b], op.pos, t, op.vals));
    StepIndex(s, t, op);
    var s1 := Step(s, t, op);
    PlacedThere(sr, b, op.pos, op.labelId, op.dst, t, op.vals);
    assert s1 == Placed(sr, b, op.pos, op.labelId, op.dst, t, op.vals);
    hide Placed, Step, IndexOk;
    FoundIs(s1, s.nextEid, b, op.pos);
  }

  lemma PlacedThere(s: Store, b: nat, pos: nat, lb: nat, dst: nat, t: nat, vals: seq<Option<int>>)
    requires b < |s.blocks| && pos <= |s.blocks[b].live|
    ensures var s1 := Placed(s, b, pos, lb, dst, t, vals);
            LiveAt(s1, b, pos) && s1.blocks[b].live[pos] == Slot(s.nextEid, lb, dst, t, PushedLists(s.blocks[b], pos, t, vals))
  {
    hide Reindex, PushedLists;
  }

  lemma CreatePends(w: World, t: nat, op: TxOp) returns (x: Slot)
    requires Inv(w) && IsTxnId(t) && op.TxCreate? && Succeeds(w.store, t, op)
    ensures NewSlot(x, w.store.nextEid, t, op) && Pending(Next(w, DoOp(t, op)), w.store.nextEid, t, x, Created(w.store.nextEid))
  {
    var e, w', log := w.store.nextEid, Next(w, DoOp(t, op)), LogOf(w, t);
    assert EntriesOk(w.store, log.undo);
    ActKeeps(w, DoOp(t, op));
    x := CreatesNew(w.store, t, op);
    CreatedBelow(w.store, t, op);
    RecordUndo(w.store, t, op, log);
    NewFirst(w.store, log.undo);
    forall k | k in w'.logs && k != t ensures Silent(w'.logs[k].undo, e) {
      assert EntriesOk(w.store, w.logs[k].undo);
      hide Step, Record;
    }
  }

  lemma NewFirst(s: Store, us: seq<UndoOp>)
    requires EntriesOk(s, us)
    ensures FirstFor(us + [Created(s.nextEid)], s.nextEid, Created(s.nextEid))
  {
    var vs := us + [Created(s.nextEid)];
    assert vs[|us|] == Created(s.nextEid);
    forall j | 0 <= j < |us| ensures vs[j].eid != s.nextEid { assert EntryOk(s, us[j]); }
  }

  lemma NewView(x: Slot, e: nat, t: nat, op: TxOp, start: nat)
    requires op.TxCreate? && NewSlot(x, e, t, op) && IsTxnId(t)
    ensures VisibleVals(x, t, start) == op.vals
  {
  }

  lemma SealedView(x: Slot, e: nat, t: nat, op: TxOp, c: nat, me: nat, start: nat)
    requires op.TxCreate? && NewSlot(x, e, t, op) && !IsTxnId(c) && c <= start
    ensures VisibleVals(Sealed(x, t, c, Created(e)), me, start) == op.vals
  {
  }
}
