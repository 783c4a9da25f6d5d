/**
  What aborting an analytical transaction restores: everything, exactly when no edge whose identity
  differs from the tombstone's was deleted twice.
 */
module OlapAbortTheorem {
  import opened Wrap
  import opened Stamps
  import opened OlapStore
  import opened OlapIndex
  import opened OlapAbort
  import opened OlapRestore

  // ----- how often an edge was deleted, and what the snapshot says about it -----

  function Deletions(us: seq<UndoOp>, e: nat): nat {
    if us == [] then 0 else (if us[0].WasDeleted? && us[0].eid == e then 1 else 0) + Deletions(us[1..], e)
  }

  function IdentOf(s: Store, e: nat): (nat, nat)
    requires Find(s, e).Some?
  {
    Ident(SlotAt(s, Find(s, e).value))
  }

  const DEAD: (nat, nat) := (TOMBSTONE_LABEL, TOMBSTONE_DST)

  lemma {:induction false} DeletedCount(us: seq<UndoOp>, e: nat)
    ensures e in DeletedIn(us) <==> Deletions(us, e) > 0
  {
    if us != [] { DeletedCount(us[1..], e); }
  }

  lemma DeletionsHead(u: UndoOp, us: seq<UndoOp>, e: nat)
    ensures Deletions([u] + us, e) == (if u.WasDeleted? && u.eid == e then 1 else 0) + Deletions(us, e)
  {
    assert ([u] + us)[1..] == us;
  }

  /** The only identity an operation changes is that of an edge it deletes. */
  lemma StepIdent(s: Store, t: nat, op: TxOp, e: nat)
    requires IndexOk(s) && Find(s, e).Some?
    ensures var s1 := Step(s, t, op);
            && Find(s1, e).Some?
            && IdentOf(s1, e) == if Succeeds(s, t, op) && op.TxDelete? && op.eid == e then DEAD else IdentOf(s, e)
  {
    hide *;
    StepIndex(s, t, op);
    if !Succeeds(s, t, op) {
      FailsSame(s, t, op);
    } else if op.TxCreate? {
      StepIdentCreate(s, t, op, e);
    } else {
      StepIdentInPlace(s, t, op, e);
    }
  }

  /** Creating an edge moves others by at most one slot and changes none of them. */
  lemma CreateMoves(s: Store, t: nat, op: TxOp, k: nat, i: nat)
    requires op.TxCreate? && Succeeds(s, t, op) && LiveAt(s, k, i)
    ensures var s1 := Step(s, t, op);
            exists o: nat :: LiveAt(s1, k, o) && s1.blocks[k].live[o] == s.blocks[k].live[i]
  {
    var s1 := Step(s, t, op);
    var b, m, x := CreateShape(s, t, op.src, op.labelId, op.dst, op.vals, op.pos);
    InsertedAt(m, op.pos, x);
    hide Step, InsertAt, Succeeds;
    var o: nat := if k == b && i >= op.pos then i + 1 else i;
    assert LiveAt(s1, k, o) && s1.blocks[k].live[o] == s.blocks[k].live[i];
  }

  lemma FoundIs(s: Store, e: nat, b: nat, o: nat)
    requires IndexOk(s) && LiveAt(s, b, o) && EidAt(s, b, o) == e
    ensures Find(s, e) == Some(Loc(b, o)) && SlotAt(s, Loc(b, o)) == s.blocks[b].live[o]
  {
    IndexIsScan(s, e, b, o);
  }

  lemma StepIdentCreate(s: Store, t: nat, op: TxOp, e: nat)
    requires IndexOk(s) && Find(s, e).Some? && Succeeds(s, t, op) && op.TxCreate? && IndexOk(Step(s, t, op))
    ensures Find(Step(s, t, op), e).Some? && IdentOf(Step(s, t, op), e) == IdentOf(s, e)
  {
    var l := Find(s, e).value;
    var s1 := Step(s, t, op);
    CreateMoves(s, t, op, l.b, l.o);
    hide Step, Succeeds, IndexOk;
    var o: nat :| LiveAt(s1, l.b, o) && s1.blocks[l.b].live[o] == s.blocks[l.b].live[l.o];
    FoundIs(s1, e, l.b, o);
  }

  lemma StepIdentInPlace(s: Store, t: nat, op: TxOp, e: nat)
    requires IndexOk(s) && Find(s, e).Some? && Succeeds(s, t, op) && !op.TxCreate? && IndexOk(Step(s, t, op))
    ensures var s1 := Step(s, t, op);
            && Find(s1, e).Some?
            && IdentOf(s1, e) == if op.TxDelete? && op.eid == e then DEAD else IdentOf(s, e)
  {
    var l := Find(s, e).value;
    var k := Find(s, op.eid).value;
    var x := SlotAt(s, k);
    var s1 := Step(s, t, op);
    var y := if op.TxSet? then x.(ts := t, props := PushProps(x.props, op.indices, op.news, t))
             else x.(labelId := TOMBSTONE_LABEL, dst := TOMBSTONE_DST, ts := t);
    StepSetShape(s, t, k, y);
    assert s1 == Touch(PutSlot(s, k, y), k.b, t);
    assert LiveAt(s1, l.b, l.o) && EidAt(s1, l.b, l.o) == e;
    IndexIsScan(s1, e, l.b, l.o);
    if l == k { assert op.eid == e; }
  }

  lemma RecordSnap(s: Store, t: nat, op: TxOp, log: Log)
    ensures Record(s, t, op, log).snap ==
              if Succeeds(s, t, op) && op.TxDelete? then log.snap[op.eid := IdentOf(s, op.eid)] else log.snap
  {
  }

  /** Every deleted edge has a snapshot. */
  lemma {:induction false} SnapKeys(s: Store, t: nat, ops: seq<TxOp>, log: Log)
    ensures log.snap.Keys + DeletedIn(UndoList(s, t, ops)) <= Records(s, t, ops, log).snap.Keys
    decreases |ops|
  {
    hide Succeeds, UndoOf, Step, Record;
    if ops != [] {
      var log1 := Record(s, t, ops[0], log);
      SnapKeys(Step(s, t, ops[0]), t, ops[1..], log1);
      RecordSnap(s, t, ops[0], log);
      ListHead(s, t, ops);
      var us := UndoList(Step(s, t, ops[0]), t, ops[1..]);
      if Succeeds(s, t, ops[0]) {
        DeletedHead(UndoOf(s, t, ops[0]), us);
        UndoKind(s, t, ops[0]);
      }
    }
  }

  lemma UndoKind(s: Store, t: nat, op: TxOp)
    requires Succeeds(s, t, op)
    ensures var u := UndoOf(s, t, op);
            && (u.WasDeleted? <==> op.TxDelete?) && (op.TxDelete? ==> u.eid == op.eid)
            && DeletedIn([u]) == if op.TxDelete? then {op.eid} else {}
  {
  }

  /** The snapshot of an edge that was there before the run: its identity after one deletion, the
      tombstone's after more. */
  lemma {:induction false} SnapOf(s: Store, t: nat, ops: seq<TxOp>, log: Log, e: nat)
    requires IndexOk(s) && Find(s, e).Some?
    ensures var k := Deletions(UndoList(s, t, ops), e);
            var snap := Records(s, t, ops, log).snap;
            && (k == 0 ==> (e in snap <==> e in log.snap) && (e in snap ==> snap[e] == log.snap[e]))
            && (k > 0 ==> e in snap && snap[e] == if k == 1 then IdentOf(s, e) else DEAD)
    decreases |ops|
  {
    hide *;
    if ops == [] {
      EmptyRun(s, t, log, e);
    } else {
      var op := ops[0];
      var s1, us := Step(s, t, op), UndoList(Step(s, t, op), t, ops[1..]);
      StepIdent(s, t, op, e);
      StepIndex(s, t, op);
      RecordSnap(s, t, op, log);
      SnapOf(s1, t, ops[1..], Record(s, t, op, log), e);
      ListHead(s, t, ops);
      RecordsHead(s, t, ops, log);
      if Succeeds(s, t, op) {
        UndoKind(s, t, op);
        DeletionsHead(UndoOf(s, t, op), us, e);
      }
    }
  }

  lemma EmptyRun(s: Store, t: nat, log: Log, e: nat)
    ensures UndoList(s, t, []) == [] && Deletions([], e) == 0 && Records(s, t, [], log) == log
  {
  }

  lemma RecordsHead(s: Store, t: nat, ops: seq<TxOp>, log: Log)
    requires ops != []
    ensures Records(s, t, ops, log) == Records(Step(s, t, ops[0]), t, ops[1..], Record(s, t, ops[0], log))
  {
  }

  // ----- the theorem -----

  /** No version in the store carries the transaction's stamp yet. */
  ghost predicate NoTrace(s: Store, t: nat) {
    forall b | 0 <= b < |s.blocks| :: NoTraceLive(s.blocks[b].live, t)
  }

  ghost predicate NoTraceLive(live: seq<Slot>, t: nat) {
    forall x, c | x in live && 0 <= c < |x.props| :: Clear(x.props[c], t)
  }

  /** Same edge ids, commit stamps and version lists at the same places. */
  ghost predicate SameLive(l: seq<Slot>, m: seq<Slot>) {
    |l| == |m| && forall i | 0 <= i < |l| :: l[i].eid == m[i].eid && l[i].ts == m[i].ts && l[i].props == m[i].props
  }

  /** The restored store: blocks allocated meanwhile stay behind empty. */
  ghost predicate SameButIdentity(r: Store, s0: Store) {
    && |r.blocks| >= |s0.blocks| && r.index == s0.index
    && (forall b | 0 <= b < |s0.blocks| :: SameLive(r.blocks[b].live, s0.blocks[b].live))
    && (forall b | |s0.blocks| <= b < |r.blocks| :: r.blocks[b].live == [])
  }

  ghost predicate FullyRestored(r: Store, s0: Store) {
    SameButIdentity(r, s0) && forall b | 0 <= b < |s0.blocks| :: r.blocks[b].live == s0.blocks[b].live
  }

  function AbortAfter(s0: Store, t: nat, ops: seq<TxOp>): Store {
    var log := Records(s0, t, ops, NO_LOG);
    Abort(Steps(s0, t, ops), t, log.undo, log.snap)
  }

  lemma SelfRel(s: Store, t: nat, snap: map<nat, (nat, nat)>)
    ensures StoreRel(s, s, t, {}, snap)
  {
  }

  lemma NothingToCover(s: Store, t: nat)
    requires NoTrace(s, t)
    ensures Covered(s, [], t)
  {
  }

  lemma ClearMatch(p: seq<seq<Version>>, q: seq<seq<Version>>, t: nat)
    requires ListsMatch(p, q, t)
    requires forall c | 0 <= c < |p| :: Clear(p[c], t)
    requires forall c | 0 <= c < |q| :: Clear(q[c], t)
    ensures p == q
  {
    forall c | 0 <= c < |p| ensures p[c] == q[c] {
      WithoutNone(p[c], t);
      WithoutNone(q[c], t);
    }
  }

  lemma CoveredByNothing(x: Slot, t: nat)
    requires CoveredSlot(x, [], t)
    ensures forall c | 0 <= c < |x.props| :: Clear(x.props[c], t)
  {
  }

  lemma LiveRestored(l: seq<Slot>, m: seq<Slot>, t: nat, gone: set<nat>, snap: map<nat, (nat, nat)>)
    requires LiveRel(l, m, t, gone, snap) && CoveredLive(l, [], t) && NoTraceLive(m, t)
    ensures SameLive(l, m)
  {
    forall i | 0 <= i < |l| ensures l[i].eid == m[i].eid && l[i].ts == m[i].ts && l[i].props == m[i].props {
      assert SlotRel(l[i], m[i], t, gone, snap);
      assert l[i] in l && m[i] in m;
      CoveredByNothing(l[i], t);
      ClearMatch(l[i].props, m[i].props, t);
    }
  }

  /** Two stores with their edges at the same places have the same index. */
  lemma SameIndex(r: Store, s: Store)
    requires IndexOk(r) && IndexOk(s)
    requires forall b, o :: LiveAt(r, b, o) <==> LiveAt(s, b, o)
    requires forall b, o | LiveAt(s, b, o) :: EidAt(r, b, o) == EidAt(s, b, o)
    ensures r.index == s.index
  {
  }

  lemma SamePlaces(r: Store, s0: Store)
    requires |r.blocks| >= |s0.blocks|
    requires forall b | 0 <= b < |s0.blocks| :: SameLive(r.blocks[b].live, s0.blocks[b].live)
    requires forall b | |s0.blocks| <= b < |r.blocks| :: r.blocks[b].live == []
    ensures forall b, o :: LiveAt(r, b, o) <==> LiveAt(s0, b, o)
    ensures forall b, o | LiveAt(s0, b, o) :: EidAt(r, b, o) == EidAt(s0, b, o)
  {
  }

  lemma AbortRelates(s0: Store, t: nat, ops: seq<TxOp>)
    requires IndexOk(s0) && NoTrace(s0, t)
    ensures var r := AbortAfter(s0, t, ops);
            && IndexOk(r) && Covered(r, [], t)
            && StoreRel(r, s0, t, DeletedIn(UndoList(s0, t, ops)), Records(s0, t, ops, NO_LOG).snap)
  {
    hide *;
    var log, us, s := Records(s0, t, ops, NO_LOG), UndoList(s0, t, ops), Steps(s0, t, ops);
    RecordsUndo(s0, t, ops, NO_LOG);
    NoLog(us);
    SnapKeys(s0, t, ops, NO_LOG);
    StepsIndex(s0, t, ops);
    SelfRel(s, t, log.snap);
    NothingToCover(s0, t);
    CoverSteps(s0, [], t, ops);
    AbortRun(s0, t, ops, s, [], log.snap);
    AbortIndex(s, t, us, log.snap);
    AfterIs(s0, t, ops);
  }

  lemma NoLog(us: seq<UndoOp>)
    ensures NO_LOG.undo + us == us && [] + us == us
  {
  }

  lemma AfterIs(s0: Store, t: nat, ops: seq<TxOp>)
    ensures var log := Records(s0, t, ops, NO_LOG); AbortAfter(s0, t, ops) == Abort(Steps(s0, t, ops), t, log.undo, log.snap)
  {
  }

  /** Whatever one transaction created, wrote and deleted, its abort puts every edge back at its place
      with its commit stamp and its exact version lists, removes its own edges, and restores the index. */
  lemma AbortRestores(s0: Store, t: nat, ops: seq<TxOp>)
    requires IndexOk(s0) && NoTrace(s0, t)
    ensures SameButIdentity(AbortAfter(s0, t, ops), s0)
  {
    var r := AbortAfter(s0, t, ops);
    var gone, snap := DeletedIn(UndoList(s0, t, ops)), Records(s0, t, ops, NO_LOG).snap;
    AbortRelates(s0, t, ops);
    hide AbortAfter, DeletedIn, UndoList, Records, IndexOk, LiveRel, CoveredLive, NoTraceLive, SameLive;
    forall b | 0 <= b < |s0.blocks| ensures SameLive(r.blocks[b].live, s0.blocks[b].live) {
      LiveRestored(r.blocks[b].live, s0.blocks[b].live, t, gone, snap);
    }
    SamePlaces(r, s0);
    SameIndex(r, s0);
  }

  /** The identity an edge comes back with: its own, unless it was deleted more than once. */
  lemma AbortIdentity(s0: Store, t: nat, ops: seq<TxOp>, b: nat, o: nat)
    requires IndexOk(s0) && NoTrace(s0, t) && LiveAt(s0, b, o)
    ensures var r := AbortAfter(s0, t, ops);
            && LiveAt(r, b, o)
            && Ident(r.blocks[b].live[o]) ==
                 if Deletions(UndoList(s0, t, ops), EidAt(s0, b, o)) >= 2 then DEAD else Ident(s0.blocks[b].live[o])
  {
    var r, us := AbortAfter(s0, t, ops), UndoList(s0, t, ops);
    var snap, e := Records(s0, t, ops, NO_LOG).snap, EidAt(s0, b, o);
    AbortRelates(s0, t, ops);
    SamePlace(r, s0, t, DeletedIn(us), snap, b, o);
    IndexIsScan(s0, e, b, o);
    SnapOf(s0, t, ops, NO_LOG, e);
    DeletedCount(us, e);
  }

  /** The transaction deleted a live edge twice whose identity is not the tombstone's own. */
  ghost predicate TwiceDeleted(s0: Store, t: nat, ops: seq<TxOp>, b: int, o: int) {
    LiveAt(s0, b, o) && Deletions(UndoList(s0, t, ops), EidAt(s0, b, o)) >= 2 && Ident(s0.blocks[b].live[o]) != DEAD
  }

  /** Abort is an exact inverse if and only if no such edge was deleted twice. */
  lemma AbortExactIff(s0: Store, t: nat, ops: seq<TxOp>)
    requires IndexOk(s0) && NoTrace(s0, t)
    ensures FullyRestored(AbortAfter(s0, t, ops), s0) <==> (forall b, o :: !TwiceDeleted(s0, t, ops, b, o))
  {
    var r := AbortAfter(s0, t, ops);
    AbortRestores(s0, t, ops);
    hide AbortAfter, UndoList, Deletions, IndexOk, NoTrace;
    if FullyRestored(r, s0) {
      forall b, o ensures !TwiceDeleted(s0, t, ops, b, o) {
        if LiveAt(s0, b, o) { AbortIdentity(s0, t, ops, b, o); }
      }
    }
    if forall b, o :: !TwiceDeleted(s0, t, ops, b, o) {
      forall b | 0 <= b < |s0.blocks| ensures r.blocks[b].live == s0.blocks[b].live {
        assert SameLive(r.blocks[b].live, s0.blocks[b].live);
        forall o | 0 <= o < |s0.blocks[b].live| ensures r.blocks[b].live[o] == s0.blocks[b].live[o] {
          assert LiveAt(s0, b, o);
          AbortIdentity(s0, t, ops, b, o);
          assert !TwiceDeleted(s0, t, ops, b, o);
        }
      }
    }
  }

  /** Deleting an edge twice in one transaction and aborting loses its label and destination. */
  lemma DoubleDeleteLosesIdentity()
    ensures var s0 := OneEdge();
            IndexOk(s0) && NoTrace(s0, TXN_ID_START) &&
            var r := AbortAfter(s0, TXN_ID_START, [TxDelete(1), TxDelete(1)]);
            LiveAt(r, 0, 0) && Ident(s0.blocks[0].live[0]) == (5, 7) && Ident(r.blocks[0].live[0]) == DEAD
  {
    var s0, ops := OneEdge(), [TxDelete(1), TxDelete(1)];
    assert IndexOk(s0) && LiveAt(s0, 0, 0) && EidAt(s0, 0, 0) == 1;
    var s1 := Delete(s0, TXN_ID_START, 1);
    var u0, u1 := UndoOf(s0, TXN_ID_START, ops[0]), UndoOf(s1, TXN_ID_START, ops[1]);
    assert ops[1..] == [TxDelete(1)] && ops[1..][1..] == [];
    assert UndoList(s1, TXN_ID_START, ops[1..]) == [u1];
    assert UndoList(s0, TXN_ID_START, ops) == [u0] + [u1];
    assert Deletions([u1], 1) == 1 by { assert [u1][1..] == []; }
    DeletionsHead(u0, [u1], 1);
    AbortIdentity(s0, TXN_ID_START, ops, 0, 0);
  }

  function OneEdge(): Store {
    Store([Block(9, None, false, 3, [Slot(1, 5, 7, 3, [])], [])], map[1 := Loc(0, 0)], map[9 := Some(0)], 2)
  }
}
