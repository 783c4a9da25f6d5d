/** The abort theorem for whole runs of one analytical transaction. */
module OlapRestore {
  import opened Wrap
  import opened Stamps
  import opened OlapStore
  import opened OlapIndex
  import opened OlapAbort

  function UndoList(s: Store, t: nat, ops: seq<TxOp>): seq<UndoOp>
    decreases |ops|
  {
    if ops == [] then []
    else (if Succeeds(s, t, ops[0]) then [UndoOf(s, t, ops[0])] else []) + UndoList(Step(s, t, ops[0]), t, ops[1..])
  }

  lemma {:induction false} RecordsUndo(s: Store, t: nat, ops: seq<TxOp>, log: Log)
    ensures Records(s, t, ops, log).undo == log.undo + UndoList(s, t, ops)
    decreases |ops|
  {
    if ops != [] {
      RecordsUndo(Step(s, t, ops[0]), t, ops[1..], Record(s, t, ops[0], log));
      RecordUndo(s, t, ops[0], log);
    }
  }

  lemma RecordUndo(s: Store, t: nat, op: TxOp, log: Log)
    ensures Record(s, t, op, log).undo == log.undo + (if Succeeds(s, t, op) then [UndoOf(s, t, op)] else [])
  {
    assert log.undo + [] == log.undo;
  }

  lemma FailsSame(s: Store, t: nat, op: TxOp)
    requires !Succeeds(s, t, op)
    ensures Step(s, t, op) == s
  {
  }

  lemma StepIndex(s: Store, t: nat, op: TxOp)
    requires IndexOk(s)
    ensures IndexOk(Step(s, t, op))
  {
    match op
    case TxCreate(src, lb, dst, vals, pos) => CreateKeeps(s, src, lb, dst, t, vals, pos);
    case TxSet(eid, indices, news) => SetKeeps(s, t, eid, indices, news);
    case TxDelete(eid) => DeleteKeeps(s, t, eid);
  }

  lemma {:induction false} StepsIndex(s: Store, t: nat, ops: seq<TxOp>)
    requires IndexOk(s)
    ensures IndexOk(Steps(s, t, ops))
    decreases |ops|
  {
    hide IndexOk, Step;
    if ops != [] {
      StepIndex(s, t, ops[0]);
      StepsIndex(Step(s, t, ops[0]), t, ops[1..]);
    }
  }

  /** Undoing `a` then `b`'s tail: the newest entries go first. */
  lemma {:induction false} AbortConcat(s: Store, t: nat, a: seq<UndoOp>, b: seq<UndoOp>, snap: map<nat, (nat, nat)>)
    ensures Abort(s, t, a + b, snap) == Abort(Abort(s, t, b, snap), t, a, snap)
    decreases |b|
  {
    hide Undo;
    if b == [] {
      assert a + b == a;
    } else {
      var u := b[|b| - 1];
      assert (a + b)[|a + b| - 1] == u && (a + b)[..|a + b| - 1] == a + b[..|b| - 1];
      AbortConcat(Undo(s, t, u, snap), t, a, b[..|b| - 1], snap);
    }
  }

  lemma AbortHead(s: Store, t: nat, u: UndoOp, us: seq<UndoOp>, snap: map<nat, (nat, nat)>)
    ensures Abort(s, t, [u] + us, snap) == Undo(Abort(s, t, us, snap), t, u, snap)
  {
    AbortConcat(s, t, [u], us, snap);
    assert [u][..0] == [];
    assert Abort(Abort(s, t, us, snap), t, [u], snap) == Abort(Undo(Abort(s, t, us, snap), t, u, snap), t, [], snap);
  }

  lemma {:induction false} AbortIndex(s: Store, t: nat, us: seq<UndoOp>, snap: map<nat, (nat, nat)>)
    requires IndexOk(s)
    ensures IndexOk(Abort(s, t, us, snap))
    decreases |us|
  {
    hide IndexOk, Undo;
    if us != [] {
      UndoKeeps(s, t, us[|us| - 1], snap);
      AbortIndex(Undo(s, t, us[|us| - 1], snap), t, us[..|us| - 1], snap);
    }
  }

  lemma DeletedHead(u: UndoOp, us: seq<UndoOp>)
    ensures DeletedIn([u] + us) == DeletedIn([u]) + DeletedIn(us)
  {
    assert ([u] + us)[1..] == us && [u][1..] == [];
  }

  // ----- versions written by the aborting transaction are all covered by undo entries -----

  ghost predicate CoveredColumn(eid: nat, c: nat, us: seq<UndoOp>) {
    exists u | u in us :: u.WasSet? && u.eid == eid && c in u.indices
  }

  ghost predicate CoveredSlot(x: Slot, us: seq<UndoOp>, t: nat) {
    Created(x.eid) in us ||
    forall c | 0 <= c < |x.props| && !Clear(x.props[c], t) :: CoveredColumn(x.eid, c, us)
  }

  ghost predicate CoveredLive(live: seq<Slot>, us: seq<UndoOp>, t: nat) { forall x | x in live :: CoveredSlot(x, us, t) }

  ghost predicate Covered(s: Store, us: seq<UndoOp>, t: nat) {
    forall b | 0 <= b < |s.blocks| :: CoveredLive(s.blocks[b].live, us, t)
  }

  lemma MoreCover(x: Slot, us: seq<UndoOp>, u: UndoOp, t: nat)
    requires CoveredSlot(x, us, t)
    ensures CoveredSlot(x, us + [u], t)
  {
  }

  lemma SetCover(x: Slot, us: seq<UndoOp>, t: nat, indices: seq<nat>, news: seq<int>, oldTs: nat)
    requires CoveredSlot(x, us, t)
    ensures CoveredSlot(x.(ts := t, props := PushProps(x.props, indices, news, t)), us + [WasSet(x.eid, indices, oldTs)], t)
  {
    var u := WasSet(x.eid, indices, oldTs);
    var y := x.(ts := t, props := PushProps(x.props, indices, news, t));
    MoreCover(x, us, u, t);
    PushDirties(x.props, indices, news, t);
    if Created(x.eid) !in us + [u] {
      forall c | 0 <= c < |y.props| && !Clear(y.props[c], t) ensures CoveredColumn(y.eid, c, us + [u]) {
        if c in indices { assert u in us + [u]; } else { assert y.props[c] == x.props[c]; }
      }
    }
  }

  lemma CoverPut(s: Store, us: seq<UndoOp>, us': seq<UndoOp>, t: nat, l: Loc, y: Slot)
    requires l.b < |s.blocks| && l.o < |s.blocks[l.b].live|
    requires forall b | 0 <= b < |s.blocks| :: CoveredLive(s.blocks[b].live, us', t)
    requires CoveredSlot(y, us', t)
    ensures Covered(PutSlot(s, l, y), us', t) && Covered(Touch(PutSlot(s, l, y), l.b, t), us', t)
  {
  }

  lemma CoverMore(s: Store, us: seq<UndoOp>, u: UndoOp, t: nat)
    requires Covered(s, us, t)
    ensures Covered(s, us + [u], t)
  {
  }

  lemma CoverCreate(s: Store, us: seq<UndoOp>, t: nat, op: TxOp)
    requires Covered(s, us, t) && op.TxCreate? && Succeeds(s, t, op)
    ensures Covered(Step(s, t, op), us + [Created(s.nextEid)], t)
  {
    var us' := us + [Created(s.nextEid)];
    var s1 := Step(s, t, op);
    CoverMore(s, us, Created(s.nextEid), t);
    var b, m, x := CreateShape(s, t, op.src, op.labelId, op.dst, op.vals, op.pos);
    hide Step, CoveredSlot;
    assert CoveredSlot(x, us', t) by { CreatedCovers(x, us, s.nextEid, t); }
    forall b' | 0 <= b' < |s1.blocks| ensures CoveredLive(s1.blocks[b'].live, us', t) {
      if b' == b {
        forall y | y in s1.blocks[b].live ensures CoveredSlot(y, us', t) { if y != x { assert y in m; } }
      }
    }
  }

  lemma CreatedCovers(x: Slot, us: seq<UndoOp>, n: nat, t: nat)
    requires x.eid == n
    ensures CoveredSlot(x, us + [Created(n)], t)
  {
  }

  lemma CoverStep(s: Store, us: seq<UndoOp>, t: nat, op: TxOp)
    requires Covered(s, us, t) && Succeeds(s, t, op)
    ensures Covered(Step(s, t, op), us + [UndoOf(s, t, op)], t)
  {
    var u := UndoOf(s, t, op);
    if op.TxCreate? {
      CoverCreate(s, us, t, op);
    } else {
      var l := Find(s, u.eid).value;
      var x := SlotAt(s, l);
      assert x in s.blocks[l.b].live && CoveredLive(s.blocks[l.b].live, us, t);
      CoverMore(s, us, u, t);
      if op.TxSet? {
        SetCover(x, us, t, op.indices, op.news, x.ts);
        CoverPut(s, us, us + [u], t, l, x.(ts := t, props := PushProps(x.props, op.indices, op.news, t)));
      } else {
        MoreCover(x, us, u, t);
        var y := x.(labelId := TOMBSTONE_LABEL, dst := TOMBSTONE_DST, ts := t);
        assert CoveredSlot(y, us + [u], t);
        CoverPut(s, us, us + [u], t, l, y);
      }
    }
  }

  lemma {:induction false} CoverSteps(s: Store, us: seq<UndoOp>, t: nat, ops: seq<TxOp>)
    requires Covered(s, us, t)
    ensures Covered(Steps(s, t, ops), us + UndoList(s, t, ops), t)
    decreases |ops|
  {
    hide Covered, Succeeds, UndoOf;
    if ops == [] {
      assert us + [] == us;
    } else {
      var op, s1 := ops[0], Step(s, t, ops[0]);
      var rest := UndoList(s1, t, ops[1..]);
      if Succeeds(s, t, op) {
        CoverStep(s, us, t, op);
        CoverSteps(s1, us + [UndoOf(s, t, op)], t, ops[1..]);
        assert us + [UndoOf(s, t, op)] + rest == us + ([UndoOf(s, t, op)] + rest);
      } else {
        FailsSame(s, t, op);
        CoverSteps(s1, us, t, ops[1..]);
        assert [] + rest == rest;
      }
    }
  }

  /** An entry can be dropped once what it covers is gone. */
  lemma LessCover(x: Slot, us: seq<UndoOp>, u: UndoOp, t: nat)
    requires CoveredSlot(x, us + [u], t) && (u.eid != x.eid || u.WasDeleted?)
    ensures CoveredSlot(x, us, t)
  {
  }

  lemma RetractCover(x: Slot, us: seq<UndoOp>, u: UndoOp, t: nat, ts: nat)
    requires CoveredSlot(x, us + [u], t) && u.WasSet?
    ensures CoveredSlot(x.(ts := ts, props := Retract(x.props, u.indices, t)), us, t)
  {
    var y := x.(ts := ts, props := Retract(x.props, u.indices, t));
    RetractClears(x.props, u.indices, t);
    if Created(x.eid) !in us {
      assert Created(x.eid) !in us + [u];
      forall c | 0 <= c < |y.props| && !Clear(y.props[c], t) ensures CoveredColumn(y.eid, c, us) {
        assert CoveredColumn(x.eid, c, us + [u]);
        var w :| w in us + [u] && w.WasSet? && w.eid == x.eid && c in w.indices;
      }
    }
  }

  /** Undoing the newest entry leaves everything covered by the others. */
  lemma CoverUndo(s: Store, us: seq<UndoOp>, u: UndoOp, t: nat, snap: map<nat, (nat, nat)>)
    requires IndexOk(s) && Covered(s, us + [u], t) && Find(s, u.eid).Some?
    requires u.Created? ==> SlotAt(s, Find(s, u.eid).value).ts == t
    ensures Covered(Undo(s, t, u, snap), us, t)
  {
    var l := Find(s, u.eid).value;
    var x, s' := SlotAt(s, l), Undo(s, t, u, snap);
    var o := |s.blocks[l.b].live|;
    assert forall b | 0 <= b < |s'.blocks| && b != l.b :: s'.blocks[b].live == s.blocks[b].live;
    forall b, i | LiveAt(s, b, i) && !(b == l.b && i == l.o) ensures CoveredSlot(s.blocks[b].live[i], us, t) {
      var y := s.blocks[b].live[i];
      assert y in s.blocks[b].live && CoveredLive(s.blocks[b].live, us + [u], t);
      assert EidAt(s, b, i) == y.eid && EidAt(s, l.b, l.o) == u.eid;
      IndexIsScan(s, u.eid, b, i);
      LessCover(y, us, u, t);
    }
    assert x in s.blocks[l.b].live && CoveredLive(s.blocks[l.b].live, us + [u], t);
    if u.WasSet? { RetractCover(x, us, u, t, u.oldTs); }
    if u.WasDeleted? { LessCover(x, us, u, t); IdentCover(x, us, t, u.oldTs, snap); }
    CoverUndoBlock(s, us, u, t, snap, l);
    forall b | 0 <= b < |s'.blocks| ensures CoveredLive(s'.blocks[b].live, us, t) {
      if b != l.b {
        forall y | y in s'.blocks[b].live ensures CoveredSlot(y, us, t) {
          var i :| 0 <= i < |s.blocks[b].live| && s.blocks[b].live[i] == y;
          assert LiveAt(s, b, i);
        }
      }
    }
  }

  lemma IdentCover(x: Slot, us: seq<UndoOp>, t: nat, ts: nat, snap: map<nat, (nat, nat)>)
    requires CoveredSlot(x, us, t)
    ensures CoveredSlot(x.(ts := ts), us, t)
    ensures forall lb, d :: CoveredSlot(x.(ts := ts, labelId := lb, dst := d), us, t)
  {
  }

  lemma CoverUndoBlock(s: Store, us: seq<UndoOp>, u: UndoOp, t: nat, snap: map<nat, (nat, nat)>, l: Loc)
    requires Find(s, u.eid) == Some(l) && LiveAt(s, l.b, l.o)
    requires u.Created? ==> SlotAt(s, l).ts == t
    requires forall b, i | LiveAt(s, b, i) && !(b == l.b && i == l.o) :: CoveredSlot(s.blocks[b].live[i], us, t)
    requires u.WasSet? ==> CoveredSlot(SlotAt(s, l).(ts := u.oldTs, props := Retract(SlotAt(s, l).props, u.indices, t)), us, t)
    requires u.WasDeleted? ==> CoveredSlot(SlotAt(s, l).(ts := u.oldTs), us, t)
    requires u.WasDeleted? ==> forall lb, d :: CoveredSlot(SlotAt(s, l).(ts := u.oldTs, labelId := lb, dst := d), us, t)
    ensures l.b < |Undo(s, t, u, snap).blocks| && CoveredLive(Undo(s, t, u, snap).blocks[l.b].live, us, t)
  {
  }

  // ----- the run -----

  lemma {:induction false} AbortRun(s0: Store, t: nat, ops: seq<TxOp>, s: Store, pre: seq<UndoOp>, snap: map<nat, (nat, nat)>)
    requires IndexOk(s0) && IndexOk(s) && StoreRel(s, Steps(s0, t, ops), t, {}, snap)
    requires DeletedIn(UndoList(s0, t, ops)) <= snap.Keys
    requires Covered(s, pre + UndoList(s0, t, ops), t)
    ensures var us := UndoList(s0, t, ops);
            var r := Abort(s, t, us, snap);
            StoreRel(r, s0, t, DeletedIn(us), snap) && Covered(r, pre, t)
    decreases |ops|
  {
    if ops == [] {
      assert UndoList(s0, t, ops) == [] && pre + [] == pre && DeletedIn([]) == {};
    } else {
      AbortRunStep(s0, t, ops, s, pre, snap);
    }
  }

  /** One newest-first step of the abort, after everything later has been undone. */
  lemma UndoBack(s0: Store, t: nat, op: TxOp, r: Store, us: seq<UndoOp>, pre: seq<UndoOp>, snap: map<nat, (nat, nat)>)
    requires Succeeds(s0, t, op) && IndexOk(s0) && IndexOk(r)
    requires StoreRel(r, Step(s0, t, op), t, DeletedIn(us), snap)
    requires DeletedIn([UndoOf(s0, t, op)] + us) <= snap.Keys
    requires Covered(r, pre + [UndoOf(s0, t, op)], t)
    ensures var u := UndoOf(s0, t, op);
            StoreRel(Undo(r, t, u, snap), s0, t, DeletedIn([u] + us), snap) && Covered(Undo(r, t, u, snap), pre, t)
  {
    hide *;
    var u := UndoOf(s0, t, op);
    DeleteInSnap(s0, t, op, us, snap);
    UndoInverts(s0, r, t, op, DeletedIn(us), snap);
    StillThere(s0, r, t, op, DeletedIn(us), snap);
    CoverUndo(r, pre, u, t, snap);
    DeletedHead(u, us);
    assert DeletedIn(us) + DeletedIn([u]) == DeletedIn([u]) + DeletedIn(us);
  }

  lemma ListHead(s0: Store, t: nat, ops: seq<TxOp>)
    requires ops != []
    ensures var us := UndoList(Step(s0, t, ops[0]), t, ops[1..]);
            UndoList(s0, t, ops) == if Succeeds(s0, t, ops[0]) then [UndoOf(s0, t, ops[0])] + us else us
    ensures Steps(s0, t, ops) == Steps(Step(s0, t, ops[0]), t, ops[1..])
  {
  }

  lemma Regroup(pre: seq<UndoOp>, u: UndoOp, us: seq<UndoOp>)
    ensures pre + ([u] + us) == (pre + [u]) + us
  {
  }

  lemma {:induction false} AbortRunStep(s0: Store, t: nat, ops: seq<TxOp>, s: Store, pre: seq<UndoOp>, snap: map<nat, (nat, nat)>)
    requires ops != [] && IndexOk(s0) && IndexOk(s) && StoreRel(s, Steps(s0, t, ops), t, {}, snap)
    requires DeletedIn(UndoList(s0, t, ops)) <= snap.Keys
    requires Covered(s, pre + UndoList(s0, t, ops), t)
    ensures var us := UndoList(s0, t, ops);
            var r := Abort(s, t, us, snap);
            StoreRel(r, s0, t, DeletedIn(us), snap) && Covered(r, pre, t)
    decreases |ops|, 0
  {
    hide *;
    var op, s1 := ops[0], Step(s0, t, ops[0]);
    var us := UndoList(s1, t, ops[1..]);
    ListHead(s0, t, ops);
    StepIndex(s0, t, op);
    if Succeeds(s0, t, op) {
      var u := UndoOf(s0, t, op);
      DeletedHead(u, us);
      Regroup(pre, u, us);
      AbortRun(s1, t, ops[1..], s, pre + [u], snap);
      AbortIndex(s, t, us, snap);
      AbortHead(s, t, u, us, snap);
      UndoBack(s0, t, op, Abort(s, t, us, snap), us, pre, snap);
    } else {
      FailsSame(s0, t, op);
      AbortRun(s1, t, ops[1..], s, pre, snap);
    }
  }

  lemma DeleteInSnap(s0: Store, t: nat, op: TxOp, us: seq<UndoOp>, snap: map<nat, (nat, nat)>)
    requires Succeeds(s0, t, op) && DeletedIn([UndoOf(s0, t, op)] + us) <= snap.Keys
    ensures op.TxDelete? ==> op.eid in snap
  {
  }

  /** The edge an entry is about is still there when the entry is undone. */
  lemma StillThere(s0: Store, s: Store, t: nat, op: TxOp, gone: set<nat>, snap: map<nat, (nat, nat)>)
    requires IndexOk(s) && Succeeds(s0, t, op) && StoreRel(s, Step(s0, t, op), t, gone, snap)
    ensures var u := UndoOf(s0, t, op);
            Find(s, u.eid).Some? && (u.Created? ==> SlotAt(s, Find(s, u.eid).value).ts == t)
  {
    if op.TxCreate? {
      UndoCreate(s0, s, t, op, gone, snap);
    } else {
      var eid := UndoOf(s0, t, op).eid;
      var l := Find(s0, eid).value;
      var s1 := Step(s0, t, op);
      assert LiveAt(s1, l.b, l.o) && EidAt(s1, l.b, l.o) == eid;
      SamePlace(s, s1, t, gone, snap, l.b, l.o);
    }
  }
}
