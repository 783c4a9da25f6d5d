/** Runs in which the removal of an edge shows: overlapping commits, changed reads, a commit that panics. */
module MvccRemovalWitnesses {
  import opened Wrap
  import opened Stamps
  import opened MvccStore
  import opened SnapshotSpec
  import opened MvccRelation
  import opened MvccLifecycle
  import opened MvccAbort
  import opened MvccTheorems
  import opened MvccAllRuns
  import opened MvccRemoval

  const T1: nat := TXN_ID_START + 1
  const T2: nat := TXN_ID_START + 2
  const T3: nat := TXN_ID_START + 3
  const T4: nat := TXN_ID_START + 4
  const T5: nat := TXN_ID_START + 5
  const E: Key := EdgeKey(9)
  const R0: Record := Record(1, [10], false)
  const DEAD: Record := R0.(dead := true)

  const MADE: Undo := Entry(T1, MarkDead, T1, Null)
  const GONE: Undo := Entry(T2, Restore(R0), 2, MADE)

  /** T1 created the edge and committed at 2, T2 deleted it and committed at 4. */
  const DELETED: Store := Store(map[E := Chain(DEAD, 4, GONE)], map[], map[2 := T1, 4 := T2],
                                map[2 := [Item(E, MADE)], 4 := [Item(E, GONE)]], 4, 4, 5, T3)

  /** The run `ops`, with `vals` its aborts clean, leads to `s` and stamps the edge as `h` says. */
  ghost predicate Leads(ops: seq<Op>, s: Store, h: seq<Commit>, vals: bool) {
    CleanRun(EMPTY, ops, vals) && Run(EMPTY, ops) == s && Commits(EMPTY, ops, E) == h
  }

  lemma {:induction false} Snoc(s: Store, ops: seq<Op>, op: Op, vals: bool)
    ensures Run(s, ops + [op]) == Do(Run(s, ops), op)
    ensures Commits(s, ops + [op], E) == Commits(s, ops, E) + StampOf(Run(s, ops), op, E)
    ensures CleanRun(s, ops + [op], vals) <==> CleanRun(s, ops, vals) && CleanOp(Run(s, ops), op, vals)
    decreases |ops|
  {
    hide Do, CleanOp, StampOf;
    var ops' := ops + [op];
    if ops == [] {
      assert ops' == [op] && ops'[1..] == [];
      assert Commits(s, ops', E) == StampOf(s, op, E) + [];
    } else {
      assert ops'[0] == ops[0] && ops'[1..] == ops[1..] + [op];
      Snoc(Do(s, ops[0]), ops[1..], op, vals);
    }
  }

  lemma Next(ops: seq<Op>, s: Store, h: seq<Commit>, op: Op, vals: bool)
    requires Leads(ops, s, h, vals) && CleanOp(s, op, vals) && !op.Publish?
    ensures Leads(ops + [op], Do(s, op), h, vals)
  {
    Snoc(EMPTY, ops, op, vals);
    hide CleanRun, Run, Commits, CleanOp, Do;
    assert h + [] == h;
  }

  lemma FrontIs(active: map<nat, Txn>, t: nat, latest: nat, old': nat)
    requires t in active && forall u | u in active :: t <= u
    ensures Watermark(active, latest, old') == Max(active[t].start, old')
  {
  }

  lemma StampOne(chains: map<Key, Chain>, x: Item, c: nat)
    requires x.key in chains
    ensures StampAll(chains, [x], c) == chains[x.key := chains[x.key].(ts := c)]
  {
    assert [x][1..] == [];
  }

  lemma Began(s: Store, front: nat)
    requires s.nextTs < MAX_COMMIT_TS && s.nextId < U64_MAX
    requires front in s.active || (front == s.nextId && s.active == map[])
    requires front <= s.nextId && forall u | u in s.active :: front <= u
    ensures var active := s.active[s.nextId := Txn(s.nextTs, None, [])];
            Do(s, Begin) == s.(active := active, nextTs := s.nextTs + 1, nextId := s.nextId + 1,
                               watermark := Max(active[front].start, s.watermark))
  {
    FrontIs(s.active[s.nextId := Txn(s.nextTs, None, [])], front, s.latest, s.watermark);
  }

  lemma LedTo(ops: seq<Op>, s: Store, h: seq<Commit>, vals: bool)
    requires Leads(ops, s, h, vals)
    ensures CleanRun(EMPTY, ops, vals) && Run(EMPTY, ops) == s && Commits(EMPTY, ops, E) == h
  {
  }

  lemma NextBegin(ops: seq<Op>, s: Store, h: seq<Commit>, front: nat, vals: bool)
    requires Leads(ops, s, h, vals) && s.nextTs < MAX_COMMIT_TS && s.nextId < U64_MAX
    requires front in s.active || (front == s.nextId && s.active == map[])
    requires front <= s.nextId && forall u | u in s.active :: front <= u
    ensures var active := s.active[s.nextId := Txn(s.nextTs, None, [])];
            Leads(ops + [Begin], s.(active := active, nextTs := s.nextTs + 1, nextId := s.nextId + 1,
                                    watermark := Max(active[front].start, s.watermark)), h, vals)
  {
    Began(s, front);
    hide Leads, Do;
    Next(ops, s, h, Begin, vals);
  }

  /** A creation of the edge, nobody's so far. */
  lemma NextCreate(ops: seq<Op>, s: Store, h: seq<Commit>, t: nat, vals: bool)
    requires Leads(ops, s, h, vals) && Running(s, t) && IsTxnId(t) && s.chains == map[] && s.active[t].buf == [] && Unnamed(s, E)
    ensures CanCreate(s, t, E)
    ensures var e := Entry(t, MarkDead, t, Null);
            Leads(ops + [Create(t, E, R0)],
                  s.(chains := map[E := Chain(R0, t, e)], active := s.active[t := s.active[t].(buf := [Item(E, e)])]), h, vals)
  {
    assert [] + [Item(E, Entry(t, MarkDead, t, Null))] == [Item(E, Entry(t, MarkDead, t, Null))];
    hide Leads;
    Next(ops, s, h, Create(t, E, R0), vals);
  }

  /** A deletion of the edge by a transaction that has written nothing yet. */
  lemma NextDelete(ops: seq<Op>, s: Store, h: seq<Commit>, t: nat, c: Chain, vals: bool)
    requires Leads(ops, s, h, vals) && s.chains == map[E := c] && CanWrite(s, t, E) && s.active[t].buf == []
    ensures var e := Entry(t, Restore(c.rec), c.ts, c.undo);
            Leads(ops + [Delete(t, E)],
                  s.(chains := map[E := Chain(c.rec.(dead := true), t, e)], active := s.active[t := s.active[t].(buf := [Item(E, e)])]), h, vals)
  {
    var e := Entry(t, Restore(c.rec), c.ts, c.undo);
    assert [] + [Item(E, e)] == [Item(E, e)];
    hide Leads;
    Next(ops, s, h, Delete(t, E), vals);
  }

  /** A commit of one undo entry. */
  lemma CommitOne(s: Store, t: nat, x: Item)
    requires Running(s, t) && s.active[t].buf == [x] && x.key in s.chains && s.nextTs < MAX_COMMIT_TS
    ensures var c, active := s.nextTs, s.active - {t};
            Do(Do(s, Draw(t)), Publish(t)) ==
              s.(chains := s.chains[x.key := s.chains[x.key].(ts := c)], active := active, done := s.done[c := t],
                 kept := s.kept[c := [x]], latest := c, nextTs := c + 1, watermark := Watermark(active, c, s.watermark))
  {
    var s1 := Do(s, Draw(t));
    assert s1.active[t] == Txn(s.active[t].start, Some(s.nextTs), [x]);
    StampOne(s.chains, x, s.nextTs);
    assert Finds(s1, t);
    assert s1.active - {t} == s.active - {t};
  }

  /** The commit of a transaction that wrote the edge once. */
  lemma NextCommit(ops: seq<Op>, s: Store, h: seq<Commit>, t: nat, c: Chain, x: Item, low: nat, vals: bool)
    requires Leads(ops, s, h, vals) && Running(s, t) && s.active[t].buf == [x] && x.key == E && s.chains == map[E := c]
    requires s.nextTs < MAX_COMMIT_TS
    requires low == if s.active - {t} == map[] then s.nextTs else (s.active - {t})[Front((s.active - {t}).Keys)].start
    ensures Leads(ops + [Draw(t)] + [Publish(t)],
                  s.(chains := map[E := c.(ts := s.nextTs)], active := s.active - {t}, done := s.done[s.nextTs := t],
                     kept := s.kept[s.nextTs := [x]], latest := s.nextTs, nextTs := s.nextTs + 1, watermark := Max(low, s.watermark)),
                  h + [Commit(s.nextTs, s.active[t].start)], vals)
  {
    CommitOne(s, t, x);
    hide Leads;
    Next(ops, s, h, Draw(t), vals);
    Published(ops + [Draw(t)], Do(s, Draw(t)), h, t, x, vals);
  }

  lemma Published(ops: seq<Op>, s: Store, h: seq<Commit>, t: nat, x: Item, vals: bool)
    requires Leads(ops, s, h, vals) && Drawn(s, t) && s.active[t].buf == [x] && x.key == E && E in s.chains
    ensures Leads(ops + [Publish(t)], Do(s, Publish(t)), h + [Commit(s.active[t].drawn.value, s.active[t].start)], vals)
  {
    Snoc(EMPTY, ops, Publish(t), vals);
    assert StampsKey(s, Publish(t), E);
    hide CleanRun, Run, Commits, Do;
  }

  // ----- the common beginning -----

  const CREATION: seq<Op> := [Begin, Create(T1, E, R0), Draw(T1), Publish(T1)]
  const DELETION: seq<Op> := [Begin, Delete(T2, E), Draw(T2), Publish(T2)]

  const CREATED: Store := Store(map[E := Chain(R0, 2, MADE)], map[], map[2 := T1], map[2 := [Item(E, MADE)]], 2, 2, 3, T2)

  lemma Alone(active: map<nat, Txn>, t: nat)
    requires active.Keys == {t}
    ensures active - {t} == map[]
  {
  }

  lemma OneFront(active: map<nat, Txn>, t: nat)
    requires active.Keys == {t}
    ensures Front(active.Keys) == t
  {
  }

  lemma CreationLeads(vals: bool)
    ensures Leads(CREATION, CREATED, [Commit(2, 1)], vals)
  {
    assert Leads([], EMPTY, [], vals);
    hide Leads;
    var s1 := EMPTY.(active := map[T1 := Txn(1, None, [])], nextTs := 2, nextId := T2, watermark := 1);
    NextBegin([], EMPTY, [], T1, vals);
    NextCreate([] + [Begin], s1, [], T1, vals);
    var s2 := s1.(chains := map[E := Chain(R0, T1, MADE)], active := map[T1 := Txn(1, None, [Item(E, MADE)])]);
    Alone(s2.active, T1);
    NextCommit([] + [Begin] + [Create(T1, E, R0)], s2, [], T1, Chain(R0, T1, MADE), Item(E, MADE), 2, vals);
    assert [] + [Begin] + [Create(T1, E, R0)] + [Draw(T1)] + [Publish(T1)] == CREATION;
    assert [] + [Commit(2, 1)] == [Commit(2, 1)];
  }

  lemma DeletionLeads(vals: bool)
    ensures Leads(CREATION + DELETION, DELETED, [Commit(2, 1), Commit(4, 3)], vals)
  {
    CreationLeads(vals);
    hide Leads;
    var h := [Commit(2, 1)];
    var s1 := CREATED.(active := map[T2 := Txn(3, None, [])], nextTs := 4, nextId := T3, watermark := 3);
    NextBegin(CREATION, CREATED, h, T2, vals);
    NextDelete(CREATION + [Begin], s1, h, T2, Chain(R0, 2, MADE), vals);
    assert s1.active[T2 := s1.active[T2].(buf := [Item(E, GONE)])] == map[T2 := Txn(3, None, [Item(E, GONE)])];
    var s2 := s1.(chains := map[E := Chain(DEAD, T2, GONE)], active := map[T2 := Txn(3, None, [Item(E, GONE)])]);
    Alone(s2.active, T2);
    NextCommit(CREATION + [Begin] + [Delete(T2, E)], s2, h, T2, Chain(DEAD, T2, GONE), Item(E, GONE), 4, vals);
    assert CREATION + [Begin] + [Delete(T2, E)] + [Draw(T2)] + [Publish(T2)] == CREATION + DELETION;
    assert h + [Commit(4, 3)] == [Commit(2, 1), Commit(4, 3)];
  }

  // ----- collection -----

  lemma MarksTwo(kept: map<nat, seq<Item>>, b: nat, c: nat)
    requires b < c && b in kept && c in kept && kept[b] == [Item(E, MADE)] && kept[c] == [Item(E, GONE)]
    ensures MarkedBy(kept, {b, c}, {}) == {E}
  {
    assert Front({b, c}) == b && {b, c} - {b} == {c};
    assert MarkAll(kept[b], {}) == {} && MarkAll(kept[c], {}) == {E};
    assert MarkedBy(kept, {c}, {}) == MarkedBy(kept, {c} - {Front({c})}, MarkAll(kept[Front({c})], {}));
    assert Front({c}) == c && {c} - {c} == {};
  }

  lemma CollectsEdge(s: Store, c: Chain)
    requires s.chains == map[E := c] && c.rec.dead && E in MarkedBy(s.kept, Expired(s), {})
    ensures Do(s, Collect) == s.(chains := map[], done := s.done - Expired(s), kept := s.kept - Expired(s))
    ensures Removed(s, E)
  {
    hide MarkedBy;
  }

  /** The plain case: once the deletion is collected the id is free again. */
  lemma IdIsFreeAgain() returns (ops: seq<Op>)
    ensures ops == CREATION + DELETION + [Collect, Begin]
    ensures CleanRun(EMPTY, ops, true) && CanCreate(Run(EMPTY, ops), T3, E)
  {
    var ops0, h := CREATION + DELETION, [Commit(2, 1), Commit(4, 3)];
    DeletionLeads(true);
    assert Expired(DELETED) == {2, 4};
    MarksTwo(DELETED.kept, 2, 4);
    CollectsEdge(DELETED, Chain(DEAD, 4, GONE));
    hide Leads;
    var s1 := DELETED.(chains := map[], done := map[], kept := map[]);
    assert DELETED.done - {2, 4} == map[] && DELETED.kept - {2, 4} == map[];
    Next(ops0, DELETED, h, Collect, true);
    NextBegin(ops0 + [Collect], s1, h, T3, true);
    ops := ops0 + [Collect, Begin];
    assert ops == ops0 + [Collect] + [Begin];
    LedTo(ops, s1.(active := map[T3 := Txn(5, None, [])], nextTs := 6, nextId := T4, watermark := 5), h, true);
  }

  // ----- commits that overlap -----

  const AGAIN: Undo := Entry(T3, Restore(DEAD), 4, GONE)

  const SECOND: seq<Op> := [Begin, Begin, Delete(T3, E), Draw(T3), Publish(T3), Collect]

  /** T3 deleted the tombstone and committed at 7, collection took the first image and removed the edge;
      T4 has been active since 6. */
  const REMOVED: Store := Store(map[], map[T4 := Txn(6, None, [])], map[7 := T3], map[7 := [Item(E, AGAIN)]], 7, 6, 8, T5)

  const THREE: seq<Commit> := [Commit(2, 1), Commit(4, 3), Commit(7, 5)]

  lemma BothBegin(vals: bool) returns (s: Store)
    ensures s == DELETED.(active := map[T3 := Txn(5, None, []), T4 := Txn(6, None, [])], nextTs := 7, nextId := T5, watermark := 5)
    ensures Leads(CREATION + DELETION + [Begin] + [Begin], s, [Commit(2, 1), Commit(4, 3)], vals)
  {
    var ops, h := CREATION + DELETION, [Commit(2, 1), Commit(4, 3)];
    DeletionLeads(vals);
    hide Leads;
    var s1 := DELETED.(active := map[T3 := Txn(5, None, [])], nextTs := 6, nextId := T4, watermark := 5);
    NextBegin(ops, DELETED, h, T3, vals);
    s := DELETED.(active := map[T3 := Txn(5, None, []), T4 := Txn(6, None, [])], nextTs := 7, nextId := T5, watermark := 5);
    NextBegin(ops + [Begin], s1, h, T3, vals);
  }

  lemma SecondDeletion(vals: bool) returns (s: Store)
    ensures s == DELETED.(chains := map[E := Chain(DEAD, 7, AGAIN)], active := map[T4 := Txn(6, None, [])],
                          done := map[2 := T1, 4 := T2, 7 := T3],
                          kept := map[2 := [Item(E, MADE)], 4 := [Item(E, GONE)], 7 := [Item(E, AGAIN)]],
                          latest := 7, watermark := 6, nextTs := 8, nextId := T5)
    ensures Leads(CREATION + DELETION + [Begin] + [Begin] + [Delete(T3, E)] + [Draw(T3)] + [Publish(T3)], s, THREE, vals)
  {
    var s1 := BothBegin(vals);
    hide Leads;
    var ops, h := CREATION + DELETION + [Begin] + [Begin], [Commit(2, 1), Commit(4, 3)];
    NextDelete(ops, s1, h, T3, Chain(DEAD, 4, GONE), vals);
    var s2 := s1.(chains := map[E := Chain(DEAD, T3, AGAIN)],
                  active := map[T3 := Txn(5, None, [Item(E, AGAIN)]), T4 := Txn(6, None, [])]);
    assert s1.active[T3 := s1.active[T3].(buf := [Item(E, AGAIN)])] == s2.active;
    assert s2.active - {T3} == map[T4 := Txn(6, None, [])];
    OneFront(s2.active - {T3}, T4);
    NextCommit(ops + [Delete(T3, E)], s2, h, T3, Chain(DEAD, T3, AGAIN), Item(E, AGAIN), 6, vals);
    assert h + [Commit(7, 5)] == THREE;
    s := s2.(chains := map[E := Chain(DEAD, 7, AGAIN)], active := map[T4 := Txn(6, None, [])], done := s2.done[7 := T3],
             kept := s2.kept[7 := [Item(E, AGAIN)]], latest := 7, nextTs := 8, watermark := 6);
  }

  lemma RemovedLeads(vals: bool)
    ensures Leads(CREATION + DELETION + SECOND, REMOVED, THREE, vals)
  {
    var s := SecondDeletion(vals);
    var ops := CREATION + DELETION + [Begin] + [Begin] + [Delete(T3, E)] + [Draw(T3)] + [Publish(T3)];
    assert Expired(s) == {2, 4};
    MarksTwo(s.kept, 2, 4);
    CollectsEdge(s, Chain(DEAD, 7, AGAIN));
    assert s.done - {2, 4} == map[7 := T3] && s.kept - {2, 4} == map[7 := [Item(E, AGAIN)]];
    hide Leads;
    Next(ops, s, THREE, Collect, vals);
    assert ops + [Collect] == CREATION + DELETION + SECOND;
  }

  /** T3 and T4 run side by side; T3's commit at 7 is forgotten with the edge, T4 creates the id again and
      commits at 8: [5, 7] and [6, 8] overlap. */
  lemma ForgottenCommitOverlaps()
    ensures var ops := CREATION + DELETION + SECOND + [Create(T4, E, R0), Draw(T4), Publish(T4)];
            CleanRun(EMPTY, ops, true) && Commits(EMPTY, ops, E) == THREE + [Commit(8, 6)]
  {
    var ops := CREATION + DELETION + SECOND;
    RemovedLeads(true);
    hide Leads;
    NextCreate(ops, REMOVED, THREE, T4, true);
    var e := Entry(T4, MarkDead, T4, Null);
    var s1 := REMOVED.(chains := map[E := Chain(R0, T4, e)], active := map[T4 := Txn(6, None, [Item(E, e)])]);
    assert REMOVED.active[T4 := REMOVED.active[T4].(buf := [Item(E, e)])] == s1.active;
    Alone(s1.active, T4);
    NextCommit(ops + [Create(T4, E, R0)], s1, THREE, T4, Chain(R0, T4, e), Item(E, e), 8, true);
    assert ops + [Create(T4, E, R0)] + [Draw(T4)] + [Publish(T4)] == ops + [Create(T4, E, R0), Draw(T4), Publish(T4)];
    LedTo(ops + [Create(T4, E, R0), Draw(T4), Publish(T4)],
          s1.(chains := map[E := Chain(R0, T4, e).(ts := 8)], active := s1.active - {T4}, done := s1.done[8 := T4],
              kept := s1.kept[8 := [Item(E, e)]], latest := 8, nextTs := 9, watermark := 8),
          THREE + [Commit(8, 6)], true);
  }

  // ----- reads that change -----

  /** An abort of one deletion of the edge clears the tombstone it found. */
  lemma NextAbort(ops: seq<Op>, s: Store, h: seq<Commit>, t: nat, c: Chain, e: Undo, low: nat, vals: bool)
    requires Leads(ops, s, h, vals) && !vals && t in s.active && s.chains == map[E := c] && c.ts == t && c.undo == e
    requires e.Entry? && e.delta.Restore? && s.active[t].buf == [Item(E, e)]
    requires low == if s.active - {t} == map[] then s.latest else (s.active - {t})[Front((s.active - {t}).Keys)].start
    ensures Leads(ops + [Abort(t)],
                  s.(chains := map[E := Chain(e.delta.original.(dead := false), e.ts, e.next)], active := s.active - {t},
                     watermark := Max(low, s.watermark)), h, vals)
  {
    var buf := [Item(E, e)];
    assert buf[1..] == [];
    assert AbortAll(s.chains, buf, t) == s.chains[E := AbortOne(c, t, e)];
    hide Leads;
    Next(ops, s, h, Abort(t), vals);
  }

  /** T3 deletes the tombstone and aborts, which brings the edge back; T4 begins and reads it; T5 deletes
      it and has not committed. Collection of the first image removes the edge: T4 reads nothing, and T5
      can no longer commit. */
  lemma RemovalIsSeen() returns (ops: seq<Op>)
    ensures ops == CREATION + DELETION + [Begin, Delete(T3, E), Abort(T3), Begin, Begin, Delete(T5, E)]
    ensures CleanRun(EMPTY, ops, false)
    ensures var s := Run(EMPTY, ops);
            && T4 in s.active && Read(s, T4, E) == Some(R0) && T5 in s.active && Finds(s, T5)
            && T4 in DoCollect(s).active && Read(DoCollect(s), T4, E) == None
            && T5 in DoCollect(s).active && !Finds(DoCollect(s), T5)
  {
    var ops0, h := CREATION + DELETION, [Commit(2, 1), Commit(4, 3)];
    DeletionLeads(false);
    hide Leads;
    var s1 := DELETED.(active := map[T3 := Txn(5, None, [])], nextTs := 6, nextId := T4, watermark := 5);
    NextBegin(ops0, DELETED, h, T3, false);
    NextDelete(ops0 + [Begin], s1, h, T3, Chain(DEAD, 4, GONE), false);
    var s2 := s1.(chains := map[E := Chain(DEAD, T3, AGAIN)], active := map[T3 := Txn(5, None, [Item(E, AGAIN)])]);
    assert s1.active[T3 := s1.active[T3].(buf := [Item(E, AGAIN)])] == s2.active;
    Alone(s2.active, T3);
    NextAbort(ops0 + [Begin] + [Delete(T3, E)], s2, h, T3, Chain(DEAD, T3, AGAIN), AGAIN, 4, false);
    var s3 := s2.(chains := map[E := Chain(R0, 4, GONE)], active := map[]);
    var s := SeenRest(ops0 + [Begin] + [Delete(T3, E)] + [Abort(T3)], s3, h);
    ops := CREATION + DELETION + [Begin, Delete(T3, E), Abort(T3), Begin, Begin, Delete(T5, E)];
    assert ops == ops0 + [Begin] + [Delete(T3, E)] + [Abort(T3)] + [Begin] + [Begin] + [Delete(T5, E)];
    LedTo(ops, s, h, false);
  }

  lemma SeenRest(ops: seq<Op>, s3: Store, h: seq<Commit>) returns (s: Store)
    requires Leads(ops, s3, h, false)
    requires s3 == DELETED.(chains := map[E := Chain(R0, 4, GONE)], nextTs := 6, nextId := T4, watermark := 5)
    ensures Leads(ops + [Begin] + [Begin] + [Delete(T5, E)], s, h, false)
    ensures T4 in s.active && Read(s, T4, E) == Some(R0) && T5 in s.active && Finds(s, T5)
    ensures T4 in DoCollect(s).active && Read(DoCollect(s), T4, E) == None
    ensures T5 in DoCollect(s).active && !Finds(DoCollect(s), T5)
  {
    hide Leads;
    var s4 := s3.(active := map[T4 := Txn(6, None, [])], nextTs := 7, nextId := T5, watermark := 6);
    NextBegin(ops, s3, h, T4, false);
    var s5 := s4.(active := map[T4 := Txn(6, None, []), T5 := Txn(7, None, [])], nextTs := 8, nextId := T5 + 1);
    NextBegin(ops + [Begin], s4, h, T4, false);
    var e := Entry(T5, Restore(R0), 4, GONE);
    NextDelete(ops + [Begin] + [Begin], s5, h, T5, Chain(R0, 4, GONE), false);
    s := s5.(chains := map[E := Chain(DEAD, T5, e)], active := map[T4 := Txn(6, None, []), T5 := Txn(7, None, [Item(E, e)])]);
    assert s5.active[T5 := s5.active[T5].(buf := [Item(E, e)])] == s.active;
    SeenState(s, e);
  }

  lemma SeenState(s: Store, e: Undo)
    requires s.chains == map[E := Chain(DEAD, T5, e)] && e == Entry(T5, Restore(R0), 4, GONE)
    requires s.active == map[T4 := Txn(6, None, []), T5 := Txn(7, None, [Item(E, e)])]
    requires s.kept == map[2 := [Item(E, MADE)], 4 := [Item(E, GONE)]] && s.watermark == 6
    ensures Read(s, T4, E) == Some(R0) && Finds(s, T5)
    ensures T4 in DoCollect(s).active && Read(DoCollect(s), T4, E) == None
    ensures T5 in DoCollect(s).active && !Finds(DoCollect(s), T5)
  {
    assert Expired(s) == {2, 4};
    MarksTwo(s.kept, 2, 4);
    CollectsEdge(s, Chain(DEAD, T5, e));
    assert Do(s, Collect) == DoCollect(s);
    assert Walk(e, Live(s), DEAD, 6) == R0;
    assert Item(E, e) in s.active[T5].buf;
  }

  // ----- an image left over -----

  /** An abort of a transaction that wrote nothing. */
  lemma NextLeave(ops: seq<Op>, s: Store, h: seq<Commit>, t: nat)
    requires Leads(ops, s, h, true) && s.chains == map[] && s.active.Keys == {t} && s.active[t].buf == []
    ensures Leads(ops + [Abort(t)], s.(active := map[], watermark := Max(s.latest, s.watermark)), h, true)
  {
    Alone(s.active, t);
    hide Leads;
    Next(ops, s, h, Abort(t), true);
  }

  const T6: nat := TXN_ID_START + 6
  const T7: nat := TXN_ID_START + 7
  const T8: nat := TXN_ID_START + 8

  const AFRESH: Undo := Entry(T6, MarkDead, T6, Null)

  const THIRD: seq<Op> := [Abort(T4), Begin, Begin, Create(T6, E, R0), Draw(T6), Publish(T6), Begin, Begin, Delete(T8, E)]

  /** The image of T3's deletion is still there when T6 creates the id again, all aborts clean. T7 reads the
      new edge, T8 deletes it and has not committed; collection of the old image, taken before T6's commit
      is, removes the edge under T7. */
  lemma LeftoverImageIsSeen()
    ensures var ops := CREATION + DELETION + SECOND + THIRD;
            var s := Run(EMPTY, ops);
            && CleanRun(EMPTY, ops, true) && T7 in s.active && Read(s, T7, E) == Some(R0)
            && T7 in DoCollect(s).active && Read(DoCollect(s), T7, E) == None
  {
    var ops := CREATION + DELETION + SECOND;
    RemovedLeads(true);
    hide Leads;
    NextLeave(ops, REMOVED, THREE, T4);
    var s1 := REMOVED.(active := map[], watermark := 7);
    var s2 := s1.(active := map[T5 := Txn(8, None, [])], nextTs := 9, nextId := T6, watermark := 8);
    NextBegin(ops + [Abort(T4)], s1, THREE, T5, true);
    var s3 := s2.(active := map[T5 := Txn(8, None, []), T6 := Txn(9, None, [])], nextTs := 10, nextId := T7);
    NextBegin(ops + [Abort(T4)] + [Begin], s2, THREE, T5, true);
    var s := LeftoverRest(ops + [Abort(T4)] + [Begin] + [Begin], s3, THREE);
    assert ops + [Abort(T4)] + [Begin] + [Begin] + [Create(T6, E, R0)] + [Draw(T6)] + [Publish(T6)] + [Begin] + [Begin]
           + [Delete(T8, E)] == ops + THIRD;
    LedTo(ops + THIRD, s, THREE + [Commit(10, 9)], true);
  }

  lemma LeftoverRest(ops: seq<Op>, s3: Store, h: seq<Commit>) returns (s: Store)
    requires Leads(ops, s3, h, true)
    requires s3 == REMOVED.(active := map[T5 := Txn(8, None, []), T6 := Txn(9, None, [])], nextTs := 10, nextId := T7, watermark := 8)
    ensures Leads(ops + [Create(T6, E, R0)] + [Draw(T6)] + [Publish(T6)] + [Begin] + [Begin] + [Delete(T8, E)], s,
                  h + [Commit(10, 9)], true)
    ensures T7 in s.active && Read(s, T7, E) == Some(R0)
    ensures T7 in DoCollect(s).active && Read(DoCollect(s), T7, E) == None
  {
    hide Leads;
    NextCreate(ops, s3, h, T6, true);
    var s4 := s3.(chains := map[E := Chain(R0, T6, AFRESH)], active := map[T5 := Txn(8, None, []), T6 := Txn(9, None, [Item(E, AFRESH)])]);
    assert s3.active[T6 := s3.active[T6].(buf := [Item(E, AFRESH)])] == s4.active;
    assert s4.active - {T6} == map[T5 := Txn(8, None, [])];
    OneFront(s4.active - {T6}, T5);
    NextCommit(ops + [Create(T6, E, R0)], s4, h, T6, Chain(R0, T6, AFRESH), Item(E, AFRESH), 8, true);
    var ops1, h1 := ops + [Create(T6, E, R0)] + [Draw(T6)] + [Publish(T6)], h + [Commit(10, 9)];
    s := LeftoverEnd(ops1, h1, s4.(chains := map[E := Chain(R0, 10, AFRESH)], active := map[T5 := Txn(8, None, [])],
                                   done := s4.done[10 := T6], kept := s4.kept[10 := [Item(E, AFRESH)]], latest := 10, nextTs := 11));
  }

  lemma LeftoverEnd(ops: seq<Op>, h: seq<Commit>, s: Store) returns (s': Store)
    requires Leads(ops, s, h, true)
    requires s == Store(map[E := Chain(R0, 10, AFRESH)], map[T5 := Txn(8, None, [])], map[7 := T3, 10 := T6],
                        map[7 := [Item(E, AGAIN)], 10 := [Item(E, AFRESH)]], 10, 8, 11, T7)
    ensures Leads(ops + [Begin] + [Begin] + [Delete(T8, E)], s', h, true)
    ensures T7 in s'.active && Read(s', T7, E) == Some(R0)
    ensures T7 in DoCollect(s').active && Read(DoCollect(s'), T7, E) == None
  {
    hide Leads;
    NextBegin(ops, s, h, T5, true);
    var s1 := s.(active := map[T5 := Txn(8, None, []), T7 := Txn(11, None, [])], nextTs := 12, nextId := T8);
    NextBegin(ops + [Begin], s1, h, T5, true);
    var s2 := s1.(active := s1.active[T8 := Txn(12, None, [])], nextTs := 13, nextId := T8 + 1);
    NextDelete(ops + [Begin] + [Begin], s2, h, T8, Chain(R0, 10, AFRESH), true);
    var e := Entry(T8, Restore(R0), 10, AFRESH);
    s' := s2.(chains := map[E := Chain(DEAD, T8, e)], active := s2.active[T8 := Txn(12, None, [Item(E, e)])]);
    LeftoverState(s', e);
  }

  lemma LeftoverState(s: Store, e: Undo)
    requires s.chains == map[E := Chain(DEAD, T8, e)] && e == Entry(T8, Restore(R0), 10, AFRESH)
    requires T7 in s.active && s.active[T7].start == 11 && T8 in s.active && s.watermark == 8
    requires s.kept == map[7 := [Item(E, AGAIN)], 10 := [Item(E, AFRESH)]]
    ensures Read(s, T7, E) == Some(R0)
    ensures T7 in DoCollect(s).active && Read(DoCollect(s), T7, E) == None
  {
    assert Expired(s) == {7};
    MarksOne(s.kept, 7);
    CollectsEdge(s, Chain(DEAD, T8, e));
    assert Do(s, Collect) == DoCollect(s);
    assert Walk(e, Live(s), DEAD, 11) == R0;
  }

  lemma MarksOne(kept: map<nat, seq<Item>>, c: nat)
    requires c in kept && kept[c] == [Item(E, AGAIN)]
    ensures MarkedBy(kept, {c}, {}) == {E}
  {
    assert Front({c}) == c && {c} - {c} == {};
    assert MarkAll(kept[c], {}) == {E};
    assert MarkedBy(kept, {}, {E}) == {E};
  }

  // ----- an id taken while an undo buffer names it -----

  /** T3 has deleted the tombstone when collection removes the edge; T4 creates the id again; T3's commit
      stamps T4's record, and T5 reads what T4 has not committed. */
  lemma CommitStampsAnother()
    ensures var s := Run(EMPTY, CREATION + DELETION + [Begin, Begin, Delete(T3, E), Collect]);
            var s' := Do(Do(Do(Do(s, Create(T4, E, R0)), Draw(T3)), Publish(T3)), Begin);
            && CanCreate(s, T4, E) && !Unnamed(s, E)
            && Running(s', T4) && T5 in s'.active && Read(s', T5, E) == Some(R0)
  {
    var s1 := BothBegin(true);
    var ops, h := CREATION + DELETION + [Begin] + [Begin], [Commit(2, 1), Commit(4, 3)];
    hide Leads;
    NextDelete(ops, s1, h, T3, Chain(DEAD, 4, GONE), true);
    var s2 := s1.(chains := map[E := Chain(DEAD, T3, AGAIN)],
                  active := map[T3 := Txn(5, None, [Item(E, AGAIN)]), T4 := Txn(6, None, [])]);
    assert s1.active[T3 := s1.active[T3].(buf := [Item(E, AGAIN)])] == s2.active;
    assert Expired(s2) == {2, 4};
    MarksTwo(s2.kept, 2, 4);
    CollectsEdge(s2, Chain(DEAD, T3, AGAIN));
    assert s2.done - {2, 4} == map[] && s2.kept - {2, 4} == map[];
    Next(ops + [Delete(T3, E)], s2, h, Collect, true);
    var s := s2.(chains := map[], done := map[], kept := map[]);
    assert ops + [Delete(T3, E)] + [Collect] == CREATION + DELETION + [Begin, Begin, Delete(T3, E), Collect];
    LedTo(ops + [Delete(T3, E)] + [Collect], s, h, true);
    Stamped4(s);
  }

  lemma Stamped4(s: Store)
    requires s == Store(map[], map[T3 := Txn(5, None, [Item(E, AGAIN)]), T4 := Txn(6, None, [])], map[], map[], 4, 5, 7, T5)
    ensures CanCreate(s, T4, E) && !Unnamed(s, E)
    ensures var s' := Do(Do(Do(Do(s, Create(T4, E, R0)), Draw(T3)), Publish(T3)), Begin);
            Running(s', T4) && T5 in s'.active && Read(s', T5, E) == Some(R0)
  {
    assert Item(E, AGAIN) in s.active[T3].buf;
    var e := Entry(T4, MarkDead, T4, Null);
    assert [] + [Item(E, e)] == [Item(E, e)];
    var s1 := Do(s, Create(T4, E, R0));
    assert s1.chains == map[E := Chain(R0, T4, e)] && s1.active == map[T3 := Txn(5, None, [Item(E, AGAIN)]), T4 := Txn(6, None, [Item(E, e)])];
    CommitOne(s1, T3, Item(E, AGAIN));
    hide Watermark;
    var s2 := Do(Do(s1, Draw(T3)), Publish(T3));
    assert s2.chains == map[E := Chain(R0, 7, e)] && s2.active == map[T4 := Txn(6, None, [Item(E, e)])];
  }
}
