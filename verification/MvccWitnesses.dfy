/** Concrete runs on which the unconditional promises fail. */
module MvccWitnesses {
  import opened Wrap
  import opened Stamps
  import opened MvccStore
  import opened SnapshotSpec
  import opened MvccChains
  import opened MvccRelation
  import opened MvccAbort
  import opened MvccTheorems
  import opened MvccRemoval
  import opened MvccSplitBegin

  const T1: nat := TXN_ID_START + 1
  const T2: nat := TXN_ID_START + 2
  const T3: nat := TXN_ID_START + 3
  const V: Key := VertexKey(7)
  const E: Key := EdgeKey(9)
  const R0: Record := Record(1, [10, 20], false)

  /** A committed vertex with properties 10 and 20, then a running transaction T2. */
  ghost function Setup(): Store {
    Do(Do(Do(Do(Do(EMPTY, Begin), Create(T1, V, R0)), Draw(T1)), Publish(T1)), Begin)
  }

  lemma SetupFacts()
    ensures var s := Setup();
            && s.chains == map[V := Chain(R0, 2, Entry(T1, MarkDead, 0, Null))]
            && s.active == map[T2 := Txn(3, None, [])] && s.done == map[2 := T1] && s.kept.Keys == {2}
            && s.nextTs == 4 && s.nextId == T3
  {
    hide Watermark;
    var e := Entry(T1, MarkDead, 0, Null);
    var s1 := Do(EMPTY, Begin);
    assert s1.active == map[T1 := Txn(1, None, [])] && s1.nextTs == 2;
    var s2 := Do(s1, Create(T1, V, R0));
    assert CanCreate(s1, T1, V);
    assert s2.chains == map[V := Chain(R0, T1, e)];
    assert [] + [Item(V, e)] == [Item(V, e)];
    assert s2.active == map[T1 := Txn(1, None, [Item(V, e)])];
    var s3 := Do(s2, Draw(T1));
    assert s3.active == map[T1 := Txn(1, Some(2), [Item(V, e)])];
    var s4 := Do(s3, Publish(T1));
    StampOne(s3.chains, V, e, 2);
    assert s4.chains == map[V := Chain(R0, 2, e)];
    assert s4.active == map[];
  }

  lemma StampOne(chains: map<Key, Chain>, k: Key, e: Undo, c: nat)
    requires k in chains
    ensures StampAll(chains, [Item(k, e)], c) == chains[k := chains[k].(ts := c)]
  {
    assert [Item(k, e)][1..] == [];
  }

  /** The store in which T2 has written 11 and drawn 4, and T3 has started. */
  lemma LateCommitState() returns (s: Store)
    ensures s == Do(Do(Do(Setup(), Set(T2, V, [0], [11])), Draw(T2)), Begin)
    ensures s.chains == map[V := V1.(ts := T2)] && s.done == map[2 := T1]
    ensures s.active == map[T2 := Txn(3, Some(4), [Item(V, V1.undo)]), T3 := Txn(5, None, [])]
  {
    hide Watermark;
    SetupFacts();
    hide Setup;
    var s0 := Setup();
    assert R0.props[0 := 11] == [11, 20];
    SetStep(s0, T2, V, 0, 11);
    assert [] + [Item(V, V1.undo)] == [Item(V, V1.undo)];
    var s1 := Do(s0, Set(T2, V, [0], [11]));
    assert s1.active == map[T2 := Txn(3, None, [Item(V, V1.undo)])];
    var s2 := Do(s1, Draw(T2));
    assert s2.active == map[T2 := Txn(3, Some(4), [Item(V, V1.undo)])];
    s := Do(s2, Begin);
  }

  /** T2 draws its commit timestamp, T3 starts and reads 10, T2 publishes, T3 reads 11. */
  lemma LateCommitIsNotRepeatable()
    ensures var s := Do(Do(Do(Setup(), Set(T2, V, [0], [11])), Draw(T2)), Begin);
            && T3 in s.active && T3 in Do(s, Publish(T2)).active
            && Read(s, T3, V) == Some(R0)
            && Read(Do(s, Publish(T2)), T3, V) == Some(Record(1, [11, 20], false))
            && !NoneLate(s, T3)
  {
    var s := LateCommitState();
    hide Setup, Watermark;
    SetOne(V1.rec, 0, 10);
    assert Walk(V1.undo, Live(s), V1.rec, 5) == R0;
    StampOne(s.chains, V, V1.undo, 4);
    assert Do(s, Publish(T2)).chains == map[V := V1.(ts := 4)];
  }

  /** T3 draws its id and start, T2 writes and commits, the watermark moves to T2's commit, T3 registers
      and reads 10, collection drops T2's undo entry, T3 reads 11. */
  ghost function LateRegistration(): World {
    WDo(WDo(WDo(WDo(WDo(WDo(World(Setup(), map[]), DrawId(0)), DrawStart(0)), Whole(Set(T2, V, [0], [11]))),
                Whole(Draw(T2))), Whole(Publish(T2))), Register(0))
  }

  const V1: Chain := Chain(Record(1, [11, 20], false), 5, Entry(T2, SetBack([0], [10]), 2, Entry(T1, MarkDead, 0, Null)))

  /** The store just before T3 registers. */
  lemma LateState() returns (s: Store)
    ensures LateRegistration().s == Registered(s, T3, 4)
    ensures s.chains == map[V := V1] && s.active == map[] && s.latest == 5 && s.watermark >= 5
    ensures s.done == map[2 := T1, 5 := T2] && s.kept.Keys == {2, 5}
  {
    SetupFacts();
    var s0 := Setup();
    hide Setup;
    var c0 := Chain(R0, 2, Entry(T1, MarkDead, 0, Null));
    var e := V1.undo;
    var s1 := s0.(nextId := T3 + 1, nextTs := 5);
    assert R0.props[0 := 11] == [11, 20];
    SetStep(s1, T2, V, 0, 11);
    assert [] + [Item(V, e)] == [Item(V, e)];
    var s2 := Do(s1, Set(T2, V, [0], [11]));
    assert s2.active == map[T2 := Txn(3, None, [Item(V, e)])];
    var s3 := Do(s2, Draw(T2));
    assert s3.active == map[T2 := Txn(3, Some(5), [Item(V, e)])];
    s := Do(s3, Publish(T2));
    StampOne(s3.chains, V, e, 5);
    assert s.chains == map[V := V1];
    assert s.active == map[];
    LateSteps(s0, s);
  }

  lemma LateSteps(s0: Store, s: Store)
    requires s0 == Setup() && s0.nextId == T3 && s0.nextTs == 4
    requires var s1 := s0.(nextId := T3 + 1, nextTs := 5);
             s == Do(Do(Do(s1, Set(T2, V, [0], [11])), Draw(T2)), Publish(T2))
    ensures LateRegistration().s == Registered(s, T3, 4)
  {
    hide Do, Setup, Registered;
    assert map[0 := Begun(T3, None)][0 := Begun(T3, Some(4))][0].start == Some(4);
  }

  lemma LateRegistrationChangesRead()
    ensures var s := LateRegistration().s;
            && T3 in s.active && s.active[T3].start == 4 && s.watermark >= 5
            && Read(s, T3, V) == Some(R0)
            && Read(DoCollect(s), T3, V) == Some(Record(1, [11, 20], false))
  {
    var s0 := LateState();
    hide LateRegistration;
    var s := Registered(s0, T3, 4);
    WatermarkAbove(s0, T3, 4);
    hide Watermark;
    SetOne(V1.rec, 0, 10);
    assert s.active == map[T3 := Txn(4, None, [])];
    assert T2 in Live(s) by { assert s.done[5] == T2; }
    assert Walk(V1.undo, Live(s), V1.rec, 4) == R0;
    assert Expired(s) == {2, 5};
    assert DoCollect(s).done == map[];
    assert Live(DoCollect(s)) == {T3};
  }

  lemma SetOne(r: Record, i: nat, v: Value)
    requires i < |r.props|
    ensures SetProps(r, [i], [v]) == r.(props := r.props[i := v])
  {
  }

  lemma SetStep(s: Store, t: nat, k: Key, i: nat, v: Value)
    requires CanWrite(s, t, k) && i < |s.chains[k].rec.props|
    ensures var c := s.chains[k];
            Do(s, Set(t, k, [i], [v])) ==
              Push(s, t, k, Chain(c.rec.(props := c.rec.props[i := v]), t,
                                  Entry(t, SetBack([i], [c.rec.props[i]]), c.ts, c.undo)))
  {
    var c := s.chains[k];
    SetOne(c.rec, i, v);
    assert Saved(c.rec, [i]) == [c.rec.props[i]];
    assert InRange([i], c.rec);
  }

  /** T2 sets property 0, then property 1, then aborts: property 1 keeps the aborted value. */
  lemma AbortKeepsSecondWrite()
    ensures var s := Do(Do(Setup(), Set(T2, V, [0], [11])), Set(T2, V, [1], [21]));
            var s' := Do(Do(s, Abort(T2)), Begin);
            T3 in s'.active && Read(s', T3, V) == Some(Record(1, [10, 21], false))
  {
    hide Watermark;
    SetupFacts();
    hide Setup;
    var s0 := Setup();
    var e0 := Entry(T1, MarkDead, 0, Null);
    var e1 := Entry(T2, SetBack([0], [10]), 2, e0);
    var r1 := Record(1, [11, 20], false);
    assert R0.props[0 := 11] == [11, 20];
    SetStep(s0, T2, V, 0, 11);
    assert [] + [Item(V, e1)] == [Item(V, e1)];
    var s1 := Do(s0, Set(T2, V, [0], [11]));
    assert s1.chains == map[V := Chain(r1, T2, e1)];
    var e2 := Entry(T2, SetBack([1], [20]), T2, e1);
    var r2 := Record(1, [11, 21], false);
    assert r1.props[1 := 21] == [11, 21];
    SetStep(s1, T2, V, 1, 21);
    var s2 := Do(s1, Set(T2, V, [1], [21]));
    assert s2.chains == map[V := Chain(r2, T2, e2)];
    assert s2.active[T2].buf == [Item(V, e1), Item(V, e2)];
    SetOne(r2, 0, 10);
    AbortTwo(s2.chains, V, e1, e2, T2);
    var r3 := Record(1, [10, 21], false);
    assert Do(s2, Abort(T2)).chains[V] == Chain(r3, 2, e0);
  }

  lemma AbortTwo(chains: map<Key, Chain>, k: Key, e1: Undo, e2: Undo, t: nat)
    requires k in chains
    ensures AbortAll(chains, [Item(k, e1), Item(k, e2)], t) ==
              chains[k := AbortOne(AbortOne(chains[k], t, e1), t, e2)]
  {
    var buf := [Item(k, e1), Item(k, e2)];
    var m := chains[k := AbortOne(chains[k], t, e1)];
    assert buf[1..] == [Item(k, e2)] && [Item(k, e2)][1..] == [];
    assert AbortAll(chains, buf, t) == AbortAll(m, [Item(k, e2)], t);
    assert AbortAll(m, [Item(k, e2)], t) == m[k := AbortOne(m[k], t, e2)];
  }

  /** T2 creates an edge, deletes it and aborts: everyone sees the edge from then on. */
  lemma AbortedEdgeAppears()
    ensures var s := Do(Do(Setup(), Create(T2, E, R0)), Delete(T2, E));
            var s' := Do(Do(s, Abort(T2)), Begin);
            T3 in s'.active && Read(s', T3, E) == Some(R0)
  {
    hide Watermark;
    SetupFacts();
    hide Setup;
    var s0 := Setup();
    var e1 := Entry(T2, MarkDead, T2, Null);
    assert CanCreate(s0, T2, E);
    var s1 := Do(s0, Create(T2, E, R0));
    assert s1.chains[E] == Chain(R0, T2, e1);
    var e2 := Entry(T2, Restore(R0), T2, e1);
    var s2 := Do(s1, Delete(T2, E));
    assert s2.chains[E] == Chain(R0.(dead := true), T2, e2);
    assert s2.active[T2].buf == [Item(E, e1), Item(E, e2)];
    AbortTwo(s2.chains, E, e1, e2, T2);
    var s3 := Do(s2, Abort(T2));
    assert s3.chains[E] == Chain(R0, T2, e1);
    var s' := Do(s3, Begin);
    assert s'.active.Keys == {T3} && s'.done == map[2 := T1];
    assert T2 !in Live(s');
  }
}
