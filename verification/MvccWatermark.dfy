/**
  The watermark as the program stores it: a caller computes the new value in one step and stores it in a
  later one, so a value computed earlier may be stored over a greater one.
 */
module MvccWatermark {
  import opened Wrap
  import opened Stamps
  import opened MvccStore
  import opened SnapshotSpec
  import opened MvccRelation
  import opened MvccLifecycle
  import opened MvccAllRuns

  /** `loaded` are the values computed and not yet stored. */
  datatype Racing = Racing(s: Store, loaded: map<nat, nat>)

  datatype Step = Act(op: Op) | Load(c: nat) | Put(c: nat)

  ghost function RDo(r: Racing, st: Step): Racing {
    match st
    case Act(op) => r.(s := Do(r.s, op).(watermark := r.s.watermark))
    case Load(c) => r.(loaded := r.loaded[c := Watermark(r.s.active, r.s.latest, r.s.watermark)])
    case Put(c) => if c in r.loaded then Racing(r.s.(watermark := r.loaded[c]), r.loaded - {c}) else r
  }

  ghost function RRun(r: Racing, steps: seq<Step>): Racing
    decreases |steps|
  {
    if steps == [] then r else RRun(RDo(r, steps[0]), steps[1..])
  }

  /** The watermark, and every value still to be stored, is at or below every active start. */
  ghost predicate Safe(r: Racing) {
    Timed(r.s) && forall c | c in r.loaded :: Timed(r.s.(watermark := r.loaded[c]))
  }

  /** Only the transactions, the counters and the watermark matter. */
  lemma TimedLike(s: Store, s': Store)
    requires Timed(s) && s'.active == s.active && s'.latest == s.latest && s'.nextTs == s.nextTs && s'.nextId == s.nextId
    requires s'.watermark <= s.watermark && forall c | c in s'.done :: c in s.done && s'.done[c] == s.done[c]
    ensures Timed(s')
  {
    hide PairOk;
    forall t | t in s'.active ensures TxnOk(s', t) { assert TxnOk(s, t); }
  }

  /** No step but collection looks at the watermark, and collection only drops. */
  lemma SameBut(s: Store, op: Op, v: nat)
    ensures var s1, s2 := Do(s, op), Do(s.(watermark := v), op);
            && s2.active == s1.active && s2.latest == s1.latest && s2.nextTs == s1.nextTs && s2.nextId == s1.nextId
            && (!op.Collect? ==> s2.done == s1.done)
            && (op.Collect? ==> forall c | c in s1.done :: c in s.done && s1.done[c] == s.done[c])
  {
    if op.Create? || op.Set? || op.Delete? { WritesAlike(s, op, v); }
    else { hide Watermark, StampAll, AbortAll, Removed; }
  }

  lemma WritesAlike(s: Store, op: Op, v: nat)
    requires op.Create? || op.Set? || op.Delete?
    ensures Do(s.(watermark := v), op) == Do(s, op).(watermark := v)
  {
    var s' := s.(watermark := v);
    if op.Create? {
      CreateAlike(s, op, v);
      hide CanCreate, Read;
    } else {
      hide SetProps, Saved, InRange;
    }
  }

  lemma CreateAlike(s: Store, op: Op, v: nat)
    requires op.Create?
    ensures CanCreate(s.(watermark := v), op.t, op.k) <==> CanCreate(s, op.t, op.k)
  {
    hide ReadChain;
  }

  lemma ActTimed(s: Store, op: Op, v: nat)
    requires Timed(s.(watermark := v))
    ensures Timed(Do(s, op).(watermark := v))
  {
    var s0 := s.(watermark := v);
    SameBut(s, op, v);
    if op.Collect? {
      hide Timed;
      TimedLike(s0, Do(s, op).(watermark := v)) by { hide Removed; }
    } else {
      StepTimed(s0, op);
      hide Timed, Do;
      TimedLike(Do(s0, op), Do(s, op).(watermark := v));
    }
  }

  lemma LoadTimed(s: Store)
    requires Timed(s)
    ensures Timed(s.(watermark := Watermark(s.active, s.latest, s.watermark)))
  {
    var s' := s.(watermark := Watermark(s.active, s.latest, s.watermark));
    forall t | t in s.active ensures TxnOk(s, t) {}
    assert StartsFollowIds(s.active) by {
      forall t, u | t in s.active && u in s.active && t < u ensures s.active[t].start < s.active[u].start {
        assert PairOk(s.active[t], s.active[u]);
      }
    }
    WatermarkSafe(s.active, s.latest, s.watermark, s.nextTs);
    hide Watermark, PairOk, StartsFollowIds;
    forall t | t in s'.active ensures TxnOk(s', t) { assert TxnOk(s, t); }
  }

  lemma StepSafe(r: Racing, st: Step)
    requires Safe(r)
    ensures Safe(RDo(r, st))
  {
    hide Timed, Do, Watermark;
    match st {
      case Act(op) =>
        assert r.s.(watermark := r.s.watermark) == r.s;
        ActTimed(r.s, op, r.s.watermark);
        forall c | c in r.loaded ensures Timed(RDo(r, st).s.(watermark := r.loaded[c])) {
          ActTimed(r.s, op, r.loaded[c]);
        }
      case Load(c) => LoadTimed(r.s);
      case Put(c) =>
        if c in r.loaded {
          forall d | d in r.loaded && d != c ensures Timed(RDo(r, st).s.(watermark := r.loaded[d])) {
            assert r.s.(watermark := r.loaded[c]).(watermark := r.loaded[d]) == r.s.(watermark := r.loaded[d]);
          }
        }
    }
  }

  lemma {:induction false} RunSafe(r: Racing, steps: seq<Step>)
    requires Safe(r)
    ensures Safe(RRun(r, steps))
    decreases |steps|
  {
    hide Safe, RDo;
    if steps != [] {
      StepSafe(r, steps[0]);
      RunSafe(RDo(r, steps[0]), steps[1..]);
    }
  }

  /** However callers' stores interleave with each other and with everything else, the watermark stays at
      or below every active start. */
  lemma RacingSafe(steps: seq<Step>)
    ensures var s := RRun(Racing(EMPTY, map[]), steps).s;
            forall t | t in s.active :: s.watermark <= s.active[t].start
  {
    assert Safe(Racing(EMPTY, map[]));
    RunSafe(Racing(EMPTY, map[]), steps);
    hide RRun, Timed;
    TimedStarts(RRun(Racing(EMPTY, map[]), steps).s);
  }

  /** It can move back: one caller computes 1 before the first transaction ends, another computes and
      stores 2 after its commit, then the first stores 1. */
  lemma WatermarkMovesBack()
    ensures var t := TXN_ID_START + 1;
            var steps := [Act(Begin), Load(0), Act(Draw(t)), Act(Publish(t)), Load(1), Put(1)];
            var r := RRun(Racing(EMPTY, map[]), steps);
            r.s.watermark == 2 && RDo(r, Put(0)).s.watermark == 1
  {
    var t := TXN_ID_START + 1;
    var steps := [Act(Begin), Load(0), Act(Draw(t)), Act(Publish(t)), Load(1), Put(1)];
    var r0 := Racing(EMPTY, map[]);
    var r1 := RDo(r0, steps[0]);
    assert r1.s.active == map[t := Txn(1, None, [])] && r1.s.watermark == 0 && r1.s.nextTs == 2;
    var r2 := RDo(r1, steps[1]);
    assert t in r1.s.active.Keys;
    assert r2.loaded == map[0 := 1];
    var r3 := RDo(r2, steps[2]);
    assert r3.s.active == map[t := Txn(1, Some(2), [])];
    var r4 := RDo(r3, steps[3]);
    assert r4.s.active == map[] && r4.s.latest == 2 && r4.s.watermark == 0;
    var r5 := RDo(r4, steps[4]);
    assert r5.loaded[1] == 2;
    var r6 := RDo(r5, steps[5]);
    Unrolled(r0, steps);
  }

  lemma Unrolled(r: Racing, steps: seq<Step>)
    requires |steps| == 6
    ensures RRun(r, steps) == RDo(RDo(RDo(RDo(RDo(RDo(r, steps[0]), steps[1]), steps[2]), steps[3]), steps[4]), steps[5])
  {
    hide RDo;
    var r1, a1 := RDo(r, steps[0]), steps[1..];
    var r2, a2 := RDo(r1, a1[0]), a1[1..];
    var r3, a3 := RDo(r2, a2[0]), a2[1..];
    var r4, a4 := RDo(r3, a3[0]), a3[1..];
    var r5, a5 := RDo(r4, a4[0]), a4[1..];
    assert a5[1..] == [];
    var r6 := RDo(r5, a5[0]);
    assert RRun(r6, []) == r6;
    assert RRun(r5, a5) == r6 && RRun(r4, a4) == r6 && RRun(r3, a3) == r6 && RRun(r2, a2) == r6 && RRun(r1, a1) == r6;
  }
}
