/**
  Begin as the three steps it takes: draw an id, draw a start, register. Other operations may fall in
  between. This module says exactly which registrations keep the watermark below every active start,
  and what collection does to a reader when one does not.
 */
module MvccSplitBegin {
  import opened Wrap
  import opened Stamps
  import opened MvccStore
  import opened SnapshotSpec
  import opened MvccChains
  import opened MvccRelation
  import opened MvccLifecycle
  import opened MvccAbort
  import opened MvccTheorems
  import opened MvccAllRuns
  import opened MvccRemoval

  /** A beginner that has drawn its id, and perhaps its start. */
  datatype Begun = Begun(id: nat, start: Option<nat>)

  datatype World = World(s: Store, starting: map<nat, Begun>)

  datatype Step = Whole(op: Op) | DrawId(b: nat) | DrawStart(b: nat) | Register(b: nat)

  predicate Ready(w: World, b: nat) { b in w.starting && w.starting[b].start.Some? }

  ghost function Registered(s: Store, id: nat, start: nat): Store {
    var active := s.active[id := Txn(start, None, [])];
    s.(active := active, watermark := Watermark(active, s.latest, s.watermark))
  }

  ghost function WDo(w: World, st: Step): World {
    match st
    case Whole(op) => w.(s := Do(w.s, op))
    case DrawId(b) =>
      if b !in w.starting && w.s.nextId < U64_MAX then
        World(w.s.(nextId := w.s.nextId + 1), w.starting[b := Begun(w.s.nextId, None)])
      else w
    case DrawStart(b) =>
      if b in w.starting && w.starting[b].start.None? && w.s.nextTs < MAX_COMMIT_TS then
        World(w.s.(nextTs := w.s.nextTs + 1), w.starting[b := w.starting[b].(start := Some(w.s.nextTs))])
      else w
    case Register(b) =>
      if Ready(w, b) then World(Registered(w.s, w.starting[b].id, w.starting[b].start.value), w.starting - {b}) else w
  }

  ghost function WRun(w: World, steps: seq<Step>): World
    decreases |steps|
  {
    if steps == [] then w else WRun(WDo(w, steps[0]), steps[1..])
  }

  /** The atomic begin is the three steps with nothing in between. */
  lemma BeginIsThreeSteps(w: World, b: nat)
    requires b !in w.starting && w.s.nextTs < MAX_COMMIT_TS && w.s.nextId < U64_MAX
    ensures WRun(w, [DrawId(b), DrawStart(b), Register(b)]) == World(DoBegin(w.s), w.starting)
  {
    hide Watermark;
    var steps := [DrawId(b), DrawStart(b), Register(b)];
    var w1 := WDo(w, steps[0]);
    var w2 := WDo(w1, steps[1]);
    assert steps[1..] == [DrawStart(b), Register(b)] && steps[1..][1..] == [Register(b)] && steps[1..][1..][1..] == [];
    assert WRun(w, steps) == WRun(w2, [Register(b)]);
    assert [Register(b)][1..] == [];
    assert WRun(w2, [Register(b)]) == WDo(w2, Register(b));
    assert WDo(w2, Register(b)).starting == w.starting;
  }

  // ----- the guard -----

  /** The registration comes in time: the watermark has not passed the start, and among the active
      transactions starts still follow ids. */
  ghost predicate InTime(w: World, b: nat)
    requires Ready(w, b)
  {
    var id, start := w.starting[b].id, w.starting[b].start.value;
    w.s.watermark <= start && forall t | t in w.s.active :: (t < id <==> w.s.active[t].start < start)
  }

  /** Registrations come in time, ids for new records are taken when nothing names them, and, for values,
      aborts are clean and no image of the id is uncollected. */
  ghost predicate StepOk(w: World, st: Step, vals: bool) {
    && (st.Register? && Ready(w, st.b) ==> InTime(w, st.b))
    && (st.Whole? ==> CleanOp(w.s, st.op, vals) && (vals ==> NewId(w.s, st.op)))
  }

  ghost predicate RunOk(w: World, steps: seq<Step>, vals: bool)
    decreases |steps|
  {
    steps == [] || (StepOk(w, steps[0], vals) && RunOk(WDo(w, steps[0]), steps[1..], vals))
  }

  // ----- the invariant -----

  /** An id drawn but not registered belongs to nobody. */
  ghost predicate IdUnused(s: Store, id: nat) {
    && TXN_ID_START < id < s.nextId && id !in s.active && id !in s.done.Values
    && forall k | k in s.chains :: s.chains[k].ts != id
  }

  /** A start drawn but not registered is no other transaction's stamp. */
  ghost predicate StartUnused(s: Store, a: Abs, start: nat) {
    && 1 <= start < s.nextTs && start !in s.done
    && (forall t | t in s.active :: s.active[t].start != start && s.active[t].drawn != Some(start))
    && (forall k | k in a.log :: NoneAt(a.log[k], start))
  }

  ghost predicate NoneAt(h: seq<Version>, start: nat) { forall v | v in h :: v.ts != start }

  ghost predicate BegunOk(s: Store, a: Abs, x: Begun) {
    IdUnused(s, x.id) && (x.start.Some? ==> StartUnused(s, a, x.start.value))
  }

  ghost predicate Apart(x: Begun, y: Begun) { x.id != y.id && (x.start.Some? ==> x.start != y.start) }

  ghost predicate WRel(w: World, a: Abs, vals: bool) {
    Rel(w.s, a, vals) && AllBegun(w.s, a, w.starting) && AllApart(w.starting)
  }

  ghost predicate AllBegun(s: Store, a: Abs, starting: map<nat, Begun>) {
    forall b | b in starting :: BegunOk(s, a, starting[b])
  }

  ghost predicate AllApart(starting: map<nat, Begun>) {
    forall b, c | b in starting && c in starting && b != c :: Apart(starting[b], starting[c])
  }

  // ----- operations of registered transactions -----

  /** Where a head's stamp comes from in one step: kept, the writer's id, or a commit stamp. */
  ghost predicate StampFrom(s: Store, k: Key, ts: nat) {
    (k in s.chains && ts == s.chains[k].ts) || ts in s.active || !IsTxnId(ts)
  }

  lemma HeadStamps(s: Store, a: Abs, op: Op, k: Key, vals: bool)
    requires Rel(s, a, vals) && CleanOp(s, op, vals) && k in Do(s, op).chains
    ensures StampFrom(s, k, Do(s, op).chains[k].ts)
  {
    if op.Publish? {
      if Drawn(s, op.t) && Finds(s, op.t) { PublishStampsFrom(s, a, op.t, k, vals); }
    } else if op.Abort? {
      if op.t in s.active { AbortStamps(s, a, op.t, k, vals); }
    } else {
      hide Rel, Watermark;
      WriteStamps(s, op, k);
    }
  }

  lemma WriteStamps(s: Store, op: Op, k: Key)
    requires !op.Publish? && !op.Abort? && k in Do(s, op).chains
    ensures StampFrom(s, k, Do(s, op).chains[k].ts)
  {
    hide Watermark, SetProps, Saved, Read, InRange;
  }

  lemma PublishStampsFrom(s: Store, a: Abs, t: nat, k: Key, vals: bool)
    requires Rel(s, a, vals) && Drawn(s, t) && Finds(s, t) && k in DoPublish(s, t).chains
    ensures StampFrom(s, k, DoPublish(s, t).chains[k].ts)
  {
    assert TxnOk(s, t);
    hide Rel;
    StampAllAt(s.chains, s.active[t].buf, s.active[t].drawn.value);
    hide StampAll, Watermark;
  }

  lemma AbortStamps(s: Store, a: Abs, t: nat, k: Key, vals: bool)
    requires Rel(s, a, vals) && t in s.active && (vals ==> Clean(s, t)) && k in DoAbort(s, t).chains
    ensures StampFrom(s, k, DoAbort(s, t).chains[k].ts)
  {
    assert TxnOk(s, t);
    AbortHeads(s, a, t, EnvOf(Retired(s, t), vals), vals);
    hide Watermark;
  }

  lemma IdStays(s: Store, a: Abs, op: Op, id: nat, vals: bool)
    requires Rel(s, a, vals) && IdUnused(s, id) && CleanOp(s, op, vals)
    ensures IdUnused(Do(s, op), id)
  {
    var s' := Do(s, op);
    OpIds(s, op);
    hide Rel, Do;
    forall k | k in s'.chains ensures s'.chains[k].ts != id { HeadStamps(s, a, op, k, vals); }
  }

  /** What a step does to the sets of ids. */
  lemma OpIds(s: Store, op: Op)
    ensures var s' := Do(s, op);
            && s.nextId <= s'.nextId && s'.active.Keys <= s.active.Keys + {s.nextId}
            && s'.done.Values <= s.done.Values + s.active.Keys
  {
    hide Watermark, StampAll, AbortAll;
  }

  /** What a step does to the stamps in use: only a draw or a begin takes a new one, the next. */
  lemma OpStamps(s: Store, a: Abs, op: Op, start: nat, vals: bool)
    requires Rel(s, a, vals) && StartUnused(s, a, start)
    ensures var s' := Do(s, op);
            && s.nextTs <= s'.nextTs && start !in s'.done
            && (forall t | t in s'.active :: s'.active[t].start != start && s'.active[t].drawn != Some(start))
  {
    hide Watermark, StampAll, AbortAll, Rel;
  }

  lemma OpLogs(s: Store, a: Abs, op: Op, start: nat)
    requires SameTxns(s, a) && StartUnused(s, a, start)
    ensures forall k | k in ADo(a, op, HowOf(s, op)).log :: NoneAt(ADo(a, op, HowOf(s, op)).log[k], start)
  {
    var a' := ADo(a, op, HowOf(s, op));
    forall k | k in a'.log ensures NoneAt(a'.log[k], start) {
      if k in a.log {
        assert NoneAt(a.log[k], start);
        if op.Publish? && op.t in a.txns { assert a.txns[op.t].drawn == s.active[op.t].drawn; }
      }
    }
  }

  lemma WholeKeeps(w: World, a: Abs, op: Op, vals: bool) returns (a': Abs)
    requires WRel(w, a, vals) && CleanOp(w.s, op, vals)
    ensures a' == ADo(a, op, HowOf(w.s, op)) && WRel(WDo(w, Whole(op)), a', vals)
  {
    a' := ADo(a, op, HowOf(w.s, op));
    StepRefines(w.s, a, op, vals);
    var s' := Do(w.s, op);
    assert SameTxns(w.s, a);
    forall b | b in w.starting ensures BegunOk(s', a', w.starting[b]) {
      var x := w.starting[b];
      assert BegunOk(w.s, a, x);
      hide Rel, Do, ADo, SameTxns;
      IdStays(w.s, a, op, x.id, vals);
      if x.start.Some? {
        OpStamps(w.s, a, op, x.start.value, vals);
        OpLogs(w.s, a, op, x.start.value);
      }
    }
  }

  // ----- the steps of begin -----

  lemma DrawIdTxns(s: Store, a: Abs)
    requires ClockOk(s, a) && TxnsOk(s) && s.nextId < U64_MAX
    ensures var s' := s.(nextId := s.nextId + 1); TxnsOk(s') && ClockOk(s', a.(nextId := a.nextId + 1))
    ensures s.nextId !in s.active && s.nextId !in s.done.Values
  {
    var s' := s.(nextId := s.nextId + 1);
    forall t | t in s.active ensures TxnOk(s', t) && t < s.nextId { assert TxnOk(s, t); }
  }

  lemma DrawIdRel(s: Store, a: Abs, vals: bool)
    requires Rel(s, a, vals) && s.nextId < U64_MAX
    ensures Rel(s.(nextId := s.nextId + 1), a.(nextId := a.nextId + 1), vals)
    ensures IdUnused(s.(nextId := s.nextId + 1), s.nextId)
  {
    var s' := s.(nextId := s.nextId + 1);
    hide TxnsOk, HeadsOk, LogsOk, PendingOk, BufsOk;
    DrawIdTxns(s, a);
    DrawIdRest(s, a, vals);
    NewIdUnused(s, a.log, EnvOf(s, vals));
    HeadsFrame(s.chains, a.log, EnvOf(s, vals), EnvOf(s', vals), s.nextId, s'.nextId);
  }

  lemma DrawIdRest(s: Store, a: Abs, vals: bool)
    requires SameTxns(s, a) && PendingOk(s, a, vals) && BufsOk(s) && LogsOk(a)
    ensures var s', a' := s.(nextId := s.nextId + 1), a.(nextId := a.nextId + 1);
            SameTxns(s', a') && PendingOk(s', a', vals) && BufsOk(s') && LogsOk(a')
  {
  }

  lemma DrawStartTxns(s: Store, a: Abs)
    requires ClockOk(s, a) && TxnsOk(s) && s.nextTs < MAX_COMMIT_TS
    ensures var s' := s.(nextTs := s.nextTs + 1); TxnsOk(s') && ClockOk(s', a.(clock := a.clock + 1)) && s.nextTs !in s'.done
    ensures forall t | t in s.active :: s.active[t].start != s.nextTs && s.active[t].drawn != Some(s.nextTs)
  {
    var s' := s.(nextTs := s.nextTs + 1);
    forall t | t in s.active
      ensures TxnOk(s', t) && s.active[t].start != s.nextTs && s.active[t].drawn != Some(s.nextTs)
    {
      assert TxnOk(s, t);
    }
  }

  lemma DrawStartLogs(a: Abs)
    requires LogsOk(a)
    ensures LogsOk(a.(clock := a.clock + 1)) && forall k | k in a.log :: NoneAt(a.log[k], a.clock)
  {
    var a' := a.(clock := a.clock + 1);
    forall k | k in a.log ensures LogOk(a.log[k], a'.clock) && NoneAt(a.log[k], a.clock) {
      assert LogOk(a.log[k], a.clock);
    }
    forall t | t in a.txns ensures TxnLogOk(a.log, a.txns[t]) { }
  }

  lemma DrawStartRel(s: Store, a: Abs, vals: bool)
    requires Rel(s, a, vals) && s.nextTs < MAX_COMMIT_TS
    ensures Rel(s.(nextTs := s.nextTs + 1), a.(clock := a.clock + 1), vals)
    ensures StartUnused(s.(nextTs := s.nextTs + 1), a.(clock := a.clock + 1), s.nextTs)
  {
    hide TxnsOk, LogsOk, HeadsOk, PendingOk, BufsOk;
    var s', a' := s.(nextTs := s.nextTs + 1), a.(clock := a.clock + 1);
    DrawStartTxns(s, a);
    DrawStartLogs(a);
    DrawStartRest(s, a, vals);
    assert EnvOf(s', vals) == EnvOf(s, vals);
  }

  lemma DrawStartRest(s: Store, a: Abs, vals: bool)
    requires SameTxns(s, a) && PendingOk(s, a, vals) && BufsOk(s)
    ensures var s', a' := s.(nextTs := s.nextTs + 1), a.(clock := a.clock + 1);
            SameTxns(s', a') && PendingOk(s', a', vals) && BufsOk(s')
  {
  }

  /** Beginners are undisturbed when counters grow and nothing else changes. */
  lemma BegunStays(s: Store, a: Abs, s': Store, a': Abs, x: Begun)
    requires BegunOk(s, a, x) && s.nextId <= s'.nextId && s.nextTs <= s'.nextTs
    requires s'.active == s.active && s'.done == s.done && s'.chains == s.chains && a'.log == a.log
    ensures BegunOk(s', a', x)
  {
  }

  lemma NewIdApart(s: Store, a: Abs, starting: map<nat, Begun>, b: nat)
    requires AllBegun(s, a, starting) && AllApart(starting) && b !in starting
    ensures AllApart(starting[b := Begun(s.nextId, None)])
  {
    var starting' := starting[b := Begun(s.nextId, None)];
    forall c, d | c in starting' && d in starting' && c != d ensures Apart(starting'[c], starting'[d]) {
      if c != b { assert BegunOk(s, a, starting[c]); }
      if d != b { assert BegunOk(s, a, starting[d]); }
      if c != b && d != b { assert Apart(starting[c], starting[d]); }
    }
  }

  lemma NewStartApart(s: Store, a: Abs, starting: map<nat, Begun>, b: nat)
    requires AllBegun(s, a, starting) && AllApart(starting) && b in starting
    ensures AllApart(starting[b := starting[b].(start := Some(s.nextTs))])
  {
    var starting' := starting[b := starting[b].(start := Some(s.nextTs))];
    forall c, d | c in starting' && d in starting' && c != d ensures Apart(starting'[c], starting'[d]) {
      assert BegunOk(s, a, starting[c]) && BegunOk(s, a, starting[d]) && Apart(starting[c], starting[d]);
    }
  }

  lemma BegunsStay(s: Store, a: Abs, s': Store, a': Abs, starting: map<nat, Begun>)
    requires AllBegun(s, a, starting) && s.nextId <= s'.nextId && s.nextTs <= s'.nextTs
    requires s'.active == s.active && s'.done == s.done && s'.chains == s.chains && a'.log == a.log
    ensures AllBegun(s', a', starting)
  {
    hide BegunOk;
    forall b | b in starting ensures BegunOk(s', a', starting[b]) {
      assert BegunOk(s, a, starting[b]);
      BegunStays(s, a, s', a', starting[b]);
    }
  }

  lemma OneMore(s: Store, a: Abs, starting: map<nat, Begun>, b: nat, x: Begun)
    requires AllBegun(s, a, starting) && BegunOk(s, a, x)
    ensures AllBegun(s, a, starting[b := x])
  {
    hide BegunOk;
  }

  lemma DrawIdBegun(s: Store, a: Abs, starting: map<nat, Begun>, b: nat)
    requires AllBegun(s, a, starting) && IdUnused(s.(nextId := s.nextId + 1), s.nextId)
    ensures AllBegun(s.(nextId := s.nextId + 1), a.(nextId := a.nextId + 1), starting[b := Begun(s.nextId, None)])
  {
    var s', a' := s.(nextId := s.nextId + 1), a.(nextId := a.nextId + 1);
    BegunsStay(s, a, s', a', starting);
    hide AllBegun, IdUnused;
    OneMore(s', a', starting, b, Begun(s.nextId, None));
  }

  lemma DrawStartBegun(s: Store, a: Abs, starting: map<nat, Begun>, b: nat)
    requires AllBegun(s, a, starting) && b in starting
    requires StartUnused(s.(nextTs := s.nextTs + 1), a.(clock := a.clock + 1), s.nextTs)
    ensures AllBegun(s.(nextTs := s.nextTs + 1), a.(clock := a.clock + 1), starting[b := starting[b].(start := Some(s.nextTs))])
  {
    var s', a' := s.(nextTs := s.nextTs + 1), a.(clock := a.clock + 1);
    BegunsStay(s, a, s', a', starting);
    assert BegunOk(s', a', starting[b]);
    hide AllBegun, IdUnused, StartUnused;
    OneMore(s', a', starting, b, starting[b].(start := Some(s.nextTs)));
  }

  lemma CountersWrite(a: Abs, a': Abs)
    requires a'.log == a.log && a'.txns == a.txns
    ensures SameWrites(a, a')
  {
  }

  lemma DrawSteps(w: World, b: nat)
    ensures WDo(w, DrawId(b)) ==
              if b !in w.starting && w.s.nextId < U64_MAX then
                World(w.s.(nextId := w.s.nextId + 1), w.starting[b := Begun(w.s.nextId, None)])
              else w
    ensures WDo(w, DrawStart(b)) ==
              if b in w.starting && w.starting[b].start.None? && w.s.nextTs < MAX_COMMIT_TS then
                World(w.s.(nextTs := w.s.nextTs + 1), w.starting[b := w.starting[b].(start := Some(w.s.nextTs))])
              else w
  {
  }

  lemma DrawIdKeeps(w: World, a: Abs, b: nat, vals: bool) returns (a': Abs)
    requires WRel(w, a, vals)
    ensures WRel(WDo(w, DrawId(b)), a', vals) && SameWrites(a, a')
  {
    hide *;
    DrawSteps(w, b);
    a' := if b !in w.starting && w.s.nextId < U64_MAX then a.(nextId := a.nextId + 1) else a;
    CountersWrite(a, a');
    if b !in w.starting && w.s.nextId < U64_MAX {
      WRelParts(w, a, vals);
      DrawIdRel(w.s, a, vals);
      NewIdApart(w.s, a, w.starting, b);
      DrawIdBegun(w.s, a, w.starting, b);
      WRelIntro(WDo(w, DrawId(b)), a', vals);
    }
  }

  lemma DrawStartKeeps(w: World, a: Abs, b: nat, vals: bool) returns (a': Abs)
    requires WRel(w, a, vals)
    ensures WRel(WDo(w, DrawStart(b)), a', vals) && SameWrites(a, a')
  {
    hide *;
    DrawSteps(w, b);
    var draws := b in w.starting && w.starting[b].start.None? && w.s.nextTs < MAX_COMMIT_TS;
    a' := if draws then a.(clock := a.clock + 1) else a;
    CountersWrite(a, a');
    if draws {
      WRelParts(w, a, vals);
      DrawStartRel(w.s, a, vals);
      NewStartApart(w.s, a, w.starting, b);
      DrawStartBegun(w.s, a, w.starting, b);
      WRelIntro(WDo(w, DrawStart(b)), a', vals);
    }
  }

  function ARegistered(a: Abs, id: nat, start: nat): Abs { a.(txns := a.txns[id := ATxn(start, None, map[])]) }

  lemma RegisterPairs(s: Store, id: nat, start: nat)
    requires TxnsOk(s) && id !in s.active
    requires forall t | t in s.active :: s.active[t].start != start && s.active[t].drawn != Some(start)
    requires forall t | t in s.active :: (t < id <==> s.active[t].start < start)
    ensures var active := s.active[id := Txn(start, None, [])];
            && (forall t, u | t in active && u in active && t < u :: PairOk(active[t], active[u]))
            && StartsFollowIds(active)
  {
    var active := s.active[id := Txn(start, None, [])];
    forall t, u | t in active && u in active && t < u ensures PairOk(active[t], active[u]) {
      if t != id && u != id { assert PairOk(s.active[t], s.active[u]); }
    }
  }

  lemma RegisterOk(s: Store, a: Abs, id: nat, start: nat, t: nat)
    requires TxnsOk(s) && IdUnused(s, id) && StartUnused(s, a, start)
    requires var s' := Registered(s, id, start);
             t in s'.active && s'.watermark <= s'.active[t].start && s'.watermark < s.nextTs
    ensures TxnOk(Registered(s, id, start), t)
  {
    hide Watermark, PairOk;
    if t != id { assert TxnOk(s, t); }
  }

  lemma RegisterMark(s: Store, a: Abs, id: nat, start: nat)
    requires TxnsOk(s) && s.latest < s.nextTs && s.watermark <= start < s.nextTs
    requires StartsFollowIds(s.active[id := Txn(start, None, [])])
    ensures var s' := Registered(s, id, start);
            s.watermark <= s'.watermark < s.nextTs && forall t | t in s'.active :: s'.watermark <= s'.active[t].start
  {
    hide PairOk, StartsFollowIds;
    forall t | t in s.active ensures TxnOk(s, t) {}
    WatermarkSafe(s.active[id := Txn(start, None, [])], s.latest, s.watermark, s.nextTs);
    hide Watermark;
  }

  lemma RegisterTxns(s: Store, a: Abs, id: nat, start: nat)
    requires ClockOk(s, a) && TxnsOk(s) && IdUnused(s, id) && StartUnused(s, a, start)
    requires s.watermark <= start && forall t | t in s.active :: (t < id <==> s.active[t].start < start)
    ensures TxnsOk(Registered(s, id, start)) && ClockOk(Registered(s, id, start), ARegistered(a, id, start))
    ensures s.watermark <= Registered(s, id, start).watermark
  {
    var s' := Registered(s, id, start);
    RegisterPairs(s, id, start);
    RegisterMark(s, a, id, start);
    hide PairOk, TxnOk, Watermark, StartsFollowIds;
    forall t | t in s'.active ensures TxnOk(s', t) { RegisterOk(s, a, id, start, t); }
  }

  lemma RegisterPending(s: Store, a: Abs, id: nat, start: nat, vals: bool)
    requires SameTxns(s, a) && PendingOk(s, a, vals) && IdUnused(s, id)
    ensures SameTxns(Registered(s, id, start), ARegistered(a, id, start))
    ensures PendingOk(Registered(s, id, start), ARegistered(a, id, start), vals)
  {
    hide Watermark;
    var s', a' := Registered(s, id, start), ARegistered(a, id, start);
    forall t | t in a'.txns ensures PendingTxn(s'.chains, a'.txns[t], t, vals) {
      if t != id { assert PendingTxn(s.chains, a.txns[t], t, vals); }
    }
  }

  lemma RegisterBufs(s: Store, id: nat, start: nat)
    requires BufsOk(s) && IdUnused(s, id)
    ensures BufsOk(Registered(s, id, start))
  {
    hide Watermark;
    var s' := Registered(s, id, start);
    forall t | t in s'.active ensures BufOk(s'.chains, s'.active[t].buf, t) {
      if t != id { assert BufOk(s.chains, s.active[t].buf, t); }
    }
  }

  lemma RegisterLogs(a: Abs, id: nat, start: nat)
    requires LogsOk(a) && forall k | k in a.log :: NoneAt(a.log[k], start)
    ensures LogsOk(ARegistered(a, id, start))
  {
    var a' := ARegistered(a, id, start);
    forall t | t in a'.txns ensures TxnLogOk(a'.log, a'.txns[t]) {
      if t != id { assert TxnLogOk(a.log, a.txns[t]); }
      else { forall k | k in a.log ensures FreshFor(a.log[k], a'.txns[t]) { assert NoneAt(a.log[k], start); } }
    }
  }

  lemma RegisterRel(s: Store, a: Abs, id: nat, start: nat, vals: bool)
    requires Rel(s, a, vals) && IdUnused(s, id) && StartUnused(s, a, start)
    requires s.watermark <= start && forall t | t in s.active :: (t < id <==> s.active[t].start < start)
    ensures Rel(Registered(s, id, start), ARegistered(a, id, start), vals)
  {
    hide TxnsOk, SameTxns, PendingOk, HeadsOk, LogsOk, BufsOk, Watermark;
    RegisterTxns(s, a, id, start);
    RegisterPending(s, a, id, start, vals);
    RegisterBufs(s, id, start);
    RegisterLogs(a, id, start);
    HeadsFrame(s.chains, a.log, EnvOf(s, vals), EnvOf(Registered(s, id, start), vals), s.nextId, s.nextId);
  }

  /** The others are undisturbed by a registration. */
  lemma BegunBeside(s: Store, a: Abs, x: Begun, y: Begun)
    requires BegunOk(s, a, y) && y.start.Some? && BegunOk(s, a, x) && Apart(x, y)
    ensures BegunOk(Registered(s, y.id, y.start.value), ARegistered(a, y.id, y.start.value), x)
  {
    hide Watermark;
  }

  lemma FewerApart(starting: map<nat, Begun>, b: nat)
    requires AllApart(starting)
    ensures AllApart(starting - {b})
  {
  }

  lemma RegisterBegun(s: Store, a: Abs, starting: map<nat, Begun>, b: nat)
    requires AllBegun(s, a, starting) && AllApart(starting) && b in starting && starting[b].start.Some?
    ensures AllBegun(Registered(s, starting[b].id, starting[b].start.value), ARegistered(a, starting[b].id, starting[b].start.value),
                     starting - {b})
  {
    hide Registered, ARegistered, BegunOk, Apart;
    var x := starting[b];
    var s', a', starting' := Registered(s, x.id, x.start.value), ARegistered(a, x.id, x.start.value), starting - {b};
    forall c | c in starting' ensures BegunOk(s', a', starting'[c]) {
      assert BegunOk(s, a, starting[c]) && Apart(starting[c], x);
      BegunBeside(s, a, starting[c], x);
    }
  }

  lemma BegunParts(s: Store, a: Abs, starting: map<nat, Begun>, b: nat)
    requires AllBegun(s, a, starting) && b in starting && starting[b].start.Some?
    ensures IdUnused(s, starting[b].id) && StartUnused(s, a, starting[b].start.value)
  {
    assert BegunOk(s, a, starting[b]);
  }

  lemma RegisterKeeps(w: World, a: Abs, b: nat, vals: bool) returns (a': Abs)
    requires WRel(w, a, vals) && (Ready(w, b) ==> InTime(w, b))
    ensures WRel(WDo(w, Register(b)), a', vals) && SameWrites(a, a')
  {
    a' := a;
    if Ready(w, b) {
      var x := w.starting[b];
      a' := ARegistered(a, x.id, x.start.value);
      hide *;
      RegisterMeans(w, a, b);
      WRelParts(w, a, vals);
      BegunParts(w.s, a, w.starting, b);
      RegisterRel(w.s, a, x.id, x.start.value, vals);
      FewerApart(w.starting, b);
      RegisterBegun(w.s, a, w.starting, b);
      WRelIntro(WDo(w, Register(b)), a', vals);
    } else {
      assert WDo(w, Register(b)) == w;
      hide *;
    }
  }

  lemma RegisterMeans(w: World, a: Abs, b: nat)
    requires Ready(w, b)
    ensures b in w.starting && w.starting[b].start.Some?
    ensures var x := w.starting[b]; WDo(w, Register(b)) == World(Registered(w.s, x.id, x.start.value), w.starting - {b})
    ensures SameWrites(a, ARegistered(a, w.starting[b].id, w.starting[b].start.value))
    ensures InTime(w, b) ==> var x := w.starting[b];
            w.s.watermark <= x.start.value && forall t | t in w.s.active :: (t < x.id <==> w.s.active[t].start < x.start.value)
  {
    hide Registered;
  }

  lemma WRelParts(w: World, a: Abs, vals: bool)
    requires WRel(w, a, vals)
    ensures Rel(w.s, a, vals) && AllBegun(w.s, a, w.starting) && AllApart(w.starting)
  {
  }

  lemma WRelIntro(w: World, a: Abs, vals: bool)
    requires Rel(w.s, a, vals) && AllBegun(w.s, a, w.starting) && AllApart(w.starting)
    ensures WRel(w, a, vals)
  {
  }

  // ----- runs in time -----

  /** With values, the removed edges stay buried as well. */
  ghost predicate WRelBuried(w: World, a: Abs, vals: bool) { WRel(w, a, vals) && (vals ==> Burials(w.s.kept, a)) }

  lemma BeginKept(w: World, st: Step)
    requires !st.Whole?
    ensures WDo(w, st).s.kept == w.s.kept
  {
    hide Watermark;
  }

  lemma StepBegun(w: World, a: Abs, st: Step, vals: bool) returns (a': Abs)
    requires WRel(w, a, vals) && StepOk(w, st, vals) && !st.Whole?
    ensures WRel(WDo(w, st), a', vals) && SameWrites(a, a')
  {
    hide WRel, WDo, SameWrites;
    match st {
      case DrawId(b) => a' := DrawIdKeeps(w, a, b, vals);
      case DrawStart(b) => a' := DrawStartKeeps(w, a, b, vals);
      case Register(b) => a' := RegisterKeeps(w, a, b, vals);
    }
  }

  lemma WholeFacts(w: World, a: Abs, op: Op, vals: bool)
    requires WRel(w, a, vals) && StepOk(w, Whole(op), vals)
    ensures Rel(w.s, a, vals) && CleanOp(w.s, op, vals) && (vals ==> NewId(w.s, op)) && WDo(w, Whole(op)).s == Do(w.s, op)
  {
  }

  lemma WStep(w: World, a: Abs, st: Step, vals: bool) returns (a': Abs)
    requires WRelBuried(w, a, vals) && StepOk(w, st, vals)
    ensures WRelBuried(WDo(w, st), a', vals)
  {
    hide WRel, WDo, StepOk, Burials, SameWrites, Rel;
    if st.Whole? {
      WholeFacts(w, a, st.op, vals);
      a' := WholeKeeps(w, a, st.op, vals);
      if vals { BurialsKept(w.s, a, st.op); }
    } else {
      a' := StepBegun(w, a, st, vals);
      BeginKept(w, st);
      if vals { LeaveBurials(w.s.kept, a, a'); }
    }
  }

  lemma {:induction false} WRunKeeps(w: World, a: Abs, steps: seq<Step>, vals: bool) returns (a': Abs)
    requires WRelBuried(w, a, vals) && RunOk(w, steps, vals)
    ensures WRelBuried(WRun(w, steps), a', vals)
    decreases |steps|
  {
    hide WRelBuried, WDo, StepOk;
    a' := a;
    if steps != [] {
      var a1 := WStep(w, a, steps[0], vals);
      a' := WRunKeeps(WDo(w, steps[0]), a1, steps[1..], vals);
    }
  }

  ghost predicate WatermarkOk(s: Store) { forall t | t in s.active :: s.watermark <= s.active[t].start }

  const NOTHING: World := World(EMPTY, map[])

  lemma WReached(steps: seq<Step>, vals: bool) returns (a: Abs)
    requires RunOk(NOTHING, steps, vals)
    ensures var s := WRun(NOTHING, steps).s;
            Rel(s, a, vals) && (vals ==> Burials(s.kept, a))
  {
    EmptyRel(vals);
    assert WRel(NOTHING, START, vals);
    a := WRunKeeps(NOTHING, START, steps, vals);
  }

  /** Over every interleaving in which registrations come in time, the watermark stays at or below every
      active start, and collection takes from an active transaction's reads exactly the removed edges. */
  lemma SplitBeginSafe(steps: seq<Step>, t: nat, k: Key)
    requires RunOk(NOTHING, steps, false) && t in WRun(NOTHING, steps).s.active
    ensures var s := WRun(NOTHING, steps).s;
            && WatermarkOk(s)
            && (Read(DoCollect(s), t, k) != Read(s, t, k) <==> Removed(s, k) && Read(s, t, k).Some?)
  {
    var a := WReached(steps, false);
    hide *;
    SplitCollect(WRun(NOTHING, steps).s, a, t, k);
  }

  lemma SplitCollect(s: Store, a: Abs, t: nat, k: Key)
    requires Rel(s, a, false) && t in s.active
    ensures WatermarkOk(s) && t in DoCollect(s).active
    ensures Read(DoCollect(s), t, k) != Read(s, t, k) <==> Removed(s, k) && Read(s, t, k).Some?
  {
    forall u | u in s.active ensures s.watermark <= s.active[u].start { assert TxnOk(s, u); }
    hide Rel, Removed, Read;
    CollectSame(s, a, t, k);
  }

  /** With clean aborts, and no uncollected image of an id taken again, collection takes nothing. */
  lemma SplitBeginUnseen(steps: seq<Step>, t: nat, k: Key)
    requires RunOk(NOTHING, steps, true) && t in WRun(NOTHING, steps).s.active
    ensures var s := WRun(NOTHING, steps).s;
            t in DoCollect(s).active && Read(DoCollect(s), t, k) == Read(s, t, k)
  {
    var a := WReached(steps, true);
    hide *;
    CollectUnseen(WRun(NOTHING, steps).s, a, t, k);
  }

  // ----- registrations out of time -----

  /** The watermark has caught up with the front transaction. */
  ghost predicate AtFront(s: Store) {
    s.active.Keys != {} ==> s.watermark >= s.active[Front(s.active.Keys)].start
  }

  lemma Left(s: Store, t: nat)
    requires t in s.active
    ensures Do(s, Abort(t)).active == s.active - {t} && AtFront(Do(s, Abort(t)))
  {
    hide AbortAll;
  }

  /** Two active transactions whose starts do not follow their ids: once everyone before the first has
      left, the watermark is past the start of the second. */
  lemma {:induction false} Overtakes(s: Store, t: nat, u: nat) returns (ops: seq<Op>)
    requires t in s.active && u in s.active && t < u && s.active[t].start > s.active[u].start && AtFront(s)
    ensures !WatermarkOk(Run(s, ops))
    decreases |s.active.Keys|
  {
    var f := Front(s.active.Keys);
    assert f <= t by { assert t in s.active.Keys; }
    if f == t {
      ops := [];
    } else {
      var op := Abort(f);
      Left(s, f);
      var s1 := Do(s, op);
      assert s1.active.Keys == s.active.Keys - {f};
      hide Do, AtFront, WatermarkOk;
      var rest := Overtakes(s1, t, u);
      ops := [op] + rest;
      assert ops[1..] == rest;
    }
  }

  lemma RegisteredFront(s: Store, id: nat, start: nat)
    ensures AtFront(Registered(s, id, start))
  {
  }

  /** A registration keeps the watermark safe over every run of the registered transactions if and only
      if it comes in time. */
  lemma RegisterSafeIff(w: World, a: Abs, b: nat, vals: bool)
    requires WRel(w, a, vals) && Ready(w, b)
    ensures InTime(w, b) <==> forall ops :: WatermarkOk(Run(WDo(w, Register(b)).s, ops))
  {
    if InTime(w, b) {
      var a' := RegisterKeeps(w, a, b, vals);
      var s' := WDo(w, Register(b)).s;
      assert Timed(s') by { RelTimed(s', a', vals); }
      hide *;
      forall ops ensures WatermarkOk(Run(s', ops)) {
        RunTimed(s', ops);
        TimedWatermark(Run(s', ops));
      }
    } else {
      var ops := OutOfTime(w, a, b, vals);
    }
  }

  lemma RelTimed(s: Store, a: Abs, vals: bool)
    requires Rel(s, a, vals)
    ensures Timed(s)
  {
  }

  lemma TimedWatermark(s: Store)
    requires Timed(s)
    ensures WatermarkOk(s)
  {
    TimedStarts(s);
  }

  lemma OutOfTime(w: World, a: Abs, b: nat, vals: bool) returns (ops: seq<Op>)
    requires WRel(w, a, vals) && Ready(w, b) && !InTime(w, b)
    ensures !WatermarkOk(Run(WDo(w, Register(b)).s, ops))
  {
    var id, start := w.starting[b].id, w.starting[b].start.value;
    assert BegunOk(w.s, a, w.starting[b]);
    var s' := Registered(w.s, id, start);
    RegisteredFront(w.s, id, start);
    if w.s.watermark > start {
      WatermarkAbove(w.s, id, start);
      ops := [];
      hide Rel, Watermark, AtFront, BegunOk, AllBegun, AllApart;
      assert id in s'.active;
    } else {
      hide Rel, Watermark, AtFront, AllBegun, AllApart;
      var t :| t in w.s.active && !(t < id <==> w.s.active[t].start < start);
      Inverted(w.s, a, w.starting[b], t);
      if t < id { ops := Overtakes(s', t, id); } else { ops := Overtakes(s', id, t); }
    }
  }

  lemma Inverted(s: Store, a: Abs, x: Begun, t: nat)
    requires BegunOk(s, a, x) && x.start.Some? && t in s.active && !(t < x.id <==> s.active[t].start < x.start.value)
    ensures var s' := Registered(s, x.id, x.start.value);
            t in s'.active && x.id in s'.active && t != x.id &&
            if t < x.id then s'.active[t].start > s'.active[x.id].start else s'.active[x.id].start > s'.active[t].start
  {
    hide Watermark;
  }

  lemma WatermarkAbove(s: Store, id: nat, start: nat)
    ensures Registered(s, id, start).watermark >= s.watermark
  {
  }
}
