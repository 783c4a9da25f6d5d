/**
  What holds over every run of the transactional store, whatever its aborts leave in the records, as
  long as no id is taken for a new record while an active transaction's undo buffer still names it: what
  collection does to reads, and exactly when committed writers never overlap. The watermark is safe
  without that condition.
 */
module MvccAllRuns {
  import opened Wrap
  import opened Stamps
  import opened MvccStore
  import opened SnapshotSpec
  import opened MvccChains
  import opened MvccRelation
  import opened MvccLifecycle
  import opened MvccAbort
  import opened MvccTheorems

  /** The stamps of every reachable state are related to the specification's. */
  lemma Reached(ops: seq<Op>)
    requires CleanRun(EMPTY, ops, false)
    ensures Rel(Run(EMPTY, ops), ARun(EMPTY, START, ops), false)
  {
    EmptyRel(false);
    RunRefines(EMPTY, START, ops, false);
  }

  // ----- the watermark -----

  /** Counters, starts and drawn stamps are in order. */
  ghost predicate Timed(s: Store) { TxnsOk(s) && ClockOk(s, ClockOf(s)) }

  function ClockOf(s: Store): Abs { Abs(map[], map[], s.nextTs, s.nextId) }

  lemma PushTimed(s: Store, t: nat, k: Key, c: Chain)
    requires Timed(s) && t in s.active && c.undo.Entry?
    ensures Timed(Push(s, t, k, c))
  {
    TxnsPush(s, t, k, c);
    hide TxnsOk;
  }

  /** A write pushes an undo entry or changes nothing. */
  lemma WritePushes(s: Store, op: Op)
    requires op.Create? || op.Set? || op.Delete?
    ensures Do(s, op) == s || (op.t in s.active && exists c: Chain :: c.undo.Entry? && Do(s, op) == Push(s, op.t, op.k, c))
  {
    hide Push, InRange;
    match op
    case Create(t, k, rec) =>
      var c := if k in s.chains then s.chains[k] else Chain(rec, t, Null);
      var ts := if k.VertexKey? && c.ts == t then 0 else c.ts;
      if CanCreate(s, t, k) { assert Do(s, op) == Push(s, t, k, c.(undo := Entry(t, MarkDead, ts, c.undo))); }
    case Set(t, k, indices, props) =>
      if CanWrite(s, t, k) && InRange(indices, s.chains[k].rec) {
        var c := s.chains[k];
        var e := Entry(t, SetBack(indices, Saved(c.rec, indices)), c.ts, c.undo);
        assert Do(s, op) == Push(s, t, k, Chain(SetProps(c.rec, indices, props), t, e));
      }
    case Delete(t, k) =>
      if CanWrite(s, t, k) {
        var c := s.chains[k];
        assert Do(s, op) == Push(s, t, k, Chain(c.rec.(dead := true), t, Entry(t, Restore(c.rec), c.ts, c.undo)));
      }
  }

  lemma StepTimed(s: Store, op: Op)
    requires Timed(s)
    ensures Timed(Do(s, op)) && s.watermark <= Do(s, op).watermark
  {
    var a := ClockOf(s);
    hide TxnsOk, Watermark, StampAll, AbortAll, CanCreate, CanWrite, Push, Removed;
    match op
    case Begin => if s.nextTs < MAX_COMMIT_TS && s.nextId < U64_MAX { BeginTxns(s, a); }
    case Draw(t) => if Running(s, t) && s.nextTs < MAX_COMMIT_TS { DrawTxns(s, t); }
    case Publish(t) => if Drawn(s, t) && Finds(s, t) { StampedTxns(s, a, t); }
    case Abort(t) => if t in s.active { RetireTxns(s, a, t); AbortTxns(s, t, a); }
    case Collect => CollectTxns(s, a);
    case _ =>
      WritePushes(s, op);
      if Do(s, op) != s {
        var c: Chain :| c.undo.Entry? && Do(s, op) == Push(s, op.t, op.k, c);
        PushTimed(s, op.t, op.k, c);
        assert s.watermark == Push(s, op.t, op.k, c).watermark by { PushMark(s, op.t, op.k, c); }
      }
  }

  lemma PushMark(s: Store, t: nat, k: Key, c: Chain)
    requires t in s.active && c.undo.Entry?
    ensures Push(s, t, k, c).watermark == s.watermark
  {
  }

  lemma {:induction false} RunTimed(s: Store, ops: seq<Op>)
    requires Timed(s)
    ensures Timed(Run(s, ops))
    decreases |ops|
  {
    hide Timed, Do;
    if ops != [] {
      StepTimed(s, ops[0]);
      RunTimed(Do(s, ops[0]), ops[1..]);
    }
  }

  lemma TimedStarts(s: Store)
    requires Timed(s)
    ensures forall t | t in s.active :: s.watermark <= s.active[t].start
  {
    forall t | t in s.active ensures s.watermark <= s.active[t].start { assert TxnOk(s, t); }
  }

  /** Over every run the watermark never moves back and never passes an active transaction's start. */
  lemma WatermarkInvariant(ops: seq<Op>, op: Op)
    ensures var s := Run(EMPTY, ops);
            && s.watermark <= Do(s, op).watermark
            && forall t | t in s.active :: s.watermark <= s.active[t].start
  {
    RunTimed(EMPTY, ops);
    var s := Run(EMPTY, ops);
    TimedStarts(s);
    StepTimed(s, op);
  }

  // ----- collection -----

  /** Entries whose owners are collected lie below the point where every active reader stops. */
  lemma {:induction false} WalkSame(u: Undo, r: Record, ts: nat, h: seq<Version>, up: nat, env: Env,
                                    live: set<nat>, live': set<nat>, start: nat)
    requires Good(u, r, ts, h, up, env) && forall v | v in h :: v.ts != start
    requires env.wm <= start < ts && start < up
    requires env.act <= live' <= live
    requires forall c | c in env.done && c > env.wm :: env.done[c] in live'
    requires up == TOP && IsTxnId(ts) && ts !in env.act ==> ts !in live
    ensures Walk(u, live, r, start) == Walk(u, live', r, start)
    decreases u
  {
    if u.Entry? && u.owner in live {
      assert u.owner in live';
      var r', below := ApplyDelta(u.delta, r), Older(h, ts);
      var up' := if IsTxnId(ts) then up else ts;
      if u.ts >= start && u.ts != 0 {
        if !IsTxnId(u.ts) { assert Last(below) in below && Last(below) in h; }
        WalkSame(u.next, r', u.ts, below, up', env, live, live', start);
      }
    }
  }

  /** Collection takes from a reader exactly the removed edges. */
  lemma CollectSame(s: Store, a: Abs, t: nat, k: Key)
    requires Rel(s, a, false) && t in s.active
    ensures Read(DoCollect(s), t, k) == if Removed(s, k) then None else Read(s, t, k)
  {
    hide Removed;
    if k in s.chains && !Removed(s, k) {
      var c, start, env := s.chains[k], s.active[t].start, EnvOf(s, false);
      assert TxnOk(s, t) && HeadOk(c, k, a.log[k], env, s.nextId);
      assert TxnLogOk(a.log, a.txns[t]) && FreshFor(a.log[k], a.txns[t]);
      if !Sees(c.ts, t, start) {
        CollectedLive(s);
        WalkSame(c.undo, c.rec, c.ts, a.log[k], TOP, env, Live(s), Live(DoCollect(s)), start);
      }
    }
  }

  lemma CollectedLive(s: Store)
    ensures s.active.Keys <= Live(DoCollect(s)) <= Live(s)
    ensures forall c | c in s.done && c > s.watermark :: s.done[c] in Live(DoCollect(s))
  {
    forall c | c in s.done && c > s.watermark ensures s.done[c] in Live(DoCollect(s)) {
      assert c in DoCollect(s).done;
    }
  }

  /** In every state reached, whatever the aborts, collection changes what an active transaction reads of
      a record exactly when it removes an edge the transaction still sees: its head a tombstone, marked by
      a collected deletion, the reader's walk ending at a live record. */
  lemma CollectSeenIff(ops: seq<Op>, t: nat, k: Key)
    requires CleanRun(EMPTY, ops, false) && t in Run(EMPTY, ops).active
    ensures var s := Run(EMPTY, ops);
            Read(DoCollect(s), t, k) != Read(s, t, k) <==> Removed(s, k) && Read(s, t, k).Some?
  {
    hide Rel;
    Reached(ops);
    CollectSame(Run(EMPTY, ops), ARun(EMPTY, START, ops), t, k);
  }

  // ----- first committer wins -----

  /** A commit of one record: its stamp, and the start of the transaction that wrote it. */
  datatype Commit = Commit(ts: nat, start: nat)

  /** The step stamps the record: it publishes a transaction whose undo buffer names it. */
  ghost predicate StampsKey(s: Store, op: Op, k: Key) {
    op.Publish? && Drawn(s, op.t) && Finds(s, op.t) && k in s.chains && Names(s.active[op.t].buf, k)
  }

  /** The commits that stamp a record during a run, in order. */
  ghost function Commits(s: Store, ops: seq<Op>, k: Key): seq<Commit>
    decreases |ops|
  {
    if ops == [] then [] else StampOf(s, ops[0], k) + Commits(Do(s, ops[0]), ops[1..], k)
  }

  ghost function StampOf(s: Store, op: Op, k: Key): seq<Commit> {
    if StampsKey(s, op, k) then [Commit(s.active[op.t].drawn.value, s.active[op.t].start)] else []
  }

  lemma {:induction false} OnHas(buf: seq<Item>, x: Item)
    requires x in buf
    ensures On(buf, x.key) != []
  {
    if buf[0].key != x.key { OnHas(buf[1..], x); }
  }

  lemma OnFound(buf: seq<Item>, k: Key)
    ensures On(buf, k) != [] <==> Names(buf, k)
  {
  }

  /** Publishing puts the stamp on exactly those heads. */
  lemma PublishStamps(s: Store, t: nat, k: Key)
    requires Drawn(s, t) && Finds(s, t) && k in s.chains
    ensures var s' := DoPublish(s, t);
            k in s'.chains &&
            s'.chains[k] == if StampsKey(s, Publish(t), k) then s.chains[k].(ts := s.active[t].drawn.value) else s.chains[k]
  {
    StampAllAt(s.chains, s.active[t].buf, s.active[t].drawn.value);
    OnFound(s.active[t].buf, k);
    hide StampAll, Watermark;
  }

  // ----- logs and commits -----

  function LogAt(a: Abs, k: Key): seq<Version> { if k in a.log then a.log[k] else [] }

  function Times(h: seq<Version>): (r: seq<Commit>)
    ensures |r| == |h| && forall i | 0 <= i < |h| :: r[i] == Commit(h[i].ts, h[i].start)
  {
    seq(|h|, i requires 0 <= i < |h| => Commit(h[i].ts, h[i].start))
  }

  /** The later writer started after the earlier one had committed. */
  ghost predicate NoOverlap(h: seq<Commit>) {
    && (forall c | c in h :: c.start < c.ts)
    && (forall i, j | 0 <= i < j < |h| :: h[i].ts < h[j].start)
  }

  ghost predicate AllBefore(h: seq<Commit>, start: nat) { forall c | c in h :: c.ts < start }

  /** What the commits of a key so far say about the specification: its log is the last of them, and
      whoever holds the key started after all of them. */
  ghost predicate HistoryOk(a: Abs, h: seq<Commit>, k: Key) {
    && NoOverlap(h) && LogEnds(a, h, k)
    && (forall t | t in a.txns && k in a.txns[t].pending :: AllBefore(h, a.txns[t].start))
  }

  /** The log holds the last of the commits; of a vertex, all of them. */
  ghost predicate LogEnds(a: Abs, h: seq<Commit>, k: Key) {
    Ends(h, Times(LogAt(a, k))) && (k.VertexKey? ==> Times(LogAt(a, k)) == h)
  }

  ghost predicate Ends(h: seq<Commit>, tail: seq<Commit>) { |tail| <= |h| && h[|h| - |tail|..] == tail }

  /** The creator started after every commit of the key, those forgotten included. */
  ghost predicate Fresh(s: Store, op: Op, h: seq<Commit>, k: Key) {
    op.Create? && op.k == k && CanCreate(s, op.t, k) ==> AllBefore(h, s.active[op.t].start)
  }

  ghost predicate FreshRun(s: Store, ops: seq<Op>, h: seq<Commit>, k: Key)
    decreases |ops|
  {
    ops == [] || (Fresh(s, ops[0], h, k) && FreshRun(Do(s, ops[0]), ops[1..], h + StampOf(s, ops[0], k), k))
  }

  // ----- what a step adds to the history -----

  lemma HeldNamed(s: Store, a: Abs, t: nat, k: Key)
    requires Rel(s, a, false) && t in s.active
    ensures t in a.txns && a.txns[t].start == s.active[t].start && a.txns[t].drawn == s.active[t].drawn
    ensures a.txns[t].drawn.Some? ==> a.txns[t].start < a.txns[t].drawn.value
    ensures k in a.txns[t].pending && k in a.log <==> k in s.chains && Names(s.active[t].buf, k)
    ensures k in a.txns[t].pending ==> k in a.log && forall u | u in a.txns && u != t :: k !in a.txns[u].pending
  {
    assert TxnOk(s, t) && PendingTxn(s.chains, a.txns[t], t, false) && BufOk(s.chains, s.active[t].buf, t);
    if k in s.chains {
      assert PendingAt(s.chains[k], a.txns[t], t, k, false);
      HeldKeys(s.chains, s.active[t].buf, t, k);
      OnFound(s.active[t].buf, k);
      if k in a.txns[t].pending {
        forall u | u in a.txns && u != t ensures k !in a.txns[u].pending {
          assert PendingTxn(s.chains, a.txns[u], u, false) && PendingAt(s.chains[k], a.txns[u], u, k, false);
        }
      }
    }
  }

  lemma TimesGrow(h: seq<Version>, v: Version)
    ensures Times(h + [v]) == Times(h) + [Commit(v.ts, v.start)]
  {
  }

  /** The specification's log grows by the stamp, unless the step forgets the key. */
  lemma LogSteps(s: Store, a: Abs, op: Op, k: Key)
    requires Rel(s, a, false)
    ensures var log' := Times(LogAt(ADo(a, op, HowOf(s, op)), k));
            log' == Times(LogAt(a, k)) + StampOf(s, op, k) || (op.Collect? && k.EdgeKey? && log' == [])
  {
    assert Times(LogAt(a, k)) + [] == Times(LogAt(a, k));
    if op.Publish? {
      PublishLog(s, a, op, k);
    } else {
      hide Rel, Times, Gone;
      LogSame(a, op, HowOf(s, op), k);
    }
  }

  lemma LogSame(a: Abs, op: Op, how: How, k: Key)
    requires !op.Publish?
    ensures LogAt(ADo(a, op, how), k) == if op.Collect? && Forgets(k, how.gone) then [] else LogAt(a, k)
  {
    hide ARead, AWritable;
  }

  lemma PublishLog(s: Store, a: Abs, op: Op, k: Key)
    requires Rel(s, a, false) && op.Publish?
    ensures Times(LogAt(ADo(a, op, HowOf(s, op)), k)) == Times(LogAt(a, k)) + StampOf(s, op, k)
  {
    assert Times(LogAt(a, k)) + [] == Times(LogAt(a, k));
    RunningAgrees(s, a, op.t) by { assert SameTxns(s, a); }
    if Drawn(s, op.t) && Finds(s, op.t) {
      HeldNamed(s, a, op.t, k);
      assert s.chains.Keys == a.log.Keys;
      hide Rel, Times, Finds, Names;
      var x := a.txns[op.t];
      if k in x.pending { TimesGrow(a.log[k], Version(x.drawn.value, x.pending[k], x.start)); }
    }
  }

  /** A key held after a step was held before it, or is written by the step. */
  lemma HeldBefore(a: Abs, op: Op, how: How, t: nat, k: Key)
    requires var a' := ADo(a, op, how); t in a'.txns && k in a'.txns[t].pending
    ensures t in a.txns && ADo(a, op, how).txns[t].start == a.txns[t].start
    ensures k in a.txns[t].pending
            || (op.Create? && op.t == t && op.k == k && ARunning(a, t) && k !in a.log)
            || (AWritable(a, t, k) && ADo(a, op, how).log == a.log)
  {
    hide ARead, ASetValue;
  }

  /** Whoever writes a record started after its newest version. */
  lemma WriterIsLater(a: Abs, h: seq<Commit>, k: Key, start: nat)
    requires HistoryOk(a, h, k) && k in a.log && Before(a.log[k], start)
    requires a.log[k] == [] ==> k.VertexKey?
    ensures AllBefore(h, start)
  {
    var log := a.log[k];
    if log != [] {
      EndsLast(h, Times(log));
      assert h[|h| - 1].ts < start by { assert Last(log) in log; }
      hide *;
      LastIsLatest(h, start) by { HistoryParts(a, h, k); }
    } else {
      assert h == [];
    }
  }

  lemma LastIsLatest(h: seq<Commit>, start: nat)
    requires NoOverlap(h) && h != [] && h[|h| - 1].ts < start
    ensures AllBefore(h, start)
  {
    forall c | c in h ensures c.ts < start {
      var i :| 0 <= i < |h| && h[i] == c;
      assert i < |h| - 1 ==> h[i].ts < h[|h| - 1].start;
      assert h[|h| - 1] in h;
    }
  }

  lemma EndsLast(h: seq<Commit>, tail: seq<Commit>)
    requires Ends(h, tail) && tail != []
    ensures h != [] && h[|h| - 1] == tail[|tail| - 1]
  {
    assert h[|h| - |tail|..][|tail| - 1] == h[|h| - 1];
  }

  lemma EndsGrow(h: seq<Commit>, tail: seq<Commit>, c: seq<Commit>)
    requires Ends(h, tail)
    ensures Ends(h + c, tail + c)
  {
    assert (h + c)[|h + c| - |tail + c|..] == h[|h| - |tail|..] + c;
  }

  lemma OverlapGrows(h: seq<Commit>, c: Commit)
    requires NoOverlap(h) && AllBefore(h, c.start) && c.start < c.ts
    ensures NoOverlap(h + [c])
  {
    forall i, j | 0 <= i < j < |h + [c]| ensures (h + [c])[i].ts < (h + [c])[j].start {
      assert i < |h| && h[i] in h;
    }
  }

  /** Holders after the step started after every commit so far. */
  lemma HolderStep(s: Store, a: Abs, op: Op, h: seq<Commit>, t: nat, k: Key)
    requires Rel(s, a, false) && HistoryOk(a, h, k) && Fresh(s, op, h, k)
    requires Rel(Do(s, op), ADo(a, op, HowOf(s, op)), false)
    requires var a' := ADo(a, op, HowOf(s, op)); t in a'.txns && k in a'.txns[t].pending
    ensures t in a.txns && AllBefore(h, ADo(a, op, HowOf(s, op)).txns[t].start)
  {
    hide *;
    var how := HowOf(s, op);
    HeldBefore(a, op, how, t, k);
    HoldersBefore(Do(s, op), ADo(a, op, how), t, k);
    if k in a.txns[t].pending {
      HeldAfterAll(a, h, t, k);
    } else if AWritable(a, t, k) && ADo(a, op, how).log == a.log {
      EmptyIsVertex(a, t, k);
      WriterIsLater(a, h, k, ADo(a, op, how).txns[t].start);
    } else {
      CreatorAfterAll(s, a, op, h, t, k);
    }
  }

  lemma HeldAfterAll(a: Abs, h: seq<Commit>, t: nat, k: Key)
    requires HistoryOk(a, h, k) && t in a.txns && k in a.txns[t].pending
    ensures AllBefore(h, a.txns[t].start)
  {
  }

  lemma CreatorAfterAll(s: Store, a: Abs, op: Op, h: seq<Commit>, t: nat, k: Key)
    requires Rel(s, a, false) && Fresh(s, op, h, k)
    requires op.Create? && op.t == t && op.k == k && ARunning(a, t) && k !in a.log
    ensures t in a.txns && AllBefore(h, a.txns[t].start)
  {
    CreateAgrees(s, a, t, k, false);
    RunningAgrees(s, a, t) by { assert SameTxns(s, a); }
  }

  lemma EmptyIsVertex(a: Abs, t: nat, k: Key)
    requires AWritable(a, t, k) && k !in a.txns[t].pending
    ensures k in a.log && (a.log[k] == [] ==> k.VertexKey?)
  {
  }

  lemma HoldersBefore(s: Store, a: Abs, t: nat, k: Key)
    requires Rel(s, a, false) && t in a.txns && k in a.txns[t].pending
    ensures k in a.log && Before(a.log[k], a.txns[t].start)
  {
    assert TxnLogOk(a.log, a.txns[t]);
  }

  /** The stamp itself does not overlap. */
  lemma StampApart(s: Store, a: Abs, op: Op, h: seq<Commit>, k: Key)
    requires Rel(s, a, false) && HistoryOk(a, h, k)
    ensures NoOverlap(h + StampOf(s, op, k))
    ensures StampsKey(s, op, k) ==> forall t | t in ADo(a, op, HowOf(s, op)).txns :: k !in ADo(a, op, HowOf(s, op)).txns[t].pending
  {
    if StampsKey(s, op, k) {
      StampHolder(s, a, op, k);
      hide *;
      OverlapGrows(h, StampOf(s, op, k)[0]) by { StampAfter(s, a, op, h, k); }
      assert StampOf(s, op, k) == [StampOf(s, op, k)[0]] by { StampAfter(s, a, op, h, k); }
    } else {
      assert StampOf(s, op, k) == [] && h + [] == h;
    }
  }

  lemma StampHolder(s: Store, a: Abs, op: Op, k: Key)
    requires Rel(s, a, false) && StampsKey(s, op, k)
    ensures forall t | t in ADo(a, op, HowOf(s, op)).txns :: k !in ADo(a, op, HowOf(s, op)).txns[t].pending
  {
    HeldNamed(s, a, op.t, k);
    assert s.chains.Keys == a.log.Keys;
    hide Rel, LogAt, APublished;
    PublishedTxns(a, op.t);
  }

  lemma PublishedTxns(a: Abs, t: nat)
    requires t in a.txns && a.txns[t].drawn.Some?
    ensures APublished(a, t).txns == a.txns - {t}
  {
  }

  lemma StampAfter(s: Store, a: Abs, op: Op, h: seq<Commit>, k: Key)
    requires Rel(s, a, false) && StampsKey(s, op, k) && HistoryOk(a, h, k)
    ensures |StampOf(s, op, k)| == 1 && NoOverlap(h)
    ensures var c := StampOf(s, op, k)[0]; AllBefore(h, c.start) && c.start < c.ts
    ensures StampOf(s, op, k) == [StampOf(s, op, k)[0]]
  {
    HeldNamed(s, a, op.t, k);
    assert s.chains.Keys == a.log.Keys;
  }

  lemma EndsStep(s: Store, a: Abs, op: Op, h: seq<Commit>, k: Key)
    requires Rel(s, a, false) && LogEnds(a, h, k)
    ensures LogEnds(ADo(a, op, HowOf(s, op)), h + StampOf(s, op, k), k)
  {
    LogSteps(s, a, op, k);
    EndsGrow(h, Times(LogAt(a, k)), StampOf(s, op, k));
    NothingEnds(h + StampOf(s, op, k));
    hide Rel, ADo, StampOf, LogAt, Times, Ends;
  }

  lemma HistoryStep(s: Store, a: Abs, op: Op, h: seq<Commit>, k: Key)
    requires Rel(s, a, false) && CleanOp(s, op, false) && HistoryOk(a, h, k) && Fresh(s, op, h, k)
    ensures HistoryOk(ADo(a, op, HowOf(s, op)), h + StampOf(s, op, k), k)
  {
    hide *;
    var a', c := ADo(a, op, HowOf(s, op)), StampOf(s, op, k);
    StepRefines(s, a, op, false);
    StampApart(s, a, op, h, k);
    HistoryParts(a, h, k);
    EndsStep(s, a, op, h, k);
    StampNone(s, op, k);
    assert forall t | t in a'.txns && k in a'.txns[t].pending :: AllBefore(h + c, a'.txns[t].start) by {
      forall t | t in a'.txns && k in a'.txns[t].pending ensures AllBefore(h + c, a'.txns[t].start) {
        HolderStep(s, a, op, h, t, k);
        assert h + [] == h;
      }
    }
    HistoryIntro(a', h + c, k);
  }

  lemma StampNone(s: Store, op: Op, k: Key)
    ensures StampsKey(s, op, k) || StampOf(s, op, k) == []
  {
  }

  lemma NothingEnds(h: seq<Commit>)
    ensures Ends(h, [])
  {
  }

  lemma HistoryParts(a: Abs, h: seq<Commit>, k: Key)
    requires HistoryOk(a, h, k)
    ensures NoOverlap(h) && LogEnds(a, h, k)
  {
  }

  lemma HistoryIntro(a: Abs, h: seq<Commit>, k: Key)
    requires NoOverlap(h) && LogEnds(a, h, k)
    requires forall t | t in a.txns && k in a.txns[t].pending :: AllBefore(h, a.txns[t].start)
    ensures HistoryOk(a, h, k)
  {
  }

  lemma {:induction false} EndsRun(s: Store, a: Abs, ops: seq<Op>, h: seq<Commit>, k: Key)
    requires Rel(s, a, false) && CleanRun(s, ops, false) && LogEnds(a, h, k)
    ensures Rel(Run(s, ops), ARun(s, a, ops), false) && LogEnds(ARun(s, a, ops), h + Commits(s, ops, k), k)
    decreases |ops|
  {
    hide Rel, Do, ADo, StampOf, LogEnds, CleanOp;
    if ops == [] {
      assert h + [] == h;
    } else {
      var op := ops[0];
      EndsStep(s, a, op, h, k);
      StepRefines(s, a, op, false);
      EndsRun(Do(s, op), ADo(a, op, HowOf(s, op)), ops[1..], h + StampOf(s, op, k), k);
      Regroup(h, StampOf(s, op, k), Commits(Do(s, op), ops[1..], k));
    }
  }

  lemma {:induction false} HistoryRun(s: Store, a: Abs, ops: seq<Op>, h: seq<Commit>, k: Key)
    requires Rel(s, a, false) && CleanRun(s, ops, false) && HistoryOk(a, h, k) && FreshRun(s, ops, h, k)
    ensures Rel(Run(s, ops), ARun(s, a, ops), false) && HistoryOk(ARun(s, a, ops), h + Commits(s, ops, k), k)
    decreases |ops|
  {
    hide Rel, Do, ADo, StampOf, HistoryOk, Fresh, CleanOp;
    if ops == [] {
      assert h + [] == h;
    } else {
      var op := ops[0];
      HistoryStep(s, a, op, h, k);
      StepRefines(s, a, op, false);
      HistoryRun(Do(s, op), ADo(a, op, HowOf(s, op)), ops[1..], h + StampOf(s, op, k), k);
      Regroup(h, StampOf(s, op, k), Commits(Do(s, op), ops[1..], k));
    }
  }

  lemma Regroup(x: seq<Commit>, y: seq<Commit>, z: seq<Commit>)
    ensures (x + y) + z == x + (y + z)
  {
  }

  lemma NoHistory(k: Key)
    ensures Rel(EMPTY, START, false) && HistoryOk(START, [], k)
  {
    EmptyRel(false);
    assert LogEnds(START, [], k);
  }

  lemma HistoryReached(ops: seq<Op>, k: Key)
    requires CleanRun(EMPTY, ops, false) && FreshRun(EMPTY, ops, [], k)
    ensures Rel(Run(EMPTY, ops), ARun(EMPTY, START, ops), false)
    ensures HistoryOk(ARun(EMPTY, START, ops), Commits(EMPTY, ops, k), k)
  {
    hide *;
    NoHistory(k);
    HistoryRun(EMPTY, START, ops, [], k);
    assert [] + Commits(EMPTY, ops, k) == Commits(EMPTY, ops, k);
  }

  /** First committer wins: whatever the aborts, two commits that stamped one record never overlap, as long
      as every creation of it started after the commits of that id collection has forgotten. */
  lemma FirstCommitterWins(ops: seq<Op>, k: Key, i: nat, j: nat)
    requires CleanRun(EMPTY, ops, false) && FreshRun(EMPTY, ops, [], k)
    requires i < j < |Commits(EMPTY, ops, k)|
    ensures var h := Commits(EMPTY, ops, k);
            h[i].start < h[i].ts < h[j].start < h[j].ts
  {
    hide Rel, Run, ARun, LogAt, Commits;
    HistoryReached(ops, k);
    var h := Commits(EMPTY, ops, k);
    assert h[i] in h && h[j] in h;
  }

  // ----- the condition is exact -----

  /** What follows an accepted creation: `t` creates `k`, and more. */
  ghost function Continued(s: Store, t: nat, k: Key, rec: Record, more: seq<Op>): seq<Commit> {
    Commits(DoCreate(s, t, k, rec), more, k)
  }

  ghost predicate Continues(s: Store, t: nat, k: Key, rec: Record, more: seq<Op>, h: seq<Commit>) {
    CleanRun(DoCreate(s, t, k, rec), more, false) && FreshRun(DoCreate(s, t, k, rec), more, h, k)
  }

  /** However the run goes on, no two commits of the key overlap. */
  ghost predicate NeverOverlaps(s: Store, t: nat, k: Key, rec: Record, h: seq<Commit>) {
    forall more | Continues(s, t, k, rec, more, h) :: NoOverlap(h + Continued(s, t, k, rec, more))
  }

  /** The creator's own commit. */
  function CommitOf(t: nat): seq<Op> { [Draw(t), Publish(t)] }

  lemma OwnCommit(s: Store, t: nat, k: Key, rec: Record, h: seq<Commit>)
    requires CanCreate(s, t, k) && Finds(s, t) && s.nextTs < MAX_COMMIT_TS
    ensures Continues(s, t, k, rec, CommitOf(t), h)
    ensures Continued(s, t, k, rec, CommitOf(t)) == [Commit(s.nextTs, s.active[t].start)]
  {
    CreatedFacts(s, t, k, rec);
    DrawnCommit(DoCreate(s, t, k, rec), t, k, h);
  }

  lemma DrawnCommit(s: Store, t: nat, k: Key, h: seq<Commit>)
    requires Running(s, t) && Finds(s, t) && k in s.chains && Names(s.active[t].buf, k) && s.nextTs < MAX_COMMIT_TS
    ensures CleanRun(s, CommitOf(t), false) && FreshRun(s, CommitOf(t), h, k)
    ensures Commits(s, CommitOf(t), k) == [Commit(s.nextTs, s.active[t].start)]
  {
    var s1 := DoDraw(s, t);
    assert CommitOf(t)[1..] == [Publish(t)] && [Publish(t)][1..] == [];
    assert s1.active[t] == s.active[t].(drawn := Some(s.nextTs)) && s1.chains == s.chains;
    assert StampsKey(s1, Publish(t), k);
    hide DoPublish, Names, Finds;
    var c := Commit(s.nextTs, s.active[t].start);
    assert Commits(Do(s1, Publish(t)), [], k) == [];
    assert Commits(s1, [Publish(t)], k) == [c] + [];
    assert Commits(s, CommitOf(t), k) == [] + Commits(s1, [Publish(t)], k);
    assert CleanRun(s1, [Publish(t)], false);
    assert FreshRun(s1, [Publish(t)], h + [], k);
  }

  lemma CreatedFacts(s: Store, t: nat, k: Key, rec: Record)
    requires CanCreate(s, t, k) && Finds(s, t)
    ensures var s1 := DoCreate(s, t, k, rec);
            && Running(s1, t) && Finds(s1, t) && s1.active[t].start == s.active[t].start && s1.nextTs == s.nextTs
            && k in s1.chains && Names(s1.active[t].buf, k)
  {
    hide Read;
    var s1 := DoCreate(s, t, k, rec);
    var buf, buf1 := s.active[t].buf, s1.active[t].buf;
    assert buf1[|buf1| - 1].key == k;
    assert forall x | x in buf1 :: x in buf || x.key == k;
  }

  lemma NotBefore(h: seq<Commit>, c: Commit)
    requires !AllBefore(h, c.start)
    ensures !NoOverlap(h + [c])
  {
    var d :| d in h && d.ts >= c.start;
    var i :| 0 <= i < |h| && h[i] == d;
    assert (h + [c])[i] == d && (h + [c])[|h|] == c;
  }

  lemma StaysApart(s: Store, a: Abs, t: nat, k: Key, rec: Record, h: seq<Commit>, more: seq<Op>)
    requires Rel(s, a, false) && HistoryOk(a, h, k) && CanCreate(s, t, k) && Unnamed(s, k)
    requires AllBefore(h, s.active[t].start) && Continues(s, t, k, rec, more, h)
    ensures NoOverlap(h + Continued(s, t, k, rec, more))
  {
    hide *;
    var op, s' := Create(t, k, rec), DoCreate(s, t, k, rec);
    CreatorActive(s, t, k);
    CreateStep(s, t, k, rec, h);
    HistoryStep(s, a, op, h, k);
    StepRefines(s, a, op, false);
    assert h + [] == h;
    ContinuesIs(s, t, k, rec, more, h);
    HistoryRun(s', ADo(a, op, HowOf(s, op)), more, h, k);
    HistoryParts(ARun(s', ADo(a, op, HowOf(s, op)), more), h + Commits(s', more, k), k);
  }

  lemma CreateStep(s: Store, t: nat, k: Key, rec: Record, h: seq<Commit>)
    requires CanCreate(s, t, k) && Unnamed(s, k) && t in s.active && AllBefore(h, s.active[t].start)
    ensures var op := Create(t, k, rec);
            && Do(s, op) == DoCreate(s, t, k, rec) && StampOf(s, op, k) == []
            && CleanOp(s, op, false) && Fresh(s, op, h, k)
  {
    hide CanCreate, DoCreate;
  }

  lemma ContinuesIs(s: Store, t: nat, k: Key, rec: Record, more: seq<Op>, h: seq<Commit>)
    requires Continues(s, t, k, rec, more, h)
    ensures CleanRun(DoCreate(s, t, k, rec), more, false) && FreshRun(DoCreate(s, t, k, rec), more, h, k)
    ensures Continued(s, t, k, rec, more) == Commits(DoCreate(s, t, k, rec), more, k)
  {
  }

  /** The condition on a creation is exact: the creator started after every commit of the id if and only if,
      however the run goes on under the same conditions, no two commits of it overlap. */
  lemma CreateFreshIff(ops: seq<Op>, t: nat, k: Key, rec: Record)
    requires CleanRun(EMPTY, ops, false) && FreshRun(EMPTY, ops, [], k)
    requires var s := Run(EMPTY, ops); CanCreate(s, t, k) && Unnamed(s, k) && Finds(s, t) && s.nextTs < MAX_COMMIT_TS
    ensures var s, h := Run(EMPTY, ops), Commits(EMPTY, ops, k);
            AllBefore(h, s.active[t].start) <==> NeverOverlaps(s, t, k, rec, h)
  {
    hide *;
    HistoryReached(ops, k);
    FreshIff(Run(EMPTY, ops), ARun(EMPTY, START, ops), Commits(EMPTY, ops, k), t, k, rec);
  }

  lemma FreshIff(s: Store, a: Abs, h: seq<Commit>, t: nat, k: Key, rec: Record)
    requires Rel(s, a, false) && HistoryOk(a, h, k)
    requires CanCreate(s, t, k) && Unnamed(s, k) && Finds(s, t) && s.nextTs < MAX_COMMIT_TS
    ensures t in s.active && (AllBefore(h, s.active[t].start) <==> NeverOverlaps(s, t, k, rec, h))
  {
    hide *;
    CreatorActive(s, t, k);
    if AllBefore(h, s.active[t].start) {
      NeverIntro(s, t, k, rec, h) by {
        forall more | Continues(s, t, k, rec, more, h) ensures NoOverlap(h + Continued(s, t, k, rec, more)) {
          StaysApart(s, a, t, k, rec, h, more);
        }
      }
    } else {
      OwnCommit(s, t, k, rec, h);
      NotBefore(h, Commit(s.nextTs, s.active[t].start));
      if NeverOverlaps(s, t, k, rec, h) { NeverHas(s, t, k, rec, h, CommitOf(t)); }
    }
  }

  lemma CreatorActive(s: Store, t: nat, k: Key)
    requires CanCreate(s, t, k)
    ensures t in s.active
  {
  }

  lemma NeverIntro(s: Store, t: nat, k: Key, rec: Record, h: seq<Commit>)
    requires forall more | Continues(s, t, k, rec, more, h) :: NoOverlap(h + Continued(s, t, k, rec, more))
    ensures NeverOverlaps(s, t, k, rec, h)
  {
  }

  lemma NeverHas(s: Store, t: nat, k: Key, rec: Record, h: seq<Commit>, more: seq<Op>)
    requires NeverOverlaps(s, t, k, rec, h) && Continues(s, t, k, rec, more, h)
    ensures NoOverlap(h + Continued(s, t, k, rec, more))
  {
  }

  // ----- heads -----

  /** A committed head carries the last of those stamps, except a vertex whose creation was aborted. */
  lemma HeadIsLastCommit(ops: seq<Op>, k: Key)
    requires CleanRun(EMPTY, ops, false) && k in Run(EMPTY, ops).chains
    ensures var ts, h := Run(EMPTY, ops).chains[k].ts, Commits(EMPTY, ops, k);
            !IsTxnId(ts) ==> if h == [] then ts == 0 && k.VertexKey? else ts == h[|h| - 1].ts
  {
    hide *;
    EndsReached(ops, k);
    HeadStamp(Run(EMPTY, ops), ARun(EMPTY, START, ops), Commits(EMPTY, ops, k), k);
  }

  lemma EndsReached(ops: seq<Op>, k: Key)
    requires CleanRun(EMPTY, ops, false)
    ensures Rel(Run(EMPTY, ops), ARun(EMPTY, START, ops), false)
    ensures LogEnds(ARun(EMPTY, START, ops), Commits(EMPTY, ops, k), k)
  {
    hide *;
    NoHistory(k);
    HistoryParts(START, [], k);
    EndsRun(EMPTY, START, ops, [], k);
    assert [] + Commits(EMPTY, ops, k) == Commits(EMPTY, ops, k);
  }

  lemma HeadStamp(s: Store, a: Abs, h: seq<Commit>, k: Key)
    requires Rel(s, a, false) && LogEnds(a, h, k) && k in s.chains
    ensures var ts := s.chains[k].ts;
            !IsTxnId(ts) ==> if h == [] then ts == 0 && k.VertexKey? else ts == h[|h| - 1].ts
  {
    assert HeadOk(s.chains[k], k, a.log[k], EnvOf(s, false), s.nextId);
    if a.log[k] != [] { EndsLast(h, Times(a.log[k])); }
  }

  // ----- commits that lose a record -----

  /** A step makes a transaction's commit panic on a missing record exactly when it is a collection that
      removes an edge the transaction holds. */
  lemma CommitLosesIff(s: Store, a: Abs, op: Op, t: nat)
    requires Rel(s, a, false) && CleanOp(s, op, false) && t in s.active && t in Do(s, op).active
    ensures Finds(Do(s, op), t) <==>
              Finds(s, t) && !(op.Collect? && exists k :: Removed(s, k) && s.chains[k].ts == t)
  {
    assert TxnOk(s, t);
    hide Rel, Watermark;
    if op.Collect? {
      CollectLoses(s, a, t);
    } else if op.Create? {
      CreateFinds(s, op, t);
    } else {
      OtherFinds(s, op, t);
    }
  }

  lemma CollectLoses(s: Store, a: Abs, t: nat)
    requires Rel(s, a, false) && t in s.active
    ensures Finds(DoCollect(s), t) <==> Finds(s, t) && !exists k :: Removed(s, k) && s.chains[k].ts == t
  {
    var buf := s.active[t].buf;
    assert BufOk(s.chains, buf, t);
    hide Rel, Removed, BufOk;
    if k :| Removed(s, k) && s.chains[k].ts == t {
      RemovedStored(s, k);
      HeldKeys(s.chains, buf, t, k);
      OnFound(buf, k);
      var x :| x in buf && x.key == k;
    } else {
      forall x | x in buf && x.key in s.chains ensures s.chains[x.key].ts == t { NamedIsHeld(s.chains, buf, t, x); }
    }
  }

  lemma NamedIsHeld(chains: map<Key, Chain>, buf: seq<Item>, t: nat, x: Item)
    requires BufOk(chains, buf, t) && x in buf && x.key in chains
    ensures chains[x.key].ts == t
  {
  }

  lemma RemovedStored(s: Store, k: Key)
    requires Removed(s, k)
    ensures k in s.chains
  {
  }

  lemma CreateFinds(s: Store, op: Op, t: nat)
    requires op.Create? && CleanOp(s, op, false) && t in s.active
    ensures t in Do(s, op).active && (Finds(Do(s, op), t) <==> Finds(s, t))
  {
    hide Read;
    if CanCreate(s, op.t, op.k) {
      var buf, buf' := s.active[t].buf, Do(s, op).active[t].buf;
      assert forall x | x in buf :: x in buf' && x.key != op.k;
    }
  }

  /** Other writes name a stored key, and nobody else's buffer changes. */
  lemma OtherFinds(s: Store, op: Op, t: nat)
    requires !op.Create? && !op.Collect? && t in s.active && t in Do(s, op).active && t < s.nextId
    ensures Finds(Do(s, op), t) <==> Finds(s, t)
  {
    hide Watermark, SetProps, Saved, InRange, StampAll, AbortAll;
    var s' := Do(s, op);
    KeysKept(s, op);
    var buf, buf' := s.active[t].buf, s'.active[t].buf;
    assert forall x | x in buf :: x in buf';
  }

  lemma KeysKept(s: Store, op: Op)
    requires !op.Create? && !op.Collect?
    ensures Do(s, op).chains.Keys == s.chains.Keys
  {
    hide Watermark, SetProps, Saved, InRange;
    if op.Publish? && op.t in s.active && s.active[op.t].drawn.Some? {
      StampAllAt(s.chains, s.active[op.t].buf, s.active[op.t].drawn.value);
    } else if op.Abort? && op.t in s.active {
      AbortAllAt(s.chains, s.active[op.t].buf, op.t);
    }
  }
}
