/** The main results about the transactional store, over every run. */
module MvccTheorems {
  import opened Wrap
  import opened Stamps
  import opened MvccStore
  import opened SnapshotSpec
  import opened MvccChains
  import opened MvccRelation
  import opened MvccLifecycle
  import opened MvccAbort

  // ----- every run refines the specification -----

  /** Whether a property write fits the record it is aimed at, and a commit finds the records it wrote
      (the code panics when they do not). */
  predicate Fits(s: Store, op: Op) {
    && (op.Set? ==> op.k in s.chains && InRange(op.indices, s.chains[op.k].rec))
    && (op.Publish? ==> op.t in s.active && Finds(s, op.t))
  }

  ghost function HowOf(s: Store, op: Op): How { How(Fits(s, op), if op.Collect? then Gone(s) else {}) }

  /** An id is taken for a new record only when no active transaction's undo buffer still names it. With
      `vals`, aborts are clean. */
  ghost predicate CleanOp(s: Store, op: Op, vals: bool) {
    && (op.Create? && CanCreate(s, op.t, op.k) ==> Unnamed(s, op.k))
    && (vals && op.Abort? && op.t in s.active ==> Clean(s, op.t))
  }

  ghost predicate CleanRun(s: Store, ops: seq<Op>, vals: bool)
    decreases |ops|
  {
    ops == [] || (CleanOp(s, ops[0], vals) && CleanRun(Do(s, ops[0]), ops[1..], vals))
  }

  ghost function ARun(s: Store, a: Abs, ops: seq<Op>): Abs
    decreases |ops|
  {
    if ops == [] then a else ARun(Do(s, ops[0]), ADo(a, ops[0], HowOf(s, ops[0])), ops[1..])
  }

  /** With `vals` the relation speaks of values too and aborts must be clean; without, of stamps only,
      and every step keeps it. */
  lemma StepRefines(s: Store, a: Abs, op: Op, vals: bool)
    requires Rel(s, a, vals) && CleanOp(s, op, vals)
    ensures Rel(Do(s, op), ADo(a, op, HowOf(s, op)), vals)
  {
    hide Rel;
    match op
    case Begin => BeginKeeps(s, a, vals);
    case Create(t, k, rec) => CreateKeeps(s, a, t, k, rec, vals);
    case Set(t, k, indices, props) => SetKeeps(s, a, t, k, indices, props, vals);
    case Delete(t, k) => DeleteKeeps(s, a, t, k, vals);
    case Draw(t) => DrawKeeps(s, a, t, vals);
    case Publish(t) => PublishKeeps(s, a, t, vals);
    case Abort(t) => AbortKeeps(s, a, t, vals);
    case Collect => CollectKeeps(s, a, vals);
  }

  lemma {:induction false} RunRefines(s: Store, a: Abs, ops: seq<Op>, vals: bool)
    requires Rel(s, a, vals) && CleanRun(s, ops, vals)
    ensures Rel(Run(s, ops), ARun(s, a, ops), vals)
    decreases |ops|
  {
    hide Rel, Do, ADo;
    if ops != [] {
      StepRefines(s, a, ops[0], vals);
      RunRefines(Do(s, ops[0]), ADo(a, ops[0], HowOf(s, ops[0])), ops[1..], vals);
    }
  }

  lemma EmptyRel(vals: bool)
    ensures Rel(EMPTY, START, vals)
  {
  }

  /** In related states every active transaction reads from the store what the specification says:
      its own pending value, else the newest version committed at or before its start. */
  lemma ReadsAgree(s: Store, a: Abs, t: nat, k: Key)
    requires Rel(s, a, true) && t in s.active
    ensures t in a.txns && Read(s, t, k) == ARead(a, t, k)
  {
    assert TxnOk(s, t);
    if k in s.chains {
      assert PendingTxn(s.chains, a.txns[t], t, true) && PendingAt(s.chains[k], a.txns[t], t, k, true);
      assert HeadOk(s.chains[k], k, a.log[k], EnvOf(s, true), s.nextId);
      assert LogOk(a.log[k], a.clock) && TxnLogOk(a.log, a.txns[t]) && FreshFor(a.log[k], a.txns[t]);
      if s.chains[k].ts != t {
        ReadExact(s.chains[k], a.log[k], EnvOf(s, true), Live(s), t, s.active[t].start);
      }
    } else {
      assert PendingTxn(s.chains, a.txns[t], t, true);
    }
  }

  /** Snapshot reads are exact in every reachable state. */
  lemma SnapshotReads(ops: seq<Op>, t: nat, k: Key)
    requires CleanRun(EMPTY, ops, true) && t in Run(EMPTY, ops).active
    ensures var a := ARun(EMPTY, START, ops); t in a.txns && Read(Run(EMPTY, ops), t, k) == ARead(a, t, k)
  {
    hide Rel;
    EmptyRel(true);
    RunRefines(EMPTY, START, ops, true);
    ReadsAgree(Run(EMPTY, ops), ARun(EMPTY, START, ops), t, k);
  }

  /** `Lookup` is the newest version at or before `start`, and nothing when there is none. */
  lemma {:induction false} LookupIsNewest(h: seq<Version>, start: nat)
    requires Ascending(h)
    ensures (forall v | v in h :: v.ts > start) ==> Lookup(h, start) == None
    ensures forall i | 0 <= i < |h| && h[i].ts <= start && (forall j | i < j < |h| :: h[j].ts > start) ::
              Lookup(h, start) == h[i].val
  {
    if h != [] {
      var h0 := Init(h);
      LookupIsNewest(h0, start);
      forall v | v in h0 ensures v in h {}
      assert Last(h) in h;
      forall i | 0 <= i < |h| && h[i].ts <= start && (forall j | i < j < |h| :: h[j].ts > start)
        ensures Lookup(h, start) == h[i].val
      {
        if i < |h| - 1 {
          assert h[|h| - 1].ts > start;
          assert h0[i] == h[i];
          forall j | i < j < |h0| ensures h0[j].ts > start { assert h0[j] == h[j]; }
        }
      }
    }
  }

  // ----- what a step of others does to a read -----

  /** Operations of `t` itself that may change what it reads of `k`, or end it. */
  predicate Own(op: Op, t: nat, k: Key) {
    match op
    case Begin => false
    case Collect => false
    case Create(u, k', _) => u == t && k' == k
    case Set(u, k', _, _) => u == t && k' == k
    case Delete(u, k') => u == t && k' == k
    case Draw(u) => false
    case Publish(u) => u == t
    case Abort(u) => u == t
  }

  /** Another transaction's commit of `k` falls inside `t`'s snapshot: it drew its commit timestamp
      before `t` started but publishes only now. */
  predicate Late(s: Store, op: Op, t: nat, k: Key)
    requires t in s.active
  {
    && op.Publish? && Drawn(s, op.t) && Finds(s, op.t)
    && s.active[op.t].drawn.value <= s.active[t].start
    && k in s.chains && s.chains[k].ts == op.t
  }

  lemma SpecStable(a: Abs, op: Op, how: How, t: nat, k: Key)
    requires t in a.txns && t < a.nextId && !Own(op, t, k)
    requires op.Publish? && how.fits && op.t in a.txns && a.txns[op.t].drawn.Some? && k in a.txns[op.t].pending ==>
               a.txns[op.t].drawn.value > a.txns[t].start
    requires op.Collect? ==> !Forgets(k, how.gone)
    ensures t in ADo(a, op, how).txns && ARead(ADo(a, op, how), t, k) == ARead(a, t, k)
  {
  }

  lemma TxnFacts(s: Store, a: Abs, t: nat)
    requires Rel(s, a, true) && t in s.active
    ensures IsTxnId(t) && t < s.nextId == a.nextId && s.active[t].start < s.nextTs
    ensures t in a.txns && a.txns[t].start == s.active[t].start && a.txns[t].drawn == s.active[t].drawn
  {
    assert TxnOk(s, t);
  }

  lemma HeldBy(s: Store, a: Abs, u: nat, k: Key)
    requires Rel(s, a, true) && u in a.txns
    ensures s.chains.Keys == a.log.Keys && u in s.active
    ensures k in a.txns[u].pending <==> k in s.chains && s.chains[k].ts == u
    ensures k in a.txns[u].pending ==> a.txns[u].pending[k] == View(s.chains[k].rec)
  {
  }

  /** What a step does to another transaction's read: nothing, unless it publishes a late commit, in
      which case the reader switches to the late value, or it collects and removes the record. */
  lemma StepAndReads(s: Store, a: Abs, op: Op, t: nat, k: Key)
    requires Rel(s, a, true) && CleanOp(s, op, true) && t in s.active && !Own(op, t, k)
    ensures t in Do(s, op).active
    ensures Read(Do(s, op), t, k) ==
              if Late(s, op, t, k) then View(s.chains[k].rec)
              else if op.Collect? && Removed(s, k) then None
              else Read(s, t, k)
  {
    hide Rel, CleanOp, Do, Read, Removed, Forgets;
    var s', a' := Do(s, op), ADo(a, op, HowOf(s, op));
    StepRefines(s, a, op, true);
    ReadsAgree(s, a, t, k);
    TxnFacts(s, a, t);
    StillActive(s, op, t, k);
    ReadsAgree(s', a', t, k);
    if op.Publish? && op.t in a.txns {
      HeldBy(s, a, op.t, k);
      TxnFacts(s, a, op.t);
      HeldBy(s, a, t, k);
    }
    if Late(s, op, t, k) {
      TxnFacts(s, a, op.t);
      LateRead(a, op.t, t, k);
    } else if op.Collect? && Removed(s, k) {
      assert op == Collect;
      RemovedUnread(s, t, k);
    } else {
      assert op.Collect? ==> !Forgets(k, HowOf(s, op).gone) by { GoneRemoved(s, k); }
      SpecStable(a, op, HowOf(s, op), t, k);
    }
  }

  lemma GoneRemoved(s: Store, k: Key)
    ensures Forgets(k, Gone(s)) ==> Removed(s, k)
  {
  }

  lemma RemovedUnread(s: Store, t: nat, k: Key)
    requires Removed(s, k) && t in s.active
    ensures t in Do(s, Collect).active && Read(Do(s, Collect), t, k) == None
  {
    hide Removed;
  }

  lemma LateRead(a: Abs, u: nat, t: nat, k: Key)
    requires u in a.txns && a.txns[u].drawn.Some? && t in a.txns && u != t
    requires k in a.log && k in a.txns[u].pending && k !in a.txns[t].pending
    requires a.txns[u].drawn.value <= a.txns[t].start
    ensures ARead(APublished(a, u), t, k) == a.txns[u].pending[k]
  {
  }

  lemma StillActive(s: Store, op: Op, t: nat, k: Key)
    requires t in s.active && !Own(op, t, k) && t < s.nextId
    ensures t in Do(s, op).active
    ensures Do(s, op).active[t].start == s.active[t].start
  {
  }

  // ----- abort, exactly -----

  lemma DirtyKey(s: Store, a: Abs, t: nat) returns (k: Key)
    requires Rel(s, a, true) && t in s.active && !Clean(s, t)
    ensures k in s.chains && s.chains[k].ts == t && Segment(On(s.active[t].buf, k), s.chains[k], t, k)
    ensures !CleanKey(s.chains[k].rec, On(s.active[t].buf, k), k)
  {
    assert BufOk(s.chains, s.active[t].buf, t);
    k :| k in s.chains && s.chains[k].ts == t &&
         var es := On(s.active[t].buf, k); !(es != [] && es[0].Entry? && CleanKey(s.chains[k].rec, es, k));
  }

  /** The chain left by an unclean abort reads differently from the committed log. */
  lemma DirtyChain(c: Chain, es: seq<Undo>, t: nat, k: Key, h: seq<Version>, env: Env, nextId: nat,
                   live: set<nat>, b: nat, start: nat)
    requires c.ts == t && IsTxnId(t) && Segment(es, c, t, k) && !CleanKey(c.rec, es, k)
    requires HeadOk(c, k, h, env, nextId) && env.vals && LogOk(h, start) && t !in live && b != t
    ensures ReadChain(AbortFold(c, es, t), live, b, start) != Lookup(h, start)
  {
    AbortExactAt(c, es, t, k);
    UnwoundGood(es, c.rec, t, h, env);
    hide Good;
    var c1, c' := AbortOne(c, t, es[0]), AbortFold(c, es, t);
    if es[0].ts == t {
      FoldCreation(c1, es[1..], t);
      DirtyCreation(es, Unwound(c.rec, es), t, h, env);
      assert |es| > 1 ==> c'.undo == es[|es| - 2];
    } else {
      FoldStops(c1, es[1..], t);
      DirtyCommitted(es[0].next, Unwound(c.rec, es), es[0].ts, h, env, start);
    }
  }

  lemma DirtyCreation(es: seq<Undo>, r: Record, t: nat, h: seq<Version>, env: Env)
    requires es != [] && es[0].Entry? && es[0].next.Null? && es[0].ts == t && IsTxnId(t)
    requires Good(es[0].next, r, es[0].ts, h, TOP, env) && env.vals
    ensures h == [] && r.dead
  {
  }

  lemma DirtyCommitted(u: Undo, r: Record, ts: nat, h: seq<Version>, env: Env, start: nat)
    requires Good(u, r, ts, h, TOP, env) && env.vals && !IsTxnId(ts) && LogOk(h, start)
    ensures Lookup(h, start) == View(r) && (ts <= start || h == [])
    ensures ts <= start
  {
    if h != [] { assert Last(h) in h; }
  }

  /** The state a transaction begun right after the abort of `t` sees. */
  ghost function AfterAbort(s: Store, t: nat): Store { DoBegin(DoAbort(s, t)) }

  lemma AfterAbortFacts(s: Store, t: nat)
    requires t in s.active && s.nextTs < MAX_COMMIT_TS && s.nextId < U64_MAX && t < s.nextId
    ensures var s' := AfterAbort(s, t);
            && s.nextId in s'.active && s'.active[s.nextId].start == s.nextTs
            && s'.active.Keys == s.active.Keys - {t} + {s.nextId} && s'.done == s.done
            && s'.chains == AbortAll(s.chains, s.active[t].buf, t)
  {
  }

  lemma DirtyRead(s: Store, a: Abs, t: nat)
    requires Rel(s, a, true) && t in s.active && !Clean(s, t) && s.nextTs < MAX_COMMIT_TS && s.nextId < U64_MAX
    ensures s.nextId in AfterAbort(s, t).active
    ensures exists k | k in s.chains && k in a.log ::
              Read(AfterAbort(s, t), s.nextId, k) != Lookup(a.log[k], s.nextTs)
  {
    hide Clean, AfterAbort;
    TxnFacts(s, a, t);
    AfterAbortFacts(s, t);
    var k := DirtyKey(s, a, t);
    DirtyFacts(s, a, t, k);
    hide Rel, HeadOk, LogOk, Segment, CleanKey;
    var s', buf := AfterAbort(s, t), s.active[t].buf;
    AbortAllAt(s.chains, buf, t);
    DirtyChain(s.chains[k], On(buf, k), t, k, a.log[k], EnvOf(s, true), s.nextId, Live(s'), s.nextId, s.nextTs);
    assert Read(s', s.nextId, k) == ReadChain(s'.chains[k], Live(s'), s.nextId, s.nextTs);
  }

  lemma DirtyFacts(s: Store, a: Abs, t: nat, k: Key)
    requires Rel(s, a, true) && t in s.active && k in s.chains
    ensures k in a.log && HeadOk(s.chains[k], k, a.log[k], EnvOf(s, true), s.nextId) && LogOk(a.log[k], s.nextTs)
    ensures t !in s.done.Values
  {
    assert TxnOk(s, t) && HeadOk(s.chains[k], k, a.log[k], EnvOf(s, true), s.nextId);
  }

  lemma CleanReads(s: Store, a: Abs, t: nat)
    requires Rel(s, a, true) && t in s.active && Clean(s, t) && s.nextTs < MAX_COMMIT_TS && s.nextId < U64_MAX
    ensures s.nextId in AfterAbort(s, t).active
    ensures forall k | k in s.chains && k in a.log ::
              Read(AfterAbort(s, t), s.nextId, k) == Lookup(a.log[k], s.nextTs)
  {
    hide Rel, Clean, DoAbort, DoBegin, Read;
    var a1 := ADo(a, Abort(t), FINE);
    var s', a' := AfterAbort(s, t), ADo(a1, Begin, FINE);
    AbortKeeps(s, a, t, true);
    BeginKeeps(DoAbort(s, t), a1, true);
    TxnFacts(s, a, t);
    AfterAbortFacts(s, t);
    SameCounters(s, a);
    forall k | k in s.chains && k in a.log ensures Read(s', s.nextId, k) == Lookup(a.log[k], s.nextTs) {
      ReadsAgree(s', a', s.nextId, k);
    }
  }

  lemma SameCounters(s: Store, a: Abs)
    requires Rel(s, a, true)
    ensures s.nextTs == a.clock && s.nextId == a.nextId && s.chains.Keys == a.log.Keys
  {
  }

  /** A transaction begun right after the abort of `t` finds every record as last committed, exactly
      when the abort was clean. */
  lemma AbortExact(s: Store, a: Abs, t: nat)
    requires Rel(s, a, true) && t in s.active && s.nextTs < MAX_COMMIT_TS && s.nextId < U64_MAX
    ensures s.nextId in AfterAbort(s, t).active
    ensures (forall k | k in s.chains && k in a.log ::
               Read(AfterAbort(s, t), s.nextId, k) == Lookup(a.log[k], s.nextTs)) <==> Clean(s, t)
  {
    hide Rel, Clean, AfterAbort, Read;
    if Clean(s, t) { CleanReads(s, a, t); } else { DirtyRead(s, a, t); }
  }
}
