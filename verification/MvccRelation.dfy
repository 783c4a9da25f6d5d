/** The relation between the store and the snapshot-isolation specification, and what writes keep. */
module MvccRelation {
  import opened Wrap
  import opened Stamps
  import opened MvccStore
  import opened SnapshotSpec
  import opened MvccChains

  ghost function EnvOf(s: Store, vals: bool): Env { Env(s.active.Keys, s.done, s.watermark, vals) }

  /** Counters and stamps: everything issued is below the counters, nothing is issued twice, and the
      watermark never passes the start of an active transaction. */
  ghost predicate ClockOk(s: Store, a: Abs) {
    && s.nextTs == a.clock && s.nextId == a.nextId
    && 1 <= s.nextTs <= MAX_COMMIT_TS && TXN_ID_START < s.nextId <= U64_MAX
    && s.latest < s.nextTs && s.watermark < s.nextTs
    && (forall c | c in s.done :: c < s.nextTs && s.done[c] < s.nextId)
  }

  ghost predicate TxnOk(s: Store, t: nat)
    requires t in s.active
  {
    var x := s.active[t];
    && TXN_ID_START < t < s.nextId && s.watermark <= x.start < s.nextTs
    && (x.drawn.Some? ==> x.start < x.drawn.value < s.nextTs)
    && (forall c | c in s.done :: c != x.start && x.drawn != Some(c) && s.done[c] != t)
  }

  ghost predicate PairOk(x: Txn, y: Txn) {
    x.start < y.start && x.drawn != Some(y.start) && (x.drawn.Some? ==> x.drawn != y.drawn)
  }

  ghost predicate TxnsOk(s: Store) {
    && (forall t | t in s.active :: TxnOk(s, t))
    && (forall t, u | t in s.active && u in s.active && t < u :: PairOk(s.active[t], s.active[u]))
  }

  ghost predicate SameTxns(s: Store, a: Abs) {
    && a.txns.Keys == s.active.Keys
    && (forall t | t in s.active :: a.txns[t].start == s.active[t].start && a.txns[t].drawn == s.active[t].drawn)
  }

  /** A transaction holds a key exactly when the key's head carries its id. */
  ghost predicate PendingAt(c: Chain, x: ATxn, t: nat, k: Key, vals: bool) {
    && (k in x.pending <==> c.ts == t)
    && (vals && k in x.pending ==> x.pending[k] == View(c.rec))
  }

  ghost predicate PendingTxn(chains: map<Key, Chain>, x: ATxn, t: nat, vals: bool) {
    && x.pending.Keys <= chains.Keys
    && (forall k | k in chains :: PendingAt(chains[k], x, t, k, vals))
  }

  ghost predicate PendingOk(s: Store, a: Abs, vals: bool) {
    && s.chains.Keys == a.log.Keys
    && (forall t | t in a.txns :: PendingTxn(s.chains, a.txns[t], t, vals))
  }

  /** A head stamped by a transaction that is gone is an edge whose creation was aborted. */
  ghost predicate HeadOk(c: Chain, k: Key, h: seq<Version>, env: Env, nextId: nat) {
    && Good(c.undo, c.rec, c.ts, h, TOP, env)
    && (IsTxnId(c.ts) ==> c.ts < nextId)
    && (IsTxnId(c.ts) && c.ts !in env.act ==> k.EdgeKey? && h == [] && c.ts !in env.done.Values)
    && (c.ts == 0 ==> k.VertexKey?)
  }

  ghost predicate HeadsOk(chains: map<Key, Chain>, log: map<Key, seq<Version>>, env: Env, nextId: nat) {
    forall k | k in chains :: k in log && HeadOk(chains[k], k, log[k], env, nextId)
  }

  /** A committed log: strictly ascending, and the writer of a version started after every earlier
      version was committed. */
  ghost predicate LogOk(h: seq<Version>, clock: nat) {
    && Ascending(h)
    && (forall v | v in h :: 1 <= v.ts < clock && v.start < v.ts)
    && (forall i, j | 0 <= i < j < |h| :: h[i].ts < h[j].start)
  }

  ghost predicate FreshFor(h: seq<Version>, x: ATxn) {
    forall v | v in h :: v.ts != x.start && x.drawn != Some(v.ts)
  }

  ghost predicate Before(h: seq<Version>, start: nat) { forall v | v in h :: v.ts < start }

  ghost predicate TxnLogOk(log: map<Key, seq<Version>>, x: ATxn) {
    && (forall k | k in log :: FreshFor(log[k], x))
    && (forall k | k in x.pending :: k in log && Before(log[k], x.start))
  }

  ghost predicate LogsOk(a: Abs) {
    && (forall k | k in a.log :: LogOk(a.log[k], a.clock))
    && (forall t | t in a.txns :: TxnLogOk(a.log, a.txns[t]))
  }

  // ----- undo buffers -----

  function On(buf: seq<Item>, k: Key): seq<Undo> {
    if buf == [] then []
    else if buf[0].key == k then [buf[0].entry] + On(buf[1..], k)
    else On(buf[1..], k)
  }

  /** `es`, oldest first, are the entries transaction `t` put on top of the chain of `k`. */
  ghost predicate Segment(es: seq<Undo>, c: Chain, t: nat, k: Key) {
    && es != [] && c.undo == Last(es)
    && (forall i | 0 <= i < |es| :: es[i].Entry? && es[i].owner == t && (es[i].delta.Restore? ==> c.rec.dead))
    && (forall i | 0 < i < |es| :: es[i].next == es[i - 1] && es[i].ts == t && !es[i].delta.MarkDead?)
    && (es[0].ts == t || !IsTxnId(es[0].ts))
    && (es[0].delta.MarkDead? ==> es[0].ts == (if k.EdgeKey? then t else 0) && es[0].next.Null?)
    && (es[0].ts == t ==> k.EdgeKey? && es[0].delta.MarkDead?)
    && (es[0].ts == 0 ==> k.VertexKey?)
  }

  ghost predicate BufOk(chains: map<Key, Chain>, buf: seq<Item>, t: nat) {
    && (forall x | x in buf && x.key in chains :: chains[x.key].ts == t)
    && (forall k | k in chains && chains[k].ts == t :: Segment(On(buf, k), chains[k], t, k))
  }

  ghost predicate BufsOk(s: Store) {
    forall t | t in s.active :: BufOk(s.chains, s.active[t].buf, t)
  }

  ghost predicate Rel(s: Store, a: Abs, vals: bool) {
    && ClockOk(s, a) && TxnsOk(s) && SameTxns(s, a) && PendingOk(s, a, vals)
    && HeadsOk(s.chains, a.log, EnvOf(s, vals), s.nextId) && LogsOk(a) && BufsOk(s)
  }

  lemma {:induction false} OnAppend(buf: seq<Item>, x: Item, k: Key)
    ensures On(buf + [x], k) == On(buf, k) + (if x.key == k then [x.entry] else [])
  {
    if buf == [] {
      assert buf + [x] == [x];
      assert [x][1..] == [];
    } else {
      assert (buf + [x])[1..] == buf[1..] + [x];
      OnAppend(buf[1..], x, k);
    }
  }

  lemma {:induction false} OnNone(buf: seq<Item>, k: Key)
    requires forall x | x in buf :: x.key != k
    ensures On(buf, k) == []
  {
    if buf != [] { OnNone(buf[1..], k); }
  }

  // ----- writes -----

  /** What `t` may write was committed before `t` started. */
  lemma SnapshotIsOlder(c: Chain, k: Key, h: seq<Version>, x: ATxn, t: nat, env: Env, nextId: nat, clock: nat, vals: bool)
    requires HeadOk(c, k, h, env, nextId) && PendingAt(c, x, t, k, vals)
    requires LogOk(h, clock) && FreshFor(h, x) && (k in x.pending ==> Before(h, x.start))
    requires Writable(c.ts, t, x.start) && IsTxnId(t)
    ensures Before(h, x.start)
  {
  }

  /** The entry a write pushes: creation marks, other writes remember the old head. */
  ghost predicate Pushed(chains: map<Key, Chain>, t: nat, k: Key, c: Chain) {
    && c.ts == t && c.undo.Entry? && c.undo.owner == t
    && (if k in chains then
          && c.undo.next == chains[k].undo && c.undo.ts == chains[k].ts && !c.undo.delta.MarkDead?
          && (chains[k].rec.dead || c.undo.delta.Restore? ==> c.rec.dead)
        else
          c.undo.delta.MarkDead? && c.undo.next.Null? && c.undo.ts == (if k.EdgeKey? then t else 0))
  }

  /** No active transaction's undo buffer names the key. */
  predicate Unnamed(s: Store, k: Key) { forall u | u in s.active :: !Names(s.active[u].buf, k) }

  lemma BufStaysOther(chains: map<Key, Chain>, buf: seq<Item>, u: nat, k: Key, c: Chain)
    requires BufOk(chains, buf, u) && c.ts != u
    requires if k in chains then chains[k].ts != u else !Names(buf, k)
    ensures BufOk(chains[k := c], buf, u)
  {
  }

  lemma SegmentGrows(es: seq<Undo>, c: Chain, t: nat, k: Key, c': Chain)
    requires Segment(es, c, t, k) && c'.undo.Entry? && c'.undo.owner == t && c'.undo.ts == t
    requires c'.undo.next == c.undo && !c'.undo.delta.MarkDead?
    requires c.rec.dead || c'.undo.delta.Restore? ==> c'.rec.dead
    ensures Segment(es + [c'.undo], c', t, k)
  {
  }

  lemma BufGrows(chains: map<Key, Chain>, buf: seq<Item>, t: nat, k: Key, c: Chain)
    requires BufOk(chains, buf, t) && Pushed(chains, t, k, c) && IsTxnId(t)
    requires if k in chains then IsTxnId(chains[k].ts) ==> chains[k].ts == t else !Names(buf, k)
    requires k in chains && chains[k].ts == 0 ==> k.VertexKey?
    ensures BufOk(chains[k := c], buf + [Item(k, c.undo)], t)
  {
    var x := Item(k, c.undo);
    var chains' := chains[k := c];
    forall k' | k' in chains' && chains'[k'].ts == t
      ensures Segment(On(buf + [x], k'), chains'[k'], t, k')
    {
      OnAppend(buf, x, k');
      if k' != k {
        assert On(buf + [x], k') == On(buf, k');
      } else if k in chains && chains[k].ts == t {
        hide Segment;
        assert Segment(On(buf, k), chains[k], t, k);
        SegmentGrows(On(buf, k), chains[k], t, k, c);
      } else {
        OnNone(buf, k);
        assert On(buf + [x], k) == [c.undo];
      }
    }
  }

  lemma PendingStays(chains: map<Key, Chain>, y: ATxn, u: nat, k: Key, c: Chain, vals: bool)
    requires PendingTxn(chains, y, u, vals) && c.ts != u
    requires k in chains ==> chains[k].ts != u
    ensures PendingTxn(chains[k := c], y, u, vals)
  {
  }

  lemma PendingGrows(chains: map<Key, Chain>, x: ATxn, t: nat, k: Key, c: Chain, v: Option<Record>, vals: bool)
    requires PendingTxn(chains, x, t, vals) && c.ts == t && (vals ==> v == View(c.rec))
    ensures PendingTxn(chains[k := c], x.(pending := x.pending[k := v]), t, vals)
  {
  }

  function Known(a: Abs, k: Key): Abs { if k in a.log then a else a.(log := a.log[k := []]) }

  lemma LogsGrow(a: Abs, t: nat, k: Key, v: Option<Record>)
    requires LogsOk(a) && t in a.txns
    requires k in a.log ==> Before(a.log[k], a.txns[t].start)
    ensures LogsOk(Put(Known(a, k), t, k, v))
  {
    var a' := Put(Known(a, k), t, k, v);
    forall u | u in a'.txns ensures TxnLogOk(a'.log, a'.txns[u]) {
      assert TxnLogOk(a.log, a.txns[u]);
      forall k' | k' in a'.log ensures FreshFor(a'.log[k'], a'.txns[u]) {
        if k' in a.log { assert FreshFor(a.log[k'], a.txns[u]); }
      }
    }
  }

  lemma HeadsGrow(chains: map<Key, Chain>, log: map<Key, seq<Version>>, env: Env, nextId: nat, k: Key, c: Chain)
    requires HeadsOk(chains, log, env, nextId) && c.ts in env.act && IsTxnId(c.ts) && c.ts < nextId
    requires Good(c.undo, c.rec, c.ts, if k in log then log[k] else [], TOP, env)
    ensures HeadsOk(chains[k := c], if k in log then log else log[k := []], env, nextId)
  {
  }

  lemma PendingWrite(s: Store, a: Abs, t: nat, k: Key, c: Chain, v: Option<Record>, vals: bool)
    requires PendingOk(s, a, vals) && t in s.active && t in a.txns && c.ts == t && c.undo.Entry?
    requires k in s.chains && IsTxnId(s.chains[k].ts) ==> s.chains[k].ts == t
    requires forall u | u in a.txns :: IsTxnId(u)
    requires vals ==> v == View(c.rec)
    ensures PendingOk(Push(s, t, k, c), Put(Known(a, k), t, k, v), vals)
  {
    var s' := Push(s, t, k, c);
    var a' := Put(Known(a, k), t, k, v);
    forall u | u in a'.txns ensures PendingTxn(s'.chains, a'.txns[u], u, vals) {
      hide PendingTxn;
      assert PendingTxn(s.chains, a.txns[u], u, vals);
      if u == t { PendingGrows(s.chains, a.txns[t], t, k, c, v, vals); }
      else { PendingStays(s.chains, a.txns[u], u, k, c, vals); }
    }
  }

  lemma BufsWrite(s: Store, t: nat, k: Key, c: Chain)
    requires BufsOk(s) && t in s.active && Pushed(s.chains, t, k, c)
    requires if k in s.chains then IsTxnId(s.chains[k].ts) ==> s.chains[k].ts == t else Unnamed(s, k)
    requires k in s.chains && s.chains[k].ts == 0 ==> k.VertexKey?
    requires forall u | u in s.active :: IsTxnId(u)
    ensures BufsOk(Push(s, t, k, c))
  {
    var s' := Push(s, t, k, c);
    forall u | u in s'.active ensures BufOk(s'.chains, s'.active[u].buf, u) {
      hide BufOk;
      assert BufOk(s.chains, s.active[u].buf, u);
      if u == t { BufGrows(s.chains, s.active[t].buf, t, k, c); }
      else { BufStaysOther(s.chains, s.active[u].buf, u, k, c); }
    }
  }

  lemma PairSame(x: Txn, y: Txn, x': Txn, y': Txn)
    requires PairOk(x, y) && x'.start == x.start && x'.drawn == x.drawn && y'.start == y.start && y'.drawn == y.drawn
    ensures PairOk(x', y')
  {
  }

  lemma TxnsPush(s: Store, t: nat, k: Key, c: Chain)
    requires TxnsOk(s) && t in s.active && c.undo.Entry?
    ensures TxnsOk(Push(s, t, k, c))
  {
    var s' := Push(s, t, k, c);
    hide PairOk;
    forall u | u in s'.active ensures TxnOk(s', u) { assert TxnOk(s, u); }
    forall u, w | u in s'.active && w in s'.active && u < w ensures PairOk(s'.active[u], s'.active[w]) {
      PairSame(s.active[u], s.active[w], s'.active[u], s'.active[w]);
    }
  }

  lemma TxnsWrite(s: Store, a: Abs, t: nat, k: Key, c: Chain, v: Option<Record>)
    requires TxnsOk(s) && SameTxns(s, a) && t in s.active && c.undo.Entry?
    ensures TxnsOk(Push(s, t, k, c))
    ensures SameTxns(Push(s, t, k, c), Put(Known(a, k), t, k, v))
  {
    TxnsPush(s, t, k, c);
    hide TxnsOk;
  }

  lemma LogsWrite(s: Store, a: Abs, t: nat, k: Key, v: Option<Record>, vals: bool)
    requires LogsOk(a) && HeadsOk(s.chains, a.log, EnvOf(s, vals), s.nextId) && PendingOk(s, a, vals) && SameTxns(s, a)
    requires t in s.active && IsTxnId(t)
    requires k in s.chains ==> Writable(s.chains[k].ts, t, s.active[t].start)
    ensures LogsOk(Put(Known(a, k), t, k, v))
  {
    hide Good;
    if k in s.chains {
      assert PendingTxn(s.chains, a.txns[t], t, vals) && PendingAt(s.chains[k], a.txns[t], t, k, vals);
      assert TxnLogOk(a.log, a.txns[t]) && FreshFor(a.log[k], a.txns[t]);
      SnapshotIsOlder(s.chains[k], k, a.log[k], a.txns[t], t, EnvOf(s, vals), s.nextId, a.clock, vals);
    }
    LogsGrow(a, t, k, v);
  }

  lemma IdsAreTxnIds(s: Store, a: Abs)
    requires TxnsOk(s) && SameTxns(s, a)
    ensures forall t | t in s.active :: IsTxnId(t) && TxnOk(s, t)
    ensures forall t | t in a.txns :: IsTxnId(t)
  {
  }

  /** A record written by `t` on top of what was there. */
  lemma WriteKeeps(s: Store, a: Abs, t: nat, k: Key, c: Chain, v: Option<Record>, vals: bool)
    requires Rel(s, a, vals) && Running(s, t) && (k !in s.chains ==> Unnamed(s, k))
    requires k in s.chains ==> Writable(s.chains[k].ts, t, s.active[t].start)
    requires Pushed(s.chains, t, k, c)
    requires Good(c.undo, c.rec, t, if k in a.log then a.log[k] else [], TOP, EnvOf(s, vals))
    requires vals ==> v == View(c.rec)
    ensures Rel(Push(s, t, k, c), Put(Known(a, k), t, k, v), vals)
  {
    hide TxnsOk, SameTxns, PendingOk, HeadsOk, LogsOk, BufsOk, Good;
    IdsAreTxnIds(s, a);
    assert t in a.txns by { assert SameTxns(s, a); InBoth(s, a, t); }
    assert EnvOf(Push(s, t, k, c), vals) == EnvOf(s, vals);
    LogsWrite(s, a, t, k, v, vals);
    TxnsWrite(s, a, t, k, c, v);
    PendingWrite(s, a, t, k, c, v, vals);
    if k in s.chains { HeadIsGood(s, a, t, k, vals); }
    BufsWrite(s, t, k, c);
    HeadsGrow(s.chains, a.log, EnvOf(s, vals), s.nextId, k, c);
  }

  lemma InBoth(s: Store, a: Abs, t: nat)
    requires SameTxns(s, a) && t in s.active
    ensures t in a.txns
  {
  }

  lemma HeadIsRead(s: Store, a: Abs, t: nat, k: Key, vals: bool)
    requires Rel(s, a, vals) && vals && t in s.active && k in s.chains
    requires Writable(s.chains[k].ts, t, s.active[t].start)
    ensures ARead(a, t, k) == View(s.chains[k].rec)
  {
    assert TxnOk(s, t) && PendingTxn(s.chains, a.txns[t], t, vals);
    assert HeadOk(s.chains[k], k, a.log[k], EnvOf(s, vals), s.nextId) && PendingAt(s.chains[k], a.txns[t], t, k, vals);
  }

  lemma HeldAgrees(s: Store, a: Abs, t: nat, k: Key, vals: bool)
    requires PendingOk(s, a, vals) && SameTxns(s, a) && TxnsOk(s) && t in s.active && k in s.chains
    ensures HeldByOther(a, t, k) <==> s.chains[k].ts != t && s.chains[k].ts in s.active
    ensures k in a.txns[t].pending <==> s.chains[k].ts == t
  {
  }

  /** The store accepts a write exactly when the specification does. */
  lemma WritableAgrees(s: Store, a: Abs, t: nat, k: Key, vals: bool)
    requires Rel(s, a, vals)
    ensures CanWrite(s, t, k) <==> AWritable(a, t, k)
  {
    hide LogsOk, BufsOk;
    if Running(s, t) && k in s.chains {
      var c := s.chains[k];
      assert TxnOk(s, t) && HeadOk(c, k, a.log[k], EnvOf(s, vals), s.nextId);
      HeldAgrees(s, a, t, k, vals);
      assert c.ts in s.active ==> IsTxnId(c.ts) by { IdsAreTxnIds(s, a); }
      hide HeadsOk, PendingOk;
    }
  }

  lemma SetKeeps(s: Store, a: Abs, t: nat, k: Key, indices: seq<nat>, props: seq<Value>, vals: bool)
    requires Rel(s, a, vals)
    ensures Rel(DoSet(s, t, k, indices, props),
                ADo(a, Set(t, k, indices, props), How(k in s.chains && InRange(indices, s.chains[k].rec), {})), vals)
  {
    hide Rel, AWritable;
    WritableAgrees(s, a, t, k, vals);
    if CanWrite(s, t, k) && InRange(indices, s.chains[k].rec) {
      var c := s.chains[k];
      var e := Entry(t, SetBack(indices, Saved(c.rec, indices)), c.ts, c.undo);
      var rec := SetProps(c.rec, indices, props);
      SetBackInverts(c.rec, indices, props);
      SetPropsShape(c.rec, indices, props);
      HeadIsGood(s, a, t, k, vals);
      if vals { HeadIsRead(s, a, t, k, vals); }
      WriteKeeps(s, a, t, k, Chain(rec, t, e), ASetValue(ARead(a, t, k), indices, props), vals);
    }
  }

  lemma HeadIsGood(s: Store, a: Abs, t: nat, k: Key, vals: bool)
    requires Rel(s, a, vals) && t in s.active && k in s.chains
    ensures k in a.log && HeadOk(s.chains[k], k, a.log[k], EnvOf(s, vals), s.nextId)
    ensures t in a.txns && IsTxnId(t)
  {
    assert TxnOk(s, t);
  }

  lemma DeleteKeeps(s: Store, a: Abs, t: nat, k: Key, vals: bool)
    requires Rel(s, a, vals)
    ensures Rel(DoDelete(s, t, k), ADo(a, Delete(t, k), FINE), vals)
  {
    hide Rel, AWritable;
    WritableAgrees(s, a, t, k, vals);
    if CanWrite(s, t, k) {
      var c := s.chains[k];
      HeadIsGood(s, a, t, k, vals);
      WriteKeeps(s, a, t, k, Chain(c.rec.(dead := true), t, Entry(t, Restore(c.rec), c.ts, c.undo)), None, vals);
    }
  }

  /** Creation succeeds exactly on ids not in use: never used, or of an edge forgotten since. */
  lemma CreateAgrees(s: Store, a: Abs, t: nat, k: Key, vals: bool)
    requires Rel(s, a, vals)
    ensures CanCreate(s, t, k) <==> ARunning(a, t) && k !in a.log
  {
    if Running(s, t) {
      assert TxnOk(s, t);
      if k in s.chains { assert HeadOk(s.chains[k], k, a.log[k], EnvOf(s, vals), s.nextId); }
    }
  }

  lemma CreateKeeps(s: Store, a: Abs, t: nat, k: Key, rec: Record, vals: bool)
    requires Rel(s, a, vals) && (CanCreate(s, t, k) ==> Unnamed(s, k))
    ensures Rel(DoCreate(s, t, k, rec), ADo(a, Create(t, k, rec), FINE), vals)
  {
    hide Rel;
    CreateAgrees(s, a, t, k, vals);
    if CanCreate(s, t, k) {
      assert k !in s.chains && IsTxnId(t) by { KeysAgree(s, a, t, vals); }
      var ts := if k.VertexKey? then 0 else t;
      WriteKeeps(s, a, t, k, Chain(rec, t, Entry(t, MarkDead, ts, Null)), View(rec), vals);
    }
  }

  lemma {:induction false} OnNamed(buf: seq<Item>, k: Key)
    requires Names(buf, k)
    ensures On(buf, k) != []
    decreases |buf|
  {
    if buf[0].key != k {
      var x :| x in buf && x.key == k;
      assert x in buf[1..];
      OnNamed(buf[1..], k);
    }
  }

  /** A buffer that names the key already, of the creator or of another, loses touch with its chains. */
  lemma NamedBreaks(s: Store, t: nat, k: Key, c: Chain, u: nat)
    requires t in s.active && u in s.active && Names(s.active[u].buf, k) && c.ts == t && c.undo.Entry? && c.undo.delta.MarkDead?
    ensures !BufsOk(Push(s, t, k, c))
  {
    var s' := Push(s, t, k, c);
    var buf' := s'.active[u].buf;
    var x :| x in s.active[u].buf && x.key == k;
    assert x in buf' && x.key in s'.chains;
    if u == t {
      OnNamed(s.active[t].buf, k);
      OnAppend(s.active[t].buf, Item(k, c.undo), k);
      var es := On(buf', k);
      assert es == On(s.active[t].buf, k) + [c.undo] && es[|es| - 1].delta.MarkDead?;
      assert !Segment(es, c, t, k);
    }
    assert !BufOk(s'.chains, buf', u);
  }

  /** An accepted creation is a step of the specification if and only if no active undo buffer names the id. */
  lemma CreateRefinesIff(s: Store, a: Abs, t: nat, k: Key, rec: Record, vals: bool)
    requires Rel(s, a, vals) && CanCreate(s, t, k)
    ensures Unnamed(s, k) <==> Rel(DoCreate(s, t, k, rec), ADo(a, Create(t, k, rec), FINE), vals)
  {
    if Unnamed(s, k) {
      CreateKeeps(s, a, t, k, rec, vals);
    } else {
      CreateAgrees(s, a, t, k, vals);
      assert k !in s.chains && IsTxnId(t) by { KeysAgree(s, a, t, vals); }
      hide Rel, BufsOk, Names;
      var u :| u in s.active && Names(s.active[u].buf, k);
      var ts := if k.VertexKey? then 0 else t;
      NamedBreaks(s, t, k, Chain(rec, t, Entry(t, MarkDead, ts, Null)), u);
      NotRelated(DoCreate(s, t, k, rec), ADo(a, Create(t, k, rec), FINE), vals);
    }
  }

  lemma NotRelated(s: Store, a: Abs, vals: bool)
    requires !BufsOk(s)
    ensures !Rel(s, a, vals)
  {
  }

  lemma KeysAgree(s: Store, a: Abs, t: nat, vals: bool)
    requires Rel(s, a, vals) && t in s.active
    ensures s.chains.Keys == a.log.Keys && t in a.txns && IsTxnId(t)
    ensures t in EnvOf(s, vals).act
  {
    assert TxnOk(s, t);
  }
}
