/** Begin, the two halves of commit, and garbage collection keep the relation to the specification. */
module MvccLifecycle {
  import opened Wrap
  import opened Stamps
  import opened MvccStore
  import opened SnapshotSpec
  import opened MvccChains
  import opened MvccRelation

  // ----- the watermark -----

  ghost predicate StartsFollowIds(active: map<nat, Txn>) {
    forall t, u | t in active && u in active && t < u :: active[t].start < active[u].start
  }

  /** Because ids and starts are issued together, the transaction with the least id has the least
      start, so the recomputed watermark stays at or below every active start. */
  lemma WatermarkSafe(active: map<nat, Txn>, latest: nat, old': nat, bound: nat)
    requires StartsFollowIds(active)
    requires forall t | t in active :: old' <= active[t].start < bound
    requires latest < bound && old' < bound
    ensures old' <= Watermark(active, latest, old') < bound
    ensures forall t | t in active :: Watermark(active, latest, old') <= active[t].start
  {
  }

  /** It is the least start of an active transaction; with none active, the latest commit, if that is later
      than what it was. */
  lemma WatermarkExact(active: map<nat, Txn>, latest: nat, old': nat)
    requires StartsFollowIds(active) && forall t | t in active :: old' <= active[t].start
    ensures active != map[] ==> exists t :: t in active && active[t].start == Watermark(active, latest, old')
    ensures forall t | t in active :: Watermark(active, latest, old') <= active[t].start
    ensures active == map[] ==> Watermark(active, latest, old') == if latest < old' then old' else latest
  {
    if active != map[] {
      var f := Front(active.Keys);
      assert f in active && Watermark(active, latest, old') == active[f].start;
    }
  }

  lemma HeadsFrame(chains: map<Key, Chain>, log: map<Key, seq<Version>>, env: Env, env': Env, nextId: nat, nextId': nat)
    requires HeadsOk(chains, log, env, nextId) && nextId <= nextId'
    requires env.wm <= env'.wm && env'.vals == env.vals && env'.done.Values <= env.done.Values
    requires forall c | c in env.done :: Kept(env.done[c], c, env'.done) || c <= env'.wm
    requires forall k | k in chains && chains[k].ts in env.act :: chains[k].ts in env'.act
    ensures HeadsOk(chains, log, env', nextId')
  {
    forall k | k in chains ensures k in log && HeadOk(chains[k], k, log[k], env', nextId') {
      assert HeadOk(chains[k], k, log[k], env, nextId);
      GoodFrame(chains[k].undo, chains[k].rec, chains[k].ts, log[k], TOP, env, env');
    }
  }

  // ----- begin -----

  lemma BeginTxns(s: Store, a: Abs)
    requires ClockOk(s, a) && TxnsOk(s) && s.nextTs < MAX_COMMIT_TS && s.nextId < U64_MAX
    ensures TxnsOk(DoBegin(s)) && ClockOk(DoBegin(s), ADo(a, Begin, FINE))
    ensures s.watermark <= DoBegin(s).watermark
  {
    var s' := DoBegin(s);
    forall t | t in s.active ensures TxnOk(s, t) {}
    assert StartsFollowIds(s'.active) by {
      forall t, u | t in s'.active && u in s'.active && t < u ensures s'.active[t].start < s'.active[u].start {
        if u != s.nextId { assert PairOk(s.active[t], s.active[u]); }
      }
    }
    WatermarkSafe(s'.active, s.latest, s.watermark, s'.nextTs);
    forall t | t in s'.active ensures TxnOk(s', t) { if t != s.nextId { assert TxnOk(s, t); } }
    forall t, u | t in s'.active && u in s'.active && t < u ensures PairOk(s'.active[t], s'.active[u]) {
      if u != s.nextId { assert PairOk(s.active[t], s.active[u]); }
    }
  }

  lemma BeginLogs(a: Abs)
    requires LogsOk(a) && a.clock < MAX_COMMIT_TS && a.nextId < U64_MAX
    ensures LogsOk(ADo(a, Begin, FINE))
  {
  }

  lemma NewIdUnused(s: Store, log: map<Key, seq<Version>>, env: Env)
    requires HeadsOk(s.chains, log, env, s.nextId)
    ensures TXN_ID_START <= s.nextId ==> forall k | k in s.chains :: s.chains[k].ts != s.nextId
  {
  }

  lemma BeginBufs(s: Store)
    requires BufsOk(s) && s.nextTs < MAX_COMMIT_TS && s.nextId < U64_MAX
    requires forall k | k in s.chains :: s.chains[k].ts != s.nextId
    ensures BufsOk(DoBegin(s))
  {
  }

  lemma BeginRest(s: Store, a: Abs, vals: bool)
    requires ClockOk(s, a) && SameTxns(s, a) && PendingOk(s, a, vals) && BufsOk(s)
    requires HeadsOk(s.chains, a.log, EnvOf(s, vals), s.nextId)
    requires s.nextTs < MAX_COMMIT_TS && s.nextId < U64_MAX
    ensures SameTxns(DoBegin(s), ADo(a, Begin, FINE))
    ensures PendingOk(DoBegin(s), ADo(a, Begin, FINE), vals)
    ensures BufsOk(DoBegin(s))
  {
    NewIdUnused(s, a.log, EnvOf(s, vals));
    hide Watermark, HeadsOk, BufsOk, PendingTxn;
    BeginBufs(s);
    var s', a' := DoBegin(s), ADo(a, Begin, FINE);
    forall t | t in a'.txns ensures PendingTxn(s'.chains, a'.txns[t], t, vals) {
      if t != s.nextId { assert PendingTxn(s.chains, a.txns[t], t, vals); }
      else { NothingPending(s.chains, a'.txns[t], t, vals); }
    }
  }

  lemma NothingPending(chains: map<Key, Chain>, x: ATxn, t: nat, vals: bool)
    requires x.pending == map[] && forall k | k in chains :: chains[k].ts != t
    ensures PendingTxn(chains, x, t, vals)
  {
  }

  lemma BeginKeeps(s: Store, a: Abs, vals: bool)
    requires Rel(s, a, vals)
    ensures Rel(DoBegin(s), ADo(a, Begin, FINE), vals)
  {
    hide TxnsOk, SameTxns, PendingOk, HeadsOk, LogsOk, BufsOk, Watermark;
    if s.nextTs < MAX_COMMIT_TS && s.nextId < U64_MAX {
      BeginTxns(s, a);
      BeginLogs(a);
      BeginRest(s, a, vals);
      HeadsFrame(s.chains, a.log, EnvOf(s, vals), EnvOf(DoBegin(s), vals), s.nextId, s.nextId + 1);
    }
  }

  // ----- drawing a commit timestamp -----

  lemma DrawTxns(s: Store, t: nat)
    requires TxnsOk(s) && Running(s, t) && s.nextTs < MAX_COMMIT_TS
    requires forall c | c in s.done :: c < s.nextTs
    ensures TxnsOk(DoDraw(s, t))
  {
    var s' := DoDraw(s, t);
    forall u | u in s'.active ensures TxnOk(s', u) { assert TxnOk(s, u); }
    hide PairOk;
    forall u, w | u in s'.active && w in s'.active && u < w ensures PairOk(s'.active[u], s'.active[w]) {
      assert PairOk(s.active[u], s.active[w]) && TxnOk(s, u) && TxnOk(s, w);
      DrawPair(s.active[u], s.active[w], s'.active[u], s'.active[w], s.nextTs);
    }
  }

  lemma DrawPair(x: Txn, y: Txn, x': Txn, y': Txn, c: nat)
    requires PairOk(x, y) && x.start < c && y.start < c && (x.drawn.Some? ==> x.drawn.value < c) && (y.drawn.Some? ==> y.drawn.value < c)
    requires x'.start == x.start && y'.start == y.start && (x'.drawn == x.drawn || x'.drawn == Some(c))
    requires (y'.drawn == y.drawn || y'.drawn == Some(c)) && (x'.drawn == x.drawn || y'.drawn == y.drawn)
    ensures PairOk(x', y')
  {
  }

  lemma DrawLogs(a: Abs, t: nat)
    requires LogsOk(a) && ARunning(a, t) && a.clock < MAX_COMMIT_TS
    ensures LogsOk(ADo(a, Draw(t), FINE))
  {
    var a' := ADo(a, Draw(t), FINE);
    forall k | k in a'.log ensures LogOk(a'.log[k], a'.clock) { assert LogOk(a.log[k], a.clock); }
    forall u | u in a'.txns ensures TxnLogOk(a'.log, a'.txns[u]) {
      assert TxnLogOk(a.log, a.txns[u]);
      forall k | k in a'.log ensures FreshFor(a'.log[k], a'.txns[u]) {
        assert LogOk(a.log[k], a.clock) && FreshFor(a.log[k], a.txns[u]);
      }
    }
  }

  lemma DrawPending(s: Store, a: Abs, t: nat, vals: bool)
    requires SameTxns(s, a) && PendingOk(s, a, vals) && Running(s, t)
    requires s.nextTs == a.clock < MAX_COMMIT_TS
    ensures SameTxns(DoDraw(s, t), ADo(a, Draw(t), FINE))
    ensures PendingOk(DoDraw(s, t), ADo(a, Draw(t), FINE), vals)
  {
    var s', a' := DoDraw(s, t), ADo(a, Draw(t), FINE);
    hide PendingAt;
    forall u | u in a'.txns ensures PendingTxn(s'.chains, a'.txns[u], u, vals) {
      assert PendingTxn(s.chains, a.txns[u], u, vals);
      forall k | k in s.chains ensures PendingAt(s.chains[k], a'.txns[u], u, k, vals) {
        PendingSame(s.chains[k], a.txns[u], a'.txns[u], u, k, vals);
      }
    }
  }

  lemma PendingSame(c: Chain, x: ATxn, x': ATxn, t: nat, k: Key, vals: bool)
    requires PendingAt(c, x, t, k, vals) && x'.pending == x.pending
    ensures PendingAt(c, x', t, k, vals)
  {
  }

  lemma DrawBufs(s: Store, t: nat)
    requires BufsOk(s) && Running(s, t) && s.nextTs < MAX_COMMIT_TS
    ensures BufsOk(DoDraw(s, t))
  {
    var s' := DoDraw(s, t);
    hide BufOk;
    forall u | u in s'.active ensures BufOk(s'.chains, s'.active[u].buf, u) {
      assert BufOk(s.chains, s.active[u].buf, u);
    }
  }

  lemma RunningAgrees(s: Store, a: Abs, t: nat)
    requires SameTxns(s, a)
    ensures Running(s, t) <==> ARunning(a, t)
    ensures t in s.active <==> t in a.txns
    ensures t in s.active ==> s.active[t].start == a.txns[t].start && s.active[t].drawn == a.txns[t].drawn
  {
  }

  lemma DrawKeeps(s: Store, a: Abs, t: nat, vals: bool)
    requires Rel(s, a, vals)
    ensures Rel(DoDraw(s, t), ADo(a, Draw(t), FINE), vals)
  {
    hide TxnsOk, SameTxns, PendingOk, HeadsOk, LogsOk, BufsOk;
    RunningAgrees(s, a, t);
    if Running(s, t) && s.nextTs < MAX_COMMIT_TS {
      DrawTxns(s, t);
      DrawLogs(a, t);
      DrawPending(s, a, t, vals);
      DrawBufs(s, t);
      assert EnvOf(DoDraw(s, t), vals) == EnvOf(s, vals);
    }
  }

  // ----- leaving the active set (shared by commit and abort) -----

  lemma FewerTxns(s: Store, t: nat)
    requires TxnsOk(s)
    ensures StartsFollowIds(s.active - {t})
    ensures forall u | u in s.active :: s.watermark <= s.active[u].start < s.nextTs
  {
    forall u | u in s.active ensures s.watermark <= s.active[u].start < s.nextTs { assert TxnOk(s, u); }
    forall u, w | u in s.active && w in s.active && u < w ensures s.active[u].start < s.active[w].start {
      assert PairOk(s.active[u], s.active[w]);
    }
  }

  lemma RetireTxns(s: Store, a: Abs, t: nat)
    requires ClockOk(s, a) && TxnsOk(s) && t in s.active
    ensures TxnsOk(Retired(s, t)) && ClockOk(Retired(s, t), a)
    ensures s.watermark <= Retired(s, t).watermark
  {
    var s' := Retired(s, t);
    FewerTxns(s, t);
    hide PairOk, StartsFollowIds;
    WatermarkSafe(s'.active, s.latest, s.watermark, s.nextTs);
    hide Watermark;
    forall u | u in s'.active ensures TxnOk(s', u) { assert TxnOk(s, u); }
    forall u, w | u in s'.active && w in s'.active && u < w ensures PairOk(s'.active[u], s'.active[w]) {
      assert PairOk(s.active[u], s.active[w]);
    }
  }

  /** Once `t` is gone, a change confined to the chains `t` held disturbs nobody else. */
  lemma RetireRest(s: Store, a: Abs, t: nat, chains: map<Key, Chain>, a': Abs, vals: bool)
    requires TxnsOk(s) && SameTxns(s, a) && PendingOk(s, a, vals) && BufsOk(s) && t in s.active
    requires chains.Keys == s.chains.Keys == a'.log.Keys
    requires forall k | k in chains :: if s.chains[k].ts == t then chains[k].ts == t || !IsTxnId(chains[k].ts)
                                                             else chains[k] == s.chains[k]
    requires a'.txns == a.txns - {t}
    ensures SameTxns(Retired(s.(chains := chains), t), a')
    ensures PendingOk(Retired(s.(chains := chains), t), a', vals)
    ensures BufsOk(Retired(s.(chains := chains), t))
  {
    var s' := Retired(s.(chains := chains), t);
    forall u | u in a'.txns ensures PendingTxn(s'.chains, a'.txns[u], u, vals) {
      assert PendingTxn(s.chains, a.txns[u], u, vals) && TxnOk(s, u);
      forall k | k in chains ensures PendingAt(chains[k], a.txns[u], u, k, vals) {
        assert PendingAt(s.chains[k], a.txns[u], u, k, vals);
      }
    }
    forall u | u in s'.active ensures BufOk(s'.chains, s'.active[u].buf, u) {
      assert BufOk(s.chains, s.active[u].buf, u) && TxnOk(s, u);
      BufStays(s.chains, chains, s.active[u].buf, u);
    }
  }

  lemma BufStays(chains: map<Key, Chain>, chains': map<Key, Chain>, buf: seq<Item>, u: nat)
    requires BufOk(chains, buf, u) && chains.Keys == chains'.Keys
    requires forall k | k in chains :: chains[k].ts == u ==> chains'[k] == chains[k]
    requires forall k | k in chains :: chains[k].ts != u ==> chains'[k].ts != u
    ensures BufOk(chains', buf, u)
  {
  }

  // ----- publishing a commit -----

  lemma {:induction false} StampAllAt(chains: map<Key, Chain>, buf: seq<Item>, c: nat)
    ensures StampAll(chains, buf, c).Keys == chains.Keys
    ensures forall k | k in chains ::
              StampAll(chains, buf, c)[k] == if On(buf, k) != [] then chains[k].(ts := c) else chains[k]
    decreases |buf|
  {
    if buf != [] {
      var k := buf[0].key;
      var chains1 := if k in chains then chains[k := chains[k].(ts := c)] else chains;
      StampAllAt(chains1, buf[1..], c);
    }
  }

  lemma {:induction false} OnSome(buf: seq<Item>, k: Key)
    requires On(buf, k) != []
    ensures exists x :: x in buf && x.key == k
  {
    if buf[0].key == k { assert buf[0] in buf; }
    else {
      OnSome(buf[1..], k);
      var x :| x in buf[1..] && x.key == k;
      assert x in buf;
    }
  }

  /** The keys in a transaction's undo buffer are exactly the keys it holds. */
  lemma HeldKeys(chains: map<Key, Chain>, buf: seq<Item>, t: nat, k: Key)
    requires BufOk(chains, buf, t) && k in chains
    ensures On(buf, k) != [] <==> chains[k].ts == t
  {
    if On(buf, k) != [] { OnSome(buf, k); }
  }

  lemma {:induction false} Committed(u: Undo, r: Record, t: nat, h: seq<Version>, c: nat, env: Env, env': Env)
    requires Good(u, r, t, h, TOP, env) && IsTxnId(t)
    requires env.wm <= env'.wm && env'.vals == env.vals
    requires forall x | x in env.done :: Kept(env.done[x], x, env'.done) || x <= env'.wm
    requires Kept(t, c, env'.done) && c < TOP
    ensures Good(u, r, t, h, c, env')
    decreases u
  {
    if u.Entry? {
      var r' := ApplyDelta(u.delta, r);
      if IsTxnId(u.ts) {
        Committed(u.next, r', t, h, c, env, env');
      } else {
        GoodUp(u.next, r', u.ts, h, TOP, c, env);
        GoodFrame(u.next, r', u.ts, h, c, env, env');
      }
    }
  }

  /** Under a committed version the stamp above plays no part. */
  lemma GoodUp(u: Undo, r: Record, ts: nat, h: seq<Version>, up: nat, up': nat, env: Env)
    requires Good(u, r, ts, h, up, env) && !IsTxnId(ts)
    ensures Good(u, r, ts, h, up', env)
  {
  }

  lemma PublishHead(ch: Chain, k: Key, h: seq<Version>, v: Version, t: nat, env: Env, env': Env, nextId: nat)
    requires HeadOk(ch, k, h, env, nextId) && ch.ts == t && IsTxnId(t) && ch.undo.Entry?
    requires env.wm <= env'.wm && env'.vals == env.vals
    requires forall x | x in env.done :: Kept(env.done[x], x, env'.done) || x <= env'.wm
    requires 0 < v.ts < TOP && (env.vals ==> v.val == View(ch.rec)) && Kept(t, v.ts, env'.done)
    ensures HeadOk(ch.(ts := v.ts), k, h + [v], env', nextId)
  {
    Committed(ch.undo, ch.rec, t, h, v.ts, env, env');
    var u := ch.undo;
    assert Good(u.next, ApplyDelta(u.delta, ch.rec), u.ts, h, v.ts, env');
    assert Init(h + [v]) == h && Last(h + [v]) == v;
  }

  lemma LogGrows(h: seq<Version>, v: Version, clock: nat)
    requires LogOk(h, clock) && Before(h, v.start) && v.start < v.ts < clock && 1 <= v.ts
    ensures LogOk(h + [v], clock)
  {
  }

  lemma PublishLogs(a: Abs, t: nat)
    requires LogsOk(a) && t in a.txns && a.txns[t].drawn.Some?
    requires a.txns[t].start < a.txns[t].drawn.value < a.clock
    requires forall u | u in a.txns && u != t ::
               && a.txns[u].start != a.txns[t].drawn.value && a.txns[u].drawn != a.txns[t].drawn
               && a.txns[u].pending.Keys !! a.txns[t].pending.Keys
    ensures LogsOk(APublished(a, t))
  {
    var x := a.txns[t];
    var a' := APublished(a, t);
    forall k | k in a'.log ensures LogOk(a'.log[k], a'.clock) {
      assert LogOk(a.log[k], a.clock) && TxnLogOk(a.log, x);
      if k in x.pending { LogGrows(a.log[k], Version(x.drawn.value, x.pending[k], x.start), a.clock); }
    }
    forall u | u in a'.txns ensures TxnLogOk(a'.log, a'.txns[u]) {
      assert TxnLogOk(a.log, a.txns[u]);
      forall k | k in a'.log ensures FreshFor(a'.log[k], a'.txns[u]) { assert FreshFor(a.log[k], a.txns[u]); }
      forall k | k in a'.txns[u].pending ensures k in a'.log && Before(a'.log[k], a'.txns[u].start) {
        assert k in a.txns[u].pending.Keys && k !in x.pending.Keys;
      }
    }
  }

  lemma PublishApart(s: Store, a: Abs, t: nat, vals: bool)
    requires TxnsOk(s) && SameTxns(s, a) && PendingOk(s, a, vals) && t in s.active && s.active[t].drawn.Some?
    ensures forall u | u in a.txns && u != t ::
              && a.txns[u].start != a.txns[t].drawn.value && a.txns[u].drawn != a.txns[t].drawn
              && a.txns[u].pending.Keys !! a.txns[t].pending.Keys
  {
  }

  /** The state in which `t` has stamped its records and is about to leave the active set. */
  function Stamped(s: Store, t: nat): Store
    requires t in s.active && s.active[t].drawn.Some?
  {
    var c, buf := s.active[t].drawn.value, s.active[t].buf;
    s.(chains := StampAll(s.chains, buf, c), latest := c, done := s.done[c := t], kept := s.kept[c := buf])
  }

  lemma StampedTxns(s: Store, a: Abs, t: nat)
    requires ClockOk(s, a) && TxnsOk(s) && t in s.active && s.active[t].drawn.Some?
    ensures ClockOk(Retired(Stamped(s, t), t), a) && TxnsOk(Retired(Stamped(s, t), t))
    ensures s.watermark <= Retired(Stamped(s, t), t).watermark
    ensures s.active[t].drawn.value !in s.done
  {
    var c := s.active[t].drawn.value;
    var s2 := Retired(Stamped(s, t), t);
    RetireTxns(s, a, t);
    FewerTxns(s, t);
    assert TxnOk(s, t);
    hide PairOk, Watermark, StartsFollowIds;
    WatermarkSafe(s2.active, c, s.watermark, s.nextTs);
    assert Retired(s, t).active == s2.active;
    forall u | u in s2.active ensures TxnOk(s2, u) { StampedOther(s, t, u); }
  }

  /** The commit stamp of `t` is not another transaction's start or drawn stamp. */
  lemma StampedOther(s: Store, t: nat, u: nat)
    requires TxnsOk(s) && t in s.active && s.active[t].drawn.Some? && u in s.active && u != t
    requires Retired(Stamped(s, t), t).watermark <= s.active[u].start
    ensures TxnOk(Retired(Stamped(s, t), t), u)
  {
    hide Watermark;
    assert TxnOk(s, u);
    if u < t { assert PairOk(s.active[u], s.active[t]); } else { assert PairOk(s.active[t], s.active[u]); }
  }

  lemma PublishHeadAt(ch: Chain, k: Key, h: seq<Version>, x: ATxn, t: nat, buf: seq<Item>, env: Env, env': Env, nextId: nat, vals: bool)
    requires HeadOk(ch, k, h, env, nextId) && PendingAt(ch, x, t, k, vals) && IsTxnId(t) && env.vals == vals
    requires t !in env.done.Values
    requires ch.ts == t ==> ch.undo.Entry?
    requires x.drawn.Some? && 0 < x.drawn.value < TOP && x.drawn.value !in env.done
    requires env' == Env(env.act - {t}, env.done[x.drawn.value := t], env'.wm, env.vals) && env.wm <= env'.wm
    ensures HeadOk(if ch.ts == t then ch.(ts := x.drawn.value) else ch, k,
                   if k in x.pending then h + [Version(x.drawn.value, x.pending[k], x.start)] else h, env', nextId)
  {
    hide Good;
    if ch.ts == t {
      PublishHead(ch, k, h, Version(x.drawn.value, x.pending[k], x.start), t, env, env', nextId);
    } else {
      GoodFrame(ch.undo, ch.rec, ch.ts, h, TOP, env, env');
    }
  }

  lemma PublishHeads(s: Store, a: Abs, t: nat, env': Env, vals: bool)
    requires HeadsOk(s.chains, a.log, EnvOf(s, vals), s.nextId) && BufsOk(s) && SameTxns(s, a) && PendingOk(s, a, vals)
    requires t in s.active && s.active[t].drawn.Some? && IsTxnId(t)
    requires var c := s.active[t].drawn.value; 0 < c < TOP && c !in s.done && env'.done == s.done[c := t]
    requires env'.act == s.active.Keys - {t} && s.watermark <= env'.wm && env'.vals == vals && t !in s.done.Values
    ensures HeadsOk(Stamped(s, t).chains, APublished(a, t).log, env', s.nextId)
  {
    var x, buf := a.txns[t], s.active[t].buf;
    var chains' := Stamped(s, t).chains;
    var log' := APublished(a, t).log;
    StampAllAt(s.chains, buf, x.drawn.value);
    assert BufOk(s.chains, buf, t) && PendingTxn(s.chains, x, t, vals);
    hide StampAll, BufsOk;
    forall k | k in chains' ensures k in log' && HeadOk(chains'[k], k, log'[k], env', s.nextId) {
      assert HeadOk(s.chains[k], k, a.log[k], EnvOf(s, vals), s.nextId) && PendingAt(s.chains[k], x, t, k, vals);
      hide HeadOk, PendingTxn, HeadsOk;
      HeldKeys(s.chains, buf, t, k);
      assert s.chains[k].ts == t ==> Segment(On(buf, k), s.chains[k], t, k);
      PublishHeadAt(s.chains[k], k, a.log[k], x, t, buf, EnvOf(s, vals), env', s.nextId, vals);
    }
  }

  lemma PublishChains(s: Store, a: Abs, t: nat, vals: bool)
    requires BufsOk(s) && PendingOk(s, a, vals) && t in s.active && t in a.txns && s.active[t].drawn.Some?
    requires a.txns[t].drawn.Some? && s.active[t].drawn.value < TOP
    ensures var chains := Stamped(s, t).chains;
            && chains.Keys == s.chains.Keys == APublished(a, t).log.Keys
            && forall k | k in chains :: if s.chains[k].ts == t then !IsTxnId(chains[k].ts)
                                                               else chains[k] == s.chains[k]
  {
    StampAllAt(s.chains, s.active[t].buf, s.active[t].drawn.value);
    assert BufOk(s.chains, s.active[t].buf, t);
    forall k | k in s.chains ensures On(s.active[t].buf, k) != [] <==> s.chains[k].ts == t {
      HeldKeys(s.chains, s.active[t].buf, t, k);
    }
  }

  lemma DrawnOk(s: Store, t: nat)
    requires TxnsOk(s) && t in s.active && s.active[t].drawn.Some?
    ensures IsTxnId(t) && s.active[t].start < s.active[t].drawn.value < s.nextTs && t !in s.done.Values
  {
    assert TxnOk(s, t);
  }

  lemma PublishKeeps(s: Store, a: Abs, t: nat, vals: bool)
    requires Rel(s, a, vals)
    ensures Rel(DoPublish(s, t), ADo(a, Publish(t), How(t in s.active && Finds(s, t), {})), vals)
  {
    hide TxnsOk, SameTxns, PendingOk, HeadsOk, LogsOk, BufsOk, Watermark, StampAll;
    RunningAgrees(s, a, t);
    if Drawn(s, t) && Finds(s, t) {
      DrawnOk(s, t);
      StampedTxns(s, a, t);
      PublishApart(s, a, t, vals);
      PublishLogs(a, t);
      PublishChains(s, a, t, vals);
      var s' := DoPublish(s, t);
      RetireRest(s, a, t, Stamped(s, t).chains, APublished(a, t), vals);
      PublishSame(s, a, t, vals);
      PublishHeads(s, a, t, EnvOf(s', vals), vals);
    }
  }

  lemma PublishSame(s: Store, a: Abs, t: nat, vals: bool)
    requires t in s.active && t in a.txns && s.active[t].drawn.Some? && a.txns[t].drawn.Some?
    requires SameTxns(Retired(s.(chains := Stamped(s, t).chains), t), APublished(a, t))
    requires PendingOk(Retired(s.(chains := Stamped(s, t).chains), t), APublished(a, t), vals)
    requires BufsOk(Retired(s.(chains := Stamped(s, t).chains), t))
    ensures SameTxns(Retired(Stamped(s, t), t), APublished(a, t))
    ensures PendingOk(Retired(Stamped(s, t), t), APublished(a, t), vals)
    ensures BufsOk(Retired(Stamped(s, t), t))
  {
  }

  // ----- garbage collection -----

  /** What is left of a state when some edges are gone from the store and the specification alike. */
  ghost predicate Thinned(chains: map<Key, Chain>, chains': map<Key, Chain>, gone: set<Key>) {
    && (forall k | k in chains' :: k in chains && chains'[k] == chains[k] && !Forgets(k, gone))
    && (forall k | k in chains && !Forgets(k, gone) :: k in chains')
  }

  lemma ForgetPending(s: Store, a: Abs, s': Store, gone: set<Key>, vals: bool)
    requires PendingOk(s, a, vals) && SameTxns(s, a) && Thinned(s.chains, s'.chains, gone) && s'.active == s.active
    ensures PendingOk(s', AForget(a, gone), vals) && SameTxns(s', AForget(a, gone))
  {
    var a' := AForget(a, gone);
    assert a'.txns.Keys == a.txns.Keys;
    forall k ensures k in s'.chains <==> k in a'.log { assert k in s.chains <==> k in a.log; }
    forall t | t in a'.txns ensures PendingTxn(s'.chains, a'.txns[t], t, vals) {
      assert PendingTxn(s.chains, a.txns[t], t, vals);
      ForgetTxn(s.chains, s'.chains, a.txns[t], t, gone, vals);
    }
  }

  lemma ForgetTxn(chains: map<Key, Chain>, chains': map<Key, Chain>, x: ATxn, t: nat, gone: set<Key>, vals: bool)
    requires PendingTxn(chains, x, t, vals) && Thinned(chains, chains', gone)
    ensures PendingTxn(chains', Without(x, gone), t, vals)
  {
    forall k | k in chains' ensures PendingAt(chains'[k], Without(x, gone), t, k, vals) {
      assert PendingAt(chains[k], x, t, k, vals);
    }
  }

  lemma ForgetHeads(s: Store, a: Abs, s': Store, gone: set<Key>, env: Env, env': Env)
    requires HeadsOk(s.chains, a.log, env, s.nextId) && Thinned(s.chains, s'.chains, gone)
    requires env.wm <= env'.wm && env'.vals == env.vals && env'.done.Values <= env.done.Values && env'.act == env.act
    requires forall c | c in env.done :: Kept(env.done[c], c, env'.done) || c <= env'.wm
    ensures HeadsOk(s'.chains, AForget(a, gone).log, env', s.nextId)
  {
    hide Good;
    var log' := AForget(a, gone).log;
    forall k | k in s'.chains ensures k in log' && HeadOk(s'.chains[k], k, log'[k], env', s.nextId) {
      assert HeadOk(s.chains[k], k, a.log[k], env, s.nextId);
      GoodFrame(s.chains[k].undo, s.chains[k].rec, s.chains[k].ts, a.log[k], TOP, env, env');
    }
  }

  lemma ForgetLogs(a: Abs, gone: set<Key>)
    requires LogsOk(a)
    ensures LogsOk(AForget(a, gone))
  {
    var a' := AForget(a, gone);
    forall t | t in a'.txns ensures TxnLogOk(a'.log, a'.txns[t]) {
      assert TxnLogOk(a.log, a.txns[t]);
      forall k | k in a'.log ensures FreshFor(a'.log[k], a'.txns[t]) { assert FreshFor(a.log[k], a.txns[t]); }
    }
  }

  lemma ForgetBufs(s: Store, s': Store, gone: set<Key>)
    requires BufsOk(s) && Thinned(s.chains, s'.chains, gone) && s'.active == s.active
    ensures BufsOk(s')
  {
    forall t | t in s'.active ensures BufOk(s'.chains, s'.active[t].buf, t) {
      assert BufOk(s.chains, s.active[t].buf, t);
    }
  }

  /** What a collection removes. */
  ghost function Gone(s: Store): set<Key> { set k | k in s.chains && Removed(s, k) }

  lemma {:induction false} MarkedEdges(buf: seq<Item>, marked: set<Key>)
    requires forall k | k in marked :: k.EdgeKey?
    ensures forall k | k in MarkAll(buf, marked) :: k.EdgeKey?
    decreases |buf|
  {
    if buf != [] { MarkedEdges(buf[1..], Mark(buf[0], marked)); }
  }

  lemma {:induction false} OnlyEdges(kept: map<nat, seq<Item>>, cs: set<nat>, marked: set<Key>)
    requires cs <= kept.Keys && forall k | k in marked :: k.EdgeKey?
    ensures forall k | k in MarkedBy(kept, cs, marked) :: k.EdgeKey?
    decreases |cs|
  {
    if cs != {} {
      MarkedEdges(kept[Front(cs)], marked);
      OnlyEdges(kept, cs - {Front(cs)}, MarkAll(kept[Front(cs)], marked));
    }
  }

  lemma CollectThins(s: Store)
    ensures Thinned(s.chains, DoCollect(s).chains, Gone(s))
    ensures forall k | k in Gone(s) :: k.EdgeKey?
  {
    OnlyEdges(s.kept, Expired(s), {});
  }

  lemma CollectTxns(s: Store, a: Abs)
    requires ClockOk(s, a) && TxnsOk(s)
    ensures ClockOk(DoCollect(s), AForget(a, Gone(s))) && TxnsOk(DoCollect(s))
  {
    var s' := DoCollect(s);
    hide Removed, PairOk;
    forall t | t in s'.active ensures TxnOk(s', t) { assert TxnOk(s, t); }
  }

  lemma CollectEnv(s: Store, vals: bool)
    ensures var env, env' := EnvOf(s, vals), EnvOf(DoCollect(s), vals);
            && env.wm == env'.wm && env'.vals == env.vals && env'.done.Values <= env.done.Values && env'.act == env.act
            && forall c | c in env.done :: Kept(env.done[c], c, env'.done) || c <= env'.wm
  {
  }

  lemma CollectKeeps(s: Store, a: Abs, vals: bool)
    requires Rel(s, a, vals)
    ensures Rel(DoCollect(s), ADo(a, Collect, How(true, Gone(s))), vals)
  {
    hide TxnsOk, ClockOk, SameTxns, PendingOk, HeadsOk, LogsOk, BufsOk, Thinned, AForget, Gone, EnvOf;
    var s', gone := DoCollect(s), Gone(s);
    CollectThins(s);
    CollectTxns(s, a);
    CollectEnv(s, vals);
    ForgetPending(s, a, s', gone, vals);
    ForgetHeads(s, a, s', gone, EnvOf(s, vals), EnvOf(s', vals));
    ForgetLogs(a, gone);
    ForgetBufs(s, s', gone);
  }
}
