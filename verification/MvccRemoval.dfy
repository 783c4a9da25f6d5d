/**
  What collection removes. In any reached state a read changes exactly when the reader still saw the
  removed edge; over clean runs in which no id is taken for a new edge while a deletion image of the
  old one is uncollected, nobody ever does.
 */
module MvccRemoval {
  import opened Wrap
  import opened Stamps
  import opened MvccStore
  import opened SnapshotSpec
  import opened MvccChains
  import opened MvccRelation
  import opened MvccLifecycle
  import opened MvccAbort
  import opened MvccTheorems

  /** The buffer holds the image of a deletion of `k`. */
  predicate HasImage(buf: seq<Item>, k: Key) {
    exists x :: x in buf && x.key == k && x.entry.Entry? && x.entry.delta.Restore?
  }

  /** No uncollected undo buffer holds an image of `k`. */
  predicate Unimaged(s: Store, k: Key) { forall c | c in s.kept :: !HasImage(s.kept[c], k) }

  /** The id is taken for a new record only when no image of an old one is waiting for collection. */
  ghost predicate NewId(s: Store, op: Op) {
    op.Create? && CanCreate(s, op.t, op.k) ==> Unimaged(s, op.k)
  }

  ghost predicate NewIds(s: Store, ops: seq<Op>)
    decreases |ops|
  {
    ops == [] || (NewId(s, ops[0]) && NewIds(Do(s, ops[0]), ops[1..]))
  }

  // ----- marks come from images -----

  lemma {:induction false} MarkedHas(buf: seq<Item>, marked: set<Key>, k: Key)
    requires k in MarkAll(buf, marked)
    ensures k in marked || HasImage(buf, k)
    decreases |buf|
  {
    if buf != [] {
      MarkedHas(buf[1..], Mark(buf[0], marked), k);
      if HasImage(buf[1..], k) {
        var x :| x in buf[1..] && x.key == k && x.entry.Entry? && x.entry.delta.Restore?;
        assert x in buf;
      } else if k !in marked {
        assert buf[0] in buf;
      }
    }
  }

  lemma {:induction false} MarkedByHas(kept: map<nat, seq<Item>>, cs: set<nat>, marked: set<Key>, k: Key)
    requires cs <= kept.Keys && k in MarkedBy(kept, cs, marked)
    ensures k in marked || exists c :: c in cs && HasImage(kept[c], k)
    decreases |cs|
  {
    if cs != {} {
      var c := Front(cs);
      MarkedByHas(kept, cs - {c}, MarkAll(kept[c], marked), k);
      if k in MarkAll(kept[c], marked) { MarkedHas(kept[c], marked, k); }
    }
  }

  // ----- exactly what is marked and removed -----

  /** Entry `i` of a buffer is the image of a deletion of `k`, and nothing later in it creates `k`. */
  ghost predicate LastImage(buf: seq<Item>, i: nat, k: Key) {
    && i < |buf| && IsImage(buf[i], k) && forall j | i < j < |buf| :: !IsCreation(buf[j], k)
  }

  predicate IsImage(x: Item, k: Key) { x.key == k && k.EdgeKey? && x.entry.Entry? && x.entry.delta.Restore? }

  predicate IsCreation(x: Item, k: Key) { x.key == k && x.entry.Entry? && x.entry.delta.MarkDead? }

  ghost predicate Uncreated(buf: seq<Item>, k: Key) { forall j | 0 <= j < |buf| :: !IsCreation(buf[j], k) }

  lemma {:induction false} MarkAllIff(buf: seq<Item>, marked: set<Key>, k: Key)
    requires k in marked ==> k.EdgeKey?
    ensures k in MarkAll(buf, marked) <==> (exists i: nat :: LastImage(buf, i, k)) || (k in marked && Uncreated(buf, k))
    decreases |buf|
  {
    if buf != [] {
      var rest, next := buf[1..], Mark(buf[0], marked);
      MarkAllIff(rest, next, k);
      assert forall j | 0 <= j < |rest| :: rest[j] == buf[j + 1];
      if i: nat :| LastImage(rest, i, k) { assert LastImage(buf, i + 1, k); }
      if i: nat :| LastImage(buf, i, k) && i > 0 { assert LastImage(rest, i - 1, k); }
      if IsImage(buf[0], k) && Uncreated(rest, k) { assert LastImage(buf, 0, k); }
    }
  }

  /** Commit `c` holds an image of `k` that neither its own buffer nor a later one of `cs` cancels. */
  ghost predicate LastDeleted(kept: map<nat, seq<Item>>, cs: set<nat>, c: nat, k: Key) {
    && c in cs && c in kept && (exists i: nat :: LastImage(kept[c], i, k))
    && forall d | d in cs && d in kept && d > c :: Uncreated(kept[d], k)
  }

  lemma {:induction false} MarkedIff(kept: map<nat, seq<Item>>, cs: set<nat>, marked: set<Key>, k: Key)
    requires cs <= kept.Keys && (k in marked ==> k.EdgeKey?)
    ensures k in MarkedBy(kept, cs, marked) <==>
              (exists c :: LastDeleted(kept, cs, c, k)) || (k in marked && forall d | d in cs :: Uncreated(kept[d], k))
    decreases |cs|
  {
    if cs != {} {
      var c := Front(cs);
      var rest, next := cs - {c}, MarkAll(kept[c], marked);
      MarkAllIff(kept[c], marked, k);
      MarkedIff(kept, rest, next, k);
      MarkFirst(kept, cs, c, k);
    }
  }

  /** The first commit's images count if the later ones do not cancel them. */
  lemma MarkFirst(kept: map<nat, seq<Item>>, cs: set<nat>, c: nat, k: Key)
    requires cs <= kept.Keys && c in cs && forall d | d in cs :: c <= d
    ensures (exists d :: LastDeleted(kept, cs, d, k)) <==>
              (exists d :: LastDeleted(kept, cs - {c}, d, k))
              || ((exists i: nat :: LastImage(kept[c], i, k)) && forall d | d in cs - {c} :: Uncreated(kept[d], k))
  {
    var rest := cs - {c};
    forall d ensures LastDeleted(kept, rest, d, k) <==> LastDeleted(kept, cs, d, k) && d != c {}
    if (exists i: nat :: LastImage(kept[c], i, k)) && forall d | d in rest :: Uncreated(kept[d], k) {
      assert LastDeleted(kept, cs, c, k);
    }
    if LastDeleted(kept, cs, c, k) {
      forall d | d in rest ensures Uncreated(kept[d], k) { assert d > c; }
    }
  }

  /** Collection keeps everything but edges with a tombstone for head whose deletion is the last thing the
      commits up to the watermark say about them, and drops those commits. */
  lemma CollectExact(s: Store, k: Key)
    ensures var s' := DoCollect(s);
            && (k in s'.chains <==>
                  k in s.chains && !(s.chains[k].rec.dead && exists c :: LastDeleted(s.kept, Expired(s), c, k)))
            && (k in s'.chains ==> s'.chains[k] == s.chains[k])
            && (forall c :: c in Expired(s) <==> c in s.kept && c <= s.watermark)
            && s'.active == s.active && s'.done.Keys == s.done.Keys - Expired(s) && s'.kept.Keys == s.kept.Keys - Expired(s)
  {
    MarkedIff(s.kept, Expired(s), {}, k);
    hide MarkedBy;
  }

  // ----- the invariant -----

  /** The log has been dead since the version stamped `c`. */
  ghost predicate DeadSince(h: seq<Version>, c: nat) {
    && (exists v :: v in h && v.ts == c)
    && (forall v | v in h && v.ts >= c :: v.val.None?)
  }

  ghost predicate PendingDead(a: Abs, k: Key) {
    forall t | t in a.txns && k in a.txns[t].pending :: a.txns[t].pending[k].None?
  }

  /** A record with an uncollected image has been dead since the deletion, for everybody. */
  ghost predicate Burials(kept: map<nat, seq<Item>>, a: Abs) {
    forall c, k | c in kept && k in a.log && HasImage(kept[c], k) :: DeadSince(a.log[k], c) && PendingDead(a, k)
  }

  lemma {:induction false} DeadLookup(h: seq<Version>, c: nat, start: nat)
    requires Ascending(h) && DeadSince(h, c) && c <= start
    ensures Lookup(h, start) == None
  {
    var v :| v in h && v.ts == c;
    assert Last(h).ts >= c && Last(h) in h;
    if Last(h).ts > start {
      assert v in Init(h);
      DeadLookup(Init(h), c, start);
    }
  }

  /** A new value of a buried record is dead too. */
  lemma DeadWrite(a: Abs, t: nat, k: Key, c: nat, indices: seq<nat>, props: seq<Value>)
    requires AWritable(a, t, k) && LogsOk(a) && DeadSince(a.log[k], c) && PendingDead(a, k)
    ensures ASetValue(ARead(a, t, k), indices, props) == None
  {
    assert LogOk(a.log[k], a.clock);
    if k !in a.txns[t].pending {
      var v :| v in a.log[k] && v.ts == c;
      assert Last(a.log[k]).ts >= c;
      DeadLookup(a.log[k], c, a.txns[t].start);
    }
  }

  lemma PutBurials(kept: map<nat, seq<Item>>, a: Abs, t: nat, k: Key, v: Option<Record>)
    requires Burials(kept, a) && t in a.txns && forall c | c in kept && HasImage(kept[c], k) :: v.None?
    ensures Burials(kept, Put(a, t, k, v))
  {
    hide HasImage, DeadSince;
    var a' := Put(a, t, k, v);
    forall c, k' | c in kept && k' in a'.log && HasImage(kept[c], k') ensures DeadSince(a'.log[k'], c) && PendingDead(a', k') {
      assert DeadSince(a.log[k'], c) && PendingDead(a, k');
    }
  }

  lemma WriterFacts(a: Abs, t: nat, k: Key)
    requires AWritable(a, t, k)
    ensures t in a.txns && k in a.log
  {
  }

  lemma BurialAt(kept: map<nat, seq<Item>>, a: Abs, c: nat, k: Key)
    requires Burials(kept, a) && c in kept && k in a.log && HasImage(kept[c], k)
    ensures DeadSince(a.log[k], c) && PendingDead(a, k)
  {
  }

  lemma SetBurials(kept: map<nat, seq<Item>>, a: Abs, t: nat, k: Key, indices: seq<nat>, props: seq<Value>)
    requires LogsOk(a) && Burials(kept, a) && AWritable(a, t, k)
    ensures t in a.txns && Burials(kept, Put(a, t, k, ASetValue(ARead(a, t, k), indices, props)))
  {
    hide *;
    WriterFacts(a, t, k);
    var v := ASetValue(ARead(a, t, k), indices, props);
    forall c | c in kept && HasImage(kept[c], k) ensures v.None? {
      BurialAt(kept, a, c, k);
      DeadWrite(a, t, k, c, indices, props);
    }
    PutBurials(kept, a, t, k, v);
  }

  lemma CreateBurials(kept: map<nat, seq<Item>>, a: Abs, t: nat, k: Key, v: Option<Record>)
    requires Burials(kept, a) && t in a.txns && forall c | c in kept :: !HasImage(kept[c], k)
    ensures Burials(kept, Put(a.(log := a.log[k := []]), t, k, v))
  {
    hide HasImage, DeadSince;
    var a1 := a.(log := a.log[k := []]);
    forall c, k' | c in kept && k' in a1.log && HasImage(kept[c], k') ensures DeadSince(a1.log[k'], c) && PendingDead(a1, k') {
      assert DeadSince(a.log[k'], c) && PendingDead(a, k');
    }
    PutBurials(kept, a1, t, k, v);
  }

  /** A transaction that holds an image holds the record, dead. */
  lemma ImageHeld(s: Store, a: Abs, t: nat, k: Key)
    requires Rel(s, a, true) && t in s.active && k in a.log && HasImage(s.active[t].buf, k)
    ensures t in a.txns && k in a.txns[t].pending && a.txns[t].pending[k].None?
    ensures Before(a.log[k], a.txns[t].start)
    ensures forall u | u in a.txns && u != t :: k !in a.txns[u].pending
  {
    var x :| x in s.active[t].buf && x.key == k && x.entry.Entry? && x.entry.delta.Restore?;
    HeldImage(s, a, t, x);
    assert PendingTxn(s.chains, a.txns[t], t, true) && PendingAt(s.chains[k], a.txns[t], t, k, true);
    assert TxnLogOk(a.log, a.txns[t]);
    forall u | u in a.txns && u != t ensures k !in a.txns[u].pending {
      assert PendingTxn(s.chains, a.txns[u], u, true) && PendingAt(s.chains[k], a.txns[u], u, k, true);
    }
  }

  lemma HeldImage(s: Store, a: Abs, t: nat, x: Item)
    requires Rel(s, a, true) && t in s.active && x.key in a.log && x in s.active[t].buf && x.entry.Entry? && x.entry.delta.Restore?
    ensures t in a.txns && x.key in s.chains && s.chains[x.key].ts == t && s.chains[x.key].rec.dead
  {
    assert BufOk(s.chains, s.active[t].buf, t);
    OnIn(s.active[t].buf, x);
    assert Segment(On(s.active[t].buf, x.key), s.chains[x.key], t, x.key);
  }

  lemma {:induction false} OnIn(buf: seq<Item>, x: Item)
    requires x in buf
    ensures x.entry in On(buf, x.key)
  {
    if buf[0] != x { OnIn(buf[1..], x); }
  }

  lemma PublishDead(a: Abs, t: nat, k: Key, c: nat)
    requires t in a.txns && a.txns[t].drawn.Some? && k in a.log && DeadSince(a.log[k], c) && PendingDead(a, k)
    ensures k in APublishing(a, t).log && DeadSince(APublishing(a, t).log[k], c) && PendingDead(APublishing(a, t), k)
  {
    var h, h' := a.log[k], APublished(a, t).log[k];
    forall v | v in h ensures v in h' {}
  }

  lemma NewlyDead(a: Abs, t: nat, k: Key)
    requires t in a.txns && a.txns[t].drawn.Some? && k in a.log && k in a.txns[t].pending && a.txns[t].pending[k].None?
    requires Before(a.log[k], a.txns[t].start) && a.txns[t].start < a.txns[t].drawn.value
    requires forall u | u in a.txns && u != t :: k !in a.txns[u].pending
    ensures k in APublishing(a, t).log && DeadSince(APublishing(a, t).log[k], a.txns[t].drawn.value) && PendingDead(APublishing(a, t), k)
  {
    var x, h' := a.txns[t], APublished(a, t).log[k];
    assert Version(x.drawn.value, None, x.start) in h';
  }

  lemma PublishBurials(s: Store, a: Abs, t: nat)
    requires Rel(s, a, true) && Burials(s.kept, a) && Drawn(s, t)
    ensures Burials(s.kept[s.active[t].drawn.value := s.active[t].buf], APublishing(a, t))
  {
    hide *;
    DrawnFacts(s, a, t);
    var c', buf := s.active[t].drawn.value, s.active[t].buf;
    var a', kept' := APublishing(a, t), s.kept[c' := buf];
    BurialsIntro(kept', a') by {
      forall c, k | c in kept' && k in a'.log && HasImage(kept'[c], k) ensures DeadSince(a'.log[k], c) && PendingDead(a', k) {
        if c == c' {
          ImageHeld(s, a, t, k);
          NewlyDead(a, t, k);
        } else {
          BurialAt(s.kept, a, c, k);
          PublishDead(a, t, k, c);
        }
      }
    }
  }

  function APublishing(a: Abs, t: nat): Abs { if t in a.txns && a.txns[t].drawn.Some? then APublished(a, t) else a }

  lemma BurialsIntro(kept: map<nat, seq<Item>>, a: Abs)
    requires forall c, k | c in kept && k in a.log && HasImage(kept[c], k) :: DeadSince(a.log[k], c) && PendingDead(a, k)
    ensures Burials(kept, a)
  {
  }

  lemma DrawnFacts(s: Store, a: Abs, t: nat)
    requires Rel(s, a, true) && Drawn(s, t)
    ensures t in s.active && s.active[t].drawn.Some? && t in a.txns && a.txns[t].drawn == s.active[t].drawn
    ensures a.txns[t].start < a.txns[t].drawn.value
    ensures APublishing(a, t).log.Keys == a.log.Keys
  {
    assert TxnOk(s, t);
  }

  lemma ForgetBurials(s: Store, a: Abs, gone: set<Key>)
    requires Burials(s.kept, a)
    ensures Burials(DoCollect(s).kept, AForget(a, gone))
  {
    hide HasImage, DeadSince, Removed;
    var kept', a' := DoCollect(s).kept, AForget(a, gone);
    forall c, k | c in kept' && k in a'.log && HasImage(kept'[c], k) ensures DeadSince(a'.log[k], c) && PendingDead(a', k) {
      assert DeadSince(a.log[k], c) && PendingDead(a, k);
    }
  }

  /** No key written, none published. */
  ghost predicate SameWrites(a: Abs, a': Abs) {
    && a'.log == a.log
    && forall t | t in a'.txns :: a'.txns[t].pending == map[] || (t in a.txns && a'.txns[t].pending == a.txns[t].pending)
  }

  lemma LeaveBurials(kept: map<nat, seq<Item>>, a: Abs, a': Abs)
    requires Burials(kept, a) && SameWrites(a, a')
    ensures Burials(kept, a')
  {
    hide HasImage, DeadSince;
    forall c, k | c in kept && k in a'.log && HasImage(kept[c], k) ensures DeadSince(a'.log[k], c) && PendingDead(a', k) {
      assert DeadSince(a.log[k], c) && PendingDead(a, k);
    }
  }

  lemma KeptOf(s: Store, op: Op)
    ensures Do(s, op).kept == if op.Collect? then DoCollect(s).kept
                              else if op.Publish? && Drawn(s, op.t) && Finds(s, op.t) then
                                s.kept[s.active[op.t].drawn.value := s.active[op.t].buf]
                              else s.kept
  {
    hide StampAll, AbortAll, Watermark, DoCollect;
  }

  lemma BurialsKept(s: Store, a: Abs, op: Op)
    requires Rel(s, a, true) && Burials(s.kept, a) && NewId(s, op)
    ensures Burials(Do(s, op).kept, ADo(a, op, HowOf(s, op)))
  {
    KeptOf(s, op);
    if op.Publish? { if Drawn(s, op.t) { PublishBurials(s, a, op.t); } PublishMeans(s, a, op.t); }
    else if op.Collect? { ForgetBurials(s, a, Gone(s)); }
    else if op.Create? || op.Set? || op.Delete? { WriteBurials(s, a, op); }
    else { hide *; OthersKeep(a, op, HowOf(s, op)); LeaveBurials(s.kept, a, ADo(a, op, HowOf(s, op))); }
  }

  lemma PublishMeans(s: Store, a: Abs, t: nat)
    requires Rel(s, a, true)
    ensures ADo(a, Publish(t), HowOf(s, Publish(t))) == if Drawn(s, t) && Finds(s, t) then APublishing(a, t) else a
  {
    RunningAgrees(s, a, t);
  }

  lemma OthersKeep(a: Abs, op: Op, how: How)
    requires op.Begin? || op.Draw? || op.Abort?
    ensures SameWrites(a, ADo(a, op, how))
  {
  }

  lemma WriteBurials(s: Store, a: Abs, op: Op)
    requires Rel(s, a, true) && Burials(s.kept, a) && NewId(s, op) && (op.Create? || op.Set? || op.Delete?)
    ensures Burials(s.kept, ADo(a, op, HowOf(s, op)))
  {
    hide Do, Rel, Burials, AWritable, ASetValue, ARead, HasImage, Fits;
    match op
    case Create(t, k, rec) =>
      CreateAgrees(s, a, t, k, true);
      if ARunning(a, t) && k !in a.log { CreateBurials(s.kept, a, t, k, View(rec)); }
    case Set(t, k, indices, props) =>
      LogsOf(s, a);
      if AWritable(a, t, k) { SetBurials(s.kept, a, t, k, indices, props); }
    case Delete(t, k) => if AWritable(a, t, k) { WriterFacts(a, t, k); PutBurials(s.kept, a, t, k, None); }
  }

  lemma LogsOf(s: Store, a: Abs)
    requires Rel(s, a, true)
    ensures LogsOk(a)
  {
  }

  // ----- who sees a removal -----

  /** A removed edge has been dead for every reader since the deletion whose image is collected. */
  lemma RemovedDead(s: Store, a: Abs, t: nat, k: Key)
    requires Rel(s, a, true) && Burials(s.kept, a) && Removed(s, k) && t in s.active
    ensures Read(s, t, k) == None
  {
    ReadsAgree(s, a, t, k);
    StartAbove(s, a, t);
    LogsOf(s, a);
    hide *;
    RemovedImage(s, k);
    var c :| c in s.kept && c <= s.watermark && HasImage(s.kept[c], k);
    RemovedKnown(s, a, k);
    BurialAt(s.kept, a, c, k);
    DeadRead(a, t, k, c);
  }

  lemma RemovedImage(s: Store, k: Key)
    requires Removed(s, k)
    ensures exists c :: c in s.kept && c <= s.watermark && HasImage(s.kept[c], k)
  {
    MarkedByHas(s.kept, Expired(s), {}, k);
  }

  lemma RemovedKnown(s: Store, a: Abs, k: Key)
    requires Rel(s, a, true) && Removed(s, k)
    ensures k in a.log
  {
  }

  lemma DeadRead(a: Abs, t: nat, k: Key, c: nat)
    requires LogsOk(a) && t in a.txns && k in a.log && DeadSince(a.log[k], c) && PendingDead(a, k) && c <= a.txns[t].start
    ensures ARead(a, t, k) == None
  {
    assert LogOk(a.log[k], a.clock);
    DeadLookup(a.log[k], c, a.txns[t].start);
  }

  lemma StartAbove(s: Store, a: Abs, t: nat)
    requires Rel(s, a, true) && t in s.active
    ensures t in a.txns && a.txns[t].start == s.active[t].start && s.watermark <= s.active[t].start
  {
    assert TxnOk(s, t);
  }

  lemma {:induction false} RunBurials(s: Store, a: Abs, ops: seq<Op>)
    requires Rel(s, a, true) && Burials(s.kept, a) && CleanRun(s, ops, true) && NewIds(s, ops)
    ensures Rel(Run(s, ops), ARun(s, a, ops), true) && Burials(Run(s, ops).kept, ARun(s, a, ops))
    decreases |ops|
  {
    hide Rel, Do, ADo, Burials, NewId, CleanOp;
    if ops != [] {
      StepRefines(s, a, ops[0], true);
      BurialsKept(s, a, ops[0]);
      RunBurials(Do(s, ops[0]), ADo(a, ops[0], HowOf(s, ops[0])), ops[1..]);
    }
  }

  /** Over clean runs that take only such ids for new records, collection, removals included, changes no
      active transaction's read. */
  lemma CollectInvisible(ops: seq<Op>, t: nat, k: Key)
    requires CleanRun(EMPTY, ops, true) && NewIds(EMPTY, ops) && t in Run(EMPTY, ops).active
    ensures var s := Run(EMPTY, ops);
            t in DoCollect(s).active && Read(DoCollect(s), t, k) == Read(s, t, k)
  {
    EmptyRel(true);
    assert Burials(EMPTY.kept, START);
    RunBurials(EMPTY, START, ops);
    var s, a := Run(EMPTY, ops), ARun(EMPTY, START, ops);
    hide *;
    CollectUnseen(s, a, t, k);
  }

  lemma CollectUnseen(s: Store, a: Abs, t: nat, k: Key)
    requires Rel(s, a, true) && Burials(s.kept, a) && t in s.active
    ensures t in DoCollect(s).active && Read(DoCollect(s), t, k) == Read(s, t, k)
  {
    StepAndReads(s, a, Collect, t, k);
    hide Rel, Burials, Read, Removed;
    if Removed(s, k) { RemovedDead(s, a, t, k); }
  }

  // ----- repeatable reads -----

  predicate NoneLate(s: Store, t: nat)
    requires t in s.active
  {
    forall u | u in s.active :: s.active[u].drawn.Some? ==> s.active[u].drawn.value > s.active[t].start
  }

  predicate NotOwn(ops: seq<Op>, t: nat, k: Key) { forall op | op in ops :: !Own(op, t, k) }

  lemma NoneLateStays(s: Store, op: Op, t: nat, k: Key)
    requires t in s.active && NoneLate(s, t) && !Own(op, t, k)
    requires t < s.nextId && s.active[t].start < s.nextTs
    ensures t in Do(s, op).active && NoneLate(Do(s, op), t)
  {
    StillActive(s, op, t, k);
    var s' := Do(s, op);
    forall u | u in s'.active && s'.active[u].drawn.Some? ensures s'.active[u].drawn.value > s'.active[t].start {
      assert u in s.active ==> s'.active[u].drawn == s.active[u].drawn || s'.active[u].drawn == Some(s.nextTs);
    }
  }

  lemma StepUnchanged(s: Store, a: Abs, op: Op, t: nat, k: Key)
    requires Rel(s, a, true) && Burials(s.kept, a) && CleanOp(s, op, true) && t in s.active && !Own(op, t, k)
    requires NoneLate(s, t)
    ensures t in Do(s, op).active && Read(Do(s, op), t, k) == Read(s, t, k)
  {
    StepAndReads(s, a, op, t, k);
    assert !Late(s, op, t, k);
    hide *;
    if Removed(s, k) { RemovedDead(s, a, t, k); }
  }

  /** Repeatable reads: if no commit timestamp drawn before `t` started is still unpublished, nothing
      the other transactions do, for as long as they like, changes what `t` reads of a key. */
  lemma {:induction false} RepeatableReads(s: Store, a: Abs, ops: seq<Op>, t: nat, k: Key)
    requires Rel(s, a, true) && Burials(s.kept, a) && CleanRun(s, ops, true) && NewIds(s, ops)
    requires t in s.active && NoneLate(s, t) && NotOwn(ops, t, k)
    ensures t in Run(s, ops).active && Read(Run(s, ops), t, k) == Read(s, t, k)
    decreases |ops|
  {
    if ops != [] {
      var op := ops[0];
      assert op in ops;
      StepUnchanged(s, a, op, t, k);
      TxnFacts(s, a, t);
      NoneLateStays(s, op, t, k);
      StepRefines(s, a, op, true);
      BurialsKept(s, a, op);
      hide Rel, Do, ADo, Read, CleanOp, Own, Burials, NewId;
      RepeatableReads(Do(s, op), ADo(a, op, HowOf(s, op)), ops[1..], t, k);
    }
  }
}
