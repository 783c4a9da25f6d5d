/** The store as the program keeps it: fields changed in place, undo chains and buffers taken by loops. */
module MemoryGraph {
  import opened Wrap
  import opened Stamps
  import opened MvccStore

  datatype WriteError = NotFound | WriteWriteConflict(owner: nat) | VersionNotVisible | OutOfRange | NotRunning

  /** The pessimistic conflict check on the stamp of a record's head. */
  function CheckWriteConflict(ts: nat, t: nat, start: nat): (r: Option<WriteError>)
    ensures r.None? <==> Writable(ts, t, start)
    ensures r.Some? ==> r.value == if IsTxnId(ts) then WriteWriteConflict(ts) else VersionNotVisible
  {
    if IsTxnId(ts) && ts != t then Some(WriteWriteConflict(ts))
    else if !IsTxnId(ts) && ts > start then Some(VersionNotVisible)
    else None
  }

  /** The least key of an ordered map. */
  method FrontKey(m: set<nat>) returns (t: nat)
    requires m != {}
    ensures t in m && forall u | u in m :: t <= u
  {
    t :| t in m;
    var rest := m - {t};
    while rest != {}
      invariant rest <= m && t in m
      invariant forall u | u in m && u !in rest :: t <= u
      decreases |rest|
    {
      var u :| u in rest;
      if u < t { t := u; }
      rest := rest - {u};
    }
  }

  /** The undo entries of the finished transactions up to the watermark, in commit order. */
  method CollectExpired(kept: map<nat, seq<Item>>, watermark: nat) returns (expired: set<nat>, entries: seq<Item>)
    ensures forall c :: c in expired <==> c in kept && c <= watermark
    ensures expired <= kept.Keys && MarkAll(entries, {}) == MarkedBy(kept, expired, {})
  {
    hide MarkAll, MarkedBy;
    expired, entries := {}, [];
    var keys, past := kept.Keys, false;
    ghost var all := set c | c in kept && c <= watermark;
    ghost var left := all;
    MarkNothing();
    while keys != {} && !past
      invariant keys <= kept.Keys && left <= kept.Keys && all <= kept.Keys
      invariant forall c :: c in left <==> c in keys && c <= watermark
      invariant forall c :: c in expired <==> c in all && c !in left
      invariant past ==> left == {}
      invariant MarkedBy(kept, all, {}) == MarkedBy(kept, left, MarkAll(entries, {}))
      decreases |keys|, !past
    {
      var c := FrontKey(keys);
      if c > watermark {
        past := true;
      } else {
        MarkNext(kept, left, entries, c);
        left := left - {c};
        expired, entries := expired + {c}, entries + kept[c];
        keys := keys - {c};
      }
    }
    assert left == {} && expired == all;
    MarkedNone(kept, MarkAll(entries, {}));
  }

  class MemoryGraph {
    var chains: map<Key, Chain>
    var active: map<nat, Txn>
    var done: map<nat, nat>
    var kept: map<nat, seq<Item>>
    var latest: nat
    var watermark: nat
    var nextTs: nat
    var nextId: nat

    ghost function State(): Store
      reads this
    {
      Store(chains, active, done, kept, latest, watermark, nextTs, nextId)
    }

    constructor ()
      ensures State() == EMPTY
    {
      chains, active, done, kept := map[], map[], map[], map[];
      latest, watermark, nextTs, nextId := 0, 0, 1, TXN_ID_START + 1;
    }

    method UpdateWatermark()
      modifies this`watermark
      ensures watermark == Watermark(active, latest, old(watermark))
    {
      var low := latest;
      if active.Keys != {} {
        var front := FrontKey(active.Keys);
        low := active[front].start;
      }
      watermark := Max(low, watermark);
    }

    /** Returns the new transaction's id, or nothing when a counter is exhausted. */
    method BeginTransaction() returns (t: Option<nat>)
      modifies this
      ensures State() == DoBegin(old(State()))
      ensures t.Some? ==> t.value == old(nextId) && Running(State(), t.value)
      ensures t.None? ==> State() == old(State())
    {
      if nextTs >= MAX_COMMIT_TS || nextId >= U64_MAX { return None; }
      t := Some(nextId);
      active := active[nextId := Txn(nextTs, None, [])];
      nextTs, nextId := nextTs + 1, nextId + 1;
      UpdateWatermark();
    }

    /** The snapshot read, with its undo walk. */
    method Get(t: nat, k: Key) returns (r: Option<Record>)
      requires t in active
      ensures r == Read(State(), t, k)
    {
      if k !in chains { return None; }
      var c, start := chains[k], active[t].start;
      var visible := c.rec;
      if !Sees(c.ts, t, start) {
        var live := active.Keys + done.Values;
        var undo := c.undo;
        while undo.Entry? && undo.owner in live
          invariant Walk(c.undo, live, c.rec, start) == Walk(undo, live, visible, start)
          decreases undo
        {
          visible := ApplyDelta(undo.delta, visible);
          if undo.ts < start {
            assert Walk(c.undo, live, c.rec, start) == visible;
            return View(visible);
          }
          undo := undo.next;
        }
      }
      r := View(visible);
    }

    method PushUndo(t: nat, k: Key, c: Chain)
      requires t in active && c.undo.Entry?
      modifies this`chains, this`active
      ensures State() == Push(old(State()), t, k, c)
    {
      chains := chains[k := c];
      active := active[t := active[t].(buf := active[t].buf + [Item(k, c.undo)])];
    }

    method Guard(t: nat, k: Key) returns (e: Option<WriteError>)
      ensures e.None? <==> CanWrite(State(), t, k)
    {
      if t !in active || active[t].drawn.Some? { return Some(NotRunning); }
      if k !in chains { return Some(NotFound); }
      e := CheckWriteConflict(chains[k].ts, t, active[t].start);
    }

    method SetProperty(t: nat, k: Key, indices: seq<nat>, props: seq<Value>) returns (e: Option<WriteError>)
      modifies this`chains, this`active
      ensures State() == DoSet(old(State()), t, k, indices, props)
      ensures e.None? <==> old(CanWrite(State(), t, k) && InRange(indices, chains[k].rec))
    {
      e := Guard(t, k);
      if e.Some? { return; }
      var c := chains[k];
      if exists i | 0 <= i < |indices| :: indices[i] >= |c.rec.props| { return Some(OutOfRange); }
      assert InRange(indices, c.rec);
      var entry := Entry(t, SetBack(indices, Saved(c.rec, indices)), c.ts, c.undo);
      PushUndo(t, k, Chain(SetProps(c.rec, indices, props), t, entry));
    }

    method Remove(t: nat, k: Key) returns (e: Option<WriteError>)
      modifies this`chains, this`active
      ensures State() == DoDelete(old(State()), t, k)
      ensures e.None? <==> old(CanWrite(State(), t, k))
    {
      e := Guard(t, k);
      if e.Some? { return; }
      var c := chains[k];
      PushUndo(t, k, Chain(c.rec.(dead := true), t, Entry(t, Restore(c.rec), c.ts, c.undo)));
    }

    method Insert(t: nat, k: Key, rec: Record) returns (ok: bool)
      modifies this`chains, this`active
      ensures State() == DoCreate(old(State()), t, k, rec)
      ensures ok <==> old(CanCreate(State(), t, k))
    {
      if t !in active || active[t].drawn.Some? { return false; }
      if k in chains && chains[k].rec.dead { return false; }
      var seen := Get(t, k);
      if seen.Some? { return false; }
      var c := if k in chains then chains[k] else Chain(rec, t, Null);
      if CheckWriteConflict(c.ts, t, active[t].start).Some? {
        return false;
      }
      var ts := if k.VertexKey? && c.ts == t then 0 else c.ts;
      PushUndo(t, k, c.(undo := Entry(t, MarkDead, ts, c.undo)));
      ok := true;
    }

    /** First half of commit. */
    method DrawCommitTs(t: nat) returns (ok: bool)
      modifies this`active, this`nextTs
      ensures State() == DoDraw(old(State()), t)
      ensures ok <==> old(Running(State(), t) && nextTs < MAX_COMMIT_TS)
    {
      ok := t in active && active[t].drawn.None? && nextTs < MAX_COMMIT_TS;
      if ok {
        active := active[t := active[t].(drawn := Some(nextTs))];
        nextTs := nextTs + 1;
      }
    }

    /** Second half of commit: stamp every record in the undo buffer, then finish. */
    method FinishCommit(t: nat)
      requires Drawn(State(), t) && Finds(State(), t)
      modifies this
      ensures State() == DoPublish(old(State()), t)
    {
      var c, buf := active[t].drawn.value, active[t].buf;
      ghost var chains0 := chains;
      var i := 0;
      while i < |buf|
        invariant 0 <= i <= |buf|
        invariant StampAll(chains0, buf, c) == StampAll(chains, buf[i..], c)
        invariant active == old(active) && done == old(done) && kept == old(kept) && latest == old(latest)
        invariant watermark == old(watermark) && nextTs == old(nextTs) && nextId == old(nextId)
      {
        var k := buf[i].key;
        assert buf[i..][0] == buf[i] && buf[i..][1..] == buf[i + 1..];
        if k in chains { chains := chains[k := chains[k].(ts := c)]; }
        i := i + 1;
      }
      latest := c;
      done, kept := done[c := t], kept[c := buf];
      active := active - {t};
      UpdateWatermark();
    }

    /** The abort loop, oldest undo entry first. */
    method AbortTransaction(t: nat)
      requires t in active
      modifies this
      ensures State() == DoAbort(old(State()), t)
    {
      var buf := active[t].buf;
      ghost var chains0 := chains;
      var i := 0;
      while i < |buf|
        invariant 0 <= i <= |buf|
        invariant AbortAll(chains0, buf, t) == AbortAll(chains, buf[i..], t)
        invariant active == old(active) && done == old(done) && kept == old(kept) && latest == old(latest)
        invariant watermark == old(watermark) && nextTs == old(nextTs) && nextId == old(nextId)
      {
        var k, e := buf[i].key, buf[i].entry;
        assert buf[i..][0] == buf[i] && buf[i..][1..] == buf[i + 1..];
        if k in chains { chains := chains[k := AbortOne(chains[k], t, e)]; }
        i := i + 1;
      }
      active := active - {t};
      UpdateWatermark();
    }

    /** The edges marked by the entries: deletions mark, later creations unmark. */
    method MarkEdges(entries: seq<Item>) returns (marked: set<Key>)
      ensures marked == MarkAll(entries, {})
    {
      marked := {};
      for i := 0 to |entries|
        invariant MarkAll(entries, {}) == MarkAll(entries[i..], marked)
      {
        assert entries[i..][0] == entries[i] && entries[i..][1..] == entries[i + 1..];
        marked := Mark(entries[i], marked);
      }
    }

    /** Remove the marked edges whose heads are tombstones. */
    method CleanupEdges(marked: set<Key>)
      modifies this`chains
      ensures chains == map k | k in old(chains) && !(k in marked && old(chains)[k].rec.dead) :: old(chains)[k]
    {
      var rest := marked;
      while rest != {}
        invariant rest <= marked
        invariant chains == map k | k in old(chains) && !(k in marked - rest && old(chains)[k].rec.dead) :: old(chains)[k]
        decreases |rest|
      {
        var k :| k in rest;
        if k in chains && chains[k].rec.dead { chains := chains - {k}; }
        rest := rest - {k};
      }
    }

    method DropExpired(expired: set<nat>)
      modifies this`done, this`kept
      ensures done == old(done) - expired && kept == old(kept) - expired
    {
      ghost var dropped: set<nat> := {};
      var rest := expired;
      while rest != {}
        invariant rest !! dropped && rest + dropped == expired
        invariant done == old(done) - dropped && kept == old(kept) - dropped
        decreases |rest|
      {
        var c :| c in rest;
        done, kept := done - {c}, kept - {c};
        rest := rest - {c};
        dropped := dropped + {c};
      }
    }

    /** Collect the expired undo entries, remove the edges they deleted, drop the transactions. */
    method GarbageCollect()
      modifies this`chains, this`done, this`kept
      ensures State() == DoCollect(old(State()))
    {
      var expired, entries := CollectExpired(kept, watermark);
      var marked := MarkEdges(entries);
      CollectIs(State(), expired, marked);
      CleanupEdges(marked);
      DropExpired(expired);
    }
  }

  lemma CollectIs(s: Store, expired: set<nat>, marked: set<Key>)
    requires forall c :: c in expired <==> c in s.kept && c <= s.watermark
    requires expired <= s.kept.Keys && marked == MarkedBy(s.kept, expired, {})
    ensures DoCollect(s) ==
              s.(chains := map k | k in s.chains && !(k in marked && s.chains[k].rec.dead) :: s.chains[k],
                 done := s.done - expired, kept := s.kept - expired)
  {
    hide MarkedBy;
    assert expired == Expired(s);
  }

  lemma MarkNothing()
    ensures MarkAll([], {}) == {}
  {
  }

  lemma MarkedNone(kept: map<nat, seq<Item>>, marked: set<Key>)
    ensures MarkedBy(kept, {}, marked) == marked
  {
  }

  /** The next buffer in commit order. */
  lemma MarkNext(kept: map<nat, seq<Item>>, left: set<nat>, entries: seq<Item>, c: nat)
    requires left <= kept.Keys && c in left && forall d | d in left :: c <= d
    ensures MarkedBy(kept, left, MarkAll(entries, {})) == MarkedBy(kept, left - {c}, MarkAll(entries + kept[c], {}))
  {
    assert Front(left) == c;
    MarkAppend(entries, kept[c], {});
  }

  lemma {:induction false} MarkAppend(x: seq<Item>, y: seq<Item>, marked: set<Key>)
    ensures MarkAll(x + y, marked) == MarkAll(y, MarkAll(x, marked))
    decreases |x|
  {
    if x == [] {
      assert x + y == y;
    } else {
      assert (x + y)[1..] == x[1..] + y;
      MarkAppend(x[1..], y, Mark(x[0], marked));
    }
  }
}
