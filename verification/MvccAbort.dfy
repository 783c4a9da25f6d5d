/**
  Abort.  The code takes the undo buffer oldest entry first and lets an entry act only while the
  record still carries the aborter's id, so on a record that existed before, only the oldest entry
  acts.  This module says exactly when that restores the record.
 */
module MvccAbort {
  import opened Wrap
  import opened Stamps
  import opened MvccStore
  import opened SnapshotSpec
  import opened MvccChains
  import opened MvccRelation
  import opened MvccLifecycle

  /** The record a correct rollback restores: undo newest entry first. */
  function Unwound(r: Record, es: seq<Undo>): Record
    requires forall i | 0 <= i < |es| :: es[i].Entry?
    decreases |es|
  {
    if es == [] then r else Unwound(ApplyDelta(Last(es).delta, r), Init(es))
  }

  /** What the abort loop does to one chain, given the entries on it, oldest first. */
  function AbortFold(c: Chain, es: seq<Undo>, t: nat): Chain
    decreases |es|
  {
    if es == [] then c else AbortFold(AbortOne(c, t, es[0]), es[1..], t)
  }

  lemma {:induction false} AbortAllAt(chains: map<Key, Chain>, buf: seq<Item>, t: nat)
    ensures AbortAll(chains, buf, t).Keys == chains.Keys
    ensures forall k | k in chains :: AbortAll(chains, buf, t)[k] == AbortFold(chains[k], On(buf, k), t)
    decreases |buf|
  {
    if buf != [] {
      var k := buf[0].key;
      var chains1 := if k in chains then chains[k := AbortOne(chains[k], t, buf[0].entry)] else chains;
      AbortAllAt(chains1, buf[1..], t);
      forall k' | k' in chains ensures AbortAll(chains, buf, t)[k'] == AbortFold(chains[k'], On(buf, k'), t) {
        assert AbortAll(chains, buf, t)[k'] == AbortFold(chains1[k'], On(buf[1..], k'), t);
        if k' == k { assert On(buf, k)[1..] == On(buf[1..], k); }
      }
    }
  }

  lemma {:induction false} FoldStops(c: Chain, es: seq<Undo>, t: nat)
    requires c.ts != t
    ensures AbortFold(c, es, t) == c
  {
    if es != [] { FoldStops(c, es[1..], t); }
  }

  // ----- the exact condition -----

  /** The image saved by the first deletion among the entries. */
  function FirstRestore(es: seq<Undo>): Option<Record> {
    if es == [] then None
    else if es[0].Entry? && es[0].delta.Restore? then Some(es[0].delta.original)
    else FirstRestore(es[1..])
  }

  /** The oldest value the entries saved for property `j`. */
  function OldestSaved(es: seq<Undo>, j: nat): Option<Value> {
    if es == [] then None
    else
      var v := if es[0].Entry? && es[0].delta.SetBack? then Assigned(es[0].delta.indices, es[0].delta.props, j) else None;
      if v.Some? then v else OldestSaved(es[1..], j)
  }

  /**
    The oldest entry alone undoes everything: it saved a live full image; or it is a creation that
    is not followed by a deletion (a vertex creation may be); or it saved properties, the record was
    not alive when later deleted, and no property it did not save has changed.
   */
  predicate CleanKey(cur: Record, es: seq<Undo>, k: Key)
    requires es != [] && es[0].Entry?
  {
    match es[0].delta
    case Restore(original) => !original.dead
    case MarkDead => k.VertexKey? || FirstRestore(es).None?
    case SetBack(indices, props) =>
      match FirstRestore(es)
      case Some(original) => original.dead
      case None =>
        cur.dead || forall j | 0 <= j < |cur.props| && Assigned(indices, props, j).None? ::
          OldestSaved(es, j).None? || OldestSaved(es, j).value == cur.props[j]
  }

  ghost predicate Clean(s: Store, t: nat)
    requires t in s.active
  {
    forall k | k in s.chains && s.chains[k].ts == t ::
      var es := On(s.active[t].buf, k); es != [] && es[0].Entry? && CleanKey(s.chains[k].rec, es, k)
  }

  // ----- what unwinding gives -----

  lemma {:induction false} OldestAppend(es: seq<Undo>, e: Undo, j: nat)
    ensures OldestSaved(es + [e], j) ==
              if OldestSaved(es, j).Some? then OldestSaved(es, j) else OldestSaved([e], j)
  {
    if es == [] { assert es + [e] == [e]; }
    else {
      assert (es + [e])[1..] == es[1..] + [e];
      OldestAppend(es[1..], e, j);
    }
  }

  lemma {:induction false} UnwoundProps(r: Record, es: seq<Undo>)
    requires forall i | 0 <= i < |es| :: es[i].Entry? && es[i].delta.SetBack?
    ensures var w := Unwound(r, es);
            && w.dead == r.dead && w.labelId == r.labelId && |w.props| == |r.props|
            && forall j | 0 <= j < |r.props| ::
                 w.props[j] == if OldestSaved(es, j).Some? then OldestSaved(es, j).value else r.props[j]
    decreases |es|
  {
    if es != [] {
      var e, es0 := Last(es), Init(es);
      var r1 := ApplyDelta(e.delta, r);
      SetPropsShape(r, e.delta.indices, e.delta.props);
      UnwoundProps(r1, es0);
      forall j: nat | 0 <= j < |r.props|
        ensures Unwound(r, es).props[j] == if OldestSaved(es, j).Some? then OldestSaved(es, j).value else r.props[j]
      {
        SetPropsAt(r, e.delta.indices, e.delta.props, j);
        assert es == es0 + [e];
        OldestAppend(es0, e, j);
      }
    }
  }

  /** From the first deletion on, only its saved image matters. */
  lemma {:induction false} UnwoundRestore(r: Record, es: seq<Undo>)
    requires forall i | 0 <= i < |es| :: es[i].Entry? && !es[i].delta.MarkDead?
    requires FirstRestore(es).Some?
    ensures Unwound(r, es).dead == FirstRestore(es).value.dead
    ensures es[0].delta.Restore? ==> Unwound(r, es) == es[0].delta.original
    decreases |es|
  {
    var e, es0 := Last(es), Init(es);
    FirstRestoreInit(es);
    if FirstRestore(es0).Some? {
      UnwoundRestore(ApplyDelta(e.delta, r), es0);
    } else {
      NoRestore(es0);
      UnwoundProps(ApplyDelta(e.delta, r), es0);
    }
  }

  lemma {:induction false} FirstRestoreInit(es: seq<Undo>)
    requires es != [] && forall i | 0 <= i < |es| :: es[i].Entry?
    ensures FirstRestore(Init(es)).Some? ==> FirstRestore(es) == FirstRestore(Init(es))
    ensures FirstRestore(Init(es)).None? && FirstRestore(es).Some? ==>
              Last(es).delta.Restore? && FirstRestore(es).value == Last(es).delta.original
  {
    if |es| > 1 {
      assert Init(es)[1..] == Init(es[1..]);
      FirstRestoreInit(es[1..]);
    }
  }

  lemma {:induction false} NoRestore(es: seq<Undo>)
    requires FirstRestore(es).None?
    ensures forall i | 0 <= i < |es| :: es[i].Entry? ==> !es[i].delta.Restore?
  {
    if es != [] {
      NoRestore(es[1..]);
      forall i | 0 <= i < |es| ensures es[i].Entry? ==> !es[i].delta.Restore? {
        if i > 0 { assert es[i] == es[1..][i - 1]; }
      }
    }
  }

  lemma {:induction false} SomeRestore(es: seq<Undo>)
    requires FirstRestore(es).Some?
    ensures exists i :: 0 <= i < |es| && es[i].Entry? && es[i].delta.Restore?
  {
    if !(es[0].Entry? && es[0].delta.Restore?) {
      SomeRestore(es[1..]);
      var i :| 0 <= i < |es[1..]| && es[1..][i].Entry? && es[1..][i].delta.Restore?;
      assert es[i + 1] == es[1..][i];
    }
  }

  /** Aborting an edge created by the same transaction: every entry acts, in the wrong order. */
  lemma {:induction false} FoldCreation(c: Chain, es: seq<Undo>, t: nat)
    requires c.ts == t && forall i | 0 <= i < |es| :: es[i].Entry? && es[i].ts == t && !es[i].delta.MarkDead?
    ensures AbortFold(c, es, t).ts == t
    ensures AbortFold(c, es, t).undo == if es == [] then c.undo else Last(es).next
    ensures AbortFold(c, es, t).rec.dead == (c.rec.dead && FirstRestore(es).None?)
    decreases |es|
  {
    if es != [] {
      var c1 := AbortOne(c, t, es[0]);
      if es[0].delta.SetBack? { SetPropsShape(c.rec, es[0].delta.indices, es[0].delta.props); }
      FoldCreation(c1, es[1..], t);
      if |es| > 1 { assert Last(es[1..]) == Last(es); }
    }
  }

  /** After the abort loop, a record reads as it did before the transaction exactly when CleanKey held. */
  lemma AbortExactAt(c: Chain, es: seq<Undo>, t: nat, k: Key)
    requires c.ts == t && Segment(es, c, t, k)
    ensures View(AbortFold(c, es, t).rec) == View(Unwound(c.rec, es)) <==> CleanKey(c.rec, es, k)
  {
    var e0 := es[0];
    var c1 := AbortOne(c, t, e0);
    if e0.delta.MarkDead? {
      UnwoundCreation(c.rec, es);
      if k.EdgeKey? { FoldCreation(c1, es[1..], t); } else { FoldStops(c1, es[1..], t); }
    } else {
      FoldStops(c1, es[1..], t);
      if e0.delta.Restore? {
        UnwoundRestore(c.rec, es);
      } else {
        SetPropsShape(c.rec, e0.delta.indices, e0.delta.props);
        match FirstRestore(es)
        case Some(_) =>
          UnwoundRestore(c.rec, es);
          SomeRestore(es);
        case None =>
          NoRestore(es);
          AbortSetAt(c.rec, es);
      }
    }
  }

  lemma AbortSetAt(cur: Record, es: seq<Undo>)
    requires es != [] && forall i | 0 <= i < |es| :: es[i].Entry? && es[i].delta.SetBack?
    ensures View(AbortDelta(es[0].delta, cur)) == View(Unwound(cur, es)) <==>
              (cur.dead || forall j | 0 <= j < |cur.props| && Assigned(es[0].delta.indices, es[0].delta.props, j).None? ::
                 OldestSaved(es, j).None? || OldestSaved(es, j).value == cur.props[j])
  {
    var d := es[0].delta;
    var got, want := AbortDelta(d, cur), Unwound(cur, es);
    SetPropsShape(cur, d.indices, d.props);
    UnwoundProps(cur, es);
    forall j: nat | 0 <= j < |cur.props|
      ensures got.props[j] == want.props[j] <==>
                (Assigned(d.indices, d.props, j).Some? || OldestSaved(es, j).None? || OldestSaved(es, j).value == cur.props[j])
    {
      SetPropsAt(cur, d.indices, d.props, j);
    }
    if !cur.dead {
      if got == want {
        forall j: nat | 0 <= j < |cur.props| ensures got.props[j] == want.props[j] {}
      } else {
        assert got.props != want.props;
        var j :| 0 <= j < |cur.props| && got.props[j] != want.props[j];
      }
    }
  }

  lemma {:induction false} UnwoundCreation(r: Record, es: seq<Undo>)
    requires es != [] && forall i | 0 <= i < |es| :: es[i].Entry?
    requires es[0].delta.MarkDead?
    ensures Unwound(r, es).dead
    decreases |es|
  {
    if |es| > 1 { UnwoundCreation(ApplyDelta(Last(es).delta, r), Init(es)); }
  }

  // ----- clean aborts keep the relation -----

  lemma {:induction false} UnwoundGood(es: seq<Undo>, r: Record, t: nat, h: seq<Version>, env: Env)
    requires es != [] && IsTxnId(t) && forall i | 0 <= i < |es| :: es[i].Entry?
    requires forall i | 0 < i < |es| :: es[i].next == es[i - 1] && es[i].ts == t
    requires Good(Last(es), r, t, h, TOP, env)
    ensures Good(es[0].next, Unwound(r, es), es[0].ts, h, TOP, env)
    decreases |es|
  {
    var e, es0 := Last(es), Init(es);
    var r' := ApplyDelta(e.delta, r);
    assert Unwound(r, es) == Unwound(r', es0);
    if |es| > 1 {
      assert Last(es0) == e.next;
      UnwoundGood(es0, r', t, h, env);
    }
  }

  /** The chain an aborted edge creation leaves: a tombstone owned by nobody. */
  lemma {:induction false} BurntGood(es: seq<Undo>, r: Record, t: nat, env: Env)
    requires IsTxnId(t) && forall i | 0 <= i < |es| :: es[i].Entry? && es[i].owner == t && es[i].ts == t
    requires env.vals ==> r.dead && forall i | 0 <= i < |es| :: !es[i].delta.Restore?
    requires forall i | 0 < i < |es| :: es[i].next == es[i - 1]
    requires es != [] ==> es[0].next.Null?
    ensures Good(if es == [] then Null else Last(es), r, t, [], TOP, env)
    decreases |es|
  {
    if es != [] {
      var e := Last(es);
      if e.delta.SetBack? { SetPropsShape(r, e.delta.indices, e.delta.props); }
      BurntGood(Init(es), ApplyDelta(e.delta, r), t, env);
      assert |es| > 1 ==> e.next == Last(Init(es));
    }
  }

  /** The head an abort leaves, when it is clean. */
  lemma AbortHead(c: Chain, es: seq<Undo>, t: nat, k: Key, h: seq<Version>, env: Env, env': Env, nextId: nat)
    requires c.ts == t && IsTxnId(t) && Segment(es, c, t, k) && (env.vals ==> CleanKey(c.rec, es, k))
    requires HeadOk(c, k, h, env, nextId) && t !in env.done.Values
    requires env.wm <= env'.wm && env'.done == env.done && env'.vals == env.vals
    ensures HeadOk(AbortFold(c, es, t), k, h, env', nextId)
    ensures AbortFold(c, es, t).ts == t || !IsTxnId(AbortFold(c, es, t).ts)
  {
    var c1 := AbortOne(c, t, es[0]);
    var want := Unwound(c.rec, es);
    UnwoundGood(es, c.rec, t, h, env);
    if es[0].ts == t {
      FoldCreation(c1, es[1..], t);
      var c2 := AbortFold(c, es, t);
      if env.vals {
        NoRestore(es);
        FirstTail(es);
      }
      assert h == [];
      if |es| > 1 {
        assert Last(es[1..]) == es[|es| - 1] && Last(Init(es)) == es[|es| - 2];
        assert es[|es| - 1].next == es[|es| - 2];
      }
      BurntGood(Init(es), c2.rec, t, env');
      assert c2.undo == if |es| == 1 then Null else Last(Init(es));
    } else {
      FoldStops(c1, es[1..], t);
      if env.vals {
        AbortExactAt(c, es, t, k);
        if want.dead { GoodDead(es[0].next, want, c1.rec, es[0].ts, h, TOP, env); }
      } else {
        GoodAny(es[0].next, want, c1.rec, es[0].ts, h, TOP, env);
      }
      GoodFrame(es[0].next, c1.rec, es[0].ts, h, TOP, env, env');
    }
  }

  lemma FirstTail(es: seq<Undo>)
    requires es != [] && FirstRestore(es).None?
    ensures FirstRestore(es[1..]).None?
  {
  }

  lemma AbortHeads(s: Store, a: Abs, t: nat, env': Env, vals: bool)
    requires HeadsOk(s.chains, a.log, EnvOf(s, vals), s.nextId) && BufsOk(s) && t in s.active && IsTxnId(t)
    requires (vals ==> Clean(s, t)) && t !in s.done.Values
    requires env'.act == s.active.Keys - {t} && env'.done == s.done && s.watermark <= env'.wm && env'.vals == vals
    ensures HeadsOk(AbortAll(s.chains, s.active[t].buf, t), a.log, env', s.nextId)
    ensures AbortAll(s.chains, s.active[t].buf, t).Keys == s.chains.Keys
    ensures forall k | k in s.chains ::
              var c := AbortAll(s.chains, s.active[t].buf, t)[k];
              if s.chains[k].ts == t then c.ts == t || !IsTxnId(c.ts) else c == s.chains[k]
  {
    var buf := s.active[t].buf;
    var chains' := AbortAll(s.chains, buf, t);
    AbortAllAt(s.chains, buf, t);
    assert BufOk(s.chains, buf, t);
    hide AbortAll, BufsOk;
    forall k | k in chains'
      ensures k in a.log && HeadOk(chains'[k], k, a.log[k], env', s.nextId)
      ensures if s.chains[k].ts == t then chains'[k].ts == t || !IsTxnId(chains'[k].ts) else chains'[k] == s.chains[k]
    {
      assert HeadOk(s.chains[k], k, a.log[k], EnvOf(s, vals), s.nextId);
      hide HeadsOk, CleanKey, Segment, Good;
      if s.chains[k].ts == t {
        AbortHead(s.chains[k], On(buf, k), t, k, a.log[k], EnvOf(s, vals), env', s.nextId);
      } else {
        HeldKeys(s.chains, buf, t, k);
        GoodFrame(s.chains[k].undo, s.chains[k].rec, s.chains[k].ts, a.log[k], TOP, EnvOf(s, vals), env');
      }
    }
  }

  lemma AbortLogs(a: Abs, t: nat)
    requires LogsOk(a)
    ensures LogsOk(a.(txns := a.txns - {t}))
  {
    var a' := a.(txns := a.txns - {t});
    forall u | u in a'.txns ensures TxnLogOk(a'.log, a'.txns[u]) { assert TxnLogOk(a.log, a.txns[u]); }
  }

  lemma AbortKeeps(s: Store, a: Abs, t: nat, vals: bool)
    requires Rel(s, a, vals) && (vals && t in s.active ==> Clean(s, t))
    ensures Rel(DoAbort(s, t), ADo(a, Abort(t), FINE), vals)
  {
    hide TxnsOk, SameTxns, PendingOk, HeadsOk, LogsOk, BufsOk, Watermark, AbortAll, Clean;
    RunningAgrees(s, a, t);
    if t in s.active {
      var s', a' := DoAbort(s, t), ADo(a, Abort(t), FINE);
      var chains' := AbortAll(s.chains, s.active[t].buf, t);
      IdsAreTxnIds(s, a);
      RetireTxns(s, a, t);
      AbortLogs(a, t);
      AbortAllAt(s.chains, s.active[t].buf, t);
      KeysAgree(s, a, t, vals);
      AbortHeads(s, a, t, EnvOf(s', vals), vals);
      RetireRest(s, a, t, chains', a', vals);
      AbortTxns(s, t, a);
    }
  }

  lemma AbortTxns(s: Store, t: nat, a: Abs)
    requires t in s.active && TxnsOk(Retired(s, t)) && ClockOk(Retired(s, t), a)
    ensures var s' := Retired(s.(chains := AbortAll(s.chains, s.active[t].buf, t)), t);
            TxnsOk(s') && ClockOk(s', a)
  {
    var s1, s' := Retired(s, t), Retired(s.(chains := AbortAll(s.chains, s.active[t].buf, t)), t);
    forall u | u in s'.active ensures TxnOk(s', u) { assert TxnOk(s1, u); }
  }
}
