/**
  What one version chain says about one committed log, and why the undo walk over the chain reads
  exactly the log.
 */
module MvccChains {
  import opened Wrap
  import opened Stamps
  import opened MvccStore
  import opened SnapshotSpec

  /** The part of the state a chain's meaning depends on. Without `vals` only its stamps mean something:
      that much survives every abort, and the values do not. */
  datatype Env = Env(act: set<nat>, done: map<nat, nat>, wm: nat, vals: bool)

  /** Above every commit timestamp: the versions above are not committed yet. */
  const TOP: nat := TXN_ID_START

  predicate Kept(owner: nat, c: nat, done: map<nat, nat>) { c in done && done[c] == owner }

  /**
    The version `r` stamped `ts`, with undo chain `u` below it, stands for the committed log `h`.
    `up` is the commit timestamp of the nearest committed version above it.
   */
  ghost predicate Good(u: Undo, r: Record, ts: nat, h: seq<Version>, up: nat, env: Env)
    decreases u
  {
    if ts == 0 then
      h == [] && (env.vals ==> r.dead) && u.Null?
    else if !IsTxnId(ts) then
      && h != [] && Last(h).ts == ts && (env.vals ==> Last(h).val == View(r))
      && u.Entry?
      && (Kept(u.owner, ts, env.done) || ts <= env.wm)
      && (IsTxnId(u.ts) ==> u.ts == u.owner)
      && Good(u.next, ApplyDelta(u.delta, r), u.ts, Init(h), ts, env)
    else if u.Null? then
      h == [] && (env.vals ==> r.dead)
    else
      && u.owner == ts
      && ((up == TOP && ts in env.act) || (up != TOP && (Kept(ts, up, env.done) || up <= env.wm))
          || (up == TOP && (env.vals ==> r.dead) && h == []))
      && (IsTxnId(u.ts) ==> u.ts == u.owner)
      && Good(u.next, ApplyDelta(u.delta, r), u.ts, h, up, env)
  }

  ghost predicate Ascending(h: seq<Version>) {
    forall i, j | 0 <= i < j < |h| :: h[i].ts < h[j].ts
  }

  /** The log below the version stamped `ts`. */
  function Older(h: seq<Version>, ts: nat): seq<Version> {
    if IsTxnId(ts) || h == [] then h else Init(h)
  }

  /** Walking a chain from a version the reader does not see reads the log below that version. */
  lemma {:induction false} WalkExact(u: Undo, r: Record, ts: nat, h: seq<Version>, up: nat, env: Env,
                                     live: set<nat>, start: nat)
    requires Good(u, r, ts, h, up, env) && env.vals
    requires Ascending(h) && forall v | v in h :: v.ts != start
    requires env.act <= live && env.done.Values <= live
    requires env.wm <= start < ts && start < up <= TOP && start < TXN_ID_START
    ensures View(Walk(u, live, r, start)) == Lookup(Older(h, ts), start)
    decreases u
  {
    var below := Older(h, ts);
    if u.Null? {
      assert IsTxnId(ts);
    } else if u.owner !in live {
      assert forall c | c in env.done :: env.done[c] in env.done.Values;
      assert r.dead && h == [];
    } else {
      var r' := ApplyDelta(u.delta, r);
      var up' := if IsTxnId(ts) then up else ts;
      assert Good(u.next, r', u.ts, below, up', env);
      if u.ts >= start {
        if !IsTxnId(u.ts) && u.ts != 0 {
          assert Last(below) in below && Last(below) in h;
        }
        if u.ts == 0 {
          assert below == [];
        } else {
          WalkExact(u.next, r', u.ts, below, up', env, live, start);
        }
      }
    }
  }

  /** A read of a whole chain by a reader who has not written it. */
  lemma ReadExact(c: Chain, h: seq<Version>, env: Env, live: set<nat>, t: nat, start: nat)
    requires Good(c.undo, c.rec, c.ts, h, TOP, env) && env.vals
    requires Ascending(h) && forall v | v in h :: v.ts != start
    requires env.act <= live && env.done.Values <= live
    requires env.wm <= start < TXN_ID_START && c.ts != t
    ensures ReadChain(c, live, t, start) == Lookup(h, start)
  {
    if !Sees(c.ts, t, start) {
      WalkExact(c.undo, c.rec, c.ts, h, TOP, env, live, start);
    }
  }

  /** A chain keeps its meaning when the watermark grows, entries at or below it are dropped and
      transactions other than the head's owner come and go. */
  lemma {:induction false} GoodFrame(u: Undo, r: Record, ts: nat, h: seq<Version>, up: nat, env: Env, env': Env)
    requires Good(u, r, ts, h, up, env)
    requires env.wm <= env'.wm && env'.vals == env.vals
    requires forall c | c in env.done :: Kept(env.done[c], c, env'.done) || c <= env'.wm
    requires up == TOP && IsTxnId(ts) && ts in env.act ==> ts in env'.act
    ensures Good(u, r, ts, h, up, env')
    decreases u
  {
    if ts != 0 && u.Entry? {
      var r' := ApplyDelta(u.delta, r);
      if !IsTxnId(ts) {
        GoodFrame(u.next, r', u.ts, Init(h), ts, env, env');
      } else {
        GoodFrame(u.next, r', u.ts, h, up, env, env');
      }
    }
  }

  lemma {:induction false} SetPropsShape(r: Record, indices: seq<nat>, props: seq<Value>)
    ensures SetProps(r, indices, props).dead == r.dead
    ensures |SetProps(r, indices, props).props| == |r.props|
    ensures SetProps(r, indices, props).labelId == r.labelId
    decreases |indices|
  {
    if indices != [] && props != [] {
      var r' := if indices[0] < |r.props| then r.(props := r.props[indices[0] := props[0]]) else r;
      SetPropsShape(r', indices[1..], props[1..]);
    }
  }

  /** Below a tombstone only a full image matters, so any tombstone does. */
  lemma {:induction false} GoodDead(u: Undo, r: Record, r': Record, ts: nat, h: seq<Version>, up: nat, env: Env)
    requires Good(u, r, ts, h, up, env) && r.dead && r'.dead
    ensures Good(u, r', ts, h, up, env)
    decreases u
  {
    if ts != 0 && u.Entry? && !u.delta.Restore? {
      if u.delta.SetBack? {
        SetPropsShape(r, u.delta.indices, u.delta.props);
        SetPropsShape(r', u.delta.indices, u.delta.props);
      }
      GoodDead(u.next, ApplyDelta(u.delta, r), ApplyDelta(u.delta, r'), u.ts,
               if IsTxnId(ts) then h else Init(h), if IsTxnId(ts) then up else ts, env);
    }
  }

  /** Stamps do not depend on the record they are read off. */
  lemma {:induction false} GoodAny(u: Undo, r: Record, r': Record, ts: nat, h: seq<Version>, up: nat, env: Env)
    requires Good(u, r, ts, h, up, env) && !env.vals
    ensures Good(u, r', ts, h, up, env)
    decreases u
  {
    if ts != 0 && u.Entry? {
      GoodAny(u.next, ApplyDelta(u.delta, r), ApplyDelta(u.delta, r'), u.ts,
              if IsTxnId(ts) then h else Init(h), if IsTxnId(ts) then up else ts, env);
    }
  }

  /** The value an index gets from a property list, if it gets one. */
  function Assigned(indices: seq<nat>, props: seq<Value>, j: nat): Option<Value>
    decreases |indices|
  {
    if indices == [] || props == [] then None
    else
      var later := Assigned(indices[1..], props[1..], j);
      if later.Some? then later else if indices[0] == j then Some(props[0]) else None
  }

  lemma {:induction false} SetPropsAt(r: Record, indices: seq<nat>, props: seq<Value>, j: nat)
    requires j < |r.props|
    ensures |SetProps(r, indices, props).props| == |r.props|
    ensures SetProps(r, indices, props).props[j] ==
              (var v := Assigned(indices, props, j); if v.Some? then v.value else r.props[j])
    decreases |indices|
  {
    SetPropsShape(r, indices, props);
    if indices != [] && props != [] {
      var r' := if indices[0] < |r.props| then r.(props := r.props[indices[0] := props[0]]) else r;
      SetPropsAt(r', indices[1..], props[1..], j);
    }
  }

  /** Position `i` is the last one that names its index. */
  ghost predicate LastFor(indices: seq<nat>, i: nat) {
    i < |indices| && forall j | i < j < |indices| :: indices[j] != indices[i]
  }

  /** A property write stores the last value given for each index in range, and leaves the rest alone. */
  lemma {:induction false} SetPropsStores(r: Record, indices: seq<nat>, props: seq<Value>)
    requires |indices| == |props|
    ensures var w := SetProps(r, indices, props);
            && w.labelId == r.labelId && w.dead == r.dead && |w.props| == |r.props|
            && (forall i: nat | LastFor(indices, i) && indices[i] < |r.props| :: w.props[indices[i]] == props[i])
            && (forall j: nat | j < |r.props| && j !in indices :: w.props[j] == r.props[j])
    decreases |indices|
  {
    SetPropsShape(r, indices, props);
    if indices != [] {
      var k := indices[0];
      var r' := if k < |r.props| then r.(props := r.props[k := props[0]]) else r;
      SetPropsStores(r', indices[1..], props[1..]);
      var w := SetProps(r', indices[1..], props[1..]);
      assert indices == [k] + indices[1..];
      forall i: nat | LastFor(indices, i) && indices[i] < |r.props| ensures w.props[indices[i]] == props[i] {
        if i > 0 {
          assert LastFor(indices[1..], i - 1);
        } else {
          assert forall j | 0 <= j < |indices[1..]| :: indices[1..][j] == indices[j + 1];
        }
      }
    }
  }

  lemma {:induction false} AssignedSaved(r: Record, indices: seq<nat>, j: nat)
    requires InRange(indices, r)
    ensures Assigned(indices, Saved(r, indices), j) ==
              if j in indices then Some(r.props[j]) else None
    decreases |indices|
  {
    if indices != [] {
      assert Saved(r, indices)[1..] == Saved(r, indices[1..]);
      AssignedSaved(r, indices[1..], j);
    }
  }

  lemma {:induction false} AssignedOnly(indices: seq<nat>, props: seq<Value>, j: nat)
    requires j !in indices
    ensures Assigned(indices, props, j).None?
    decreases |indices|
  {
    if indices != [] && props != [] {
      AssignedOnly(indices[1..], props[1..], j);
    }
  }

  /** The undo delta of a property write takes the write back, whatever was written. */
  lemma SetBackInverts(r: Record, indices: seq<nat>, props: seq<Value>)
    requires InRange(indices, r)
    ensures ApplyDelta(SetBack(indices, Saved(r, indices)), SetProps(r, indices, props)) == r
  {
    var w := SetProps(r, indices, props);
    var b := SetProps(w, indices, Saved(r, indices));
    SetPropsShape(r, indices, props);
    SetPropsShape(w, indices, Saved(r, indices));
    forall j: nat | j < |r.props| ensures b.props[j] == r.props[j] {
      SetPropsAt(r, indices, props, j);
      SetPropsAt(w, indices, Saved(r, indices), j);
      AssignedSaved(r, indices, j);
      if j !in indices { AssignedOnly(indices, props, j); }
    }
    assert b.props == r.props;
  }
}
