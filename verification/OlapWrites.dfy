/**
  What a transactional property write and a transactional delete mean: what they store, and who reads what
  before and after the commit, over every interleaving.
 */
module OlapWrites {
  import opened Wrap
  import opened Stamps
  import opened OlapStore
  import opened OlapIndex
  import opened OlapAbort
  import opened OlapRestore
  import opened OlapAbortTheorem
  import opened OlapVisibility

  // ----- what a property write stores -----

  /** The value at position `i` is the last one given for its column. */
  ghost predicate LastGiven(indices: seq<nat>, i: int) {
    0 <= i < |indices| && forall j | i < j < |indices| :: indices[j] != indices[i]
  }

  /** `q` is `p` with at least one version by `t` on top. */
  ghost predicate OnTop(p: seq<Version>, q: seq<Version>, t: nat) {
    |p| < |q| && q[..|p|] == p && forall i | |p| <= i < |q| :: q[i].ts == t && q[i].val.Some?
  }

  /** The lists after the write: every listed column keeps what it had, with `t`'s versions above it and
      the last value given on top; the others are as before. */
  ghost predicate Stores(p: seq<seq<Version>>, q: seq<seq<Version>>, indices: seq<nat>, news: seq<int>, t: nat)
    requires |indices| == |news|
  {
    && |p| == |q|
    && (forall c | 0 <= c < |p| :: if c in indices then OnTop(p[c], q[c], t) else q[c] == p[c])
    && (forall i | LastGiven(indices, i) && indices[i] < |p| :: LastIs(q[indices[i]], Version(t, Some(news[i]))))
  }

  lemma PushStores(p: seq<seq<Version>>, indices: seq<nat>, news: seq<int>, t: nat)
    requires |indices| == |news|
    ensures Stores(p, PushProps(p, indices, news, t), indices, news, t)
  {
    forall c | 0 <= c < |p|
      ensures if c in indices then OnTop(p[c], PushProps(p, indices, news, t)[c], t) else PushProps(p, indices, news, t)[c] == p[c]
    {
      PushColumn(p, indices, news, t, c);
    }
    forall i | LastGiven(indices, i) && indices[i] < |p|
      ensures LastIs(PushProps(p, indices, news, t)[indices[i]], Version(t, Some(news[i])))
    {
      PushLast(p, indices, news, t, i);
    }
    hide OnTop, LastIs, LastGiven;
  }

  function Pushed(p: seq<seq<Version>>, k: nat, v: Version): seq<seq<Version>> {
    if k < |p| then p[k := p[k] + [v]] else p
  }

  lemma {:induction false} PushColumn(p: seq<seq<Version>>, indices: seq<nat>, news: seq<int>, t: nat, c: nat)
    requires |indices| == |news| && c < |p|
    ensures var q := PushProps(p, indices, news, t)[c]; if c in indices then OnTop(p[c], q, t) else q == p[c]
    decreases |indices|
  {
    if indices != [] {
      var v := Version(t, Some(news[0]));
      var p1 := Pushed(p, indices[0], v);
      PushColumn(p1, indices[1..], news[1..], t, c);
      assert indices == [indices[0]] + indices[1..];
      assert PushProps(p, indices, news, t) == PushProps(p1, indices[1..], news[1..], t);
      PushAbove(p[c], p1[c], PushProps(p1, indices[1..], news[1..], t)[c], v, t, c == indices[0], c in indices[1..]);
    }
  }

  lemma {:induction false} PushLast(p: seq<seq<Version>>, indices: seq<nat>, news: seq<int>, t: nat, i: nat)
    requires |indices| == |news| && LastGiven(indices, i) && indices[i] < |p|
    ensures LastIs(PushProps(p, indices, news, t)[indices[i]], Version(t, Some(news[i])))
    decreases |indices|
  {
    var v := Version(t, Some(news[0]));
    var p1 := Pushed(p, indices[0], v);
    assert PushProps(p, indices, news, t) == PushProps(p1, indices[1..], news[1..], t);
    if i > 0 {
      assert LastGiven(indices[1..], i - 1);
      PushLast(p1, indices[1..], news[1..], t, i - 1);
    } else {
      assert forall j | 0 <= j < |indices[1..]| :: indices[1..][j] == indices[j + 1];
      PushColumn(p1, indices[1..], news[1..], t, indices[0]);
    }
  }

  lemma PushAbove(p: seq<Version>, p1: seq<Version>, q: seq<Version>, v: Version, t: nat, here: bool, later: bool)
    requires p1 == if here then p + [v] else p
    requires if later then OnTop(p1, q, t) else q == p1
    requires v.ts == t && v.val.Some?
    ensures if here || later then OnTop(p, q, t) else q == p
  {
    if here && later {
      assert q[..|p|] == q[..|p1|][..|p|];
      assert q[|p|] == q[..|p1|][|p|];
    }
  }

  /** A successful property write leaves the edge where it was, stamped by the writer, with these lists. */
  lemma SetStores(s: Store, t: nat, op: TxOp)
    requires IndexOk(s) && op.TxSet? && Succeeds(s, t, op)
    ensures var s1, l := Step(s, t, op), Find(s, op.eid).value;
            && Find(s1, op.eid) == Some(l)
            && var x, y := SlotAt(s, l), SlotAt(s1, l);
               y == x.(ts := t, props := y.props) && Stores(x.props, y.props, op.indices, op.news, t)
  {
    var l := Find(s, op.eid).value;
    PushStores(SlotAt(s, l).props, op.indices, op.news, t);
    StepIndex(s, t, op);
    hide Stores;
    SetFound(s, t, op);
  }

  lemma SetFound(s: Store, t: nat, op: TxOp)
    requires op.TxSet? && Succeeds(s, t, op)
    ensures var s1, l := Step(s, t, op), Find(s, op.eid).value;
            && Find(s1, op.eid) == Some(l)
            && SlotAt(s1, l) == SlotAt(s, l).(ts := t, props := PushProps(SlotAt(s, l).props, op.indices, op.news, t))
  {
  }

  /** A successful delete gives the edge the identity of a tombstone, where it was. */
  lemma DeleteStores(s: Store, t: nat, op: TxOp)
    requires op.TxDelete? && Succeeds(s, t, op)
    ensures var s1, l := Step(s, t, op), Find(s, op.eid).value;
            && Find(s1, op.eid) == Some(l) && Ident(SlotAt(s1, l)) == DEAD
            && SlotAt(s1, l).ts == t && SlotAt(s1, l).props == SlotAt(s, l).props
  {
  }

  // ----- promotion -----

  /** Commit stamps the newest version of each list if the writer wrote it, and nothing else. */
  lemma Promoted(vs: seq<Version>, t: nat, c: nat)
    ensures |PromoteList(vs, t, c)| == |vs|
    ensures forall i | 0 <= i < |vs| :: PromoteList(vs, t, c)[i] ==
              if i == |vs| - 1 && vs[i].ts == t then Version(c, vs[i].val) else vs[i]
  {
  }

  // ----- reads of a written edge -----

  /** Nobody else has a running write on the edge. */
  ghost predicate Alone(w: World, e: nat, t: nat) { Inv(w) && OthersSilent(w, e, t) }

  /** The first entry for the edge in the writer's log once `op` has succeeded. */
  ghost function FirstEntry(w: World, t: nat, op: TxOp): UndoOp
    requires !op.TxCreate? && Succeeds(w.store, t, op)
  {
    First(LogOf(w, t).undo + [UndoOf(w.store, t, op)], op.eid, |LogOf(w, t).undo|)
  }

  ghost function First(us: seq<UndoOp>, e: nat, n: nat): (u: UndoOp)
    requires n < |us| && us[n].eid == e
    ensures FirstFor(us, e, u)
    decreases |us|
  {
    if us[0].eid == e then us[0]
    else
      assert us == [us[0]] + us[1..];
      var u := First(us[1..], e, n - 1);
      FirstBehind(us, e, u);
      u
  }

  lemma FirstBehind(us: seq<UndoOp>, e: nat, u: UndoOp)
    requires us != [] && us[0].eid != e && FirstFor(us[1..], e, u)
    ensures FirstFor(us, e, u)
  {
    var i :| 0 <= i < |us[1..]| && us[1..][i] == u && forall j | 0 <= j < i :: us[1..][j].eid != e;
    assert us[i + 1] == u;
    forall j | 0 <= j < i + 1 ensures us[j].eid != e { if j > 0 { assert us[j] == us[1..][j - 1]; } }
  }

  lemma WritePends(w: World, t: nat, op: TxOp) returns (x: Slot)
    requires !op.TxCreate? && Alone(w, op.eid, t) && IsTxnId(t) && Succeeds(w.store, t, op)
    ensures Find(w.store, op.eid).Some? && x.ts == t
    ensures Pending(Next(w, DoOp(t, op)), op.eid, t, x, FirstEntry(w, t, op))
    ensures op.TxSet? ==> var y := SlotAt(w.store, Find(w.store, op.eid).value);
              Stores(y.props, x.props, op.indices, op.news, t) && Ident(x) == Ident(y)
    ensures op.TxDelete? ==> Ident(x) == DEAD
  {
    var e, w', log := op.eid, Next(w, DoOp(t, op)), LogOf(w, t);
    ActKeeps(w, DoOp(t, op));
    FoundLive(w.store, e);
    if op.TxSet? { SetStores(w.store, t, op); } else { DeleteStores(w.store, t, op); }
    x := SlotAt(w'.store, Find(w'.store, e).value);
    RecordUndo(w.store, t, op, log);
    StepOnward(w.store, t, op);
    hide Step, Record, Stores, Inv;
    forall k | k in w'.logs && k != t ensures Silent(w'.logs[k].undo, e) { assert Silent(w.logs[k].undo, e); }
  }

  /** The value a reader of the written slot gets in each column: the last one given, or what it got before. */
  ghost predicate Values(vals: seq<Option<int>>, op: TxOp, had: seq<seq<Version>>, t: nat, me: nat, start: nat)
    requires op.TxSet? && |op.indices| == |op.news|
  {
    && |vals| == |had|
    && (forall i | LastGiven(op.indices, i) && op.indices[i] < |had| :: vals[op.indices[i]] == Some(op.news[i]))
    && (forall k | 0 <= k < |had| && k !in op.indices :: vals[k] ==
          if had[k] != [] && had[k][|had[k]| - 1].ts == t then had[k][|had[k]| - 1].val
          else VisibleValue(had[k], me, start))
  }

  lemma {:induction false} LastExists(indices: seq<nat>, c: nat) returns (i: nat)
    requires c in indices
    ensures LastGiven(indices, i) && indices[i] == c
    decreases |indices|
  {
    var n := |indices| - 1;
    if indices[n] == c {
      i := n;
    } else {
      assert c in indices[..n] by { assert indices == indices[..n] + [indices[n]]; }
      i := LastExists(indices[..n], c);
      forall j | i < j < |indices| ensures indices[j] != c { if j < n { assert indices[..n][j] == indices[j]; } }
    }
  }

  /** The writer reads its own values before the commit. */
  lemma OwnValues(x: Slot, op: TxOp, had: seq<seq<Version>>, t: nat, start: nat)
    requires op.TxSet? && |op.indices| == |op.news| && Stores(had, x.props, op.indices, op.news, t) && IsTxnId(t)
    ensures Values(VisibleVals(x, t, start), op, had, t, t, start)
  {
  }

  /** Readers at or after the commit stamp read them afterwards. */
  lemma SharedValues(x: Slot, op: TxOp, had: seq<seq<Version>>, t: nat, c: nat, u: UndoOp, me: nat, start: nat)
    requires op.TxSet? && |op.indices| == |op.news| && Stores(had, x.props, op.indices, op.news, t)
    requires IsTxnId(t) && !IsTxnId(c) && c <= start && !u.WasDeleted?
    ensures Values(VisibleVals(Sealed(x, t, c, u), me, start), op, had, t, me, start)
  {
    var y := Sealed(x, t, c, u);
    var vals := VisibleVals(y, me, start);
    forall i | LastGiven(op.indices, i) && op.indices[i] < |had| ensures vals[op.indices[i]] == Some(op.news[i]) {
      var k := op.indices[i];
      Promoted(x.props[k], t, c);
      assert LastIs(y.props[k], Version(c, Some(op.news[i])));
    }
    forall k | 0 <= k < |had| && k !in op.indices
      ensures vals[k] == if had[k] != [] && had[k][|had[k]| - 1].ts == t then had[k][|had[k]| - 1].val
                         else VisibleValue(had[k], me, start)
    {
      Promoted(x.props[k], t, c);
      assert y.props[k] == PromoteList(had[k], t, c);
    }
  }

  /** From a successful property write by `t` on a live edge nobody else is writing: whatever interleaves
      without naming the edge, `t` reads the new values at once and every other reader loses the edge
      until the commit; from then on exactly the readers that started at or after the commit stamp read it,
      with the last value given for each column named and what they would have read in the others. */
  lemma WriteVisibility(w0: World, t: nat, op: TxOp, before: seq<Act>, c: nat, after: seq<Act>, me: nat, start: nat)
    returns (own: seq<Option<int>>, shared: seq<Option<int>>)
    requires op.TxSet? && Alone(w0, op.eid, t) && IsTxnId(t) && !IsTxnId(c) && Succeeds(w0.store, t, op)
    requires Ident(SlotAt(w0.store, Find(w0.store, op.eid).value)) != DEAD && !FirstEntry(w0, t, op).WasDeleted?
    requires AllLegal(before + after) && AllLeave(before + after, op.eid) && StillOpen(before, t)
    ensures var e, x := op.eid, SlotAt(w0.store, Find(w0.store, op.eid).value);
            var w1 := RunActs(Next(w0, DoOp(t, op)), before);
            var w2 := RunActs(Next(w1, DoCommit(t, c)), after);
            && |op.indices| == |op.news|
            && Values(own, op, x.props, t, t, start)
            && (c <= start ==> Values(shared, op, x.props, t, me, start))
            && Find(w1.store, e).Some?
            && ReadEdge(w1.store, e, me, start) ==
                 (if me == t && !Pruned(w1.store.blocks[Find(w1.store, e).value.b], start) then Shown(x.labelId, x.dst, own)
                  else Hidden)
            && ReadEdge(w2.store, e, me, start) == if c <= start then Shown(x.labelId, x.dst, shared) else Hidden
  {
    var e, had, u := op.eid, SlotAt(w0.store, Find(w0.store, op.eid).value), FirstEntry(w0, t, op);
    SetArity(w0.store, t, op);
    Parts(before, after, e);
    var x := WritePends(w0, t, op);
    OwnValues(x, op, had.props, t, start);
    if c <= start { SharedValues(x, op, had.props, t, c, u, me, start); }
    own, shared := VisibleVals(x, t, start), VisibleVals(Sealed(x, t, c, u), me, start);
    hide *;
    var w1 := RunActs(Next(w0, DoOp(t, op)), before);
    PendingRun(Next(w0, DoOp(t, op)), before, e, t, x, u);
    CommitSettles(w1, e, t, c, x, u);
    var w2 := RunActs(Next(w1, DoCommit(t, c)), after);
    SettledRun(Next(w1, DoCommit(t, c)), after, e, Sealed(x, t, c, u));
    WrittenRead(w1, e, t, x, u, me, start);
    CommittedRead(w2, e, t, c, x, u, me, start);
    SameIdent(x, had);
  }

  lemma SetArity(s: Store, t: nat, op: TxOp)
    requires op.TxSet? && Succeeds(s, t, op)
    ensures |op.indices| == |op.news|
  {
  }

  lemma SameIdent(x: Slot, y: Slot)
    requires Ident(x) == Ident(y)
    ensures x.labelId == y.labelId && x.dst == y.dst
  {
  }

  lemma Parts(before: seq<Act>, after: seq<Act>, e: nat)
    requires AllLegal(before + after) && AllLeave(before + after, e)
    ensures AllLegal(before) && AllLegal(after) && AllLeave(before, e) && AllLeave(after, e)
  {
    assert forall a | a in before || a in after :: a in before + after;
  }

  lemma WrittenRead(w: World, e: nat, t: nat, x: Slot, u: UndoOp, me: nat, start: nat)
    requires Pending(w, e, t, x, u) && x.ts == t && IsTxnId(t)
    ensures Find(w.store, e).Some?
    ensures ReadEdge(w.store, e, me, start) ==
              if me == t && Ident(x) != DEAD && !Pruned(w.store.blocks[Find(w.store, e).value.b], start)
              then Shown(x.labelId, x.dst, VisibleVals(x, t, start)) else Hidden
  {
    PruneExact(w, e, me, start);
    hide Inv, ReadEdge, FirstFor, Shown;
  }

  lemma CommittedRead(w: World, e: nat, t: nat, c: nat, x: Slot, u: UndoOp, me: nat, start: nat)
    requires Settled(w, e, Sealed(x, t, c, u)) && !IsTxnId(c)
    ensures ReadEdge(w.store, e, me, start) ==
              if Ident(x) != DEAD && c <= start
              then Shown(x.labelId, x.dst, VisibleVals(Sealed(x, t, c, u), me, start)) else Hidden
  {
    PruneExact(w, e, me, start);
    hide Inv, ReadEdge, Shown;
  }

  /** From a successful delete on, nobody reads the edge: not the writer, not the others, not even those who
      started before the commit. */
  lemma DeleteVisibility(w0: World, t: nat, op: TxOp, before: seq<Act>, c: nat, after: seq<Act>, me: nat, start: nat)
    requires op.TxDelete? && Alone(w0, op.eid, t) && IsTxnId(t) && !IsTxnId(c) && Succeeds(w0.store, t, op)
    requires AllLegal(before + after) && AllLeave(before + after, op.eid) && StillOpen(before, t)
    ensures var w1 := RunActs(Next(w0, DoOp(t, op)), before);
            var w2 := RunActs(Next(w1, DoCommit(t, c)), after);
            ReadEdge(w1.store, op.eid, me, start) == Hidden && ReadEdge(w2.store, op.eid, me, start) == Hidden
  {
    var e, u := op.eid, FirstEntry(w0, t, op);
    Parts(before, after, e);
    var x := WritePends(w0, t, op);
    hide *;
    var w1 := RunActs(Next(w0, DoOp(t, op)), before);
    PendingRun(Next(w0, DoOp(t, op)), before, e, t, x, u);
    CommitSettles(w1, e, t, c, x, u);
    SettledRun(Next(w1, DoCommit(t, c)), after, e, Sealed(x, t, c, u));
    WrittenRead(w1, e, t, x, u, me, start);
    CommittedRead(RunActs(Next(w1, DoCommit(t, c)), after), e, t, c, x, u, me, start);
  }

  // ----- what is accepted -----

  /** A live slot of a block not flagged as emptied holds the edge. */
  ghost predicate Reachable(s: Store, e: nat, b: nat, o: nat) {
    LiveAt(s, b, o) && EidAt(s, b, o) == e && !s.blocks[b].tomb
  }

  ghost predicate Columns(s: Store, indices: seq<nat>, b: nat, o: nat)
    requires LiveAt(s, b, o)
  {
    forall i | 0 <= i < |indices| :: indices[i] < |s.blocks[b].live[o].props|
  }

  /** A write is accepted exactly when a scan would reach the edge and its columns exist; a creation exactly
      when the vertex exists and the position lies within the block that has room. */
  lemma AcceptedIff(s: Store, t: nat, op: TxOp)
    requires IndexOk(s)
    ensures op.TxSet? ==> (Succeeds(s, t, op) <==>
              |op.indices| == |op.news| && exists b: nat, o: nat :: Reachable(s, op.eid, b, o) && Columns(s, op.indices, b, o))
    ensures op.TxDelete? ==> (Succeeds(s, t, op) <==> exists b: nat, o: nat :: Reachable(s, op.eid, b, o))
    ensures op.TxCreate? && op.src in s.heads && s.heads[op.src].Some? && s.heads[op.src].value < |s.blocks| ==>
              var n := |s.blocks[s.heads[op.src].value].live|;
              (Succeeds(s, t, op) <==> op.pos <= if n < BLOCK_CAPACITY then n else 0)
    ensures op.TxCreate? && op.src in s.heads && s.heads[op.src].None? ==> (Succeeds(s, t, op) <==> op.pos == 0)
    ensures op.TxCreate? && op.src !in s.heads ==> !Succeeds(s, t, op)
  {
    if !op.TxCreate? {
      var e := op.eid;
      if Find(s, e).Some? {
        FoundLive(s, e);
        var l := Find(s, e).value;
        assert !s.blocks[l.b].tomb ==> Reachable(s, e, l.b, l.o);
      }
      forall b: nat, o: nat | Reachable(s, e, b, o) ensures Find(s, e) == Some(Loc(b, o)) { FoundIs(s, e, b, o); }
      hide IndexOk;
    }
  }

  /** A new edge's lists: below its own versions stand those of the edge whose place it takes, or those an
      emptied block was left with. */
  lemma InheritsExact(s: Store, t: nat, op: TxOp, b: nat, k: nat)
    requires IndexOk(s) && op.TxCreate? && Succeeds(s, t, op) && k < |op.vals|
    requires s.heads[op.src] == Some(b) && b < |s.blocks| && |s.blocks[b].live| < BLOCK_CAPACITY
    ensures var blk, s' := s.blocks[b], Step(s, t, op);
            && LiveAt(s', b, op.pos) && k < |s'.blocks[b].live[op.pos].props|
            && var below := if op.pos < |blk.live| then blk.live[op.pos].props else blk.stale;
               s'.blocks[b].live[op.pos].props[k] == (if k < |below| then below[k] else []) + [Version(t, op.vals[k])]
  {
    PlacedThere(s, b, op.pos, op.labelId, op.dst, t, op.vals);
    assert WithRoom(s, op.src, t) == s;
    hide Reindex, InsertAt;
  }

  // ----- the non-transactional delete -----

  /** The delete outside a transaction takes the edge out, and moves no other edge's record or versions; a
      block it empties is flagged. */
  lemma RemoveExact(s: Store, e: nat, other: nat)
    requires IndexOk(s) && Find(s, e).Some? && other != e
    ensures var s' := Remove(s, e);
            && IndexOk(s') && Find(s', e).None? && Kept(s, s', other) && (Find(s, other).None? ==> Find(s', other).None?)
            && forall b | 0 <= b < |s.blocks| :: b < |s'.blocks| &&
                 s'.blocks[b].tomb == (s.blocks[b].tomb || (b == Find(s, e).value.b && |s.blocks[b].live| == 1))
  {
    var s' := Remove(s, e);
    EventKeeps(s, Take(e));
    assert e !in s'.index;
    hide IndexOk;
    if Find(s, other).Some? { RemovedKeeps(s, e, other); }
    if Find(s', other).Some? { RemovedAdds(s, e, other); }
  }

  lemma RemovedKeeps(s: Store, e: nat, other: nat)
    requires IndexOk(s) && IndexOk(Remove(s, e)) && Find(s, e).Some? && other != e && Find(s, other).Some?
    ensures Kept(s, Remove(s, e), other)
  {
    var l, k, s' := Find(s, e).value, Find(s, other).value, Remove(s, e);
    FoundLive(s, e);
    FoundLive(s, other);
    RemovedShape(s, l);
    hide Remove, IndexOk;
    var o: nat := if k.b == l.b && l.o < k.o then k.o - 1 else k.o;
    assert LiveAt(s', k.b, o) && s'.blocks[k.b].live[o] == SlotAt(s, k);
    FoundIs(s', other, k.b, o);
  }

  lemma RemovedAdds(s: Store, e: nat, other: nat)
    requires IndexOk(s) && Find(s, e).Some? && Find(Remove(s, e), other).Some?
    ensures Find(s, other).Some?
  {
    var l, s' := Find(s, e).value, Remove(s, e);
    FoundLive(s, e);
    RemovedShape(s, l);
    FoundLive(s', other);
    hide Remove, IndexOk;
    var k := Find(s', other).value;
    var o: nat := if k.b == l.b && l.o <= k.o then k.o + 1 else k.o;
    assert LiveAt(s, k.b, o) && EidAt(s, k.b, o) == other;
    FoundIs(s, other, k.b, o);
  }

  lemma RemovedShape(s: Store, l: Loc)
    requires LiveAt(s, l.b, l.o) && Find(s, EidAt(s, l.b, l.o)) == Some(l)
    ensures var s' := Remove(s, EidAt(s, l.b, l.o));
            && |s'.blocks| == |s.blocks| && s'.blocks[l.b].live == RemoveAt(s.blocks[l.b].live, l.o)
            && forall b | 0 <= b < |s.blocks| && b != l.b :: s'.blocks[b] == s.blocks[b]
  {
    hide Reindex;
  }
}
