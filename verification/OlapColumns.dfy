/**
  How many blocks each property column has. Columns are added by the first edge that has more
  properties than there are columns, and a block is added to a column by inserting at the block's
  number, which is a panic when the column is shorter. With one number of properties for all edges
  every column keeps up with the blocks.
 */
module OlapColumns {
  import opened Wrap
  import opened Stamps
  import opened OlapStore
  import opened OlapIndex
  import opened OlapAbort
  import opened OlapRestore
  import opened OlapVisibility

  /** Columns for `n` properties; new ones have no blocks. */
  function Grow(lens: seq<nat>, n: nat): (r: seq<nat>)
    ensures |r| == if |lens| < n then n else |lens|
  {
    if |lens| < n then lens + seq(n - |lens|, _ => 0) else lens
  }

  /** Every column gets block `b` if it lacks it; inserting past the end is a panic. */
  function EnsureAll(lens: seq<nat>, b: nat): Option<seq<nat>> {
    if forall i | 0 <= i < |lens| :: b <= lens[i] then
      Some(seq(|lens|, i requires 0 <= i < |lens| => if lens[i] == b then b + 1 else lens[i]))
    else None
  }

  /** The same for the named columns. */
  function EnsureSome(lens: seq<nat>, indices: seq<nat>, b: nat): Option<seq<nat>> {
    if forall i | 0 <= i < |lens| && i in indices :: b <= lens[i] then
      Some(seq(|lens|, i requires 0 <= i < |lens| => if i in indices && lens[i] == b then b + 1 else lens[i]))
    else None
  }

  function BlockFor(s: Store, src: nat, t: nat): nat
    requires src in s.heads && WithRoom(s, src, t).heads[src].Some?
  {
    WithRoom(s, src, t).heads[src].value
  }

  /** The columns after the operation, unless it panics. */
  function OpColumns(s: Store, lens: seq<nat>, t: nat, op: TxOp): Option<seq<nat>> {
    match op
    case TxCreate(src, _, _, vals, pos) =>
      if CanCreate(s, src, t, pos) then
        EnsureAll(Grow(lens, |vals|), BlockFor(s, src, t))
      else Some(lens)
    case TxSet(eid, indices, news) =>
      if CanSet(s, eid, indices, news) then EnsureSome(lens, indices, Find(s, eid).value.b) else Some(lens)
    case TxDelete(_) => Some(lens)
  }

  /** Commit and abort touch only blocks the columns already have. */
  function ActColumns(w: World, lens: seq<nat>, a: Act): Option<seq<nat>> {
    if a.DoOp? then OpColumns(w.store, lens, a.t, a.op) else Some(lens)
  }

  function RunColumns(w: World, lens: seq<nat>, acts: seq<Act>): Option<seq<nat>>
    decreases |acts|
  {
    if acts == [] then Some(lens)
    else
      match ActColumns(w, lens, acts[0])
      case Some(lens') => RunColumns(Next(w, acts[0]), lens', acts[1..])
      case None => None
  }

  /** A property write panics exactly when a column it names lacks a block before the edge's; otherwise every
      column it names has the edge's block afterwards, and no other column changes. */
  lemma SetColumns(s: Store, lens: seq<nat>, t: nat, op: TxOp)
    requires op.TxSet? && Succeeds(s, t, op)
    ensures var b, r := Find(s, op.eid).value.b, OpColumns(s, lens, t, op);
            && (r.None? <==> exists i :: 0 <= i < |lens| && i in op.indices && lens[i] < b)
            && (r.Some? ==> |r.value| == |lens| && forall i | 0 <= i < |lens| ::
                  if i in op.indices then b < r.value[i] && lens[i] <= r.value[i] <= lens[i] + 1 && (b < lens[i] ==> r.value[i] == lens[i])
                  else r.value[i] == lens[i])
  {
  }

  /** A creation panics exactly when some column, new ones included, lacks a block before the edge's; otherwise
      there is a column for every property and all have the edge's block. */
  lemma CreateColumns(s: Store, lens: seq<nat>, t: nat, op: TxOp)
    requires op.TxCreate? && Succeeds(s, t, op)
    ensures var b, n, r := BlockFor(s, op.src, t), |op.vals|, OpColumns(s, lens, t, op);
            && (r.None? <==> (exists i :: 0 <= i < |lens| && lens[i] < b) || (|lens| < n && b > 0))
            && (r.Some? ==> |r.value| == (if |lens| < n then n else |lens|) && forall i | 0 <= i < |r.value| ::
                  b < r.value[i] && r.value[i] <= (if i < |lens| then lens[i] else 0) + 1
                  && (i < |lens| && b < lens[i] ==> r.value[i] == lens[i]))
  {
    var grown := Grow(lens, |op.vals|);
    assert forall i | 0 <= i < |lens| :: grown[i] == lens[i];
    assert forall i | |lens| <= i < |grown| :: grown[i] == 0;
    if |lens| < |op.vals| { assert grown[|lens|] == 0; }
  }

  // ----- one number of properties -----

  ghost predicate LiveArity(live: seq<Slot>, n: nat) { forall x | x in live :: |x.props| == n }

  ghost predicate Arity(s: Store, n: nat) { forall b | 0 <= b < |s.blocks| :: LiveArity(s.blocks[b].live, n) }

  predicate OpArity(op: TxOp, n: nat) { op.TxCreate? ==> |op.vals| == n }

  ghost predicate ActsArity(acts: seq<Act>, n: nat) { forall a | a in acts :: a.DoOp? ==> OpArity(a.op, n) }

  /** Every column has every block; before the first edge there may be no columns yet. */
  ghost predicate InSync(s: Store, lens: seq<nat>, n: nat) {
    && (forall i | 0 <= i < |lens| :: lens[i] == |s.blocks|)
    && (|lens| == n || (lens == [] && s.blocks == []))
  }

  ghost predicate Uniform(s: Store, lens: seq<nat>, n: nat) { Arity(s, n) && InSync(s, lens, n) }

  lemma PutArity(s: Store, l: Loc, x: Slot, n: nat)
    requires Arity(s, n) && l.b < |s.blocks| && l.o < |s.blocks[l.b].live| && |x.props| == |SlotAt(s, l).props|
    ensures Arity(PutSlot(s, l, x), n) && |PutSlot(s, l, x).blocks| == |s.blocks|
  {
    var s' := PutSlot(s, l, x);
    assert SlotAt(s, l) in s.blocks[l.b].live;
    forall b | 0 <= b < |s'.blocks| ensures LiveArity(s'.blocks[b].live, n) {
      assert LiveArity(s.blocks[b].live, n);
      forall y | y in s'.blocks[b].live ensures |y.props| == n {
        if y != x { assert y in s.blocks[b].live; }
      }
    }
  }

  lemma SameLives(s: Store, s': Store, n: nat)
    requires Arity(s, n) && |s'.blocks| == |s.blocks|
    requires forall b | 0 <= b < |s.blocks| :: s'.blocks[b].live == s.blocks[b].live
    ensures Arity(s', n)
  {
  }

  lemma DroppedArity(s: Store, l: Loc, n: nat)
    requires Arity(s, n) && l.b < |s.blocks| && l.o < |s.blocks[l.b].live|
    ensures Arity(Dropped(s, l, false), n) && |Dropped(s, l, false).blocks| == |s.blocks|
  {
    hide Reindex;
    var s' := Dropped(s, l, false);
    forall b | 0 <= b < |s'.blocks| ensures LiveArity(s'.blocks[b].live, n) {
      assert LiveArity(s.blocks[b].live, n);
      assert forall x | x in s'.blocks[b].live :: x in s.blocks[b].live;
    }
  }

  lemma UndoArity(s: Store, t: nat, u: UndoOp, snap: map<nat, (nat, nat)>, n: nat)
    requires Arity(s, n)
    ensures Arity(Undo(s, t, u, snap), n) && |Undo(s, t, u, snap).blocks| == |s.blocks|
  {
    if Find(s, u.eid).Some? {
      var l := Find(s, u.eid).value;
      var x := SlotAt(s, l);
      hide Arity, Dropped, PutSlot;
      match u
      case Created(_) => DroppedArity(s, l, n);
      case WasSet(_, indices, oldTs) => PutArity(s, l, x.(ts := oldTs, props := Retract(x.props, indices, t)), n);
      case WasDeleted(eid, oldTs) =>
        PutArity(s, l, if eid in snap then x.(ts := oldTs, labelId := snap[eid].0, dst := snap[eid].1) else x.(ts := oldTs), n);
    }
  }

  lemma SealArity(s: Store, t: nat, c: nat, u: UndoOp, n: nat)
    requires Arity(s, n)
    ensures Arity(CommitOne(s, t, c, u), n) && |CommitOne(s, t, c, u).blocks| == |s.blocks|
  {
    if Find(s, u.eid).Some? {
      var l := Find(s, u.eid).value;
      var x := SlotAt(s, l);
      var x' := x.(ts := c, props := if u.WasDeleted? then x.props else Promote(x.props, t, c));
      PutArity(s, l, x', n);
      if CommitOne(s, t, c, u) != s { SameLives(PutSlot(s, l, x'), CommitOne(s, t, c, u), n); }
    }
  }

  lemma {:induction false} CommitArity(s: Store, t: nat, c: nat, us: seq<UndoOp>, n: nat)
    requires Arity(s, n)
    ensures Arity(Commit(s, t, c, us), n) && |Commit(s, t, c, us).blocks| == |s.blocks|
    decreases |us|
  {
    hide Arity, CommitOne;
    if us != [] {
      SealArity(s, t, c, us[0], n);
      CommitArity(CommitOne(s, t, c, us[0]), t, c, us[1..], n);
    }
  }

  lemma {:induction false} AbortArity(s: Store, t: nat, us: seq<UndoOp>, snap: map<nat, (nat, nat)>, n: nat)
    requires Arity(s, n)
    ensures Arity(Abort(s, t, us, snap), n) && |Abort(s, t, us, snap).blocks| == |s.blocks|
    decreases |us|
  {
    hide Arity, Undo;
    if us != [] {
      UndoArity(s, t, us[|us| - 1], snap, n);
      AbortArity(Undo(s, t, us[|us| - 1], snap), t, us[..|us| - 1], snap, n);
    }
  }

  lemma CreateArity(s: Store, t: nat, op: TxOp, n: nat)
    requires Arity(s, n) && op.TxCreate? && Succeeds(s, t, op) && OpArity(op, n)
    ensures Arity(Step(s, t, op), n)
  {
    var s' := Step(s, t, op);
    CreateIs(s, op.src, op.labelId, op.dst, t, op.vals, op.pos);
    RoomShape(s, op.src, t);
    var sr := WithRoom(s, op.src, t);
    var b := sr.heads[op.src].value;
    PlacedShape(sr, b, op.pos, op.labelId, op.dst, t, op.vals);
    hide Placed, CanCreate, Step, WithRoom;
    forall k | 0 <= k < |s'.blocks| ensures LiveArity(s'.blocks[k].live, n) {
      if k < |s.blocks| { assert LiveArity(s.blocks[k].live, n); }
      assert LiveArity(sr.blocks[k].live, n);
      forall x | x in s'.blocks[k].live && k == b ensures |x.props| == n {
        InsertedIn(sr.blocks[b].live, op.pos,
                   Slot(sr.nextEid, op.labelId, op.dst, t, PushedLists(sr.blocks[b], op.pos, t, op.vals)), x);
      }
    }
  }

  lemma InsertedIn(m: seq<Slot>, pos: nat, x: Slot, y: Slot)
    requires pos <= |m| && y in InsertAt(m, pos, x)
    ensures y == x || y in m
  {
  }

  lemma InPlaceArity(s: Store, t: nat, op: TxOp, n: nat)
    requires Arity(s, n) && !op.TxCreate? && Succeeds(s, t, op)
    ensures Arity(Step(s, t, op), n) && |Step(s, t, op).blocks| == |s.blocks|
  {
    var l := Find(s, op.eid).value;
    var x := SlotAt(s, l);
    var y := if op.TxSet? then Written(x, t, op.indices, op.news) else Deleted(x, t);
    PutArity(s, l, y, n);
    SameLives(PutSlot(s, l, y), Step(s, t, op), n);
  }

  /** How many blocks there are after a creation, and which one it uses. */
  lemma CreateBlock(s: Store, t: nat, op: TxOp)
    requires op.TxCreate? && Succeeds(s, t, op)
    ensures var s' := Step(s, t, op);
            BlockFor(s, op.src, t) < |s'.blocks| &&
            |s'.blocks| == if BlockFor(s, op.src, t) < |s.blocks| then |s.blocks| else |s.blocks| + 1
  {
    hide Reindex, PushedLists, InsertAt;
  }

  lemma EnsureSync(lens: seq<nat>, blocks: nat, b: nat, n: nat)
    requires b <= blocks && (forall i | 0 <= i < |lens| :: lens[i] == blocks)
    requires |lens| == n || (lens == [] && blocks == 0)
    ensures var r := EnsureAll(Grow(lens, n), b);
            r.Some? && |r.value| == n &&
            forall i | 0 <= i < n :: r.value[i] == if b < blocks then blocks else blocks + 1
  {
  }

  /** Over a uniform store no operation panics, and the columns stay in step with the blocks. */
  lemma OpUniform(s: Store, lens: seq<nat>, t: nat, op: TxOp, n: nat)
    requires Uniform(s, lens, n) && OpArity(op, n)
    ensures OpColumns(s, lens, t, op).Some? && Uniform(Step(s, t, op), OpColumns(s, lens, t, op).value, n)
  {
    if !Succeeds(s, t, op) {
      FailsSame(s, t, op);
    } else if op.TxCreate? {
      CreateArity(s, t, op, n);
      CreateUniform(s, lens, t, op, n);
    } else {
      InPlaceArity(s, t, op, n);
      FoundLive(s, op.eid);
      hide Arity, Step;
    }
  }

  lemma CreateUniform(s: Store, lens: seq<nat>, t: nat, op: TxOp, n: nat)
    requires InSync(s, lens, n) && op.TxCreate? && OpArity(op, n) && Succeeds(s, t, op)
    ensures OpColumns(s, lens, t, op).Some? && InSync(Step(s, t, op), OpColumns(s, lens, t, op).value, n)
  {
    CreateBlock(s, t, op);
    EnsureSync(lens, |s.blocks|, BlockFor(s, op.src, t), n);
    hide Step, WithRoom, EnsureAll, Grow, BlockFor;
  }

  lemma ActUniform(w: World, lens: seq<nat>, a: Act, n: nat)
    requires Uniform(w.store, lens, n) && (a.DoOp? ==> OpArity(a.op, n))
    ensures ActColumns(w, lens, a).Some? && Uniform(Next(w, a).store, ActColumns(w, lens, a).value, n)
  {
    hide Arity, Step, Commit, Abort, OpColumns;
    match a
    case DoOp(t, op) => OpUniform(w.store, lens, t, op, n);
    case DoCommit(t, c) => CommitArity(w.store, t, c, LogOf(w, t).undo, n);
    case DoAbort(t) => AbortArity(w.store, t, LogOf(w, t).undo, LogOf(w, t).snap, n);
  }

  /** When all edges have the same number of properties, no act of any interleaving panics on a column. */
  lemma {:induction false} UniformNeverPanics(w: World, lens: seq<nat>, acts: seq<Act>, n: nat)
    requires Uniform(w.store, lens, n) && ActsArity(acts, n)
    ensures RunColumns(w, lens, acts).Some? && Uniform(RunActs(w, acts).store, RunColumns(w, lens, acts).value, n)
    decreases |acts|
  {
    hide Uniform, Next, ActColumns, OpArity;
    if acts != [] {
      ActUniform(w, lens, acts[0], n);
      UniformNeverPanics(Next(w, acts[0]), ActColumns(w, lens, acts[0]).value, acts[1..], n);
    }
  }

  /** An edge with more properties than there are columns can be created only in block 0. */
  lemma NewColumnNeedsFirstBlock(s: Store, lens: seq<nat>, t: nat, op: TxOp, n: nat)
    requires InSync(s, lens, n) && |lens| == n && s.blocks != []
    requires op.TxCreate? && Succeeds(s, t, op) && |op.vals| > n
    ensures OpColumns(s, lens, t, op).Some? <==> BlockFor(s, op.src, t) == 0
  {
    var cols, b := Grow(lens, |op.vals|), BlockFor(s, op.src, t);
    CreateBlock(s, t, op);
    assert cols[n] == 0;
    hide WithRoom, Step;
    if b == 0 { assert forall i | 0 <= i < |cols| :: b <= cols[i]; }
    else { assert !(b <= cols[n]); }
  }
}
