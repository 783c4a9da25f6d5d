/** When factorized evaluation fails: exactly when some tuple fails, or some row outside all tuples does. */
module FactorizedErrors {
  import opened Wrap
  import opened Factorized

  predicate NoLogic<V>(e: Expr<V>) {
    match e
    case Ref(_, _) => true
    case Const(_) => true
    case Unary(_, x) => NoLogic(x)
    case Binary(op, l, r) => !IsLogic(op) && NoLogic(l) && NoLogic(r)
  }

  /** Unary operators over one column. */
  predicate Tower<V>(e: Expr<V>) { e.Ref? || (e.Unary? && Tower(e.arg)) }

  function Base<V>(e: Expr<V>): nat
    requires Tower(e)
  {
    if e.Ref? then e.chunk else Base(e.arg)
  }

  /** What the operators give on one row of the column. */
  function OnRow<V>(k: Kernel<V>, e: Expr<V>, rs: seq<Chunk<V>>, row: nat): Option<V>
    requires Tower(e) && RefsOk(e, rs) && ChunksOk(rs) && row < Rows(rs, Base(e))
  {
    match e
    case Ref(c, i) => assert ChunkOk(rs[c]); Some(rs[c].cols[i][row])
    case Unary(op, x) => (match OnRow(k, x, rs, row) case Some(v) => k.un(op, v) case None => None)
  }

  /** A row of a flat chunk other than the current one on which the operators fail: a unary operator runs
      over the whole column. */
  ghost predicate StrayRow<V>(k: Kernel<V>, e: Expr<V>, rs: seq<Chunk<V>>, row: nat)
    requires Tower(e) && RefsOk(e, rs) && ChunksOk(rs)
  {
    Base(e) < |rs| && rs[Base(e)].cur.Some? && row != rs[Base(e)].cur.value && row < Rows(rs, Base(e)) && OnRow(k, e, rs, row).None?
  }

  ghost predicate Stray<V>(k: Kernel<V>, e: Expr<V>, rs: seq<Chunk<V>>)
    requires RefsOk(e, rs) && ChunksOk(rs)
  {
    match e
    case Ref(_, _) => false
    case Const(_) => false
    case Unary(_, x) => if Tower(x) then exists row: nat :: StrayRow(k, e, rs, row) else Stray(k, x, rs)
    case Binary(_, l, r) => Stray(k, l, rs) || Stray(k, r, rs)
  }

  /** A tower is evaluated row by row; every other flat result is one row. */
  lemma {:induction false} TowerRows<V>(k: Kernel<V>, e: Expr<V>, rs: seq<Chunk<V>>)
    requires RefsOk(e, rs) && ChunksOk(rs) && Evaluate(k, e, rs).Some?
    ensures var o := Evaluate(k, e, rs).value;
            if Tower(e) then
              && Base(e) < |rs| && o.cur == rs[Base(e)].cur && |o.col| == Rows(rs, Base(e))
              && forall row: nat | row < |o.col| :: OnRow(k, e, rs, row) == Some(o.col[row])
            else o.cur.Some? ==> |o.col| == 1
    decreases e
  {
    match e
    case Ref(c, _) => assert ChunkOk(rs[c]);
    case Const(_) =>
    case Unary(_, x) => TowerRows(k, x, rs);
    case Binary(_, l, r) =>
  }

  /** A tower that fails on a row fails with one operator more. */
  lemma StrayHigher<V>(k: Kernel<V>, e: Expr<V>, rs: seq<Chunk<V>>)
    requires RefsOk(e, rs) && ChunksOk(rs) && e.Unary? && Stray(k, e.arg, rs)
    ensures Stray(k, e, rs)
  {
    if Tower(e.arg) {
      var row: nat :| StrayRow(k, e.arg, rs, row);
      assert StrayRow(k, e, rs, row);
    }
  }

  ghost predicate FailsOn<V>(k: Kernel<V>, e: Expr<V>, rs: seq<Chunk<V>>, t: map<nat, nat>)
    requires RefsOk(e, rs) && ChunksOk(rs)
  {
    Chooses(rs, t) && OnTuple(k, e, rs, t).None?
  }

  lemma {:induction false} StrayFails<V>(k: Kernel<V>, e: Expr<V>, rs: seq<Chunk<V>>)
    requires RefsOk(e, rs) && ChunksOk(rs) && Stray(k, e, rs)
    ensures Evaluate(k, e, rs).None?
    decreases e
  {
    match e
    case Unary(op, x) =>
      if Tower(x) {
        var row: nat :| StrayRow(k, e, rs, row);
        if Evaluate(k, e, rs).Some? { TowerRows(k, e, rs); }
      } else {
        StrayFails(k, x, rs);
      }
    case Binary(_, l, r) => if Stray(k, l, rs) { StrayFails(k, l, rs); } else { StrayFails(k, r, rs); }
  }

  lemma ScopeParts<V>(e: Expr<V>, rs: seq<Chunk<V>>)
    requires RefsOk(e, rs) && e.Binary? && NoRepeat(Scope(e, rs))
    ensures NoRepeat(Scope(e.left, rs)) && NoRepeat(Scope(e.right, rs))
  {
    if !SameChunk(e.left, e.right) {
      var a, b := Scope(e.left, rs), Scope(e.right, rs);
      assert forall i | 0 <= i < |a| :: (a + b)[i] == a[i];
      assert forall i | 0 <= i < |b| :: (a + b)[|a| + i] == b[i];
    }
  }

  /** A row of an operand is some tuple's value; a flat operand has one value on every tuple. */
  lemma RowTuple<V>(k: Kernel<V>, e: Expr<V>, rs: seq<Chunk<V>>, base: map<nat, nat>, i: nat) returns (t: map<nat, nat>)
    requires RefsOk(e, rs) && ChunksOk(rs) && Chooses(rs, base) && NoRepeat(Scope(e, rs))
    requires Evaluate(k, e, rs).Some? && i < |Evaluate(k, e, rs).value.col|
    requires var o := Evaluate(k, e, rs).value; o.cur.Some? ==> i == o.cur.value
    ensures Chooses(rs, t) && OnTuple(k, e, rs, t) == Some(Evaluate(k, e, rs).value.col[i])
  {
    var o := Evaluate(k, e, rs).value;
    EvaluationMeans(k, e, rs);
    if o.cur.Some? {
      t := base;
      assert MeansAt(k, e, rs, o, t);
    } else {
      t := EveryRowIsATuple(k, e, rs, base, i);
    }
  }

  lemma FlatValue<V>(k: Kernel<V>, e: Expr<V>, rs: seq<Chunk<V>>, t: map<nat, nat>)
    requires RefsOk(e, rs) && ChunksOk(rs) && Chooses(rs, t) && Evaluate(k, e, rs).Some?
    ensures var o := Evaluate(k, e, rs).value; o.cur.Some? ==> OnTuple(k, e, rs, t) == Some(o.col[o.cur.value])
  {
    EvaluationMeans(k, e, rs);
    assert MeansAt(k, e, rs, Evaluate(k, e, rs).value, t);
  }

  /** A tuple with the given rows on both sides of a product. */
  lemma PairTuple<V>(k: Kernel<V>, l: Expr<V>, r: Expr<V>, rs: seq<Chunk<V>>, base: map<nat, nat>, i: nat, j: nat)
    returns (t: map<nat, nat>)
    requires RefsOk(l, rs) && RefsOk(r, rs) && ChunksOk(rs) && Chooses(rs, base) && NoRepeat(Scope(l, rs) + Scope(r, rs))
    requires Evaluate(k, l, rs).Some? && Evaluate(k, l, rs).value.cur.None?
    requires Evaluate(k, r, rs).Some? && Evaluate(k, r, rs).value.cur.None?
    requires i < |Evaluate(k, l, rs).value.col| && j < |Evaluate(k, r, rs).value.col|
    ensures Chooses(rs, t)
    ensures OnTuple(k, l, rs, t) == Some(Evaluate(k, l, rs).value.col[i])
    ensures OnTuple(k, r, rs, t) == Some(Evaluate(k, r, rs).value.col[j])
  {
    var a, b, sl, sr := Evaluate(k, l, rs).value, Evaluate(k, r, rs).value, Scope(l, rs), Scope(r, rs);
    EvaluationMeans(k, l, rs);
    EvaluationMeans(k, r, rs);
    CountConcat(rs, sl, sr);
    CellBelow(i, Count(rs, sl), Count(rs, sr), j);
    t := PositionOnto(rs, sl + sr, Cell(i, Count(rs, sr), j), base);
    forall c: nat | c < |rs| && rs[c].cur.None? ensures c in t && t[c] < Rows(rs, c) {
      if c !in sl + sr { assert t[c] == base[c]; }
    }
    PositionConcat(rs, sl, sr, t);
    ScopeInTuple(r, rs, t);
    PositionBelow(rs, sr, t);
    SplitUnique(Position(rs, sl, t), Position(rs, sr, t), i, j, Count(rs, sr));
    assert MeansAt(k, l, rs, a, t) && MeansAt(k, r, rs, b, t);
  }

  lemma UnaryFailsAt<V>(k: Kernel<V>, e: Expr<V>, rs: seq<Chunk<V>>, base: map<nat, nat>) returns (t: map<nat, nat>)
    requires RefsOk(e, rs) && ChunksOk(rs) && Chooses(rs, base) && NoRepeat(Scope(e, rs))
    requires e.Unary? && Evaluate(k, e.arg, rs).Some? && Evaluate(k, e, rs).None? && !Stray(k, e, rs)
    ensures FailsOn(k, e, rs, t)
  {
    var o := Evaluate(k, e.arg, rs).value;
    var i :| 0 <= i < |o.col| && k.un(e.unop, o.col[i]).None?;
    TowerRows(k, e.arg, rs);
    assert Tower(e.arg) && o.cur.Some? && i != o.cur.value ==> StrayRow(k, e, rs, i);
    t := RowTuple(k, e.arg, rs, base, i);
  }

  /** The operands' rows at which a binary node fails. */
  lemma PairFails<V>(k: Kernel<V>, op: Op, same: bool, l: Out<V>, r: Out<V>) returns (i: nat, j: nat)
    requires OutOk(l) && OutOk(r) && !IsLogic(op) && Combine(k, op, same, l, r).None?
    requires same && l.cur.None? && r.cur.None? ==> |l.col| == |r.col|
    requires l.cur.None? ==> l.col != []
    ensures i < |l.col| && j < |r.col| && k.bin(op, l.col[i], r.col[j]).None?
    ensures (l.cur.Some? ==> i == l.cur.value) && (r.cur.Some? ==> j == r.cur.value)
    ensures same && l.cur.None? && r.cur.None? ==> i == j
  {
    match (l.cur, r.cur) {
      case (Some(x), None) =>
        i := x;
        j :| j < |r.col| && k.bin(op, Repeat(l.col[x], |r.col|)[j], r.col[j]).None?;
      case (None, Some(y)) =>
        j := y;
        i :| i < |l.col| && k.bin(op, l.col[i], Repeat(r.col[y], |l.col|)[i]).None?;
      case (Some(x), Some(y)) => i, j := x, y;
      case (None, None) =>
        if same {
          i :| i < |l.col| && k.bin(op, l.col[i], r.col[i]).None?;
          j := i;
        } else {
          i, j := ProductFailsAt(k, op, l.col, r.col);
        }
    }
  }

  lemma NonEmpty<V>(k: Kernel<V>, e: Expr<V>, rs: seq<Chunk<V>>, base: map<nat, nat>)
    requires RefsOk(e, rs) && ChunksOk(rs) && Chooses(rs, base) && Evaluate(k, e, rs).Some?
    ensures Evaluate(k, e, rs).value.col != []
  {
    EvaluationMeans(k, e, rs);
    assert MeansAt(k, e, rs, Evaluate(k, e, rs).value, base);
  }

  lemma BinaryFailsAt<V>(k: Kernel<V>, e: Expr<V>, rs: seq<Chunk<V>>, base: map<nat, nat>) returns (t: map<nat, nat>)
    requires RefsOk(e, rs) && ChunksOk(rs) && Chooses(rs, base) && NoRepeat(Scope(e, rs))
    requires e.Binary? && !IsLogic(e.op) && Evaluate(k, e, rs).None?
    requires Evaluate(k, e.left, rs).Some? && Evaluate(k, e.right, rs).Some?
    ensures FailsOn(k, e, rs, t)
  {
    var a, b := Evaluate(k, e.left, rs).value, Evaluate(k, e.right, rs).value;
    var same := SameChunk(e.left, e.right);
    ScopeParts(e, rs);
    NonEmpty(k, e.left, rs, base);
    if same { assert ChunkOk(rs[e.left.chunk]); }
    var i, j := PairFails(k, e.op, same, a, b);
    if a.cur.Some? {
      t := RowTuple(k, e.right, rs, base, j);
      FlatValue(k, e.left, rs, t);
    } else if b.cur.Some? {
      t := RowTuple(k, e.left, rs, base, i);
      FlatValue(k, e.right, rs, t);
    } else if same {
      t := EveryRowIsATuple(k, e.left, rs, base, i);
      SameRow(k, e.left, e.right, rs, t, i);
    } else {
      t := PairTuple(k, e.left, e.right, rs, base, i, j);
    }
    FailsBoth(k, e, rs, t, a.col[i], b.col[j]);
  }

  /** Two columns of one unflat chunk are read at the same row. */
  lemma SameRow<V>(k: Kernel<V>, l: Expr<V>, r: Expr<V>, rs: seq<Chunk<V>>, t: map<nat, nat>, i: nat)
    requires RefsOk(l, rs) && RefsOk(r, rs) && ChunksOk(rs) && Chooses(rs, t) && SameChunk(l, r) && rs[l.chunk].cur.None?
    requires Position(rs, Scope(l, rs), t) == i
    ensures i < Rows(rs, r.chunk) && OnTuple(k, r, rs, t) == Some(rs[r.chunk].cols[r.col][i])
  {
  }

  lemma FailsBoth<V>(k: Kernel<V>, e: Expr<V>, rs: seq<Chunk<V>>, t: map<nat, nat>, x: V, y: V)
    requires RefsOk(e, rs) && ChunksOk(rs) && Chooses(rs, t) && e.Binary?
    requires OnTuple(k, e.left, rs, t) == Some(x) && OnTuple(k, e.right, rs, t) == Some(y) && k.bin(e.op, x, y).None?
    ensures FailsOn(k, e, rs, t)
  {
  }

  lemma {:induction false} FailsAt<V>(k: Kernel<V>, e: Expr<V>, rs: seq<Chunk<V>>, base: map<nat, nat>) returns (t: map<nat, nat>)
    requires RefsOk(e, rs) && ChunksOk(rs) && Chooses(rs, base) && NoRepeat(Scope(e, rs)) && NoLogic(e)
    requires Evaluate(k, e, rs).None? && !Stray(k, e, rs)
    ensures FailsOn(k, e, rs, t)
    decreases e
  {
    match e {
      case Unary(op, x) =>
        if Stray(k, x, rs) { StrayHigher(k, e, rs); }
        if Evaluate(k, x, rs).None? { t := FailsAt(k, x, rs, base); } else { t := UnaryFailsAt(k, e, rs, base); }
      case Binary(op, l, r) =>
        ScopeParts(e, rs);
        if Evaluate(k, l, rs).None? { t := FailsAt(k, l, rs, base); }
        else if Evaluate(k, r, rs).None? { t := FailsAt(k, r, rs, base); }
        else { t := BinaryFailsAt(k, e, rs, base); }
    }
  }

  /** For arithmetic and comparison over non-empty chunks each used by one leaf or one pair: evaluation
      fails if and only if the expression fails on some tuple, or unary operators on a column of a flat chunk
      fail on a row other than the current one. */
  lemma FailsIff<V>(k: Kernel<V>, e: Expr<V>, rs: seq<Chunk<V>>, base: map<nat, nat>)
    requires RefsOk(e, rs) && ChunksOk(rs) && Chooses(rs, base) && NoRepeat(Scope(e, rs)) && NoLogic(e)
    ensures Evaluate(k, e, rs).None? <==> Stray(k, e, rs) || exists t :: FailsOn(k, e, rs, t)
  {
    if Evaluate(k, e, rs).None? {
      if !Stray(k, e, rs) { var t := FailsAt(k, e, rs, base); }
    } else {
      if Stray(k, e, rs) { StrayFails(k, e, rs); }
      EvaluationMeans(k, e, rs);
      forall t | Chooses(rs, t) ensures !FailsOn(k, e, rs, t) {
        assert MeansAt(k, e, rs, Evaluate(k, e, rs).value, t);
      }
    }
  }

  // ----- the logical operators -----

  /** Two columns of one length that the operator takes pair by pair without failing. */
  ghost predicate PairsOk<V>(k: Kernel<V>, op: Op, l: seq<V>, r: seq<V>) {
    |l| == |r| && forall i | 0 <= i < |l| :: k.bin(op, l[i], r[i]).Some?
  }

  /** The logical kernels do not spread a flat value: a logical node succeeds exactly when the two columns it
      is given, a flat operand counting as its one current value, pair up row by row. Over two unflat chunks
      that takes a right column of a single row. */
  lemma LogicSucceedsIff<V>(k: Kernel<V>, op: Op, same: bool, l: Out<V>, r: Out<V>)
    requires OutOk(l) && OutOk(r) && IsLogic(op)
    ensures Combine(k, op, same, l, r).Some? <==>
              match (l.cur, r.cur)
              case (Some(i), None) => PairsOk(k, op, [l.col[i]], r.col)
              case (None, Some(j)) => PairsOk(k, op, l.col, [r.col[j]])
              case (Some(i), Some(j)) => PairsOk(k, op, [l.col[i]], [r.col[j]])
              case (None, None) =>
                if same then PairsOk(k, op, l.col, r.col)
                else l.col != [] && |r.col| == 1 && forall i | 0 <= i < |l.col| :: k.bin(op, l.col[i], r.col[0]).Some?
  {
    if l.cur.None? && r.cur.None? && !same && l.col != [] { LogicProduct(k, op, l.col, r.col); }
  }

  lemma {:induction false} LogicProduct<V>(k: Kernel<V>, op: Op, l: seq<V>, r: seq<V>)
    requires IsLogic(op) && l != []
    ensures Product(k, op, l, r).Some? <==> |r| == 1 && forall i | 0 <= i < |l| :: k.bin(op, l[i], r[0]).Some?
    decreases |l|
  {
    var n := |l| - 1;
    if n > 0 { LogicProduct(k, op, l[..n], r); }
    assert ApplyOp(k, op, [l[n]], true, r, false).Some? <==> |r| == 1 && k.bin(op, l[n], r[0]).Some?;
    assert forall i | 0 <= i < n :: l[..n][i] == l[i];
  }
}
