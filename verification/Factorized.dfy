/**
  Factorized expressions: chunks whose rows stand for a product of tuples, and the evaluator that
  works on columns instead of on the tuples. Column kernels are element functions that may fail.
 */
module Factorized {
  import opened Wrap

  /** `cur` is the current row of a flat chunk; an unflat chunk has none. A chunk may carry a filter, which
      evaluation does not look at. */
  datatype Chunk<V> = Chunk(cols: seq<seq<V>>, cur: Option<nat>, mask: Option<seq<bool>>)

  datatype Op = Arith(code: nat) | Compare(code: nat) | And | Or

  datatype UnOp = Neg | Not

  /** What the array kernels do to one pair of elements, or to one; `None` is a kernel error. */
  datatype Kernel<!V> = Kernel(bin: (Op, V, V) -> Option<V>, un: (UnOp, V) -> Option<V>)

  datatype Expr<V> =
    | Ref(chunk: nat, col: nat)
    | Const(v: V)
    | Unary(unop: UnOp, arg: Expr<V>)
    | Binary(op: Op, left: Expr<V>, right: Expr<V>)

  /** An evaluated column and, when flat, its current row. */
  datatype Out<V> = Out(col: seq<V>, cur: Option<nat>)

  predicate IsLogic(op: Op) { op.And? || op.Or? }

  // ----- kernels on columns -----

  function Zip<V>(k: Kernel<V>, op: Op, l: seq<V>, r: seq<V>): (z: Option<seq<V>>)
    requires |l| == |r|
    ensures z.Some? ==> |z.value| == |l| && forall i | 0 <= i < |l| :: k.bin(op, l[i], r[i]) == Some(z.value[i])
    ensures z.None? ==> exists i | 0 <= i < |l| :: k.bin(op, l[i], r[i]).None?
  {
    if l == [] then Some([])
    else
      var n := |l| - 1;
      match (Zip(k, op, l[..n], r[..n]), k.bin(op, l[n], r[n]))
      case (Some(rest), Some(v)) => Some(rest + [v])
      case _ => None
  }

  function MapUn<V>(k: Kernel<V>, op: UnOp, s: seq<V>): (z: Option<seq<V>>)
    ensures z.Some? ==> |z.value| == |s| && forall i | 0 <= i < |s| :: k.un(op, s[i]) == Some(z.value[i])
    ensures z.None? ==> exists i | 0 <= i < |s| :: k.un(op, s[i]).None?
  {
    if s == [] then Some([])
    else
      var n := |s| - 1;
      match (MapUn(k, op, s[..n]), k.un(op, s[n]))
      case (Some(rest), Some(v)) => Some(rest + [v])
      case _ => None
  }

  function Repeat<V>(v: V, n: nat): (r: seq<V>)
    ensures |r| == n && forall i | 0 <= i < n :: r[i] == v
  {
    seq(n, i => v)
  }

  /** An operator on two arrays. Arithmetic and comparison spread a scalar over the other side; the
      logical kernels do not and need equal lengths. */
  function ApplyOp<V>(k: Kernel<V>, op: Op, l: seq<V>, lScalar: bool, r: seq<V>, rScalar: bool): Option<seq<V>>
    requires (lScalar ==> |l| == 1) && (rScalar ==> |r| == 1)
  {
    if IsLogic(op) || (!lScalar && !rScalar) then (if |l| == |r| then Zip(k, op, l, r) else None)
    else if lScalar then Zip(k, op, Repeat(l[0], |r|), r)
    else Zip(k, op, l, Repeat(r[0], |l|))
  }

  /** Each left element against the whole right column. */
  function Product<V>(k: Kernel<V>, op: Op, l: seq<V>, r: seq<V>): Option<seq<V>> {
    if l == [] then Some([])
    else
      var n := |l| - 1;
      match (Product(k, op, l[..n], r), ApplyOp(k, op, [l[n]], true, r, false))
      case (Some(rows), Some(row)) => Some(rows + row)
      case _ => None
  }

  /** The row results are concatenated at the end; concatenating none is an error. */
  method ApplyCartesianProduct<V>(k: Kernel<V>, op: Op, l: seq<V>, r: seq<V>) returns (z: Option<seq<V>>)
    ensures z == if l == [] then None else Product(k, op, l, r)
  {
    var all: seq<V> := [];
    var i := 0;
    while i < |l|
      invariant 0 <= i <= |l|
      invariant Product(k, op, l[..i], r) == Some(all)
    {
      var row := ApplyOp(k, op, [l[i]], true, r, false);
      assert l[..i + 1][..i] == l[..i];
      if row.None? {
        ProductFails(k, op, l, r, i + 1);
        return None;
      }
      all := all + row.value;
      i := i + 1;
    }
    assert l[..|l|] == l;
    z := if l == [] then None else Some(all);
  }

  lemma {:induction false} ProductFails<V>(k: Kernel<V>, op: Op, l: seq<V>, r: seq<V>, n: nat)
    requires n <= |l| && Product(k, op, l[..n], r).None?
    ensures Product(k, op, l, r).None?
    decreases |l| - n
  {
    if n == |l| {
      assert l[..n] == l;
    } else {
      assert l[..n + 1][..n] == l[..n];
      ProductFails(k, op, l, r, n + 1);
    }
  }

  // ----- the evaluator -----

  predicate RefOk<V>(rs: seq<Chunk<V>>, chunk: nat, col: nat) {
    chunk < |rs| && col < |rs[chunk].cols|
  }

  predicate RefsOk<V>(e: Expr<V>, rs: seq<Chunk<V>>) {
    match e
    case Ref(c, i) => RefOk(rs, c, i)
    case Const(_) => true
    case Unary(_, x) => RefsOk(x, rs)
    case Binary(_, l, r) => RefsOk(l, rs) && RefsOk(r, rs)
  }

  /** All columns of a chunk have one length; a flat chunk's current row is one of its rows. */
  predicate ChunkOk<V>(c: Chunk<V>) {
    && |c.cols| > 0 && (forall i | 0 <= i < |c.cols| :: |c.cols[i]| == |c.cols[0]|)
    && (c.cur.Some? ==> c.cur.value < |c.cols[0]|) && (c.mask.Some? ==> |c.mask.value| == |c.cols[0]|)
  }

  predicate ChunksOk<V>(rs: seq<Chunk<V>>) { forall c | 0 <= c < |rs| :: ChunkOk(rs[c]) }

  /** Both operands are references into one chunk. */
  predicate SameChunk<V>(l: Expr<V>, r: Expr<V>) { l.Ref? && r.Ref? && l.chunk == r.chunk }

  predicate OutOk<V>(o: Out<V>) { o.cur.Some? ==> o.cur.value < |o.col| }

  function Combine<V>(k: Kernel<V>, op: Op, same: bool, l: Out<V>, r: Out<V>): (z: Option<Out<V>>)
    requires OutOk(l) && OutOk(r)
    ensures z.Some? && z.value.cur.Some? ==> z.value.cur.value == 0
  {
    match (l.cur, r.cur)
    case (Some(i), None) => Wrapped(ApplyOp(k, op, [l.col[i]], true, r.col, false), None)
    case (None, Some(j)) => Wrapped(ApplyOp(k, op, l.col, false, [r.col[j]], true), None)
    case (Some(i), Some(j)) => Wrapped(ApplyOp(k, op, [l.col[i]], false, [r.col[j]], false), Some(0))
    case (None, None) =>
      if same then Wrapped(ApplyOp(k, op, l.col, false, r.col, false), None)
      else if l.col == [] then None
      else Wrapped(Product(k, op, l.col, r.col), None)
  }

  function Wrapped<V>(col: Option<seq<V>>, cur: Option<nat>): Option<Out<V>> {
    if col.Some? then Some(Out(col.value, cur)) else None
  }

  function Evaluate<V>(k: Kernel<V>, e: Expr<V>, rs: seq<Chunk<V>>): (z: Option<Out<V>>)
    requires RefsOk(e, rs) && ChunksOk(rs)
    ensures z.Some? ==> OutOk(z.value)
  {
    match e
    case Ref(c, i) => assert ChunkOk(rs[c]); Some(Out(rs[c].cols[i], rs[c].cur))
    case Const(v) => Some(Out([v], Some(0)))
    case Unary(op, x) =>
      (match Evaluate(k, x, rs)
       case Some(o) => Wrapped(MapUn(k, op, o.col), o.cur)
       case None => None)
    case Binary(op, l, r) =>
      (match (Evaluate(k, l, rs), Evaluate(k, r, rs))
       case (Some(a), Some(b)) =>
         var z := Combine(k, op, SameChunk(l, r), a, b);
         CombineOk(k, op, SameChunk(l, r), a, b);
         z
       case _ => None)
  }

  lemma CombineOk<V>(k: Kernel<V>, op: Op, same: bool, l: Out<V>, r: Out<V>)
    requires OutOk(l) && OutOk(r)
    ensures var z := Combine(k, op, same, l, r); z.Some? ==> OutOk(z.value)
  {
  }

  // ----- the tuples an expression stands for -----

  /** The unflat chunks an expression ranges over, in the order of its leaves. */
  function Scope<V>(e: Expr<V>, rs: seq<Chunk<V>>): seq<nat>
    requires RefsOk(e, rs)
  {
    match e
    case Ref(c, _) => if rs[c].cur.None? then [c] else []
    case Const(_) => []
    case Unary(_, x) => Scope(x, rs)
    case Binary(_, l, r) => if SameChunk(l, r) then Scope(l, rs) else Scope(l, rs) + Scope(r, rs)
  }

  function Rows<V>(rs: seq<Chunk<V>>, c: nat): nat {
    if c < |rs| && |rs[c].cols| > 0 then |rs[c].cols[0]| else 0
  }

  /** A tuple chooses one row of every unflat chunk. */
  ghost predicate Chooses<V>(rs: seq<Chunk<V>>, t: map<nat, nat>) {
    forall c: nat | c < |rs| && rs[c].cur.None? :: c in t && t[c] < Rows(rs, c)
  }

  /** The expression's value on one tuple. */
  function OnTuple<V>(k: Kernel<V>, e: Expr<V>, rs: seq<Chunk<V>>, t: map<nat, nat>): Option<V>
    requires RefsOk(e, rs) && ChunksOk(rs) && Chooses(rs, t)
  {
    match e
    case Ref(c, i) =>
      assert ChunkOk(rs[c]);
      Some(rs[c].cols[i][if rs[c].cur.Some? then rs[c].cur.value else t[c]])
    case Const(v) => Some(v)
    case Unary(op, x) => (match OnTuple(k, x, rs, t) case Some(v) => k.un(op, v) case None => None)
    case Binary(op, l, r) =>
      (match (OnTuple(k, l, rs, t), OnTuple(k, r, rs, t))
       case (Some(a), Some(b)) => k.bin(op, a, b)
       case _ => None)
  }

  function Count<V>(rs: seq<Chunk<V>>, scope: seq<nat>): nat
    decreases |scope|
  {
    if scope == [] then 1 else Count(rs, scope[..|scope| - 1]) * Rows(rs, scope[|scope| - 1])
  }

  /** The row-major position of a tuple: later chunks vary fastest. */
  function Position<V>(rs: seq<Chunk<V>>, scope: seq<nat>, t: map<nat, nat>): nat
    requires forall c | c in scope :: c in t
    decreases |scope|
  {
    if scope == [] then 0
    else Position(rs, scope[..|scope| - 1], t) * Rows(rs, scope[|scope| - 1]) + t[scope[|scope| - 1]]
  }

  ghost predicate NoRepeat(scope: seq<nat>) { forall i, j | 0 <= i < j < |scope| :: scope[i] != scope[j] }

  /** Every chunk of a scope is unflat. */
  lemma ScopeUnflat<V>(e: Expr<V>, rs: seq<Chunk<V>>)
    requires RefsOk(e, rs)
    ensures forall c | c in Scope(e, rs) :: c < |rs| && rs[c].cur.None?
  {
  }

  // ----- positions -----

  lemma MulAssoc(a: nat, b: nat, c: nat)
    ensures a * b * c == a * (b * c)
  {
  }

  lemma {:induction false} CountConcat<V>(rs: seq<Chunk<V>>, a: seq<nat>, b: seq<nat>)
    ensures Count(rs, a + b) == Count(rs, a) * Count(rs, b)
    decreases |b|
  {
    if b == [] {
      assert a + b == a;
    } else {
      var n := |b| - 1;
      assert (a + b)[..|a| + n] == a + b[..n];
      CountConcat(rs, a, b[..n]);
      MulAssoc(Count(rs, a), Count(rs, b[..n]), Rows(rs, b[n]));
    }
  }

  lemma {:induction false} PositionConcat<V>(rs: seq<Chunk<V>>, a: seq<nat>, b: seq<nat>, t: map<nat, nat>)
    requires forall c | c in a + b :: c in t
    ensures (forall c | c in a :: c in t) && (forall c | c in b :: c in t)
    ensures Position(rs, a + b, t) == Position(rs, a, t) * Count(rs, b) + Position(rs, b, t)
    decreases |b|
  {
    assert forall c | c in a || c in b :: c in a + b;
    if b == [] {
      assert a + b == a;
    } else {
      var n := |b| - 1;
      assert (a + b)[..|a| + n] == a + b[..n];
      assert forall c | c in a + b[..n] :: c in a + b;
      PositionConcat(rs, a, b[..n], t);
      Horner(Position(rs, a, t), Count(rs, b[..n]), Position(rs, b[..n], t), Rows(rs, b[n]), t[b[n]]);
    }
  }

  lemma Horner(p: nat, c: nat, q: nat, r: nat, x: nat)
    ensures (p * c + q) * r + x == p * (c * r) + (q * r + x)
  {
    MulAssoc(p, c, r);
    assert (p * c + q) * r == p * c * r + q * r;
  }

  lemma {:induction false} MulMono(a: nat, b: nat, r: nat)
    requires a <= b
    ensures a * r <= b * r
    decreases b
  {
    if a < b {
      MulMono(a, b - 1, r);
      assert b * r == (b - 1) * r + r;
    }
  }

  lemma Below(p: nat, n: nat, x: nat, r: nat)
    requires p < n && x < r
    ensures p * r + x < n * r
  {
    assert (p + 1) * r == p * r + r;
    MulMono(p + 1, n, r);
  }

  lemma {:induction false} PositionBelow<V>(rs: seq<Chunk<V>>, scope: seq<nat>, t: map<nat, nat>)
    requires forall c | c in scope :: c in t && t[c] < Rows(rs, c)
    ensures Position(rs, scope, t) < Count(rs, scope)
    decreases |scope|
  {
    if scope != [] {
      var n := |scope| - 1;
      PositionBelow(rs, scope[..n], t);
      Below(Position(rs, scope[..n], t), Count(rs, scope[..n]), t[scope[n]], Rows(rs, scope[n]));
    }
  }

  lemma MulZero(n: nat, r: nat)
    ensures r == 0 ==> n * r == 0
  {
  }

  lemma DivMod(i: nat, n: nat, r: nat)
    requires i < n * r
    ensures r > 0 && i == i / r * r + i % r && i / r < n && i % r < r
  {
    MulZero(n, r);
    if i / r >= n { MulMono(n, i / r, r); }
  }

  /** Every position is some tuple's. */
  lemma {:induction false} PositionOnto<V>(rs: seq<Chunk<V>>, scope: seq<nat>, i: nat, base: map<nat, nat>) returns (t: map<nat, nat>)
    requires NoRepeat(scope) && i < Count(rs, scope)
    ensures base.Keys <= t.Keys && (forall c | c in base && c !in scope :: t[c] == base[c])
    ensures forall c | c in scope :: c in t && t[c] < Rows(rs, c)
    ensures Position(rs, scope, t) == i
    decreases |scope|
  {
    if scope == [] {
      t := base;
    } else {
      var n := |scope| - 1;
      var r := Rows(rs, scope[n]);
      DivMod(i, Count(rs, scope[..n]), r);
      t := PositionOnto(rs, scope[..n], i / r, base[scope[n] := i % r]);
      assert scope[n] !in scope[..n];
    }
  }

  /** A position splits into quotient and remainder in one way. */
  lemma SplitUnique(p: nat, q: nat, i: nat, j: nat, r: nat)
    requires p * r + q == i * r + j && q < r && j < r
    ensures p == i && q == j
  {
    if p < i { Below(p, i, q, r); } else if i < p { Below(i, p, j, r); }
  }

  // ----- products of columns -----

  /** The place of row `j` under row `i`, for `n` rows each. */
  function Cell(i: nat, n: nat, j: nat): nat { i * n + j }

  lemma CellBelow(i: nat, m: nat, n: nat, j: nat)
    requires i < m && j < n
    ensures Cell(i, n, j) < m * n
  {
    Below(i, m, j, n);
  }

  lemma LastCell(m: nat, n: nat, j: nat)
    ensures Cell(m, n, j) == m * n + j
  {
  }

  lemma OneMoreRow(m: nat, n: nat, r: nat)
    requires m == n + 1
    ensures m * r == n * r + r
  {
  }

  lemma ProductUnfold<V>(k: Kernel<V>, op: Op, l: seq<V>, r: seq<V>)
    requires l != [] && Product(k, op, l, r).Some?
    ensures var n := |l| - 1;
            var rows, row := Product(k, op, l[..n], r), ApplyOp(k, op, [l[n]], true, r, false);
            rows.Some? && row.Some? && Product(k, op, l, r).value == rows.value + row.value
  {
  }

  ghost predicate RowAt<V>(k: Kernel<V>, op: Op, x: V, r: seq<V>, z: seq<V>, i: nat) {
    forall j | 0 <= j < |r| :: Cell(i, |r|, j) < |z| && k.bin(op, x, r[j]) == Some(z[Cell(i, |r|, j)])
  }

  ghost predicate IsProduct<V>(k: Kernel<V>, op: Op, l: seq<V>, r: seq<V>, z: seq<V>) {
    |z| == |l| * |r| && forall i | 0 <= i < |l| :: RowAt(k, op, l[i], r, z, i)
  }

  lemma {:induction false} ProductAt<V>(k: Kernel<V>, op: Op, l: seq<V>, r: seq<V>)
    requires Product(k, op, l, r).Some?
    ensures IsProduct(k, op, l, r, Product(k, op, l, r).value)
    decreases |l|
  {
    if l != [] {
      hide *;
      var n := |l| - 1;
      ProductUnfold(k, op, l, r);
      ProductAt(k, op, l[..n], r);
      SpreadRow(k, op, l[n], r);
      AppendRow(k, op, l, r, Product(k, op, l[..n], r).value, ApplyOp(k, op, [l[n]], true, r, false).value);
    }
  }

  lemma AppendRow<V>(k: Kernel<V>, op: Op, l: seq<V>, r: seq<V>, rows: seq<V>, row: seq<V>)
    requires l != [] && IsProduct(k, op, l[..|l| - 1], r, rows)
    requires |row| == |r| && forall j | 0 <= j < |r| :: k.bin(op, l[|l| - 1], r[j]) == Some(row[j])
    ensures IsProduct(k, op, l, r, rows + row)
  {
    var n := |l| - 1;
    hide RowAt;
    OneMoreRow(|l|, n, |r|);
    forall i | 0 <= i < |l| ensures RowAt(k, op, l[i], r, rows + row, i) {
      if i < n {
        assert l[..n][i] == l[i];
        OldRow(k, op, l[i], r, rows, row, i, n);
      } else {
        NewRow(k, op, l[n], r, rows, row, n);
      }
    }
  }

  lemma SpreadRow<V>(k: Kernel<V>, op: Op, x: V, r: seq<V>)
    requires ApplyOp(k, op, [x], true, r, false).Some?
    ensures var row := ApplyOp(k, op, [x], true, r, false).value;
            |row| == |r| && forall j | 0 <= j < |r| :: k.bin(op, x, r[j]) == Some(row[j])
  {
  }

  lemma OldRow<V>(k: Kernel<V>, op: Op, x: V, r: seq<V>, rows: seq<V>, row: seq<V>, i: nat, n: nat)
    requires i < n && |rows| == n * |r| && RowAt(k, op, x, r, rows, i)
    ensures RowAt(k, op, x, r, rows + row, i)
  {
    forall j | 0 <= j < |r|
      ensures Cell(i, |r|, j) < |rows + row| && k.bin(op, x, r[j]) == Some((rows + row)[Cell(i, |r|, j)])
    {
      CellBelow(i, n, |r|, j);
    }
  }

  lemma NewRow<V>(k: Kernel<V>, op: Op, x: V, r: seq<V>, rows: seq<V>, row: seq<V>, n: nat)
    requires |rows| == n * |r| && |row| == |r| && forall j | 0 <= j < |r| :: k.bin(op, x, r[j]) == Some(row[j])
    ensures RowAt(k, op, x, r, rows + row, n)
  {
    forall j | 0 <= j < |r|
      ensures Cell(n, |r|, j) < |rows + row| && k.bin(op, x, r[j]) == Some((rows + row)[Cell(n, |r|, j)])
    {
      LastCell(n, |r|, j);
    }
  }

  /** A product fails only at some pair. Logical operators can also fail on lengths. */
  lemma {:induction false} ProductFailsAt<V>(k: Kernel<V>, op: Op, l: seq<V>, r: seq<V>) returns (i: nat, j: nat)
    requires !IsLogic(op) && Product(k, op, l, r).None?
    ensures i < |l| && j < |r| && k.bin(op, l[i], r[j]).None?
    decreases |l|
  {
    var n := |l| - 1;
    if Product(k, op, l[..n], r).None? {
      i, j := ProductFailsAt(k, op, l[..n], r);
    } else {
      i := n;
      j :| j < |r| && k.bin(op, Repeat(l[n], |r|)[j], r[j]).None?;
    }
  }

  // ----- main theorem -----

  /** The column holds the value of every tuple at its row-major position; a flat result holds the one
      value there is at its current row. */
  ghost predicate Means<V>(k: Kernel<V>, e: Expr<V>, rs: seq<Chunk<V>>, o: Out<V>)
    requires RefsOk(e, rs) && ChunksOk(rs)
  {
    && OutOk(o) && (o.cur.None? <==> Scope(e, rs) != [])
    && (o.cur.None? ==> |o.col| == Count(rs, Scope(e, rs)))
    && forall t | Chooses(rs, t) :: MeansAt(k, e, rs, o, t)
  }

  ghost predicate MeansAt<V>(k: Kernel<V>, e: Expr<V>, rs: seq<Chunk<V>>, o: Out<V>, t: map<nat, nat>)
    requires RefsOk(e, rs) && ChunksOk(rs) && Chooses(rs, t) && OutOk(o)
  {
    && (forall c | c in Scope(e, rs) :: c in t)
    && var at := if o.cur.Some? then o.cur.value else Position(rs, Scope(e, rs), t);
       at < |o.col| && OnTuple(k, e, rs, t) == Some(o.col[at])
  }

  lemma ScopeInTuple<V>(e: Expr<V>, rs: seq<Chunk<V>>, t: map<nat, nat>)
    requires RefsOk(e, rs) && Chooses(rs, t)
    ensures forall c | c in Scope(e, rs) :: c in t && t[c] < Rows(rs, c)
  {
    ScopeUnflat(e, rs);
  }

  lemma RefMeans<V>(k: Kernel<V>, e: Expr<V>, rs: seq<Chunk<V>>)
    requires RefsOk(e, rs) && ChunksOk(rs) && e.Ref?
    ensures Means(k, e, rs, Evaluate(k, e, rs).value)
  {
    var c, i := e.chunk, e.col;
    var o := Evaluate(k, e, rs).value;
    assert ChunkOk(rs[c]);
    assert Count(rs, [c]) == Rows(rs, c) by { assert [c][..0] == []; }
    forall t | Chooses(rs, t) ensures MeansAt(k, e, rs, o, t) {
      if rs[c].cur.None? { assert Position(rs, [c], t) == t[c] by { assert [c][..0] == []; } }
    }
  }

  lemma UnaryMeans<V>(k: Kernel<V>, e: Expr<V>, rs: seq<Chunk<V>>, a: Out<V>, o: Out<V>)
    requires RefsOk(e, rs) && ChunksOk(rs) && e.Unary? && Means(k, e.arg, rs, a)
    requires MapUn(k, e.unop, a.col) == Some(o.col) && o.cur == a.cur
    ensures Means(k, e, rs, o)
  {
    forall t | Chooses(rs, t) ensures MeansAt(k, e, rs, o, t) {
      assert MeansAt(k, e.arg, rs, a, t);
    }
  }

  /** What a binary node does to one pair of operand rows. */
  lemma CombineAt<V>(k: Kernel<V>, op: Op, same: bool, l: Out<V>, r: Out<V>, o: Out<V>, i: nat, j: nat)
    requires OutOk(l) && OutOk(r) && Combine(k, op, same, l, r) == Some(o)
    requires i < |l.col| && j < |r.col| && (l.cur.Some? ==> i == l.cur.value) && (r.cur.Some? ==> j == r.cur.value)
    requires same && l.cur.None? && r.cur.None? ==> i == j
    ensures var at := if l.cur.Some? && r.cur.Some? then 0 else if l.cur.Some? then j else if r.cur.Some? || same then i
                      else Cell(i, |r.col|, j);
            at < |o.col| && k.bin(op, l.col[i], r.col[j]) == Some(o.col[at])
  {
    if l.cur.None? && r.cur.None? && !same {
      ProductAt(k, op, l.col, r.col);
      assert RowAt(k, op, l.col[i], r.col, o.col, i);
    }
  }

  /** The shape of a binary node's result. */
  lemma CombineShape<V>(k: Kernel<V>, op: Op, same: bool, l: Out<V>, r: Out<V>, o: Out<V>)
    requires OutOk(l) && OutOk(r) && Combine(k, op, same, l, r) == Some(o)
    ensures o.cur == if l.cur.Some? && r.cur.Some? then Some(0) else None
    ensures o.cur.None? ==>
              |o.col| == if l.cur.Some? then |r.col| else if r.cur.Some? || same then |l.col| else |l.col| * |r.col|
  {
    if l.cur.None? && r.cur.None? && !same { ProductAt(k, op, l.col, r.col); }
  }

  lemma BinaryMeans<V>(k: Kernel<V>, e: Expr<V>, rs: seq<Chunk<V>>, a: Out<V>, b: Out<V>, o: Out<V>)
    requires RefsOk(e, rs) && ChunksOk(rs) && e.Binary? && Means(k, e.left, rs, a) && Means(k, e.right, rs, b)
    requires Combine(k, e.op, SameChunk(e.left, e.right), a, b) == Some(o)
    requires SameChunk(e.left, e.right) ==> a.cur == b.cur
    ensures Means(k, e, rs, o)
  {
    var same := SameChunk(e.left, e.right);
    var sl, sr := Scope(e.left, rs), Scope(e.right, rs);
    CombineShape(k, e.op, same, a, b, o);
    CombineOk(k, e.op, same, a, b);
    CountConcat(rs, sl, sr);
    assert sl == [] ==> sl + sr == sr && Count(rs, sl) == 1;
    assert sr == [] ==> sl + sr == sl && Count(rs, sr) == 1;
    hide Combine, Count, Position;
    forall t | Chooses(rs, t) ensures MeansAt(k, e, rs, o, t) {
      BinaryAt(k, e, rs, a, b, o, t);
    }
  }

  lemma BinaryAt<V>(k: Kernel<V>, e: Expr<V>, rs: seq<Chunk<V>>, a: Out<V>, b: Out<V>, o: Out<V>, t: map<nat, nat>)
    requires RefsOk(e, rs) && ChunksOk(rs) && e.Binary? && Chooses(rs, t) && OutOk(o)
    requires OutOk(a) && OutOk(b) && (a.cur.None? <==> Scope(e.left, rs) != []) && (b.cur.None? <==> Scope(e.right, rs) != [])
    requires b.cur.None? ==> |b.col| == Count(rs, Scope(e.right, rs))
    requires MeansAt(k, e.left, rs, a, t) && MeansAt(k, e.right, rs, b, t)
    requires Combine(k, e.op, SameChunk(e.left, e.right), a, b) == Some(o)
    requires SameChunk(e.left, e.right) ==> a.cur == b.cur
    ensures MeansAt(k, e, rs, o, t)
  {
    hide Combine, Position, Count, Cell, Scope, OnTuple, Chooses, RefsOk, ChunksOk, Rows;
    BinaryParts(e, rs);
    var same := SameChunk(e.left, e.right);
    var sl, sr := Scope(e.left, rs), Scope(e.right, rs);
    var i := if a.cur.Some? then a.cur.value else Position(rs, sl, t);
    var j := if b.cur.Some? then b.cur.value else Position(rs, sr, t);
    CombineShape(k, e.op, same, a, b, o);
    PositionOfPair(e, rs, t);
    CombineAt(k, e.op, same, a, b, o, i, j);
    OnPair(k, e, rs, t, a.col[i], b.col[j]);
  }

  lemma BinaryParts<V>(e: Expr<V>, rs: seq<Chunk<V>>)
    requires RefsOk(e, rs) && e.Binary?
    ensures RefsOk(e.left, rs) && RefsOk(e.right, rs)
    ensures SameChunk(e.left, e.right) ==> Scope(e.left, rs) == Scope(e.right, rs)
  {
  }

  lemma OnPair<V>(k: Kernel<V>, e: Expr<V>, rs: seq<Chunk<V>>, t: map<nat, nat>, x: V, y: V)
    requires RefsOk(e, rs) && ChunksOk(rs) && Chooses(rs, t) && e.Binary?
    requires OnTuple(k, e.left, rs, t) == Some(x) && OnTuple(k, e.right, rs, t) == Some(y)
    ensures OnTuple(k, e, rs, t) == k.bin(e.op, x, y)
  {
  }

  /** Where a tuple of a binary node is, from where it is in the operands. */
  lemma PositionOfPair<V>(e: Expr<V>, rs: seq<Chunk<V>>, t: map<nat, nat>)
    requires RefsOk(e, rs) && e.Binary? && Chooses(rs, t)
    ensures forall c | c in Scope(e, rs) || c in Scope(e.left, rs) || c in Scope(e.right, rs) :: c in t
    ensures var sl, sr := Scope(e.left, rs), Scope(e.right, rs);
            Position(rs, Scope(e, rs), t) ==
              if sr == [] || SameChunk(e.left, e.right) then Position(rs, sl, t)
              else if sl == [] then Position(rs, sr, t)
              else Cell(Position(rs, sl, t), Count(rs, sr), Position(rs, sr, t))
  {
    var sl, sr := Scope(e.left, rs), Scope(e.right, rs);
    ScopeInTuple(e, rs, t);
    ScopeInTuple(e.left, rs, t);
    ScopeInTuple(e.right, rs, t);
    if !SameChunk(e.left, e.right) {
      PositionConcat(rs, sl, sr, t);
      assert sl == [] ==> sl + sr == sr;
      assert sr == [] ==> sl + sr == sl;
    }
  }

  /** Whenever the evaluator succeeds, its column means what the expression means tuple by tuple. */
  lemma {:induction false} EvaluationMeans<V>(k: Kernel<V>, e: Expr<V>, rs: seq<Chunk<V>>)
    requires RefsOk(e, rs) && ChunksOk(rs) && Evaluate(k, e, rs).Some?
    ensures Means(k, e, rs, Evaluate(k, e, rs).value)
    decreases e
  {
    var o := Evaluate(k, e, rs).value;
    match e
    case Ref(_, _) => RefMeans(k, e, rs);
    case Const(v) =>
    case Unary(op, x) =>
      EvaluationMeans(k, x, rs);
      UnaryMeans(k, e, rs, Evaluate(k, x, rs).value, o);
    case Binary(op, l, r) =>
      EvaluationMeans(k, l, rs);
      EvaluationMeans(k, r, rs);
      hide Means, Combine;
      BinaryMeans(k, e, rs, Evaluate(k, l, rs).value, Evaluate(k, r, rs).value, o);
  }

  /** Row `i` of an unflat result belongs to some tuple, when no chunk is used by two leaves. */
  lemma EveryRowIsATuple<V>(k: Kernel<V>, e: Expr<V>, rs: seq<Chunk<V>>, base: map<nat, nat>, i: nat) returns (t: map<nat, nat>)
    requires RefsOk(e, rs) && ChunksOk(rs) && Chooses(rs, base) && NoRepeat(Scope(e, rs)) && i < Count(rs, Scope(e, rs))
    ensures Chooses(rs, t) && (forall c | c in Scope(e, rs) :: c in t) && Position(rs, Scope(e, rs), t) == i
    ensures Evaluate(k, e, rs).Some? && Evaluate(k, e, rs).value.cur.None? ==>
              var col := Evaluate(k, e, rs).value.col; i < |col| && OnTuple(k, e, rs, t) == Some(col[i])
  {
    t := PositionOnto(rs, Scope(e, rs), i, base);
    forall c: nat | c < |rs| && rs[c].cur.None? ensures c in t && t[c] < Rows(rs, c) {
      if c !in Scope(e, rs) { assert t[c] == base[c]; }
    }
    if Evaluate(k, e, rs).Some? && Evaluate(k, e, rs).value.cur.None? {
      EvaluationMeans(k, e, rs);
      assert MeansAt(k, e, rs, Evaluate(k, e, rs).value, t);
    }
  }
}
