/** Result sets: counting the tuples a set of chunks stands for, and removing several chunks at once. */
module ResultSets {
  import opened Wrap
  import opened Counting
  import opened Factorized

  // ----- counting tuples -----

  /** The rows a chunk's filter keeps, or all of them. */
  function Cardinality<V>(rs: seq<Chunk<V>>, c: nat): nat {
    if c < |rs| && rs[c].mask.Some? then Ones(rs[c].mask.value) else Rows(rs, c)
  }

  /** A flat chunk, or a position with no chunk, does not multiply the count. */
  function Factor<V>(rs: seq<Chunk<V>>, c: nat): nat {
    if c < |rs| && rs[c].cur.None? then Cardinality(rs, c) else 1
  }

  function TupleCount<V>(rs: seq<Chunk<V>>, order: seq<nat>): nat
    decreases |order|
  {
    if order == [] then 1 else TupleCount(rs, order[..|order| - 1]) * Factor(rs, order[|order| - 1])
  }

  ghost predicate Lists(order: seq<nat>, s: set<nat>) {
    NoRepeat(order) && forall c :: c in order <==> c in s
  }

  /** Leaving one chunk out divides the count by its factor, wherever it stands. */
  lemma {:induction false} CountWithout<V>(rs: seq<Chunk<V>>, order: seq<nat>, i: nat)
    requires i < |order|
    ensures TupleCount(rs, order) == TupleCount(rs, order[..i] + order[i + 1..]) * Factor(rs, order[i])
    decreases |order|
  {
    var n := |order| - 1;
    if i == n {
      assert order[..i] + order[i + 1..] == order[..n];
    } else {
      var init := order[..n];
      CountWithout(rs, init, i);
      var rest := order[..i] + order[i + 1..];
      assert rest[|rest| - 1] == order[n] && rest[..|rest| - 1] == init[..i] + init[i + 1..];
      Swap(TupleCount(rs, rest[..|rest| - 1]), Factor(rs, order[i]), Factor(rs, order[n]));
    }
  }

  /** A flat chunk, wherever it stands in the order, does not change the count; an unflat one multiplies it by
      the rows its filter keeps. */
  lemma EachMultiplies<V>(rs: seq<Chunk<V>>, order: seq<nat>, i: nat)
    requires i < |order| && order[i] < |rs|
    ensures TupleCount(rs, order) == TupleCount(rs, order[..i] + order[i + 1..]) *
              if rs[order[i]].cur.Some? then 1
              else if rs[order[i]].mask.Some? then Ones(rs[order[i]].mask.value)
              else if rs[order[i]].cols == [] then 0 else |rs[order[i]].cols[0]|
  {
    CountWithout(rs, order, i);
  }

  lemma Swap(a: nat, b: nat, c: nat)
    ensures a * b * c == a * c * b
  {
  }

  lemma ListsWithout(order: seq<nat>, s: set<nat>, c: nat) returns (i: nat)
    requires Lists(order, s + {c}) && c !in s
    ensures i < |order| && order[i] == c && Lists(order[..i] + order[i + 1..], s)
  {
    assert c in order;
    i :| 0 <= i < |order| && order[i] == c;
    var rest := order[..i] + order[i + 1..];
    forall x ensures x in rest <==> x in s {
      if x in s {
        assert x in order;
        var j :| 0 <= j < |order| && order[j] == x;
        assert j != i && rest[if j < i then j else j - 1] == x;
      }
      if x in rest {
        var j :| 0 <= j < |rest| && rest[j] == x;
        assert order[if j < i then j else j + 1] == x;
      }
    }
  }

  lemma EmptyLists(order: seq<nat>, s: set<nat>)
    requires Lists(order, s)
    ensures order == [] <==> s == {}
  {
    assert |order| == 0 || order[0] in order;
  }

  /** One past the largest 64-bit word. */
  const WORD: nat := 0x1_0000_0000_0000_0000

  /** `n` is the count of the chunks in `s`, in any order, cut to 64 bits. */
  ghost predicate CountsAs<V>(rs: seq<Chunk<V>>, s: set<nat>, n: nat) {
    forall order | Lists(order, s) :: n == TupleCount(rs, order) % WORD
  }

  lemma CountNone<V>(rs: seq<Chunk<V>>)
    ensures CountsAs(rs, {}, 1)
  {
    forall order | Lists(order, {}) ensures 1 == TupleCount(rs, order) % WORD { EmptyLists(order, {}); }
  }

  /** Cutting before a multiplication changes nothing after it. */
  lemma CutTimes(a: nat, b: nat)
    ensures (a % WORD) * b % WORD == a * b % WORD
  {
    var q, r := a / WORD, a % WORD;
    Distribute(q, r, b);
    CutMultiple(r * b, q * b);
  }

  lemma Distribute(q: nat, r: nat, b: nat)
    ensures (WORD * q + r) * b == r * b + WORD * (q * b)
  {
  }

  lemma CutMultiple(x: nat, k: nat)
    ensures (x + WORD * k) % WORD == x % WORD
  {
  }

  lemma CountOneMore<V>(rs: seq<Chunk<V>>, done: set<nat>, c: nat, n: nat)
    requires CountsAs(rs, done, n) && c !in done
    ensures CountsAs(rs, done + {c}, n * Factor(rs, c) % WORD)
  {
    forall order | Lists(order, done + {c}) ensures n * Factor(rs, c) % WORD == TupleCount(rs, order) % WORD {
      var i := ListsWithout(order, done, c);
      CountWithout(rs, order, i);
      CutTimes(TupleCount(rs, order[..i] + order[i + 1..]), Factor(rs, c));
    }
  }

  lemma CountFlat<V>(rs: seq<Chunk<V>>, done: set<nat>, c: nat, n: nat)
    requires CountsAs(rs, done, n) && c !in done && Factor(rs, c) == 1 && n < WORD
    ensures CountsAs(rs, done + {c}, n)
  {
    CountOneMore(rs, done, c, n);
  }

  /** The product over the chunks in scope, taken in whatever order the set yields them. */
  method NumTuplesWithoutFactor<V>(rs: seq<Chunk<V>>, scope: set<nat>) returns (n: nat)
    requires scope != {}
    ensures CountsAs(rs, scope, n)
  {
    hide CountsAs;
    n := 1;
    var left := scope;
    assert scope - left == {};
    CountNone(rs);
    while left != {}
      invariant left <= scope && n < WORD && CountsAs(rs, scope - left, n)
      decreases |left|
    {
      var c :| c in left;
      assert scope - (left - {c}) == scope - left + {c};
      if c < |rs| && rs[c].cur.None? {
        CountOneMore(rs, scope - left, c, n);
        n := n * Cardinality(rs, c) % WORD;
      } else {
        CountFlat(rs, scope - left, c, n);
      }
      left := left - {c};
    }
    assert scope - left == scope;
  }

  /** No row of the chunk is filtered out. */
  predicate KeepsAll<V>(rs: seq<Chunk<V>>, c: nat) { Cardinality(rs, c) == Rows(rs, c) }

  /** Products of factors, one side at most the other. */
  lemma Products(a: nat, b: nat, x: nat, y: nat)
    requires a <= b && x <= y && b > 0 && y > 0
    ensures a * x <= b * y && (a * x == b * y <==> a == b && x == y)
    ensures b * y > 0
  {
  }

  lemma {:induction false} CountIs<V>(rs: seq<Chunk<V>>, scope: seq<nat>)
    requires forall c | c in scope :: c < |rs| && rs[c].cur.None? && Cardinality(rs, c) <= Rows(rs, c) && Rows(rs, c) > 0
    ensures TupleCount(rs, scope) <= Count(rs, scope) && Count(rs, scope) > 0
    ensures TupleCount(rs, scope) == Count(rs, scope) <==> forall c | c in scope :: KeepsAll(rs, c)
    decreases |scope|
  {
    if scope != [] {
      var n := |scope| - 1;
      CountIs(rs, scope[..n]);
      Products(TupleCount(rs, scope[..n]), Count(rs, scope[..n]), Cardinality(rs, scope[n]), Rows(rs, scope[n]));
      assert scope[n] in scope && forall c | c in scope :: c in scope[..n] || c == scope[n];
    }
  }

  lemma CardinalityBelow<V>(rs: seq<Chunk<V>>, c: nat)
    requires ChunksOk(rs) && c < |rs|
    ensures Cardinality(rs, c) <= Rows(rs, c)
  {
    assert ChunkOk(rs[c]);
  }

  /** Over non-empty chunks, an unflat result has as many rows as the tuple count, in whatever order that
      is taken, if and only if no chunk of the expression filters anything out. */
  lemma ResultSize<V>(k: Kernel<V>, e: Expr<V>, rs: seq<Chunk<V>>, s: set<nat>)
    requires RefsOk(e, rs) && ChunksOk(rs) && Lists(Scope(e, rs), s) && forall c | c in s :: Rows(rs, c) > 0
    requires Evaluate(k, e, rs).Some? && Evaluate(k, e, rs).value.cur.None?
    ensures |Evaluate(k, e, rs).value.col| == TupleCount(rs, Scope(e, rs)) <==> forall c | c in s :: KeepsAll(rs, c)
    ensures forall order | Lists(order, s) :: TupleCount(rs, order) == TupleCount(rs, Scope(e, rs))
  {
    EvaluationMeans(k, e, rs);
    ScopeUnflat(e, rs);
    forall c | c in Scope(e, rs) ensures Cardinality(rs, c) <= Rows(rs, c) { CardinalityBelow(rs, c); }
    CountIs(rs, Scope(e, rs));
    forall order | Lists(order, s) ensures TupleCount(rs, order) == TupleCount(rs, Scope(e, rs)) {
      SameCount(rs, order, Scope(e, rs), s);
    }
  }

  lemma {:induction false} SameCount<V>(rs: seq<Chunk<V>>, a: seq<nat>, b: seq<nat>, s: set<nat>)
    requires Lists(a, s) && Lists(b, s)
    ensures TupleCount(rs, a) == TupleCount(rs, b)
    decreases |a|
  {
    if a == [] {
      EmptyLists(a, s);
      EmptyLists(b, s);
    } else {
      var c := a[|a| - 1];
      var s' := s - {c};
      assert c in a && s' + {c} == s;
      var i := ListsWithout(a, s', c);
      var j := ListsWithout(b, s', c);
      CountWithout(rs, a, i);
      CountWithout(rs, b, j);
      SameCount(rs, a[..i] + a[i + 1..], b[..j] + b[j + 1..], s');
    }
  }

  // ----- removing chunks -----

  /** The last chunk takes the removed one's place. */
  function SwapRemove<T>(s: seq<T>, p: nat): seq<T> {
    if p < |s| then s[p := s[|s| - 1]][..|s| - 1] else s
  }

  lemma SwapRemoveParts<T>(s: seq<T>, p: nat)
    requires p < |s| - 1
    ensures s == s[..p] + [s[p]] + s[p + 1..|s| - 1] + [s[|s| - 1]]
    ensures SwapRemove(s, p) == s[..p] + [s[|s| - 1]] + s[p + 1..|s| - 1]
  {
  }

  lemma SwapRemoveLast<T>(s: seq<T>)
    requires s != []
    ensures s == s[..|s| - 1] + [s[|s| - 1]] && SwapRemove(s, |s| - 1) == s[..|s| - 1]
  {
  }

  lemma SwapRemoveBag<T>(s: seq<T>, p: nat)
    requires p < |s|
    ensures multiset(SwapRemove(s, p)) + multiset{s[p]} == multiset(s)
  {
    hide SwapRemove;
    var n := |s| - 1;
    if p < n {
      SwapRemoveParts(s, p);
      Replaced(s[..p], s[p], s[p + 1..n], s[n]);
    } else {
      SwapRemoveLast(s);
    }
  }

  lemma Replaced<T>(a: seq<T>, x: T, b: seq<T>, y: T)
    ensures multiset(a + [x] + b + [y]) == multiset(a + [y] + b) + multiset{x}
  {
  }

  lemma SwapRemoveKeeps<T>(s: seq<T>, p: nat)
    requires p < |s|
    ensures |SwapRemove(s, p)| == |s| - 1 && forall i | 0 <= i < p :: SwapRemove(s, p)[i] == s[i]
  {
  }

  ghost predicate NonIncreasing(ps: seq<nat>) { forall i, j | 0 <= i < j < |ps| :: ps[i] >= ps[j] }

  function InsertDesc(p: nat, ps: seq<nat>): seq<nat> {
    if ps == [] || p >= ps[0] then [p] + ps else [ps[0]] + InsertDesc(p, ps[1..])
  }

  /** Highest position first. */
  function SortDesc(ps: seq<nat>): seq<nat> { if ps == [] then [] else InsertDesc(ps[0], SortDesc(ps[1..])) }

  lemma ConsNonIncreasing(x: nat, ps: seq<nat>)
    requires NonIncreasing(ps) && forall y | y in ps :: y <= x
    ensures NonIncreasing([x] + ps)
  {
    var all := [x] + ps;
    forall i, j | 0 <= i < j < |all| ensures all[i] >= all[j] {
      assert all[j] == ps[j - 1] && ps[j - 1] in ps;
      if i > 0 { assert all[i] == ps[i - 1]; }
    }
  }

  lemma {:induction false} InsertDescSorts(p: nat, ps: seq<nat>)
    requires NonIncreasing(ps)
    ensures NonIncreasing(InsertDesc(p, ps)) && multiset(InsertDesc(p, ps)) == multiset(ps) + multiset{p}
    ensures forall y | y in InsertDesc(p, ps) :: y == p || y in ps
    decreases |ps|
  {
    if ps == [] || p >= ps[0] {
      forall y | y in ps ensures y <= p { }
      ConsNonIncreasing(p, ps);
    } else {
      InsertDescSorts(p, ps[1..]);
      assert ps == [ps[0]] + ps[1..];
      hide InsertDesc;
      ConsNonIncreasing(ps[0], InsertDesc(p, ps[1..]));
    }
  }

  lemma {:induction false} SortDescSorts(ps: seq<nat>)
    ensures NonIncreasing(SortDesc(ps)) && multiset(SortDesc(ps)) == multiset(ps)
    decreases |ps|
  {
    if ps != [] {
      SortDescSorts(ps[1..]);
      InsertDescSorts(ps[0], SortDesc(ps[1..]));
      assert ps == [ps[0]] + ps[1..];
    }
  }

  function RemoveEach<T>(s: seq<T>, ps: seq<nat>): seq<T>
    decreases |ps|
  {
    if ps == [] then s else SwapRemove(RemoveEach(s, ps[..|ps| - 1]), ps[|ps| - 1])
  }

  /** Sort the positions, then remove each in turn. */
  method RemoveMultiple<T>(s: seq<T>, positions: seq<nat>) returns (r: seq<T>)
    ensures r == RemoveEach(s, SortDesc(positions))
  {
    r := s;
    if positions == [] { return; }
    var sorted := SortDesc(positions);
    var k := 0;
    while k < |sorted|
      invariant 0 <= k <= |sorted| && r == RemoveEach(s, sorted[..k])
    {
      assert sorted[..k + 1][..k] == sorted[..k];
      r := SwapRemove(r, sorted[k]);
      k := k + 1;
    }
    assert sorted[..|sorted|] == sorted;
  }

  // ----- what goes -----

  /** The bag of elements at positions below `n` that are not listed, and how many there are. */
  ghost function Rest<T>(s: seq<T>, ps: seq<nat>, n: nat): multiset<T>
    requires n <= |s|
  {
    if n == 0 then multiset{} else Rest(s, ps, n - 1) + (if n - 1 in ps then multiset{} else multiset{s[n - 1]})
  }

  ghost function Left(ps: seq<nat>, n: nat): nat {
    if n == 0 then 0 else Left(ps, n - 1) + (if n - 1 in ps then 0 else 1)
  }

  lemma {:induction false} RestSize<T>(s: seq<T>, ps: seq<nat>, n: nat)
    requires n <= |s|
    ensures |Rest(s, ps, n)| == Left(ps, n)
  {
    if n > 0 { RestSize(s, ps, n - 1); }
  }

  lemma {:induction false} RestSame<T>(s: seq<T>, ps: seq<nat>, p: nat, n: nat)
    requires n <= |s| && (p >= n || p in ps)
    ensures Rest(s, ps, n) == Rest(s, ps + [p], n) && Left(ps, n) == Left(ps + [p], n)
  {
    if n > 0 { RestSame(s, ps, p, n - 1); }
  }

  /** Listing one more position takes its element out of the rest. */
  lemma {:induction false} RestLess<T>(s: seq<T>, ps: seq<nat>, p: nat, n: nat)
    requires p < n <= |s| && p !in ps
    ensures Rest(s, ps, n) == Rest(s, ps + [p], n) + multiset{s[p]} && Left(ps, n) == Left(ps + [p], n) + 1
  {
    var more := ps + [p];
    if p == n - 1 {
      RestSame(s, ps, p, n - 1);
      assert p in more;
    } else {
      RestLess(s, ps, p, n - 1);
      assert n - 1 in more <==> n - 1 in ps;
      Reorder(Rest(s, more, n - 1), multiset{s[p]}, if n - 1 in ps then multiset{} else multiset{s[n - 1]});
    }
  }

  lemma Reorder<T>(a: multiset<T>, x: multiset<T>, c: multiset<T>)
    ensures (a + x) + c == (a + c) + x
  {
  }

  /** With every listed position at `p` or above: how many are left, and when just the ones below `p` are. */
  lemma {:induction false} LeftAbove(ps: seq<nat>, p: nat, n: nat)
    requires forall x | x in ps :: x >= p
    ensures n <= p ==> Left(ps, n) == n
    ensures n > p ==> Left(ps, n) >= p && (p !in ps ==> Left(ps, n) > p)
    ensures n > p && p in ps ==> (Left(ps, n) == p <==> forall q | p < q < n :: q in ps)
  {
    if n > 0 { LeftAbove(ps, p, n - 1); }
  }

  /** A repeated position below some element that is not listed. */
  ghost predicate Harmful(ps: seq<nat>, n: nat) {
    exists p, q :: p < q < n && multiset(ps)[p] >= 2 && q !in ps
  }

  /** After removing `ps`: without harm, exactly the listed elements are gone and those below the last
      position are in place; with harm, too many are gone, but all below it are still there. */
  ghost predicate Outcome<T>(s: seq<T>, ps: seq<nat>, r: seq<T>) {
    && (ps != [] ==> |r| >= ps[|ps| - 1] || |r| == |s|)
    && |r| <= |s|
    && if Harmful(ps, |s|) then |r| < Left(ps, |s|)
       else
         && multiset(r) == Rest(s, ps, |s|) && |r| == Left(ps, |s|)
         && forall i | 0 <= i < |s| && (ps == [] || i < ps[|ps| - 1]) :: i < |r| && r[i] == s[i]
  }

  /** What one more position adds to the harm: it repeats the last, below an element not listed. */
  lemma HarmStep(ps: seq<nat>, p: nat, n: nat)
    requires NonIncreasing(ps + [p])
    ensures Harmful(ps + [p], n) <==>
              Harmful(ps, n) || (p in ps && p < n && exists q :: p < q < n && q !in ps)
  {
    var more := ps + [p];
    assert forall x | x in ps :: x >= p by {
      forall x | x in ps ensures x >= p {
        var i :| 0 <= i < |ps| && ps[i] == x;
        assert more[i] >= more[|ps|];
      }
    }
    assert multiset(more) == multiset(ps) + multiset{p};
    if Harmful(ps, n) {
      var x, q :| x < q < n && multiset(ps)[x] >= 2 && q !in ps;
      assert x in ps && q !in more && multiset(more)[x] >= 2;
    }
    if p in ps && p < n && exists q :: p < q < n && q !in ps {
      var q :| p < q < n && q !in ps;
      assert multiset(more)[p] >= 2 && q !in more;
    }
    if Harmful(more, n) {
      var x, q :| x < q < n && multiset(more)[x] >= 2 && q !in more;
      assert q !in ps;
      if x == p { assert p in multiset(ps); } else { assert multiset(ps)[x] >= 2; }
    }
  }

  /** A new position in range: its own element goes. */
  lemma RemoveNew<T>(s: seq<T>, ps: seq<nat>, r: seq<T>, p: nat)
    requires Outcome(s, ps, r) && NonIncreasing(ps + [p]) && p !in ps && p < |s|
    ensures Outcome(s, ps + [p], SwapRemove(r, p))
  {
    var n := |s|;
    HarmStep(ps, p, n);
    RestLess(s, ps, p, n);
    Above(ps, p);
    LeftAbove(ps, p, n);
    assert ps != [] ==> ps[|ps| - 1] in ps && p < ps[|ps| - 1];
    assert p < |r|;
    SwapRemoveKeeps(r, p);
    assert (ps + [p])[|ps|] == p;
    if !Harmful(ps, n) { BagWithout(s, ps, r, p); }
    hide SwapRemove, Rest, Left, Harmful, NonIncreasing;
  }

  lemma BagWithout<T>(s: seq<T>, ps: seq<nat>, r: seq<T>, p: nat)
    requires p < |s| && p < |r| && s[p] == r[p] && p !in ps && multiset(r) == Rest(s, ps, |s|)
    ensures multiset(SwapRemove(r, p)) == Rest(s, ps + [p], |s|)
  {
    RestLess(s, ps, p, |s|);
    SwapRemoveBag(r, p);
    hide SwapRemove, Rest;
    Unmerge(multiset(SwapRemove(r, p)), Rest(s, ps + [p], |s|), multiset{s[p]});
  }

  lemma Unmerge<T>(a: multiset<T>, b: multiset<T>, x: multiset<T>)
    requires a + x == b + x
    ensures a == b
  {
    assert (a + x) - x == a && (b + x) - x == b;
  }

  lemma Above(ps: seq<nat>, p: nat)
    requires NonIncreasing(ps + [p])
    ensures forall x | x in ps :: x >= p
    ensures p in ps ==> ps[|ps| - 1] == p
  {
    var more := ps + [p];
    forall x | x in ps ensures x >= p && (x == p ==> ps[|ps| - 1] == p) {
      var i :| 0 <= i < |ps| && ps[i] == x;
      assert more[i] >= more[|ps|] && more[|ps| - 1] >= more[|ps|];
      if i < |ps| - 1 { assert more[i] >= more[|ps| - 1]; }
    }
  }

  /** A repeated position: nothing goes when everything above it is listed, else one too many. */
  lemma RemoveAgain<T>(s: seq<T>, ps: seq<nat>, r: seq<T>, p: nat)
    requires Outcome(s, ps, r) && NonIncreasing(ps + [p]) && p in ps && p < |s|
    ensures Outcome(s, ps + [p], SwapRemove(r, p))
  {
    var n := |s|;
    HarmStep(ps, p, n);
    RestSame(s, ps, p, n);
    Above(ps, p);
    LeftAbove(ps, p, n);
    assert (ps + [p])[|ps|] == p;
    if p < |r| { SwapRemoveKeeps(r, p); }
  }

  /** A position past the end: nothing goes. */
  lemma RemoveNothing<T>(s: seq<T>, ps: seq<nat>, r: seq<T>, p: nat)
    requires Outcome(s, ps, r) && NonIncreasing(ps + [p]) && p >= |s|
    ensures Outcome(s, ps + [p], SwapRemove(r, p))
  {
    HarmStep(ps, p, |s|);
    RestSame(s, ps, p, |s|);
    Above(ps, p);
    assert (ps + [p])[|ps|] == p;
    if ps != [] { assert ps[|ps| - 1] in ps; }
  }

  lemma {:induction false} RestAll<T>(s: seq<T>, n: nat)
    requires n <= |s|
    ensures Rest(s, [], n) == multiset(s[..n]) && Left([], n) == n
  {
    if n > 0 {
      RestAll(s, n - 1);
      assert s[..n] == s[..n - 1] + [s[n - 1]];
    }
  }

  lemma {:induction false} Outcomes<T>(s: seq<T>, ps: seq<nat>)
    requires NonIncreasing(ps)
    ensures Outcome(s, ps, RemoveEach(s, ps))
    decreases |ps|
  {
    if ps == [] {
      RestAll(s, |s|);
      assert s[..|s|] == s;
    } else {
      var init, p := ps[..|ps| - 1], ps[|ps| - 1];
      assert ps == init + [p];
      Outcomes(s, init);
      hide Outcome;
      if p >= |s| { RemoveNothing(s, init, RemoveEach(s, init), p); }
      else if p in init { RemoveAgain(s, init, RemoveEach(s, init), p); }
      else { RemoveNew(s, init, RemoveEach(s, init), p); }
    }
  }

  lemma {:induction false} SameListed<T>(s: seq<T>, ps: seq<nat>, qs: seq<nat>, n: nat)
    requires n <= |s| && forall x :: x in ps <==> x in qs
    ensures Rest(s, ps, n) == Rest(s, qs, n) && Left(ps, n) == Left(qs, n)
  {
    if n > 0 { SameListed(s, ps, qs, n - 1); }
  }

  /** Exactly the chunks at the given positions go if and only if no repeated position lies below a chunk
      that is to stay; otherwise more go. */
  lemma RemovesExactlyIff<T>(s: seq<T>, positions: seq<nat>)
    ensures var r := RemoveEach(s, SortDesc(positions));
            && (multiset(r) == Rest(s, positions, |s|) <==> !Harmful(positions, |s|))
            && (Harmful(positions, |s|) ==> |r| < Left(positions, |s|))
  {
    var sorted := SortDesc(positions);
    SortDescSorts(positions);
    assert forall x :: x in positions <==> x in multiset(positions);
    assert forall x :: x in sorted <==> x in multiset(sorted);
    SameListed(s, positions, sorted, |s|);
    Outcomes(s, sorted);
    RestSize(s, positions, |s|);
    assert Harmful(positions, |s|) <==> Harmful(sorted, |s|);
    var r := RemoveEach(s, sorted);
    assert |multiset(r)| == |r|;
  }

  /** Removing position 0 twice from three chunks: the last one, moved into place 0, goes as well. */
  lemma RepeatRemovesAnother()
    ensures RemoveEach([10, 20, 30], SortDesc([0, 0])) == [20]
  {
  }
}
