/**
  Log sequence numbers under interleaving: a number is drawn in one step and its entry appended in a
  later one, so entries may reach the file out of order. The file remembers only the number appended last.
 */
module LsnOrder {
  /** `open` are the numbers drawn and not yet appended; `last` is what the file header holds. */
  datatype Lsns = Lsns(next: nat, open: set<nat>, stored: seq<nat>, last: nat)

  /** Reopening seeds the counter from the header. Recovery of the graph then replays the stored entries
      in ascending order and sets the counter past each. */
  datatype Act = Allocate | Append(lsn: nat) | Reopen | Recover

  const NEW := Lsns(1, {}, [], 0)

  function Greatest(stored: seq<nat>): (g: nat)
    requires stored != []
    ensures g in stored && forall l | l in stored :: l <= g
  {
    if |stored| == 1 then stored[0]
    else
      assert stored == [stored[0]] + stored[1..];
      var g := Greatest(stored[1..]);
      if stored[0] > g then stored[0] else g
  }

  function Do(x: Lsns, act: Act): Lsns {
    match act
    case Allocate => x.(next := x.next + 1, open := x.open + {x.next})
    case Append(l) => if l in x.open then x.(open := x.open - {l}, stored := x.stored + [l], last := l) else x
    case Reopen => x.(next := x.last + 1, open := {})
    case Recover => x.(next := if x.stored == [] then x.last + 1 else Greatest(x.stored) + 1, open := {})
  }

  function Run(x: Lsns, acts: seq<Act>): Lsns
    decreases |acts|
  {
    if acts == [] then x else Run(Do(x, acts[0]), acts[1..])
  }

  ghost predicate Distinct(stored: seq<nat>) { forall i, j | 0 <= i < j < |stored| :: stored[i] != stored[j] }

  /** The entry with the greatest number was appended last. */
  ghost predicate InOrder(x: Lsns) { forall l | l in x.stored :: l <= x.last }

  /** Whenever the file is reopened without recovery, it is in order. */
  ghost predicate ReopensInOrder(x: Lsns, acts: seq<Act>)
    decreases |acts|
  {
    acts == [] || ((acts[0].Reopen? ==> InOrder(x)) && ReopensInOrder(Do(x, acts[0]), acts[1..]))
  }

  /** No number is stored twice, and none drawn from now on is stored or being appended already. */
  ghost predicate Unique(x: Lsns) {
    && Distinct(x.stored)
    && (forall l | l in x.stored :: l < x.next && l !in x.open)
    && (forall l | l in x.open :: l < x.next)
  }

  lemma StepUnique(x: Lsns, act: Act)
    requires Unique(x) && (act.Reopen? ==> InOrder(x))
    ensures Unique(Do(x, act))
  {
  }

  lemma {:induction false} RunUnique(x: Lsns, acts: seq<Act>)
    requires Unique(x) && ReopensInOrder(x, acts)
    ensures Unique(Run(x, acts))
    decreases |acts|
  {
    if acts != [] {
      StepUnique(x, acts[0]);
      RunUnique(Do(x, acts[0]), acts[1..]);
    }
  }

  /** Drawing numbers until `l` has been drawn. */
  lemma {:induction false} DrawUpTo(x: Lsns, l: nat) returns (acts: seq<Act>)
    requires x.next <= l
    ensures var y := Run(x, acts); l in y.open && y.stored == x.stored && ReopensInOrder(x, acts)
    ensures forall act | act in acts :: act == Allocate
    decreases l - x.next
  {
    if x.next == l {
      acts := [Allocate];
      assert acts[1..] == [];
    } else {
      var rest := DrawUpTo(Do(x, Allocate), l);
      acts := [Allocate] + rest;
      assert acts[1..] == rest;
    }
  }

  lemma {:induction false} RunConcat(x: Lsns, a: seq<Act>, b: seq<Act>)
    ensures Run(x, a + b) == Run(Run(x, a), b)
    ensures ReopensInOrder(x, a) && ReopensInOrder(Run(x, a), b) ==> ReopensInOrder(x, a + b)
    decreases |a|
  {
    if a == [] {
      assert a + b == b;
    } else {
      assert (a + b)[1..] == a[1..] + b;
      RunConcat(Do(x, a[0]), a[1..], b);
    }
  }

  /** After a reopening, stored numbers stay distinct however threads draw and append from then on, if and
      only if the file was in order: a number above the header's would be drawn and stored again. */
  lemma ReopenSafeIff(acts: seq<Act>)
    requires ReopensInOrder(NEW, acts)
    ensures var x := Run(NEW, acts);
            InOrder(x) <==>
            forall more | ReopensInOrder(Do(x, Reopen), more) :: Distinct(Run(Do(x, Reopen), more).stored)
  {
    RunUnique(NEW, acts);
    var x := Run(NEW, acts);
    var y := Do(x, Reopen);
    if InOrder(x) {
      forall more | ReopensInOrder(y, more) ensures Distinct(Run(y, more).stored) {
        StepUnique(x, Reopen);
        RunUnique(y, more);
      }
    } else {
      var more := Reissue(x);
    }
  }

  lemma Reissue(x: Lsns) returns (more: seq<Act>)
    requires !InOrder(x)
    ensures ReopensInOrder(Do(x, Reopen), more) && !Distinct(Run(Do(x, Reopen), more).stored)
  {
    var l :| l in x.stored && l > x.last;
    var y := Do(x, Reopen);
    var draws := DrawUpTo(y, l);
    RunConcat(y, draws, [Append(l)]);
    more := draws + [Append(l)];
    var z := Run(y, draws);
    assert [Append(l)][1..] == [];
    assert ReopensInOrder(Do(z, Append(l)), []);
    assert Run(Do(z, Append(l)), []) == Do(z, Append(l));
    var got := Do(z, Append(l)).stored;
    var i :| 0 <= i < |x.stored| && x.stored[i] == l;
    assert got == x.stored + [l] && got[i] == got[|x.stored|];
  }

  /** Recovery of the graph repairs the counter whatever the order was. */
  lemma RecoverySafe(acts: seq<Act>, more: seq<Act>)
    requires ReopensInOrder(NEW, acts) && ReopensInOrder(Do(Run(NEW, acts), Recover), more)
    ensures Distinct(Run(Do(Run(NEW, acts), Recover), more).stored)
  {
    RunUnique(NEW, acts);
    StepUnique(Run(NEW, acts), Recover);
    RunUnique(Do(Run(NEW, acts), Recover), more);
  }

  /** Both set the counter to a successor: reopening of the number appended last, recovery of the greatest stored. */
  lemma Seeded(x: Lsns)
    ensures Do(x, Reopen).next == x.last + 1 && Do(x, Reopen).open == {}
    ensures var y := Do(x, Recover);
            && y.open == {} && (forall l | l in x.stored :: l < y.next)
            && if x.stored == [] then y.next == x.last + 1 else exists l :: l in x.stored && y.next == l + 1
  {
  }

  /** Numbers 5 and 6 appended as 6, then 5: a reopened provider draws 6 again. */
  lemma OutOfOrderReissues()
    ensures var x := Lsns(7, {5, 6}, [], 4);
            var y := Do(Do(x, Append(6)), Append(5));
            6 in y.stored && Do(Do(y, Reopen), Allocate).open == {6}
  {
  }
}
