/**
  The timestamp generators under every interleaving of their threads: a counter advanced by
  compare-exchange loops that may fail spuriously, and raised by atomic maximum.
 */
module Timestamps {
  import opened Wrap
  import opened Stamps

  /** Inside `next` a thread holds the counter value it last saw. */
  datatype Thread = Idle | Saw(cur: nat)

  datatype Kind = CommitKind | TxnKind

  datatype Gen = Gen(kind: Kind, counter: nat, threads: map<nat, Thread>, issued: seq<nat>)

  /** No value is issued from here on. */
  function Limit(kind: Kind): nat { if kind.CommitKind? then MAX_COMMIT_TS else U64_MAX }

  predicate InDomain(kind: Kind, ts: nat) { IsTxnId(ts) <==> kind.TxnKind? }

  function New(kind: Kind): Gen {
    Gen(kind, if kind.CommitKind? then 1 else TXN_ID_START + 1, map[], [])
  }

  function WithStart(kind: Kind, start: nat): Gen { Gen(kind, start, map[], []) }

  /** The atomic actions: the first load, one turn of the compare-exchange loop, and a raise. */
  datatype Act =
    | Load(th: nat)
    | Exchange(th: nat, spurious: bool)
    | Raise(ts: nat)

  datatype Outcome = Nothing | Issued(ts: nat) | Overflow(ts: nat) | WrongDomain(ts: nat)

  function ThreadOf(g: Gen, th: nat): Thread { if th in g.threads then g.threads[th] else Idle }

  function Max(a: nat, b: nat): nat { if a > b then a else b }

  function Step(g: Gen, a: Act): (Gen, Outcome) {
    match a
    case Load(th) =>
      if ThreadOf(g, th).Idle? then (g.(threads := g.threads[th := Saw(g.counter)]), Nothing) else (g, Nothing)
    case Exchange(th, spurious) =>
      (match ThreadOf(g, th)
       case Idle => (g, Nothing)
       case Saw(cur) =>
         if cur >= Limit(g.kind) then (g.(threads := g.threads[th := Idle]), Overflow(cur))
         else if g.counter == cur && !spurious then
           (g.(counter := cur + 1, threads := g.threads[th := Idle], issued := g.issued + [cur]), Issued(cur))
         else (g.(threads := g.threads[th := Saw(g.counter)]), Nothing))
    case Raise(ts) =>
      if !InDomain(g.kind, ts) then (g, WrongDomain(ts))
      else if ts >= Limit(g.kind) then (g, Overflow(ts))
      else (g.(counter := Max(g.counter, ts + 1)), Nothing)
  }

  function Run(g: Gen, acts: seq<Act>): Gen
    decreases |acts|
  {
    if acts == [] then g else Run(Step(g, acts[0]).0, acts[1..])
  }

  ghost predicate Increasing(s: seq<nat>) { forall i, j | 0 <= i < j < |s| :: s[i] < s[j] }

  /** Everything issued is below the counter; what a thread saw is not above it. */
  ghost predicate Inv(g: Gen) {
    && Increasing(g.issued) && (forall i | 0 <= i < |g.issued| :: g.issued[i] < g.counter && g.issued[i] < Limit(g.kind))
    && (forall th | th in g.threads && g.threads[th].Saw? :: g.threads[th].cur <= g.counter)
  }

  lemma {:induction false} StepKeeps(g: Gen, a: Act)
    requires Inv(g)
    ensures var g' := Step(g, a).0;
            && Inv(g') && g'.kind == g.kind && g.counter <= g'.counter
            && (g.counter <= Limit(g.kind) ==> g'.counter <= Limit(g.kind))
            && (g'.issued == g.issued || (g'.issued == g.issued + [g.counter] && g'.counter == g.counter + 1))
  {
  }

  /** A step reports a value exactly when it issues that value. */
  lemma ReportsIssued(g: Gen, a: Act, ts: nat)
    ensures Step(g, a).1 == Issued(ts) <==> Step(g, a).0.issued == g.issued + [ts]
  {
    assert g.issued + [ts] != g.issued;
    if Step(g, a).1.Issued? {
      var cur := Step(g, a).1.ts;
      assert (g.issued + [ts])[|g.issued|] == ts && (g.issued + [cur])[|g.issued|] == cur;
    }
  }

  /** Without raises nothing is skipped: the values issued are the start and its successors. */
  lemma {:induction false} Consecutive(g: Gen, start: nat, acts: seq<Act>)
    requires g.counter == start + |g.issued| && forall i | 0 <= i < |g.issued| :: g.issued[i] == start + i
    requires (forall a | a in acts :: !a.Raise?) && Inv(g)
    ensures var g' := Run(g, acts);
            g'.counter == start + |g'.issued| && forall i | 0 <= i < |g'.issued| :: g'.issued[i] == start + i
    decreases |acts|
  {
    if acts != [] {
      assert acts[0] in acts && forall a | a in acts[1..] :: a in acts;
      StepKeeps(g, acts[0]);
      assert !acts[0].Raise?;
      SameOrNext(g, acts[0]);
      hide Step, Inv;
      Consecutive(Step(g, acts[0]).0, start, acts[1..]);
    }
  }

  /** A new generator issues its domain's first value and those that follow, one after the other. */
  lemma FromTheFirst(kind: Kind, acts: seq<Act>)
    requires forall a | a in acts :: !a.Raise?
    ensures var issued := Run(New(kind), acts).issued;
            forall i | 0 <= i < |issued| :: issued[i] == (if kind.CommitKind? then 1 else TXN_ID_START + 1) + i
  {
    Consecutive(New(kind), New(kind).counter, acts);
  }

  /** A call that returned, with a value or an overflow, holds nothing any more. */
  lemma ReturnsIdle(g: Gen, th: nat, spurious: bool)
    ensures var (g', r) := Step(g, Exchange(th, spurious));
            (r.Issued? || r.Overflow?) ==> ThreadOf(g', th).Idle?
  {
  }

  lemma SameOrNext(g: Gen, a: Act)
    requires !a.Raise?
    ensures var g' := Step(g, a).0;
            (g'.issued == g.issued && g'.counter == g.counter) || (g'.issued == g.issued + [g.counter] && g'.counter == g.counter + 1)
  {
  }

  /** From any state on: what is issued from now is at or above the counter, and in order. */
  lemma {:induction false} RunKeeps(g: Gen, acts: seq<Act>)
    requires Inv(g)
    ensures var g' := Run(g, acts);
            && Inv(g') && g'.kind == g.kind && g.counter <= g'.counter
            && (g.counter <= Limit(g.kind) ==> g'.counter <= Limit(g.kind))
            && |g.issued| <= |g'.issued| && g'.issued[..|g.issued|] == g.issued
            && (forall i | |g.issued| <= i < |g'.issued| :: g'.issued[i] >= g.counter)
    decreases |acts|
  {
    if acts != [] {
      StepKeeps(g, acts[0]);
      var g1 := Step(g, acts[0]).0;
      hide Step, Inv;
      RunKeeps(g1, acts[1..]);
      var g' := Run(g1, acts[1..]);
      assert g'.issued[..|g.issued|] == g'.issued[..|g1.issued|][..|g.issued|];
      forall i | |g.issued| <= i < |g'.issued| ensures g'.issued[i] >= g.counter {
        if i < |g1.issued| { assert g'.issued[i] == g'.issued[..|g1.issued|][i]; }
      }
    }
  }

  /** No value is issued twice, in issue order they strictly increase, and each is in its generator's
      own domain, so no commit timestamp is ever a transaction id. The counter never wraps. */
  lemma IssuedOnceInOrder(kind: Kind, acts: seq<Act>)
    ensures var g := Run(New(kind), acts);
            && Increasing(g.issued) && (forall i | 0 <= i < |g.issued| :: InDomain(kind, g.issued[i]) && g.issued[i] > 0)
            && g.counter <= Limit(kind) && IsTxnId(U64_MAX) && !IsTxnId(MAX_COMMIT_TS)
  {
    RunKeeps(New(kind), acts);
  }

  lemma DomainsDisjoint(a: seq<Act>, b: seq<Act>)
    ensures forall x | x in Run(New(CommitKind), a).issued :: x !in Run(New(TxnKind), b).issued
  {
    IssuedOnceInOrder(CommitKind, a);
    IssuedOnceInOrder(TxnKind, b);
  }

  /** Whatever ran before, nothing issued after a raise to `ts` that did not fail is at most `ts`. */
  lemma RaisedBeyond(g: Gen, ts: nat, acts: seq<Act>)
    requires Inv(g) && Step(g, Raise(ts)).1 == Nothing
    ensures var g' := Run(Step(g, Raise(ts)).0, acts);
            && |g.issued| <= |g'.issued| && g'.issued[..|g.issued|] == g.issued
            && forall i | |g.issued| <= i < |g'.issued| :: g'.issued[i] > ts
  {
    StepKeeps(g, Raise(ts));
    RunKeeps(Step(g, Raise(ts)).0, acts);
  }

  /** Whatever thread 0 was doing, in three turns it issues the counter's value. */
  lemma Issues(g: Gen)
    requires Inv(g) && g.counter < Limit(g.kind)
    ensures Run(g, [Load(0), Exchange(0, false), Exchange(0, false)]).issued == g.issued + [g.counter]
  {
    var acts := [Load(0), Exchange(0, false), Exchange(0, false)];
    assert acts[1..] == [Exchange(0, false), Exchange(0, false)] && acts[1..][1..] == [Exchange(0, false)];
    assert acts[1..][1..][1..] == [];
    var g1 := Step(g, acts[0]).0;
    var g2 := Step(g1, acts[1]).0;
    var g3 := Step(g2, acts[2]).0;
    assert Run(g, acts) == Run(g2, [Exchange(0, false)]) == Run(g3, []);
  }

  /** Everything issued after the first `n` values is beyond `ts`. */
  ghost predicate AllBeyond(issued: seq<nat>, n: nat, ts: nat) { forall i | n <= i < |issued| :: issued[i] > ts }

  /** A raise to `ts` keeps everything issued later beyond `ts` if and only if it is accepted, was not
      needed, or the domain is exhausted. It is refused only for the other domain or the last stamp. */
  lemma RaiseEffectIff(g: Gen, ts: nat)
    requires Inv(g) && ts <= U64_MAX
    ensures var (g1, o) := Step(g, Raise(ts));
            && (o != Nothing <==> IsTxnId(ts) != g.kind.TxnKind? || ts == Limit(g.kind))
            && ((forall acts :: AllBeyond(Run(g1, acts).issued, |g.issued|, ts))
                <==> o == Nothing || ts < g.counter || g.counter >= Limit(g.kind))
  {
    var (g1, o) := Step(g, Raise(ts));
    StepKeeps(g, Raise(ts));
    if o == Nothing || ts < g.counter || g.counter >= Limit(g.kind) {
      forall acts ensures AllBeyond(Run(g1, acts).issued, |g.issued|, ts) {
        if o == Nothing { RaisedBeyond(g, ts, acts); }
        else {
          RunKeeps(g, acts);
          if g.counter >= Limit(g.kind) {
            NoneBeyond(Run(g, acts).issued, |g.issued|, g.counter, Limit(g.kind));
          }
        }
      }
    } else {
      Issues(g);
      var acts := [Load(0), Exchange(0, false), Exchange(0, false)];
      assert Run(g1, acts).issued[|g.issued|] == g.counter;
      assert !AllBeyond(Run(g1, acts).issued, |g.issued|, ts);
    }
  }

  function Get(s: seq<nat>, i: nat): nat { if i < |s| then s[i] else 0 }

  lemma NoneBeyond(s: seq<nat>, n: nat, low: nat, limit: nat)
    requires n <= |s| && limit <= low && forall i | 0 <= i < |s| :: s[i] < limit
    requires forall i | n <= i < |s| :: s[i] >= low
    ensures |s| == n
  {
    var x := Get(s, n);
  }

  /** `next` fails only once the domain is exhausted, and then nothing is ever issued again. */
  lemma OverflowIsFinal(g: Gen, th: nat, spurious: bool, acts: seq<Act>)
    requires Inv(g) && Step(g, Exchange(th, spurious)).1.Overflow?
    ensures g.counter >= Limit(g.kind) && Run(g, acts).issued == g.issued
  {
    RunKeeps(g, acts);
    var g' := Run(g, acts);
    NoneBeyond(g'.issued, |g.issued|, g.counter, Limit(g.kind));
    assert g'.issued[..|g'.issued|] == g'.issued;
  }

  /** The acts of other threads, and raises. */
  predicate NotBy(acts: seq<Act>, th: nat) { forall a | a in acts :: !a.Raise? ==> a.th != th }

  /** While others act, a thread keeps what it saw; the counter moves only by an issue or a raise. */
  lemma {:induction false} OthersRun(g: Gen, acts: seq<Act>, th: nat)
    requires Inv(g) && NotBy(acts, th)
    ensures var g' := Run(g, acts);
            && ThreadOf(g', th) == ThreadOf(g, th) && |g.issued| <= |g'.issued|
            && (|g'.issued| == |g.issued| && (forall a | a in acts :: !a.Raise?) ==> g'.counter == g.counter)
    decreases |acts|
  {
    if acts != [] {
      var a := acts[0];
      assert a in acts && forall x | x in acts[1..] :: x in acts;
      StepKeeps(g, a);
      OthersRun(Step(g, a).0, acts[1..], th);
    }
  }

  /** The loop is lock-free: when a thread that saw the counter fails its exchange, not spuriously, another
      thread issued a value or raised the counter in between. */
  lemma LostRace(g: Gen, th: nat, acts: seq<Act>)
    requires Inv(g) && ThreadOf(g, th) == Saw(g.counter) && NotBy(acts, th)
    requires Step(Run(g, acts), Exchange(th, false)).1 == Nothing
    ensures |Run(g, acts).issued| > |g.issued| || exists a :: a in acts && a.Raise?
  {
    OthersRun(g, acts, th);
  }

  /** A generator started elsewhere keeps to its domain exactly when it starts there: transaction ids
      are only checked on a raise. A commit generator can always be trusted. */
  lemma StartDecidesDomain(kind: Kind, start: nat)
    requires start <= U64_MAX
    ensures (forall acts :: OnlyInDomain(kind, Run(WithStart(kind, start), acts).issued))
            <==> kind.CommitKind? || IsTxnId(start)
  {
    var g := WithStart(kind, start);
    if kind.CommitKind? || IsTxnId(start) {
      forall acts ensures OnlyInDomain(kind, Run(g, acts).issued) { RunKeeps(g, acts); }
    } else {
      Issues(g);
      assert Run(g, [Load(0), Exchange(0, false), Exchange(0, false)]).issued[0] == start;
    }
  }

  ghost predicate OnlyInDomain(kind: Kind, issued: seq<nat>) { forall i | 0 <= i < |issued| :: InDomain(kind, issued[i]) }
}
