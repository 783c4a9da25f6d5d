/** Counting the set bits of a mask. */
module Counting {
  function Ones(bits: seq<bool>): (r: nat)
    ensures r <= |bits|
    decreases |bits|
  {
    if bits == [] then 0 else Ones(bits[..|bits| - 1]) + (if bits[|bits| - 1] then 1 else 0)
  }

  lemma {:induction false} OnesSplit(a: seq<bool>, b: seq<bool>)
    ensures Ones(a + b) == Ones(a) + Ones(b)
    decreases |b|
  {
    if b == [] {
      assert a + b == a;
    } else {
      var n := |b| - 1;
      assert (a + b)[..|a| + n] == a + b[..n];
      OnesSplit(a, b[..n]);
    }
  }
}
