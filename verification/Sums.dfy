/**
 Finite sums and total reads: the arithmetic in which the kernels' results are stated on flat
 buffers, without the vocabulary that their proofs use.
 */
module Sums {

  /** Number `i` of a buffer; 0 outside it. */
  function At(s: seq<real>, i: int): real { if 0 <= i < |s| then s[i] else 0.0 }

  /** g(0) + ... + g(n - 1). */
  function SumTo(n: nat, g: nat -> real): real { if n == 0 then 0.0 else SumTo(n - 1, g) + g(n - 1) }

  /** The products of two stretches, number by number. */
  function Products(a: seq<real>, ao: int, b: seq<real>, bo: int): nat -> real { (e: nat) => At(a, ao + e) * At(b, bo + e) }

  lemma {:induction false} SumSame(n: nat, g: nat -> real, g': nat -> real)
    requires forall j: nat :: j < n ==> g(j) == g'(j)
    ensures SumTo(n, g) == SumTo(n, g')
  {
    if n > 0 { SumSame(n - 1, g, g'); }
  }

  lemma {:induction false} SumScaled(n: nat, g: nat -> real, c: real, g': nat -> real)
    requires forall j: nat :: j < n ==> g'(j) == c * g(j)
    ensures SumTo(n, g') == c * SumTo(n, g)
  {
    if n > 0 {
      SumScaled(n - 1, g, c, g');
      assert c * (SumTo(n - 1, g) + g(n - 1)) == c * SumTo(n - 1, g) + c * g(n - 1);
    }
  }

  lemma {:induction false} SumPositive(n: nat, g: nat -> real)
    requires n > 0 && forall j: nat :: j < n ==> g(j) > 0.0
    ensures SumTo(n, g) > 0.0
  {
    if n > 1 { SumPositive(n - 1, g); }
  }
}
