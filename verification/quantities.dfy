/**
 Real-valued quantities of the model: n copies of an amount, and an amount
 shared equally among k + 1 recipients. Times is defined by repeated
 addition so that proofs about areas and flows stay linear.
 */
module Quantities {

  /** n copies of x: the area of n cells, or n equal shares. */
  function Times(x: real, n: nat): real {
    if n == 0 then 0.0 else Times(x, n - 1) + x
  }

  lemma {:induction false} TimesIsProduct(x: real, n: nat)
    ensures Times(x, n) == x * n as real
  {
    if n > 0 {
      TimesIsProduct(x, n - 1);
      assert x * n as real == x * (n - 1) as real + x;
    }
  }

  /** x split equally among k + 1 recipients. */
  function Share(x: real, k: nat): (r: real)
    ensures Times(r, k + 1) == x
    ensures x >= 0.0 ==> 0.0 <= r <= x
  {
    var d := (k + 1) as real;
    TimesIsProduct(x / d, k + 1);
    x / d
  }

  lemma {:induction false} TimesAdd(x: real, n: nat, m: nat)
    ensures Times(x, n) + Times(x, m) == Times(x, n + m)
    decreases m
  {
    if m > 0 {
      TimesAdd(x, n, m - 1);
    }
  }

  lemma {:induction false} TimesNonNegative(x: real, n: nat)
    requires x >= 0.0
    ensures Times(x, n) >= 0.0
  {
    if n > 0 {
      TimesNonNegative(x, n - 1);
    }
  }
}
