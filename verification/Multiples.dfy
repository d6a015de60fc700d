/** Multiples of a real number, as repeated sums. */
module Multiples {

  /** n times x. */
  function Times(n: nat, x: real): real {
    if n == 0 then 0.0 else Times(n - 1, x) + x
  }

  lemma {:induction false} TimesIsProduct(n: nat, x: real)
    ensures Times(n, x) == n as real * x
  {
    if n > 0 {
      TimesIsProduct(n - 1, x);
      var m := (n - 1) as real;
      assert n as real == m + 1.0 && (m + 1.0) * x == m * x + x;
    }
  }

  lemma {:induction false} TimesDistributes(n: nat, x: real, y: real)
    ensures Times(n, x + y) == Times(n, x) + Times(n, y)
  {
    if n > 0 {
      TimesDistributes(n - 1, x, y);
    }
  }

  lemma {:induction false} TimesKeepsOrder(n: nat, x: real, y: real)
    requires n > 0 && x < y
    ensures Times(n, x) < Times(n, y)
  {
    if n > 1 {
      TimesKeepsOrder(n - 1, x, y);
    }
  }

  lemma TimesUndoesDivision(n: nat, x: real)
    requires n > 0
    ensures Times(n, x / n as real) == x
  {
    TimesIsProduct(n, x / n as real);
  }
}
