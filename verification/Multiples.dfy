/**
 Facts about multiples that the solver should not have to look for.
 */
module Multiples {

  lemma {:induction false} Monotone(a: int, b: int, k: int)
    requires a <= b && k >= 0
    ensures a * k <= b * k
  {
  }

  lemma {:induction false} MultipleMod(q: int, k: int)
    requires k > 0
    ensures q * k % k == 0
  {
    var d := q * k / k;
    assert (q - d) * k == q * k - d * k == q * k % k;
    if q > d { Monotone(1, q - d, k); }
    if q < d { Monotone(q - d, -1, k); }
  }
}
