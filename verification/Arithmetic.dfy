/** The two facts about products and quotients the other modules need. */
module Arithmetic {

  lemma MulMonotone(a: int, b: int, m: nat)
    requires a <= b
    ensures a * m <= b * m
  {
    assert (b - a) * m >= 0;
  }

  lemma {:induction false} DivModUnique(v: int, m: nat, q: int, r: int)
    requires m >= 1 && 0 <= r < m && v == q * m + r
    ensures v / m == q && v % m == r
  {
    var k := v / m;
    assert v == k * m + v % m;
    assert (k + 1) * m == k * m + m && (q + 1) * m == q * m + m;
    if k < q {
      MulMonotone(k + 1, q, m);
      assert false;
    }
    if k > q {
      MulMonotone(q + 1, k, m);
      assert false;
    }
  }
}
