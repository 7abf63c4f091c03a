/** Small facts about products and quotients that the solver needs spelled out. */
module Arith {

  lemma {:induction false} MulMono(a: nat, b: int, c: int)
    requires b <= c
    ensures a * b <= a * c
  {
    assert a * c - a * b == a * (c - b);
  }

  lemma {:induction false} MulAssoc(a: int, b: int, c: int)
    ensures a * b * c == a * (b * c)
  {
  }

  lemma {:induction false} DivLess(a: nat, d: nat, b: nat)
    requires d >= 1 && a < d * b
    ensures a / d < b
  {
  }

  lemma {:induction false} DivAtLeast(a: nat, d: nat, b: nat)
    requires d >= 1 && d * b <= a
    ensures b <= a / d
  {
    if a / d < b {
      MulMono(d, a / d + 1, b);
    }
  }

  /** The quotient and remainder are the only pair that fits. */
  lemma {:induction false} DivUnique(a: nat, d: nat, q: nat, r: nat)
    requires d >= 1 && a == d * q + r && r < d
    ensures a / d == q && a % d == r
  {
    DivAtLeast(a, d, q);
    assert d * (q + 1) == d * q + d;
    DivLess(a, d, q + 1);
  }
}
