/** "%.6g" on whole amounts: six significant digits, ties to even. */
module Rounding {
  import opened Arith
  import Text

  const EXACT := 1000000

  /** The weight of the sixth digit. */
  function Scale(n: nat): (s: nat)
    ensures s >= 1
  {
    if n < EXACT then 1 else 10 * Scale(n / 10)
  }

  /** The multiple of d nearest to n, the even one of two. */
  function Nearest(n: nat, d: nat): nat
    requires d >= 1
  {
    var q, r := n / d, n % d;
    if 2 * r < d || (2 * r == d && q % 2 == 0) then d * q else d * (q + 1)
  }

  function Round6(n: nat): nat {
    Nearest(n, Scale(n))
  }

  lemma {:induction false} ScaleBounds(n: nat)
    ensures n < Scale(n) * EXACT
    ensures n >= EXACT ==> 100000 * Scale(n) <= n && Scale(n) % 10 == 0
  {
    if n >= EXACT {
      ScaleBounds(n / 10);
    }
  }

  lemma {:induction false} NearestBounds(n: nat, d: nat)
    requires d >= 1
    ensures var r := Nearest(n, d); r <= 2 * n + d && 2 * r <= 2 * n + d && 2 * n <= 2 * r + d
  {
    assert n == d * (n / d) + n % d;
    assert d * (n / d + 1) == d * (n / d) + d;
  }

  lemma {:induction false} NearestOfMultiple(d: nat, q: nat)
    requires d >= 1
    ensures Nearest(d * q, d) == d * q
  {
    DivUnique(d * q, d, q, 0);
  }

  lemma {:induction false} NearestSpan(n: nat, d: nat)
    requires d >= 1
    ensures d * (n / d) <= Nearest(n, d) <= d * (n / d + 1)
  {
  }

  lemma {:induction false} NearestMonotone(a: nat, b: nat, d: nat)
    requires d >= 1 && a <= b
    ensures Nearest(a, d) <= Nearest(b, d)
  {
    hide Nearest;
    var p, q := a / d, b / d;
    assert a == d * p + a % d;
    DivAtLeast(b, d, p);
    if p < q {
      NearestSpan(a, d);
      NearestSpan(b, d);
      MulMono(d, p + 1, q);
    } else {
      SameQuotient(a, b, d);
    }
  }

  lemma {:induction false} SameQuotient(a: nat, b: nat, d: nat)
    requires d >= 1 && a <= b && a / d == b / d
    ensures a % d <= b % d
    ensures Nearest(a, d) <= Nearest(b, d)
  {
    assert a == d * (a / d) + a % d && b == d * (b / d) + b % d;
    MulMono(d, a / d, a / d + 1);
  }

  /** Rounding keeps the decade it works in: multiples of the scale stay between a hundred thousand and a
      million of it. */
  lemma {:induction false} RoundRange(n: nat)
    requires n >= EXACT
    ensures var s, r := Scale(n), Round6(n); 100000 * s <= r <= EXACT * s && exists q :: r == s * q
  {
    var s := Scale(n);
    ScaleBounds(n);
    NearestOfMultiple(s, 100000);
    NearestMonotone(s * 100000, n, s);
    NearestOfMultiple(s, EXACT);
    NearestMonotone(n, s * EXACT, s);
    if Round6(n) == s * (n / s) {
    } else {
      assert Round6(n) == s * (n / s + 1);
    }
  }

  /** The scale of anything that lies in a decade. */
  lemma {:induction false} ScaleOfDecade(n: nat, m: nat)
    requires n >= EXACT && 100000 * Scale(n) <= m < EXACT * Scale(n)
    ensures Scale(m) == Scale(n)
  {
    var s := Scale(n / 10);
    assert m >= EXACT by { assert Scale(n) == 10 * s; }
    if n / 10 < EXACT {
      assert m / 10 < EXACT;
    } else {
      ScaleOfDecade(n / 10, m / 10);
    }
  }

  lemma {:induction false} ScaleOfTop(n: nat)
    requires n >= EXACT
    ensures Scale(EXACT * Scale(n)) == 10 * Scale(n)
    decreases n
  {
    var s := Scale(n / 10);
    assert Scale(n) == 10 * s && EXACT * Scale(n) / 10 == EXACT * s;
    if n / 10 < EXACT {
      assert Scale(EXACT) == 10 * Scale(EXACT / 10);
      assert Scale(10 * EXACT) == 10 * Scale(EXACT);
    } else {
      ScaleOfTop(n / 10);
    }
  }

  lemma {:induction false} ScaleMonotone(a: nat, b: nat)
    requires a <= b
    ensures Scale(a) == Scale(b) || 10 * Scale(a) <= Scale(b)
  {
    if a >= EXACT {
      ScaleMonotone(a / 10, b / 10);
    }
  }

  // ----- What rounding means -----

  /** Below a million nothing is lost. */
  lemma {:induction false} RoundExact(n: nat)
    requires n < EXACT
    ensures Round6(n) == n
  {
    NearestOfMultiple(1, n);
  }

  /** The loss is at most five parts in a million. */
  lemma {:induction false} RoundError(n: nat)
    ensures 200000 * Round6(n) <= 200001 * n
    ensures 199999 * n <= 200000 * Round6(n)
  {
    if n < EXACT {
      RoundExact(n);
    } else {
      ScaleBounds(n);
      NearestBounds(n, Scale(n));
    }
  }

  lemma {:induction false} RoundIdempotent(n: nat)
    ensures Round6(Round6(n)) == Round6(n)
  {
    if n < EXACT {
      RoundExact(n);
    } else {
      var s, r := Scale(n), Round6(n);
      RoundRange(n);
      var q :| r == s * q;
      if r < EXACT * s {
        ScaleOfDecade(n, r);
        NearestOfMultiple(s, q);
      } else {
        ScaleOfTop(n);
        assert r == (10 * s) * 100000;
        NearestOfMultiple(10 * s, 100000);
      }
    }
  }

  lemma {:induction false} RoundMonotone(a: nat, b: nat)
    requires a <= b
    ensures Round6(a) <= Round6(b)
  {
    ScaleMonotone(a, b);
    if Scale(a) == Scale(b) {
      NearestMonotone(a, b, Scale(a));
    } else {
      RoundRange(b);
      if a < EXACT {
        RoundExact(a);
      } else {
        RoundRange(a);
      }
    }
  }

  // ----- Which number it is -----

  /** The scale is the power of ten that leaves six digits before it. */
  lemma {:induction false} ScaleIsDecade(n: nat) returns (k: nat)
    ensures Scale(n) == Text.Power10(k)
    ensures if n < 1000000 then k == 0 else Text.Power10(k + 5) <= n < Text.Power10(k + 6)
  {
    if n < EXACT {
      k := 0;
    } else {
      var below := ScaleIsDecade(n / 10);
      k := below + 1;
      assert Text.Power10(k) == 10 * Text.Power10(k - 1);
      assert Text.Power10(k + 5) == 10 * Text.Power10(k + 4) && Text.Power10(k + 6) == 10 * Text.Power10(k + 5);
      if n / 10 < EXACT {
        SixTens();
      }
    }
  }

  lemma {:induction false} SixTens()
    ensures Text.Power10(6) == 1000000 && Text.Power10(7) == 10000000
  {
    assert Text.Power10(3) == 10 * Text.Power10(2) && Text.Power10(2) == 10 * Text.Power10(1) && Text.Power10(1) == 10;
    assert Text.Power10(6) == 10 * Text.Power10(5) && Text.Power10(5) == 10 * Text.Power10(4);
    assert Text.Power10(4) == 10 * Text.Power10(3) && Text.Power10(7) == 10 * Text.Power10(6);
  }

  function Gap(a: int, b: int): nat {
    if a <= b then b - a else a - b
  }

  lemma {:induction false} MultiplesApart(d: nat, p: nat, q: nat)
    requires d >= 1
    ensures q == p || d * q <= d * p - d || d * q >= d * p + d
  {
    if q < p {
      MulMono(d, q + 1, p);
      assert d * (q + 1) == d * q + d;
    } else if q > p {
      MulMono(d, p + 1, q);
      assert d * (p + 1) == d * p + d;
    }
  }

  /** The two multiples around n, and the one that is taken. */
  lemma {:induction false} NearestIsOne(n: nat, d: nat)
    requires d >= 1
    ensures var p, r := n / d, Nearest(n, d);
            && d * p <= n < d * (p + 1) && d * (p + 1) == d * p + d && (r == d * p || r == d * (p + 1))
            && (r == d * p ==> 2 * (n - d * p) <= d && r / d == p && r % d == 0)
            && (r == d * (p + 1) ==> 2 * (n - d * p) >= d && r / d == p + 1 && r % d == 0)
            && (2 * (n - d * p) == d ==> (r / d) % 2 == 0)
  {
    var p := n / d;
    assert n == d * p + n % d && d * (p + 1) == d * p + d;
    DivUnique(d * p, d, p, 0);
    DivUnique(d * (p + 1), d, p + 1, 0);
  }

  /** No multiple of the scale is closer, and of two that are as close the one with an even last digit is taken. */
  lemma {:induction false} RoundIsNearest(n: nat, q: nat)
    ensures var s, r := Scale(n), Round6(n);
            && r % s == 0
            && Gap(n, r) <= Gap(n, s * q)
            && (Gap(n, r) == Gap(n, s * q) && r != s * q ==> (r / s) % 2 == 0)
  {
    hide Nearest, Scale;
    NearestIsOne(n, Scale(n));
    MultiplesApart(Scale(n), n / Scale(n), q);
    MultiplesApart(Scale(n), n / Scale(n) + 1, q);
  }
}
