/** Division facts for addresses and slices. */
module Arithmetic {
  lemma MulMonotone(a: int, b: int, c: nat)
    requires a <= b
    ensures a * c <= b * c
  {
  }

  /** Quotient and remainder are determined by what they must satisfy. */
  lemma DivModUnique(x: int, d: int, q: int, m: int)
    requires d > 0 && 0 <= m < d && x == q * d + m
    ensures x / d == q && x % d == m
  {
    var q', m' := x / d, x % d;
    assert x == q' * d + m';
    if q' > q {
      MulMonotone(q + 1, q', d);
    } else if q' < q {
      MulMonotone(q' + 1, q, d);
    }
  }

  lemma DivMonotone(a: int, b: int, d: int)
    requires d > 0 && a <= b
    ensures a / d <= b / d
  {
    var q, m, m' := b / d, b % d, a % d;
    assert b == q * d + m && a == a / d * d + m';
    if q < a / d {
      MulMonotone(q + 1, a / d, d);
    }
  }

  /** x/d is below k exactly when x is below k*d. */
  lemma DivBelow(x: nat, d: nat, k: nat)
    requires d > 0
    ensures x / d < k <==> x < k * d
  {
    assert x == x / d * d + x % d;
    if x / d < k {
      MulMonotone(x / d + 1, k, d);
    } else {
      MulMonotone(k, x / d, d);
    }
  }

  lemma Successor(x: nat, d: nat)
    requires d > 0
    ensures if x % d + 1 < d then (x + 1) / d == x / d && (x + 1) % d == x % d + 1
            else x % d + 1 == d && (x + 1) / d == x / d + 1 && (x + 1) % d == 0
  {
    var q, m := x / d, x % d;
    assert x == q * d + m;
    if m + 1 < d {
      DivModUnique(x + 1, d, q, m + 1);
    } else {
      DivModUnique(x + 1, d, q + 1, 0);
    }
  }

  /** A common factor cancels. */
  lemma DivCancel(x: nat, d: nat, k: nat)
    requires d > 0 && k > 0
    ensures k * d > 0 && (k * x) / (k * d) == x / d
  {
    var q, m := x / d, x % d;
    assert x == q * d + m;
    MulMonotone(m, d - 1, k);
    assert m * k <= d * k - k;
    assert k * x == q * (k * d) + k * m by {
      assert k * x == k * (q * d + m) == k * (q * d) + k * m;
      assert k * (q * d) == q * (k * d);
    }
    MulMonotone(1, d, k);
    DivModUnique(k * x, k * d, q, k * m);
  }
}
