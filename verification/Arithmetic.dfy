/** Products, quotients and their order, for reals and naturals. */
module Arithmetic {
  lemma Compare(a: real, b: real, c: real)
    requires c > 0.0
    ensures a <= b <==> a * c <= b * c
    ensures a >= b <==> a * c >= b * c
  {
  }

  lemma Positive(a: real, b: real)
    requires a > 0.0 && b > 0.0
    ensures a * b > 0.0
  {
  }

  lemma QuotientTimes(a: real, b: real)
    requires b > 0.0
    ensures a / b * b == a
  {
  }

  /** Dividing by more gives less. */
  lemma QuotientFalls(a: real, b: real, c: real)
    requires a >= 0.0 && 0.0 < b <= c
    ensures 0.0 <= a / c <= a / b
  {
    var q, r := a / b, a / c;
    QuotientTimes(a, b);
    QuotientTimes(a, c);
    Compare(0.0, r, c);
    Grow(r, b, c);
    Compare(r, q, b);
  }

  lemma Grow(r: real, b: real, c: real)
    requires r >= 0.0 && b <= c
    ensures r * b <= r * c
  {
  }

  lemma DivUnique(a: nat, d: nat, q: nat, r: nat)
    requires d > 0 && a == q * d + r && r < d
    ensures a / d == q
  {
    DivBounds(a, d);
    var p := a / d;
    if p < q {
      NatGrow(p + 1, q, d);
    } else if q < p {
      NatGrow(q + 1, p, d);
    }
  }

  lemma DivBounds(a: nat, d: nat)
    requires d > 0
    ensures a / d * d <= a < (a / d + 1) * d
  {
  }

  lemma NatGrow(a: nat, b: nat, c: nat)
    requires a <= b
    ensures a * c <= b * c
  {
  }

  lemma DivMonotone(a: nat, b: nat, d: nat)
    requires d > 0 && a <= b
    ensures a / d <= b / d
  {
    DivBounds(a, d);
    DivBounds(b, d);
    if b / d < a / d {
      NatGrow(b / d + 1, a / d, d);
    }
  }

  /** A common factor cancels. */
  lemma DivideBoth(a: nat, c: nat, k: nat)
    requires c > 0 && k > 0
    ensures c * k > 0 && (a * k) / (c * k) == a / c
  {
    var q, r := a / c, a % c;
    assert a == q * c + r;
    assert a * k == (q * c) * k + r * k == q * (c * k) + r * k;
    assert r * k < c * k by {
      NatGrow(r + 1, c, k);
    }
    DivUnique(a * k, c * k, q, r * k);
  }

  function Max(a: real, b: real): real {
    if a >= b then a else b
  }

  /** The smallest difficulty that is tracked or advertised. */
  const SMALLEST_DIFF: real := 0.00001
}
