/** Facts about multiplication and division. */
module Arithmetic {

  function Min(a: nat, b: nat): nat {
    if a < b then a else b
  }

  function Max(a: nat, b: nat): nat {
    if a < b then b else a
  }

  function Pow2(n: nat): (p: nat)
    ensures p > 0
  {
    if n == 0 then 1 else 2 * Pow2(n - 1)
  }

  lemma AtLeastOnce(k: nat, d: nat)
    requires k >= 1
    ensures k * d >= d
  {
    assert k * d == d + (k - 1) * d;
  }

  lemma QuotientIs(a: int, d: nat, q: int, r: int)
    requires d > 0 && a == q * d + r && 0 <= r < d
    ensures a / d == q && a % d == r
  {
    var q', r' := a / d, a % d;
    assert a == q' * d + r';
    assert (q - q') * d == r' - r;
    if q > q' {
      AtLeastOnce(q - q', d);
    } else if q < q' {
      assert (q' - q) * d == -((q - q') * d);
      AtLeastOnce(q' - q, d);
    }
  }

  lemma Doubled(x: int, y: int)
    ensures x * (2 * y) == 2 * (x * y)
  {
  }

  lemma DivTwice(a: nat, p: nat)
    requires p > 0
    ensures a / 2 / p == a / (2 * p)
  {
    var q, r := a / 2 / p, a / 2 % p;
    assert a == 2 * (q * p + r) + a % 2;
    assert a == q * (2 * p) + (2 * r + a % 2) by { Doubled(q, p); }
    QuotientIs(a, 2 * p, q, 2 * r + a % 2);
  }

  lemma ModTwice(a: nat, p: nat)
    requires p > 0
    ensures a % (2 * p) == 2 * (a / 2 % p) + a % 2
  {
    DivTwice(a, p);
    var q := a / (2 * p);
    assert a == q * (2 * p) + a % (2 * p);
    assert a / 2 == q * p + a / 2 % p;
    Doubled(q, p);
  }

  lemma DivSmall(a: nat, d: nat)
    requires a < d
    ensures a / d == 0
  {
    QuotientIs(a, d, 0, a);
  }

  lemma DivTrans(a: nat, p: nat, q: nat)
    requires p > 0 && q > 0
    ensures p * q > 0 && a / (p * q) == a / p / q
  {
    var x, r := a / p, a % p;
    var y, s := x / q, x % q;
    assert a == (y * q + s) * p + r;
    assert (y * q + s) * p == y * (p * q) + s * p;
    assert s * p + r < q * p by {
      assert (q - s) * p >= p by { AtLeastOnce(q - s, p); }
      assert q * p == s * p + (q - s) * p;
    }
    QuotientIs(a, p * q, y, s * p + r);
  }
}
