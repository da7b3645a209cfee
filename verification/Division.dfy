// Dividing twice is dividing by the product.
module Division {
  lemma AtLeast(d: int, k: int)
    requires d > 0 && k >= 1
    ensures d * k >= d
  {
  }

  lemma Minus(d: int, q: int, p: int)
    ensures d * (q - p) == d * q - d * p
  {
  }

  lemma Divided(v: nat, d: int)
    requires d > 0
    ensures v == d * (v / d) + v % d && 0 <= v % d < d
  {
  }

  lemma OneQuotient(d: int, q: int, t: int, p: int, r: int)
    requires 0 <= r < d && 0 <= t < d && d * q + t == d * p + r
    ensures q == p
  {
    Minus(d, q, p);
    Minus(d, p, q);
    if q > p {
      AtLeast(d, q - p);
    } else if q < p {
      AtLeast(d, p - q);
    }
  }

  lemma Nested(a: int, b: int, q: int, p: int, t: int, r: int)
    requires q == b * p + t && 0 <= t < b && 0 <= r < a
    ensures a * q + r == (a * b) * p + (a * t + r) && 0 <= a * t + r < a * b
  {
    Minus(a, b, t);
    AtLeast(a, b - t);
    assert a * (b * p + t) == (a * b) * p + a * t;
  }

  lemma QuotientTwice(v: nat, a: int, b: int)
    requires a > 0 && b > 0
    ensures a * b > 0 && v / a / b == v / (a * b)
  {
    AtLeast(a, b);
    Divided(v, a);
    Divided(v / a, b);
    Divided(v, a * b);
    Nested(a, b, v / a, v / a / b, v / a % b, v % a);
    OneQuotient(a * b, v / (a * b), v % (a * b), v / a / b, a * (v / a % b) + v % a);
  }
}
