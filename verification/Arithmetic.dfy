/** Facts about products and quotients, one at a time. */
module Arithmetic {

  lemma MulMono(a: int, b: int, s: int)
    requires a <= b && s >= 0
    ensures a * s <= b * s
  {
  }

  lemma MulNext(a: int, s: int)
    ensures (a + 1) * s == a * s + s
  {
  }

  lemma MulSub(x: int, a: int, t: int)
    ensures (x - a) * t == x * t - a * t
  {
  }

  lemma MulAdd(x: int, a: int, t: int)
    ensures (x + a) * t == x * t + a * t
  {
  }

  lemma MulSwap(q: int, t: int, s: int)
    ensures q * t * s == q * s * t
  {
  }

  lemma Horner(v: int, p: int, w: int, d: int)
    ensures 10 * (v * p + w) + d == v * (10 * p) + (10 * w + d)
  {
  }

  lemma MulBound(a: nat, b: nat, x: nat, y: nat)
    requires a <= x && b <= y
    ensures 0 <= a * b <= x * y
  {
    MulMono(a, x, b);
    assert x * b <= x * y;
  }

  lemma CancelAtMost(a: int, x: int, t: int)
    requires t >= 1 && a * t <= x * t
    ensures a <= x
  {
    if x < a {
      MulMono(x + 1, a, t);
      MulNext(x, t);
    }
  }

  lemma CancelLess(x: int, b: int, t: int)
    requires t >= 1 && x * t < b * t
    ensures x < b
  {
    if b <= x {
      MulMono(b, x, t);
    }
  }

  lemma UniqueQuotient(s: int, d: int, m: int, q: int, n: int)
    requires d * s + m == q * s + n && 0 <= m < s && 0 <= n < s
    ensures d == q && m == n
  {
    if d < q {
      MulMono(d + 1, q, s);
      MulNext(d, s);
    } else if d > q {
      MulMono(q + 1, d, s);
      MulNext(q, s);
    }
  }

  lemma DivMod(u: nat, p: nat)
    requires p >= 1
    ensures u == u / p * p + u % p && 0 <= u % p < p && u / p >= 0
  {
  }

  lemma DivPositive(u: nat, p: nat)
    requires p >= 1
    ensures u >= p <==> u / p > 0
  {
  }

  lemma DivBound(u: nat, p: nat, b: nat)
    requires p >= 1 && u < b * p
    ensures 0 <= u / p < b
  {
    DivMod(u, p);
    CancelLess(u / p, b, p);
  }

  lemma QuotientIs(x: nat, s: nat, q: nat)
    requires s >= 1 && q * s <= x < q * s + s
    ensures x / s == q && x % s == x - q * s
  {
    DivMod(x, s);
    UniqueQuotient(s, x / s, x % s, q, x - q * s);
  }

  lemma RoundUp(a: nat, d: nat)
    requires a >= 1 && d >= 1
    ensures (a - 1 + d) / d * d >= a
  {
    DivMod(a - 1 + d, d);
  }

  // ----- fixed-point numbers -----

  /** `x` holds the digits of `r`, the first one before the point: with scale `s` for it, and `t` for decimal. */
  ghost predicate Holds(x: nat, r: nat, s: nat, t: nat) {
    r * s <= x * t < (r + 1) * s
  }

  /** `u` multiplied by `1 + e / s`, rounded down. */
  ghost function Enlarged(u: nat, e: nat, s: nat): nat
    requires s >= 1
  {
    MulBound(0, 0, u, e);
    DivMod(u * e, s);
    u + u * e / s
  }

  lemma EnlargedIsExact(u: nat, e: nat, s: nat)
    requires s >= 1
    ensures Enlarged(u, e, s) == u <==> u * e < s
  {
    MulBound(0, 0, u, e);
    DivPositive(u * e, s);
  }

  /** The product of a number and a rounded up factor holds the digits of a number that may be larger. */
  lemma ProductHolds(u: nat, m: nat, s: nat, t: nat, e: nat)
    requires s >= 1 && m * t == s + e
    ensures 0 <= u * m && Holds(u * m, Enlarged(u, e, s), s, t)
  {
    MulBound(0, 0, u, e);
    MulBound(0, 0, u, m);
    DivMod(u * e, s);
    var q := u * e / s;
    assert u * m * t == u * (m * t);
    assert u * (s + e) == u * s + u * e;
    MulAdd(u, q, s);
    MulNext(u + q, s);
  }

  /** The digit before the point is the first digit of the number. */
  lemma FirstDigit(x: nat, r: nat, s: nat, t: nat)
    requires s >= 1 && t >= 1 && Holds(x, r, s, t)
    ensures x / s == r / t
    ensures Holds(x % s, r % t, s, t)
  {
    DivMod(r, t);
    var q, low := r / t, r % t;
    SplitHolds(x, q, low, s, t);
    QuotientIs(x, s, q);
  }

  lemma SplitHolds(x: nat, q: nat, low: nat, s: nat, t: nat)
    requires s >= 1 && t >= 1 && low < t && Holds(x, q * t + low, s, t)
    ensures 0 <= q * s <= x < q * s + s
    ensures Holds(x - q * s, low, s, t)
  {
    var r := q * t + low;
    MulAdd(q * t, low, s);
    MulSwap(q, t, s);
    MulMono(0, low, s);
    CancelAtMost(q * s, x, t);
    MulNext(r, s);
    MulNext(low, s);
    MulMono(low + 1, t, s);
    MulAdd(q * s, s, t);
    assert t * s == s * t;
    CancelLess(x, q * s + s, t);
    MulSub(x, q * s, t);
  }

  /** Multiplying by ten by moving the point and multiplying by five. */
  lemma MovePoint(x: nat, r: nat, s: nat, t: nat)
    requires Holds(x, r, 2 * s, 10 * t)
    ensures Holds(5 * x, r, s, t)
  {
    assert x * (10 * t) == 2 * (5 * x * t);
    assert r * (2 * s) == 2 * (r * s);
    assert (r + 1) * (2 * s) == 2 * ((r + 1) * s);
  }
}
