/** C integer arithmetic that the servo driver relies on: signed division that
    truncates toward zero, the narrowing casts it performs, and the Arduino
    core's `map` and `constrain`, whose definitions are not part of this model's
    sources and are written out here. */
module CArith {

  /** C's `/` for a positive divisor: the quotient is truncated toward zero,
      so the remainder takes the sign of the dividend (Dafny's `/` is Euclidean). */
  function CDiv(a: int, b: int): (q: int)
    requires b > 0
    ensures a >= 0 ==> 0 <= a - b * q < b
    ensures a < 0 ==> -b < a - b * q <= 0
  {
    if a >= 0 then a / b else -((-a) / b)
  }

  /** Conversion to `int8_t`: two's-complement wrap-around modulo 256. */
  function Int8(x: int): (r: int)
    ensures -128 <= r < 128
    ensures (x - r) % 256 == 0
    ensures -128 <= x < 128 ==> r == x
  {
    (x + 128) % 256 - 128
  }

  /** Conversion to `uint16_t`: reduction modulo 2^16. */
  function U16(x: int): (r: int)
    ensures 0 <= r < 0x1_0000
    ensures (x - r) % 0x1_0000 == 0
    ensures 0 <= x < 0x1_0000 ==> r == x
  {
    x % 0x1_0000
  }

  /** Arduino `constrain(x, lo, hi)`; it is also exactly the if/else-if clamp
      that `writeMicroseconds` writes out by hand. */
  function Constrain(x: int, lo: int, hi: int): (r: int)
    ensures lo <= hi ==> lo <= r <= hi
    ensures lo <= x <= hi ==> r == x
    ensures x < lo ==> r == lo
    ensures lo <= x && hi < x ==> r == hi
  {
    if x < lo then lo else if x > hi then hi else x
  }

  /** Arduino `map`: `(x - inLo) * (outHi - outLo) / (inHi - inLo) + outLo`
      computed in `long`, with C's truncating division. An input inside
      [inLo, inHi] lands inside [outLo, outHi]. */
  function Map(x: int, inLo: int, inHi: int, outLo: int, outHi: int): (r: int)
    requires inLo < inHi
    ensures inLo <= x <= inHi && outLo <= outHi ==> outLo <= r <= outHi
  {
    ScaleWithin(x - inLo, inHi - inLo, outHi - outLo);
    CDiv((x - inLo) * (outHi - outLo), inHi - inLo) + outLo
  }

  /** Scaling a fraction a/d (0 <= a <= d) of a width w stays within [0, w]. */
  lemma ScaleWithin(a: int, d: int, w: int)
    requires d > 0
    ensures 0 <= a <= d && w >= 0 ==> 0 <= CDiv(a * w, d) <= w
  {
    if 0 <= a <= d && w >= 0 {
      var p := a * w;
      MulMonotone(w, 0, a);
      MulMonotone(w, a, d);
      Distribute(w, d);
      DivAtMost(p, d, w);
      assert CDiv(p, d) == p / d;
    }
  }

  lemma Distribute(w: int, d: int)
    ensures d * w < (w + 1) * d || d <= 0
  {
    assert (w + 1) * d == w * d + d;
  }

  lemma MulMonotone(m: int, a: int, b: int)
    requires m >= 0 && a <= b
    ensures m * a <= m * b
  {
    assert m * b - m * a == m * (b - a);
  }

  /** x < (k + 1) * d bounds the quotient x / d by k. */
  lemma DivAtMost(x: int, d: int, k: int)
    requires d > 0 && x < (k + 1) * d
    ensures x / d <= k
  {
    var q := x / d;
    assert d * q <= x;
    if q > k {
      MulMonotone(d, k + 1, q);
    }
  }

  /** k * d <= x bounds the quotient x / d from below by k. */
  lemma DivAtLeast(x: int, d: int, k: int)
    requires d > 0 && k * d <= x
    ensures k <= x / d
  {
    var q := x / d;
    assert x < d * (q + 1);
    if q < k {
      MulMonotone(d, q + 1, k);
    }
  }

  /** Truncating division by a positive divisor is monotone. */
  lemma CDivMonotone(a: int, b: int, d: int)
    requires d > 0 && a <= b
    ensures CDiv(a, d) <= CDiv(b, d)
  {
    var qa, qb := CDiv(a, d), CDiv(b, d);
    if qa > qb {
      MulMonotone(d, qb + 1, qa);
    }
  }

  /** Euclidean division is determined by any quotient/remainder pair with the
      remainder in [0, n). */
  lemma DivModUnique(x: int, n: int, q: int, r: int)
    requires n > 0 && 0 <= r < n && x == q * n + r
    ensures x / n == q && x % n == r
  {
    var e := q - x / n;
    assert e * n == x % n - r;
    if e > 0 {
      MulMonotone(n, 1, e);
    } else if e < 0 {
      MulMonotone(n, e, -1);
    }
  }
}
