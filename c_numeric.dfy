/** The C numeric types and conversions the renderer relies on, written out
    over Dafny's unbounded integers and exact reals. */
module CNumeric {

  const TWO_32: int := 0x1_0000_0000

  /** `uint32_t`: packed ARGB colours and SDL tick counts. */
  type uint32 = x: int | 0 <= x < 0x1_0000_0000

  /** A 32-bit `int`. */
  type int32 = x: int | -0x8000_0000 <= x < 0x8000_0000

  /** Conversion of an unsigned 32-bit value to `int`. C leaves values above
      INT_MAX implementation-defined; the compilers this program targets wrap
      them modulo 2^32, and so does the model. */
  function ToInt32(u: uint32): (r: int32)
    ensures (u - r) % TWO_32 == 0
    ensures u < 0x8000_0000 ==> r == u
    ensures 0x8000_0000 <= u ==> r < 0
  {
    if u < 0x8000_0000 then u else u - TWO_32
  }

  /** Any integer converted to `unsigned int`: reduction modulo 2^32
      (the usual arithmetic conversions of a mixed signed/unsigned operation). */
  function ToUint32(n: int): (r: uint32)
    ensures (n - r) % TWO_32 == 0
    ensures 0 <= n < TWO_32 ==> r == n
  {
    n % TWO_32
  }

  function Abs(n: int): (r: nat)
    ensures r == n || r == -n
  {
    if n < 0 then -n else n
  }

  /** C's conversion of a floating value to an integer type: the fractional
      part is discarded (truncation toward zero). */
  function Trunc(r: real): (n: int)
    ensures 0.0 <= r ==> n as real <= r < n as real + 1.0
    ensures r < 0.0 ==> n as real - 1.0 < r <= n as real
  {
    if r >= 0.0 then r.Floor else -((-r).Floor)
  }

  /** C's `round`: the nearest integer, halfway cases rounded away from zero. */
  function Round(r: real): (n: int)
    ensures r - 0.5 <= n as real <= r + 0.5
    ensures 0.0 <= r ==> n as real - 0.5 <= r < n as real + 0.5
    ensures r < 0.0 ==> n as real - 0.5 < r <= n as real + 0.5
  {
    if r >= 0.0 then (r + 0.5).Floor else -((-r + 0.5).Floor)
  }

  /** Rounding or truncating a value that is already an integer gives it back. */
  lemma IntegralUnchanged(k: int)
    ensures Round(k as real) == k && Trunc(k as real) == k
  {
  }

  /** A quotient whose numerator is no larger in size than its positive
      denominator lies in [-1, 1], and is exactly 1 or -1 at the ends. */
  lemma QuotientBounds(a: real, b: real)
    requires 0.0 < b && -b <= a <= b
    ensures -1.0 <= a / b <= 1.0
    ensures a == b ==> a / b == 1.0
    ensures a == -b ==> a / b == -1.0
  {
    var q := a / b;
    assert q * b == a;
    if a == b {
      assert (q - 1.0) * b == 0.0;
    }
    if a == -b {
      assert (q + 1.0) * b == 0.0;
    }
  }

  /** Scaling by a factor in [0, 1] keeps a value between 0 and itself. */
  lemma ScaleByFraction(d: real, f: real)
    requires 0.0 <= f <= 1.0
    ensures 0.0 <= d ==> 0.0 <= d * f <= d
    ensures d <= 0.0 ==> d <= d * f <= 0.0
  {
    assert d - d * f == d * (1.0 - f);
  }

  /** Converting a product to a real multiplies the converted factors. */
  lemma CastProduct(a: int, b: int)
    ensures (a * b) as real == a as real * b as real
  {
  }

  /** Dividing a product divides one of its factors. */
  lemma DivideProduct(a: real, b: real, c: real)
    requires c != 0.0
    ensures (a * b) / c == a * (b / c)
  {
    var q := b / c;
    assert q * c == b;
    assert a * b == (a * q) * c;
  }

  /** A value between two integers stays between them when truncated. */
  lemma TruncBetween(lo: int, hi: int, r: real)
    requires lo as real <= r <= hi as real
    ensures lo <= Trunc(r) <= hi
  {
  }
}
