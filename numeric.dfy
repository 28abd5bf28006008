/** Scalar helpers shared by the model: Rust's `f32` is modelled as `real`,
    and the integer types `u8`, `u16` and `u32` as bounded subsets of `int`. */
module Numeric {

  type Byte = n: int | 0 <= n < 0x100
  type U16 = n: int | 0 <= n < 0x1_0000
  type U32 = n: int | 0 <= n < 0x1_0000_0000

  /** `f32::MAX`, the largest finite single-precision value. */
  const F32_MAX: real := 340282346638528859811704183484516925440.0

  function Abs(x: real): (r: real)
    ensures r >= 0.0 && (r == x || r == -x)
  {
    if x < 0.0 then -x else x
  }

  function Min(a: real, b: real): (r: real)
    ensures r <= a && r <= b && (r == a || r == b)
  {
    if a <= b then a else b
  }

  function Max(a: real, b: real): (r: real)
    ensures r >= a && r >= b && (r == a || r == b)
  {
    if a >= b then a else b
  }

  /** `f32::trunc`: the integer part, rounding toward zero. */
  function Trunc(x: real): (n: int)
    ensures x >= 0.0 ==> 0 <= n && n as real <= x < n as real + 1.0
    ensures x < 0.0 ==> n <= 0 && n as real - 1.0 < x <= n as real
  {
    if x >= 0.0 then x.Floor else -((-x).Floor)
  }

  /** `f32::fract`: `x - trunc(x)`, which keeps the sign of `x`. */
  function Fract(x: real): (r: real)
    ensures -1.0 < r < 1.0
    ensures x >= 0.0 ==> r >= 0.0
    ensures x <= 0.0 ==> r <= 0.0
  {
    x - Trunc(x) as real
  }

  /** The magnitude of the fractional part is the fractional part of the
      magnitude: `|fract(x)| == |x| - floor(|x|)`. */
  lemma AbsFractIsFractOfAbs(x: real)
    ensures Abs(Fract(x)) == Abs(x) - Abs(x).Floor as real
    ensures 0.0 <= Abs(Fract(x)) < 1.0
  {
    if x < 0.0 {
      assert Trunc(x) == -((-x).Floor);
      assert Abs(x) == -x;
    }
  }

  /** A whole number has no fractional part. */
  lemma FractOfWhole(n: int)
    ensures Fract(n as real) == 0.0
  {
    if n < 0 {
      assert (-(n as real)).Floor == -n;
    }
  }

  /** Rust's float-to-integer cast `x as u8`: truncate toward zero, then
      saturate into [0, 255] (a negative value becomes 0). */
  function ToU8(x: real): (n: Byte)
    ensures 0.0 <= x < 256.0 ==> n == x.Floor
    ensures x >= 255.0 ==> n == 255
    ensures x < 1.0 ==> n == 0
  {
    var t := Trunc(x);
    if t < 0 then 0 else if t > 255 then 255 else t
  }

  /** Rust's float-to-integer cast `x as u32`, saturating in the same way. */
  function ToU32(x: real): (n: U32)
    ensures 0.0 <= x < 0x1_0000_0000 as real ==> n == x.Floor
    ensures x >= 0xFFFF_FFFF as real ==> n == 0xFFFF_FFFF
    ensures x < 1.0 ==> n == 0
  {
    var t := Trunc(x);
    if t < 0 then 0 else if t > 0xFFFF_FFFF then 0xFFFF_FFFF else t
  }

  /** The floor of `v` is the one integer `q` with `q <= v < q + 1`. */
  lemma FloorUnique(v: real, q: int)
    requires q as real <= v < q as real + 1.0
    ensures v.Floor == q
  {
  }

  // ---------------------------------------------------------------------
  // Products. A product that a lemma's contract mentions is written as a
  // call of `Product` or `Mix`, so that the caller's and the callee's
  // copies of it are recognised as the same value.
  // ---------------------------------------------------------------------

  /** The product `a * b` of two `f32` values. */
  function Product(a: real, b: real): real {
    a * b
  }

  /** Scaling by a non-negative factor preserves `<=`. */
  lemma ProductMonotone(k: real, a: real, b: real)
    requires k >= 0.0 && a <= b
    ensures Product(k, a) <= Product(k, b)
  {
    assert k * b - k * a == k * (b - a);
  }

  /** Scaling a non-negative value: by a factor in [0, 1] it stays in
      [0, k], by a factor of at least 1 it does not shrink, and by a
      non-positive factor it becomes non-positive. */
  lemma ProductBounds(k: real, s: real)
    requires k >= 0.0
    ensures 0.0 <= s <= 1.0 ==> 0.0 <= Product(k, s) <= k
    ensures s >= 1.0 ==> Product(k, s) >= k
    ensures s <= 0.0 ==> Product(k, s) <= 0.0
  {
    if 0.0 <= s {
      ProductMonotone(k, 0.0, s);
    }
    if s <= 1.0 {
      ProductMonotone(k, s, 1.0);
    }
    if s >= 1.0 {
      ProductMonotone(k, 1.0, s);
    }
    if s <= 0.0 {
      ProductMonotone(k, s, 0.0);
    }
  }

  /** Scaling a value in [0, 1) by a positive size gives a value in [0, size). */
  lemma ProductBelow(u: real, size: real)
    requires 0.0 <= u < 1.0 && size > 0.0
    ensures 0.0 <= Product(u, size) < size
  {
    assert u * size == size * u;
    assert size - size * u == size * (1.0 - u);
    ProductMonotone(size, 0.0, 1.0 - u);
    ProductMonotone(size, 0.0, u);
  }

  /** The quotient `a / b` of two `f32` values; `b` is not zero. */
  function Quotient(a: real, b: real): real
    requires b != 0.0
  {
    a / b
  }

  /** Multiplying a quotient back by its divisor gives the dividend, and
      the quotient's sign is the product of the operands' signs. */
  lemma QuotientFacts(a: real, b: real)
    requires b != 0.0
    ensures Product(b, Quotient(a, b)) == a
    ensures (a < 0.0 && b > 0.0) || (a > 0.0 && b < 0.0) ==> Quotient(a, b) < 0.0
    ensures (a > 0.0 && b > 0.0) || (a < 0.0 && b < 0.0) ==> Quotient(a, b) > 0.0
  {
  }

  /** Scaling by a positive factor preserves `<`. */
  lemma ProductStrictlyMonotone(k: real, a: real, b: real)
    requires k > 0.0 && a < b
    ensures Product(k, a) < Product(k, b)
  {
    assert k * b - k * a == k * (b - a);
  }

  /** Scaling by a negative factor reverses `<`. */
  lemma ProductStrictlyAntitone(k: real, a: real, b: real)
    requires k < 0.0 && a < b
    ensures Product(k, a) > Product(k, b)
  {
    assert k * a - k * b == (-k) * (b - a);
  }

  /** Scaling by a non-zero factor preserves the order of two values when
      the factor is positive and reverses it when it is negative. */
  lemma ProductOrder(k: real, a: real, b: real)
    requires k != 0.0
    ensures k > 0.0 ==> (a <= b <==> Product(k, a) <= Product(k, b))
    ensures k < 0.0 ==> (a <= b <==> Product(k, a) >= Product(k, b))
  {
    if k > 0.0 {
      if a <= b {
        ProductMonotone(k, a, b);
      } else {
        ProductStrictlyMonotone(k, b, a);
      }
    } else {
      if a <= b {
        ProductAntitone(k, a, b);
      } else {
        ProductStrictlyAntitone(k, b, a);
      }
    }
  }

  /** Scaling by a non-positive factor reverses `<=`. */
  lemma ProductAntitone(k: real, a: real, b: real)
    requires k <= 0.0 && a <= b
    ensures Product(k, a) >= Product(k, b)
  {
    assert k * a - k * b == (-k) * (b - a);
  }

  /** Linear interpolation `a * (1 - t) + b * t`. */
  function Mix(a: real, b: real, t: real): real {
    a * (1.0 - t) + b * t
  }

  /** Interpolation starts at `a`, ends at `b` and, for t in [0, 1], stays
      between them. */
  lemma MixBetween(a: real, b: real, t: real)
    ensures Mix(a, b, 0.0) == a && Mix(a, b, 1.0) == b
    ensures 0.0 <= t <= 1.0 && a <= b ==> a <= Mix(a, b, t) <= b
    ensures 0.0 <= t <= 1.0 && b <= a ==> b <= Mix(a, b, t) <= a
  {
    if 0.0 <= t <= 1.0 {
      if a <= b {
        assert Mix(a, b, t) == a + Product(b - a, t);
        ProductBounds(b - a, t);
      } else {
        assert Mix(a, b, t) == b + Product(a - b, 1.0 - t);
        ProductBounds(a - b, 1.0 - t);
      }
    }
  }

  // ---------------------------------------------------------------------
  // Integer division
  // ---------------------------------------------------------------------

  /** Multiplying by a non-negative integer preserves `<=`. */
  lemma MulLeqInt(a: int, b: int, k: int)
    requires a <= b && k >= 0
    ensures a * k <= b * k
  {
    assert b * k - a * k == (b - a) * k;
  }

  /** Euclidean quotient and remainder are unique. */
  lemma DivModUnique(n: int, w: int, q: int, r: int)
    requires w > 0 && 0 <= r < w && n == q * w + r
    ensures n / w == q && n % w == r
  {
    var q0, r0 := n / w, n % w;
    assert (q - q0) * w == r0 - r;
    if q > q0 {
      MulLeqInt(1, q - q0, w);
    } else if q < q0 {
      MulLeqInt(1, q0 - q, w);
    }
  }

  /** The flat index of cell (x, y) in a row-major grid `width` cells wide. */
  function Flat(x: int, y: int, width: int): int {
    y * width + x
  }

  /** Row-major indexing of a `width` by `height` grid: the cell (x, y) has
      an index below `width * height` from which x and y are read back. */
  lemma GridIndex(x: nat, y: nat, width: nat, height: nat)
    requires x < width && y < height
    ensures 0 <= Flat(x, y, width) < width * height
    ensures Flat(x, y, width) % width == x && Flat(x, y, width) / width == y
  {
    DivModUnique(y * width + x, width, y, x);
    assert y * width + x < (y + 1) * width;
    MulLeqInt(y + 1, height, width);
  }
}
