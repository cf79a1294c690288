/**
 * The scalar helpers the ocean and buoyancy code calls: Unity's `Mathf.Clamp`, `Mathf.Clamp01`,
 * `Mathf.Max`, `Mathf.Lerp`, `Mathf.FloorToInt`, `Mathf.CeilToInt`, `math.frac`, and C#'s
 * unchecked 32-bit integer arithmetic. Single-precision floats are modelled as `real`.
 */
module Numerics {

  const MinInt32: int := -0x8000_0000
  const MaxInt32: int := 0x7FFF_FFFF
  const TwoTo32: int := 0x1_0000_0000

  /** A C# `int`. */
  type Int32 = x: int | MinInt32 <= x <= MaxInt32

  /** The value C#'s unchecked `int` arithmetic leaves after computing `x` exactly:
      two's-complement wrap-around modulo 2^32. */
  function Wrap32(x: int): (r: Int32)
    ensures (x - r) % TwoTo32 == 0
    ensures MinInt32 <= x <= MaxInt32 ==> r == x
  {
    var m := x % TwoTo32;
    if m <= MaxInt32 then m else m - TwoTo32
  }

  /** C#'s integer `/`, which rounds toward zero (Dafny's `/` is Euclidean). */
  function TruncDiv(a: int, b: int): (q: int)
    requires b > 0
    ensures 0 <= a ==> 0 <= q && q * b <= a < q * b + b
    ensures a < 0 ==> q <= 0 && q * b - b < a <= q * b
  {
    if a >= 0 then
      EuclideanDivision(a, b);
      a / b
    else
      EuclideanDivision(-a, b);
      -((-a) / b)
  }

  /** For a non-negative dividend, Dafny's `/` is the quotient rounded down. */
  lemma EuclideanDivision(a: int, b: int)
    requires a >= 0 && b > 0
    ensures 0 <= a / b
    ensures (a / b) * b <= a < (a / b) * b + b
  {
    var q, r := a / b, a % b;
    assert a == q * b + r && 0 <= r < b;
  }

  /** `Mathf.Clamp(value, min, max)`: raise to `min` if below, else lower to `max` if above. */
  function Clamp(value: real, min: real, max: real): (r: real)
    ensures min <= max ==> min <= r <= max
    ensures min <= value <= max ==> r == value
    ensures value < min ==> r == min
    ensures min <= max < value ==> r == max
  {
    if value < min then min
    else if value > max then max
    else value
  }

  /** `Mathf.Clamp01(value)`. */
  function Clamp01(value: real): (r: real)
    ensures 0.0 <= r <= 1.0
    ensures 0.0 <= value <= 1.0 ==> r == value
    ensures value <= 0.0 ==> r == 0.0
    ensures 1.0 <= value ==> r == 1.0
  {
    Clamp(value, 0.0, 1.0)
  }

  /** `Mathf.Max(a, b)`. */
  function Max(a: real, b: real): (r: real)
    ensures r >= a && r >= b
    ensures r == a || r == b
  {
    if a > b then a else b
  }

  /** `Mathf.Lerp(a, b, t)`, which clamps `t` into [0, 1] before interpolating. */
  function Lerp(a: real, b: real, t: real): (r: real)
    ensures t <= 0.0 ==> r == a
    ensures t >= 1.0 ==> r == b
    ensures a <= b ==> a <= r <= b
    ensures b <= a ==> b <= r <= a
  {
    var s := Clamp01(t);
    ScaleWithinUnit(b - a, s);
    a + (b - a) * s
  }

  /** Inside [0, 1], `Lerp` is the weighted mean `(1 - t) * a + t * b` of its ends. */
  lemma LerpInterpolates(a: real, b: real, t: real)
    requires 0.0 <= t <= 1.0
    ensures Lerp(a, b, t) == (1.0 - t) * a + t * b
  {
    assert Clamp01(t) == t;
    assert (b - a) * t == t * b - t * a;
    assert (1.0 - t) * a == a - t * a;
  }

  /** Multiplying by a natural number preserves order. */
  lemma MulMonotone(a: int, b: int, c: nat)
    requires a <= b
    ensures a * c <= b * c
  {
    assert (b - a) * c >= 0;
  }

  /** Scaling by a factor in [0, 1] stays between 0 and the value scaled. */
  lemma ScaleWithinUnit(d: real, s: real)
    requires 0.0 <= s <= 1.0
    ensures d >= 0.0 ==> 0.0 <= d * s <= d
    ensures d <= 0.0 ==> d <= d * s <= 0.0
  {
    if d >= 0.0 {
      assert d * s <= d * 1.0;
    } else {
      assert d * s >= d * 1.0;
    }
  }

  /** `Mathf.FloorToInt(f)`: the greatest integer not above `f`. */
  function FloorToInt(f: real): (r: int)
    ensures r as real <= f < r as real + 1.0
  {
    f.Floor
  }

  /** `Mathf.CeilToInt(f)`: the least integer not below `f`. */
  function CeilToInt(f: real): (r: int)
    ensures r as real - 1.0 < f <= r as real
  {
    -((-f).Floor)
  }

  /** `math.frac(x)` of Unity.Mathematics, defined there as `x - floor(x)`. */
  function Frac(x: real): (r: real)
    ensures 0.0 <= r < 1.0
    ensures (x - r).Floor as real == x - r
  {
    x - x.Floor as real
  }

  /** `Frac` is periodic with period 1. */
  lemma FracPeriodic(x: real, k: int)
    ensures Frac(x + k as real) == Frac(x)
  {
    assert (x + k as real).Floor == x.Floor + k;
  }

  /** A multiple of `n` strictly between `-n` and `n` is zero. */
  lemma SmallMultipleIsZero(a: int, n: int)
    requires n > 0 && -n < a * n < n
    ensures a == 0
  {
  }

  /** Splitting `q * n + r` (with `0 <= r < n`) by `n` recovers `q` and `r`: the row-major
      flattening of a two-dimensional index is undone by `/` and `%`. */
  lemma DivModOfFlat(q: int, r: int, n: int)
    requires n > 0 && 0 <= r < n
    ensures (q * n + r) / n == q
    ensures (q * n + r) % n == r
  {
    var i := q * n + r;
    var q', r' := i / n, i % n;
    assert i == q' * n + r' && 0 <= r' < n;
    assert (q - q') * n == r' - r;
    SmallMultipleIsZero(q - q', n);
  }

  /** A flat index below `m * n` has a row number below `m`. */
  lemma RowBelow(i: int, n: int, m: int)
    requires n > 0 && 0 <= i < m * n
    ensures 0 <= i / n < m
  {
  }

  /** Row-major flattening of `(q, r)` with `q < m` and `r < n` stays below `m * n`. */
  lemma FlatBelow(q: int, r: int, n: int, m: int)
    requires 0 <= q < m && 0 <= r < n
    ensures 0 <= q * n + r < m * n
  {
    assert q * n <= (m - 1) * n by {
      assert (m - 1 - q) * n >= 0;
    }
  }
}
