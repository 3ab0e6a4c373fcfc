/** The parts of Rust's primitive numeric semantics that the oscillator relies on.
    `f32` values are modelled as `real`, so IEEE-754 rounding does not appear here;
    what does appear is the rounding DIRECTION of each conversion and the sign
    convention of the float remainder, which decide every table index. */
module RustNumeric {

  /** Rust's `u16`. */
  newtype U16 = x: int | 0 <= x < 0x1_0000

  /** Rust's `u32`. */
  newtype U32 = x: int | 0 <= x < 0x1_0000_0000

  /** `f32::trunc`: rounds toward zero. */
  function Trunc(x: real): (t: int)
    ensures 0.0 <= x ==> t as real <= x < t as real + 1.0
    ensures x < 0.0 ==> t as real - 1.0 < x <= t as real
    ensures -1.0 < x < 1.0 ==> t == 0
  {
    if 0.0 <= x then x.Floor else -((-x).Floor)
  }

  /** The cast `x as usize` of a float: truncation toward zero that saturates
      negative values at 0. (The saturation at `usize::MAX` and the NaN case are
      not modelled: no real is NaN, and the phases cast here stay below the
      table length.) */
  function TruncToUsize(x: real): (n: nat)
    ensures 0.0 <= x ==> n as real <= x < n as real + 1.0
    ensures x < 1.0 ==> n == 0
  {
    if x < 0.0 then 0 else x.Floor
  }

  /** Sign rules for a product, stated for the solver's benefit. */
  lemma MulNonNegative(a: real, b: real)
    requires 0.0 <= a && 0.0 <= b
    ensures 0.0 <= a * b
  {
  }

  lemma MulPositive(a: real, b: real)
    requires 0.0 < a && 0.0 < b
    ensures 0.0 < a * b
  {
  }

  lemma MulLess(a: real, b: real, c: real)
    requires a < b && 0.0 < c
    ensures a * c < b * c
  {
    var d := b - a;
    var dc := d * c;
    MulPositive(d, c);
    assert dc == b * c - a * c;
  }

  /** A fraction `d` in [0, 1) of a positive `y` lies in [0, y). */
  lemma ScaleFraction(d: real, y: real)
    requires 0.0 <= d < 1.0 && 0.0 < y
    ensures 0.0 <= d * y
    ensures d * y < y
  {
    MulNonNegative(d, y);
    MulPositive(1.0 - d, y);
    assert (1.0 - d) * y == y - d * y;
  }

  /** Where `x / y` lies, for a positive divisor `y`. */
  lemma QuotientBounds(x: real, y: real)
    requires 0.0 < y
    ensures 0.0 <= x ==> 0.0 <= x / y
    ensures x <= 0.0 ==> x / y <= 0.0
    ensures x < 0.0 ==> x / y < 0.0
    ensures -y < x < y ==> -1.0 < x / y < 1.0
    ensures x == y ==> x / y == 1.0
    ensures (x / y) * y == x
  {
    var q := x / y;
    assert q * y == x;
    if q <= -1.0 {
      MulNonNegative(-1.0 - q, y);
      assert (-1.0 - q) * y == -y - x;
    }
    if 1.0 <= q {
      MulNonNegative(q - 1.0, y);
      assert (q - 1.0) * y == x - y;
    }
    if q < 0.0 {
      MulPositive(-q, y);
      assert (-q) * y == -x;
    }
    if 0.0 < q {
      MulPositive(q, y);
    }
  }

  /** Rust's float remainder `x % y`: the truncated remainder
      `x - trunc(x / y) * y`, which takes the sign of the dividend `x`.
      A zero divisor gives NaN in Rust and is excluded. */
  function FRem(x: real, y: real): (r: real)
    requires y != 0.0
    ensures 0.0 < y && 0.0 <= x ==> 0.0 <= r < y
    ensures 0.0 < y && x <= 0.0 ==> -y < r <= 0.0
    ensures 0.0 < y && -y < x < y ==> r == x
    ensures 0.0 < y && x == y ==> r == 0.0
    ensures 0.0 < y && 0.0 <= x ==> r == x - ((x / y).Floor as real) * y
  {
    var r := x - (Trunc(x / y) as real) * y;
    if 0.0 < y then FRemBounds(x, y); QuotientBounds(x, y); r else r
  }

  /** The bounds of `FRem`, proved from those of `Trunc`; `FRem`'s own
      contract is established through this lemma. */
  lemma FRemBounds(x: real, y: real)
    requires 0.0 < y
    ensures 0.0 <= x ==> 0.0 <= x - (Trunc(x / y) as real) * y < y
    ensures x <= 0.0 ==> -y < x - (Trunc(x / y) as real) * y <= 0.0
  {
    QuotientBounds(x, y);
    RemainderBounds(x, y, x / y, Trunc(x / y) as real);
  }

  /** With `x == q * y`, subtracting `t * y` for `t` the truncation of `q`
      leaves less than one `y`, with the sign of `q - t`. */
  lemma RemainderBounds(x: real, y: real, q: real, t: real)
    requires 0.0 < y && q * y == x && -1.0 < q - t < 1.0
    ensures 0.0 <= q - t ==> 0.0 <= x - t * y < y
    ensures q - t <= 0.0 ==> -y < x - t * y <= 0.0
  {
    var qy, ty := q * y, t * y;
    assert qy == x;
    if 0.0 <= q - t {
      var d := q - t;
      ScaleFraction(d, y);
      var dy := d * y;
      assert 0.0 <= dy < y;
      assert dy == qy - ty;
      assert 0.0 <= x - ty < y;
    }
    if q - t <= 0.0 {
      var d := t - q;
      ScaleFraction(d, y);
      var dy := d * y;
      assert 0.0 <= dy < y;
      assert dy == ty - qy;
      assert -y < x - ty <= 0.0;
    }
  }
}
