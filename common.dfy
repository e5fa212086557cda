/** Machine-level vocabulary shared by the rest of the model: Rust's panics,
    its fixed-width integer types and its float-to-integer cast. */
module RustCore {

  /** The ways a Rust routine of the modem can abort. */
  datatype Panic =
    | ArithmeticOverflow   // debug-mode overflow or underflow of u64/usize arithmetic
    | DivisionByZero       // integer `/` or `%` by zero
    | IndexOutOfBounds     // `v[i]` with `i >= v.len()`
    | AssertionFailed      // `assert!` / `assert_eq!`

  /** The result of a routine that either returns a value or panics. */
  datatype Result<T> = Ok(value: T) | Err(panic: Panic)

  /** Rust's `Option`. */
  datatype Option<T> = None | Some(value: T)

  /** The result of a routine that returns nothing or panics. */
  datatype Outcome = Pass | Fail(panic: Panic)

  const U32_LIMIT: nat := 0x1_0000_0000
  const U64_LIMIT: nat := 0x1_0000_0000_0000_0000
  const I16_MIN: int := -0x8000
  const I16_MAX: int := 0x7FFF

  type u32 = x: int | 0 <= x < 0x1_0000_0000
  type u64 = x: int | 0 <= x < 0x1_0000_0000_0000_0000
  type i16 = x: int | -0x8000 <= x <= 0x7FFF

  /** Rounding toward zero, as Rust's float-to-integer casts do. */
  function Truncate(x: real): (t: int)
    ensures 0.0 <= x ==> 0 <= t && t as real <= x < t as real + 1.0
    ensures x < 0.0 ==> t <= 0 && t as real - 1.0 < x <= t as real
  {
    if 0.0 <= x then x.Floor else -((-x).Floor)
  }

  /** `x as i16` for a float `x`: truncate toward zero, then saturate at the
      bounds of i16 (Rust's cast semantics since version 1.45). */
  function CastToI16(x: real): (r: i16)
    ensures I16_MIN as real <= x <= I16_MAX as real ==> r == Truncate(x)
    ensures x < I16_MIN as real ==> r == I16_MIN
    ensures x > I16_MAX as real ==> r == I16_MAX
  {
    var t := Truncate(x);
    if t < I16_MIN then I16_MIN else if t > I16_MAX then I16_MAX else t
  }

  /** Truncation never moves a value across another: it is monotone. */
  lemma TruncateMonotone(x: real, y: real)
    requires x <= y
    ensures Truncate(x) <= Truncate(y)
  {
    if 0.0 <= x {
      assert x.Floor <= y.Floor;
    } else if y < 0.0 {
      assert (-y).Floor <= (-x).Floor;
    }
  }

  /** The quantiser preserves the order of samples. */
  lemma CastToI16Monotone(x: real, y: real)
    requires x <= y
    ensures CastToI16(x) <= CastToI16(y)
  {
    TruncateMonotone(x, y);
  }

  /** A sample that already is an in-range whole number is quantised to itself. */
  lemma CastToI16Exact(n: int)
    requires I16_MIN <= n <= I16_MAX
    ensures CastToI16(n as real) == n
  {
  }

  /** Multiplication by a natural number is monotone. */
  lemma {:induction false} MulMonotone(a: nat, b: nat, c: nat)
    requires a <= b
    ensures a * c <= b * c
  {
    if a < b {
      MulMonotone(a, b - 1, c);
      assert (b - 1) * c + c == b * c;
    }
  }
}
