/**
 * C integer semantics used throughout the X11 front end: division that
 * truncates toward zero (C99), and the wrap-around of the fixed-width
 * integer types the structures use (s16b, u32b, unsigned long).
 */
module CInt {

  datatype Option<T> = None | Some(value: T)

  /** 2 to the power n. */
  function Pow2(n: nat): (r: nat)
    ensures r >= 1
  {
    if n == 0 then 1 else 2 * Pow2(n - 1)
  }

  /**
   * C's `a / b` on `int` for a positive divisor: the quotient truncated
   * toward zero. Dafny's own `/` is Euclidean, so the negative case is
   * written out.
   */
  function Div(a: int, b: int): (q: int)
    requires b > 0
    ensures a >= 0 ==> 0 <= q && q * b <= a < q * b + b
    ensures a < 0 ==> q <= 0 && q * b - b < a <= q * b
  {
    if a >= 0 then
      Euclid(a, b);
      a / b
    else
      Euclid(-a, b);
      var m := (-a) / b;
      assert (-m) * b == -(m * b);
      -m
  }

  /** Dafny's `/` on a nonnegative numerator: the quotient's multiple lies within b below it. */
  lemma Euclid(a: nat, b: int)
    requires b > 0
    ensures 0 <= a / b && (a / b) * b <= a < (a / b) * b + b
  {
  }

  /** Numerators strictly between -b and b truncate to 0, on both sides of zero. */
  lemma DivSmall(a: int, b: int)
    requires b > 0 && -b < a < b
    ensures Div(a, b) == 0
  {
    var q := Div(a, b);
    if q != 0 {
      MulGrows(if q > 0 then q else -q, b);
    }
  }

  /** k * b >= b for k >= 1 and b >= 0; the nonlinear step the division lemmas need. */
  lemma MulGrows(k: int, b: int)
    requires k >= 1 && b >= 0
    ensures k * b >= b
  {
    assert k * b == (k - 1) * b + b;
  }

  /** Truncating division by a positive divisor is monotone in the numerator. */
  lemma DivMonotone(a1: int, a2: int, b: int)
    requires b > 0 && a1 <= a2
    ensures Div(a1, b) <= Div(a2, b)
  {
    var q1, q2 := Div(a1, b), Div(a2, b);
    if q1 > q2 {
      MulGrows(q1 - q2, b);
    }
  }

  /** Every cell origin maps back to its cell: Div(c * b + d, b) == c for 0 <= d < b, c >= 0. */
  lemma DivOfCellOffset(c: int, d: int, b: int)
    requires b > 0 && c >= 0 && 0 <= d < b
    ensures Div(c * b + d, b) == c
  {
    var q := Div(c * b + d, b);
    if q < c {
      MulGrows(c - q, b);
    } else if q > c {
      MulGrows(q - c, b);
    }
  }

  /** The value an assignment to an `s16b` (16-bit two's complement) stores. */
  function S16(v: int): (r: int)
    ensures -32768 <= r < 32768
    ensures (r - v) % 65536 == 0
    ensures -32768 <= v < 32768 ==> r == v
  {
    (v + 32768) % 65536 - 32768
  }

  /** The value of `v` converted to a 32-bit unsigned type. */
  function U32(v: int): (r: nat)
    ensures r < 0x1_0000_0000
    ensures (r - v) % 0x1_0000_0000 == 0
    ensures 0 <= v < 0x1_0000_0000 ==> r == v
  {
    v % 0x1_0000_0000
  }

  /** Multiplying both sides of a <= b by a non-negative t keeps the order. */
  lemma MulLe(a: int, b: int, t: int)
    requires a <= b && t >= 0
    ensures a * t <= b * t
  {
    assert b * t - a * t == (b - a) * t;
  }

  /** 2^(a+b) == 2^a * 2^b. */
  lemma {:induction false} Pow2Add(a: nat, b: nat)
    ensures Pow2(a + b) == Pow2(a) * Pow2(b)
    decreases a
  {
    if a > 0 {
      Pow2Add(a - 1, b);
    }
  }

  /** Pow2 is monotone. */
  lemma {:induction false} Pow2Monotone(a: nat, b: nat)
    requires a <= b
    ensures Pow2(a) <= Pow2(b)
    decreases b
  {
    if a < b {
      Pow2Monotone(a, b - 1);
    }
  }
}
