/** Go's integer division and remainder. Go truncates the quotient toward
    zero, so the remainder takes the sign of the dividend; Dafny's own `/`
    and `%` are Euclidean and differ from Go's on negative operands. */
module GoInt {

  function Abs(x: int): nat { if x < 0 then -x else x }

  /** `a / b` on Go ints (integer overflow aside). */
  function Quot(a: int, b: int): (q: int)
    requires b != 0
    ensures Abs(a - b * q) < Abs(b)
    ensures a - b * q == 0 || (a - b * q > 0 <==> a > 0)
  {
    if a >= 0 && b > 0 then a / b
    else if a >= 0 then -(a / -b)
    else if b > 0 then -((-a) / b)
    else (-a) / (-b)
  }

  /** `a % b` on Go ints: what is left after the truncated quotient. */
  function Rem(a: int, b: int): (r: int)
    requires b != 0
    ensures a - r == b * Quot(a, b)
    ensures Abs(r) < Abs(b)
    ensures r == 0 || (r > 0 <==> a > 0)
  {
    a - b * Quot(a, b)
  }

  /** The truncated quotient is the only integer whose remainder is smaller
      than the divisor and carries the dividend's sign. */
  lemma {:induction false} QuotUnique(a: int, b: int, q: int)
    requires b != 0
    requires Abs(a - b * q) < Abs(b)
    requires a - b * q == 0 || (a - b * q > 0 <==> a > 0)
    ensures q == Quot(a, b)
  {
    var q0 := Quot(a, b);
    var r, r0 := a - b * q, a - b * q0;
    Distributes(b, q0, q);
    NoMultipleBetween(b, q0 - q, r, r0);
  }

  lemma Distributes(b: int, x: int, y: int)
    ensures b * (x - y) == b * x - b * y
  {
  }

  /** Two remainders on the same side of zero, both smaller than `b`, cannot
      differ by a non-zero multiple of `b`. */
  lemma NoMultipleBetween(b: int, d: int, r: int, r0: int)
    requires b != 0 && Abs(r) < Abs(b) && Abs(r0) < Abs(b)
    requires (r >= 0 && r0 >= 0) || (r <= 0 && r0 <= 0)
    requires r - r0 == b * d
    ensures d == 0
  {
    if d != 0 {
      MulAtLeast(b, d);
    }
  }

  lemma MulAtLeast(b: int, d: int)
    requires d != 0
    ensures Abs(b * d) >= Abs(b)
  {
    if d > 0 {
      if b >= 0 { assert b * d >= b * 1; } else { assert b * d <= b * 1; }
    } else {
      if b >= 0 { assert b * d <= b * -1; } else { assert b * d >= b * -1; }
    }
  }
}
