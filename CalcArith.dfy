/**
 * The calculator's arithmetic on 32-bit C ints: `+`, `-`, `*` and `/` with
 * a zero result in place of overflow, underflow or division by zero.
 */
module CalcArith {
  import opened Hardware

  const IntMax := 0x7FFF_FFFF
  const IntMin := -0x8000_0000

  /** A value of a 32-bit C int. */
  predicate Int32(x: int) { IntMin <= x <= IntMax }

  function Abs(x: int): nat { if x < 0 then -x else x }

  /** x <= y scales by a non-negative factor. */
  lemma MulMonotone(x: int, y: int, d: int)
    requires x <= y && 0 <= d
    ensures x * d <= y * d
  {
    assert y * d - x * d == (y - x) * d;
  }

  /** A product with a positive factor stays at most m exactly when the other
      factor is at most floor(m / d). */
  lemma MulAtMost(a: int, d: int, m: int)
    requires 0 < d && 0 <= m
    ensures a * d <= m <==> a <= m / d
  {
    var q, r := m / d, m % d;
    assert m == q * d + r && 0 <= r < d;
    if a <= q {
      MulMonotone(a, q, d);
    } else {
      MulMonotone(q + 1, a, d);
      assert (q + 1) * d == q * d + d;
    }
  }

  /** The quotient's magnitude in C: the Euclidean quotient of the magnitudes. */
  function Magnitude(a: int, b: int): (m: int)
    requires b != 0
    ensures 0 <= m
  {
    Abs(a) / Abs(b)
  }

  /** Euclidean division of non-negative values leaves a remainder below the
      divisor, and the quotient is at most the dividend. */
  lemma NaturalDivision(x: int, y: int)
    requires 0 <= x && 0 < y
    ensures 0 <= x - x / y * y < y
    ensures x / y <= x
  {
    MulMonotone(1, y, x / y);
  }

  /** The remainder of the truncated quotient, case by case on the signs. */
  lemma TruncatedRemainder(a: int, b: int, q: int)
    requires b != 0
    requires q == (if (a < 0) == (b < 0) then Magnitude(a, b) else -Magnitude(a, b))
    ensures Abs(a - q * b) < Abs(b)
    ensures a - q * b == 0 || (a - q * b < 0 <==> a < 0)
    ensures Abs(q) <= Abs(a)
  {
    var x: int, y: int := Abs(a), Abs(b);
    NaturalDivision(x, y);
    var m: int := x / y;
    assert q * b == (if a < 0 then -(m * y) else m * y) by {
      if a < 0 && b < 0 {
        assert q == m && b == -y;
      } else if a < 0 {
        assert q == -m && b == y;
      } else if b < 0 {
        assert q == -m && b == -y;
      } else {
        assert q == m && b == y;
      }
    }
  }

  /** C's `/` (section 6.5.5, paragraph 6 of ISO/IEC 9899:2011): the algebraic
      quotient with any fractional part discarded, so the remainder is smaller
      than the divisor and has the sign of the dividend. */
  function CDiv(a: int, b: int): (q: int)
    requires b != 0
    ensures Abs(a - q * b) < Abs(b)
    ensures a - q * b == 0 || (a - q * b < 0 <==> a < 0)
    ensures Abs(q) <= Abs(a)
  {
    var q := if (a < 0) == (b < 0) then Magnitude(a, b) else -Magnitude(a, b);
    TruncatedRemainder(a, b, q);
    q
  }

  /** The `+` case: the overflow and underflow tests guard the exact sum. */
  function AddChecked(a: int, b: int): (r: int)
    requires Int32(a) && Int32(b)
    ensures r == (if Int32(a + b) then a + b else 0)
  {
    var overflow := b > 0 && a > IntMax - b;
    var underflow := b < 0 && a < IntMin - b;
    if overflow || underflow then 0 else a + b
  }

  /** The `-` case: the overflow and underflow tests guard the exact difference. */
  function SubChecked(a: int, b: int): (r: int)
    requires Int32(a) && Int32(b)
    ensures r == (if Int32(a - b) then a - b else 0)
  {
    var overflow := b < 0 && a > IntMax + b;
    var underflow := b > 0 && a < IntMin + b;
    if overflow || underflow then 0 else a - b
  }

  /** The `*` case as written: both tests divide by the second operand, so
      it must be neither 0 (division by zero) nor -1 (IntMin / -1 overflows);
      C leaves both undefined. */
  function MulAsWritten(a: int, b: int): int
    requires Int32(a) && Int32(b) && b != 0 && b != -1
  {
    var overflow := a > CDiv(IntMax, b);
    var underflow := a < CDiv(IntMin, b);
    if overflow || underflow then 0 else a * b
  }

  /** With a positive second operand the written tests are exact. */
  lemma MulAsWrittenPositive(a: int, b: int)
    requires Int32(a) && Int32(b) && b > 0
    ensures MulAsWritten(a, b) == (if Int32(a * b) then a * b else 0)
  {
    MulAtMost(a, b, IntMax);
    MulAtMost(-a, b, -IntMin);
    assert (-a) * b == -(a * b);
  }

  /** With a negative second operand the written tests are reversed: 5 * -2
      fits, yet the overflow test fires and the result is 0. */
  lemma MulAsWrittenNegative()
    ensures Int32(5 * -2) && MulAsWritten(5, -2) == 0
  {
    MulAsWrittenNegativeIsZero(5, -2);
  }

  /** With a second operand of -2 or below the written tests always fire:
      INT_MAX / b is at most 0 and INT_MIN / b at least 1, so every first
      operand exceeds the one or falls below the other, and the result is 0. */
  lemma MulAsWrittenNegativeIsZero(a: int, b: int)
    requires Int32(a) && Int32(b) && b <= -2
    ensures MulAsWritten(a, b) == 0
  {
    assert CDiv(IntMax, b) <= 0;
    MulAtMost(1, Abs(b), Abs(IntMin));
    assert CDiv(IntMin, b) == Magnitude(IntMin, b) >= 1;
  }

  /** The `*` case with tests that match the sign of the second operand. */
  function MulChecked(a: int, b: int): (r: int)
    requires Int32(a) && Int32(b)
    ensures r == (if Int32(a * b) then a * b else 0)
  {
    if b == 0 then 0
    else if b > 0 then
      var overflow := a > CDiv(IntMax, b);
      var underflow := a < CDiv(IntMin, b);
      MulAsWrittenPositive(a, b);
      if overflow || underflow then 0 else a * b
    else
      var overflow := a < CDiv(IntMax, b);
      var underflow := b < -1 && a > CDiv(IntMin, b);
      MulNegative(a, b);
      if overflow || underflow then 0 else a * b
  }

  /** The facts behind the tests for a negative second operand. */
  lemma MulNegative(a: int, b: int)
    requires Int32(a) && Int32(b) && b < 0
    ensures a * b > IntMax <==> a < CDiv(IntMax, b)
    ensures a * b < IntMin <==> b < -1 && a > CDiv(IntMin, b)
  {
    MulNegativeAbove(a, b);
    MulNegativeBelow(a, b);
  }

  /** Overflow past IntMax for a negative second operand. */
  lemma MulNegativeAbove(a: int, b: int)
    requires Int32(a) && Int32(b) && b < 0
    ensures a * b > IntMax <==> a < CDiv(IntMax, b)
  {
    var d := -b;
    assert CDiv(IntMax, b) == -(IntMax / d) by {
      assert Magnitude(IntMax, b) == IntMax / d;
    }
    assert a * b == (-a) * d;
    MulAtMost(-a, d, IntMax);
  }

  /** Overflow past IntMin for a negative second operand. */
  lemma MulNegativeBelow(a: int, b: int)
    requires Int32(a) && Int32(b) && b < 0
    ensures a * b < IntMin <==> b < -1 && a > CDiv(IntMin, b)
  {
    var d := -b;
    assert CDiv(IntMin, b) == -IntMin / d by {
      assert Magnitude(IntMin, b) == -IntMin / d;
    }
    assert a * b == -(a * d);
    MulAtMost(a, d, -IntMin);
    if d == 1 {
      assert -IntMin / d == -IntMin;
    }
  }

  /** The `/` case as written: only a zero divisor is caught, so IntMin / -1,
      whose quotient does not fit, is undefined in C. */
  function DivAsWritten(a: int, b: int): int
    requires Int32(a) && Int32(b) && (b != 0 ==> Int32(CDiv(a, b)))
  {
    if b == 0 then 0 else CDiv(a, b)
  }

  /** The zero test lets IntMin / -1 through, and its quotient is not an int. */
  lemma DivGuardAdmitsOverflow()
    ensures Int32(IntMin) && -1 != 0 && !Int32(CDiv(IntMin, -1))
  {
  }

  /** The only 32-bit division whose truncated quotient does not fit. */
  lemma QuotientFits(a: int, b: int)
    requires Int32(a) && Int32(b) && b != 0
    ensures Int32(CDiv(a, b)) <==> !(a == IntMin && b == -1)
  {
    if Abs(b) >= 2 {
      MulAtMost(Magnitude(a, b), Abs(b), Abs(a));
      MulMonotone(2, Abs(b), Magnitude(a, b));
      assert Magnitude(a, b) * 2 <= Abs(a);
    } else if b == 1 {
      assert Magnitude(a, b) == Abs(a);
    } else {
      assert Magnitude(a, b) == Abs(a);
    }
  }

  /** The `/` case with the unrepresentable quotient also mapped to 0. */
  function DivChecked(a: int, b: int): (r: int)
    requires Int32(a) && Int32(b)
    ensures Int32(r)
    ensures b == 0 ==> r == 0
    ensures b != 0 ==> r == (if Int32(CDiv(a, b)) then CDiv(a, b) else 0)
  {
    if b == 0 then 0
    else
      QuotientFits(a, b);
      if a == IntMin && b == -1 then 0 else CDiv(a, b)
  }

  /** The `switch (operatorChar)`: the four operators, 0 for any other character. */
  function Evaluate(a: int, op: char, b: int): (r: int)
    requires Int32(a) && Int32(b)
    ensures Int32(r)
    ensures op == '+' ==> r == (if Int32(a + b) then a + b else 0)
    ensures op == '-' ==> r == (if Int32(a - b) then a - b else 0)
    ensures op == '*' ==> r == (if Int32(a * b) then a * b else 0)
    ensures op == '/' ==> r == (if b == 0 || !Int32(CDiv(a, b)) then 0 else CDiv(a, b))
    ensures op !in {'+', '-', '*', '/'} ==> r == 0
  {
    match op
    case '+' => AddChecked(a, b)
    case '-' => SubChecked(a, b)
    case '*' => MulChecked(a, b)
    case '/' => DivChecked(a, b)
    case _ => 0
  }
}
