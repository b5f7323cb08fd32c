/**
 * The two C library conversions the calculator relies on, restricted to
 * what it feeds them: `sprintf("%d")` renders an int in decimal, and
 * `sscanf("%d%c%d")` reads an optional sign and a run of digits, one
 * character, then another optional sign and run of digits.
 */
module Decimal {
  import opened Wrappers
  import opened Hardware

  predicate IsDigit(c: char) { '0' <= c <= '9' }

  predicate AllDigits(s: seq<char>)
  {
    forall i :: 0 <= i < |s| ==> IsDigit(s[i])
  }

  function DigitChar(d: int): (c: Char8)
    requires 0 <= d < 10
    ensures IsDigit(c) && DigitValue(c) == d
  {
    (('0' as int) + d) as char
  }

  function DigitValue(c: char): int
    requires IsDigit(c)
  {
    c as int - '0' as int
  }

  function Pow10(k: nat): nat
  {
    if k == 0 then 1 else 10 * Pow10(k - 1)
  }

  /** The decimal digits of n, most significant first, without leading zeros. */
  function Digits(n: nat): (s: seq<Char8>)
    ensures 1 <= |s| && AllDigits(s)
    ensures |s| > 1 ==> s[0] != '0'
    decreases n
  {
    if n < 10 then [DigitChar(n)] else Digits(n / 10) + [DigitChar(n % 10)]
  }

  /** sprintf(buf, "%d", n): a minus sign for negative n, then the digits of |n|. */
  function Render(n: int): (s: seq<Char8>)
    ensures 1 <= |s| && '\0' !in s
    ensures (s[0] == '-') <==> n < 0
    ensures n < 0 ==> AllDigits(s[1..])
    ensures n >= 0 ==> AllDigits(s)
  {
    if n < 0 then ['-'] + Digits(-n) else Digits(n)
  }

  /** The number a run of decimal digits denotes. */
  function DigitsValue(s: seq<char>): nat
    requires AllDigits(s)
  {
    if s == [] then 0 else DigitsValue(s[..|s| - 1]) * 10 + DigitValue(s[|s| - 1])
  }

  /** Appending a digit shifts the value one place and adds the digit. */
  lemma AllDigitsSnoc(s: seq<char>, c: char)
    requires AllDigits(s) && IsDigit(c)
    ensures AllDigits(s + [c])
  {
  }

  lemma DigitsValueSnoc(s: seq<char>, c: char)
    requires AllDigits(s) && IsDigit(c)
    ensures AllDigits(s + [c]) && DigitsValue(s + [c]) == DigitsValue(s) * 10 + DigitValue(c)
  {
    assert (s + [c])[..|s|] == s;
  }

  /** Reading back the digits of n gives n. */
  lemma {:induction false} DigitsValueOfDigits(n: nat)
    ensures DigitsValue(Digits(n)) == n
  {
    if n >= 10 {
      var s := Digits(n);
      assert s[..|s| - 1] == Digits(n / 10);
      DigitsValueOfDigits(n / 10);
    }
  }

  /** A number below 10^k has at most k digits. */
  lemma {:induction false} DigitsLength(n: nat, k: nat)
    requires 1 <= k && n < Pow10(k)
    ensures |Digits(n)| <= k
  {
    if n >= 10 {
      assert k >= 2;
      DigitsLength(n / 10, k - 1);
    }
  }

  /** A run of k digits reads as a value below 10^k. */
  lemma {:induction false} DigitsValueBound(s: seq<char>)
    requires AllDigits(s)
    ensures DigitsValue(s) < Pow10(|s|)
  {
    if s != [] {
      var p := s[..|s| - 1];
      DigitsValueBound(p);
      assert DigitsValue(s) <= (Pow10(|p|) - 1) * 10 + 9;
    }
  }

  /** Nine digits or fewer always fit a 32-bit int. */
  lemma NineDigitsFit(s: seq<char>)
    requires AllDigits(s) && |s| <= 9
    ensures DigitsValue(s) < 1_000_000_000
  {
    DigitsValueBound(s);
    PowMonotone(|s|, 9);
    assert Pow10(9) == 1_000_000_000 by {
      assert Pow10(3) == 1_000;
    }
  }

  lemma {:induction false} PowMonotone(j: nat, k: nat)
    requires j <= k
    ensures Pow10(j) <= Pow10(k)
  {
    if j < k {
      PowMonotone(j, k - 1);
    }
  }

  /** A run of k nines is the largest k-digit value, 10^k - 1. */
  lemma {:induction false} AllNines(s: seq<char>)
    requires forall i :: 0 <= i < |s| ==> s[i] == '9'
    ensures AllDigits(s) && DigitsValue(s) == Pow10(|s|) - 1
    decreases |s|
  {
    if s != [] {
      AllNines(s[..|s| - 1]);
    }
  }

  /** A number of at least 10^k has more than k digits. */
  lemma DigitsLengthAbove(n: nat, k: nat)
    requires Pow10(k) <= n
    ensures |Digits(n)| > k
  {
    DigitsValueOfDigits(n);
    DigitsValueBound(Digits(n));
    if |Digits(n)| <= k {
      PowMonotone(|Digits(n)|, k);
    }
  }

  /** A 32-bit int renders in at most 11 characters ("-2147483648"). */
  lemma RenderLength(n: int)
    requires -0x8000_0000 <= n <= 0x7FFF_FFFF
    ensures |Render(n)| <= 11
  {
    assert Pow10(10) == 10_000_000_000 by {
      assert Pow10(5) == 100_000;
    }
    if n < 0 { DigitsLength(-n, 10); } else { DigitsLength(n, 10); }
  }

  /** The length of the run of digits at the start of s. */
  function DigitRun(s: seq<char>): (n: nat)
    ensures n <= |s| && AllDigits(s[..n])
    ensures n < |s| ==> !IsDigit(s[n])
  {
    if s == [] || !IsDigit(s[0]) then 0
    else
      var n := 1 + DigitRun(s[1..]);
      assert s[..n] == [s[0]] + s[1..][..n - 1];
      n
  }

  /** What a conversion leaves: its value and the unread input. */
  datatype Scanned = Scanned(value: int, rest: seq<char>)

  /** One "%d" conversion: an optional sign and at least one digit. Leading
      white space is not modelled (the calculator never produces any). */
  function ScanDecimal(s: seq<char>): (r: Option<Scanned>)
    ensures r.Some? ==> |r.value.rest| < |s| && r.value.rest == s[|s| - |r.value.rest|..]
  {
    var signed := |s| > 0 && (s[0] == '-' || s[0] == '+');
    var body := if signed then s[1..] else s;
    var n := DigitRun(body);
    if n == 0 then None
    else
      var magnitude: int := DigitsValue(body[..n]);
      Some(Scanned(if signed && s[0] == '-' then -magnitude else magnitude, body[n..]))
  }

  /** The run of digits of `digits` stops exactly where a non-digit follows. */
  lemma {:induction false} DigitRunOf(digits: seq<char>, rest: seq<char>)
    requires AllDigits(digits)
    requires rest == [] || !IsDigit(rest[0])
    ensures DigitRun(digits + rest) == |digits|
  {
    if digits != [] {
      assert (digits + rest)[1..] == digits[1..] + rest;
      DigitRunOf(digits[1..], rest);
    }
  }

  /** "%d" on text that starts with a digit reads the whole run of digits. */
  lemma ScanUnsigned(s: seq<char>)
    requires s != [] && IsDigit(s[0])
    ensures DigitRun(s) >= 1
    ensures ScanDecimal(s) == Some(Scanned(DigitsValue(s[..DigitRun(s)]), s[DigitRun(s)..]))
  {
  }

  /** "%d" on a minus sign and the text t after it negates the run of digits of t. */
  lemma ScanNegative(t: seq<char>, k: nat, m: int, rest: seq<char>)
    requires 1 <= k && DigitRun(t) == k && DigitsValue(t[..k]) == -m && t[k..] == rest
    ensures ScanDecimal(['-'] + t) == Some(Scanned(m, rest))
  {
    assert (['-'] + t)[1..] == t;
  }

  /** "%d" reads a typed run of digits followed by a non-digit as its value. */
  lemma ScanDigits(digits: seq<char>, rest: seq<char>)
    requires 1 <= |digits| && AllDigits(digits)
    requires rest == [] || !IsDigit(rest[0])
    ensures ScanDecimal(digits + rest) == Some(Scanned(DigitsValue(digits), rest))
  {
    var s := digits + rest;
    assert s[0] == digits[0];
    ScanUnsigned(s);
    DigitRunOf(digits, rest);
    assert s[..|digits|] == digits;
    assert s[|digits|..] == rest;
  }

  /** "%d" reads back what "%d" rendered, when a non-digit follows it. */
  lemma ScanRender(n: int, rest: seq<char>)
    requires rest == [] || !IsDigit(rest[0])
    ensures ScanDecimal(Render(n) + rest) == Some(Scanned(n, rest))
  {
    if n < 0 {
      DigitRunOf(Digits(-n), rest);
      ScanRenderNegative(n, rest);
    } else {
      DigitsValueOfDigits(n);
      ScanDigits(Digits(n), rest);
    }
  }

  /** The negative half of ScanRender, once the digits of -n are known to end
      where the rest begins. */
  lemma ScanRenderNegative(n: int, rest: seq<char>)
    requires n < 0 && DigitRun(Digits(-n) + rest) == |Digits(-n)|
    ensures ScanDecimal(Render(n) + rest) == Some(Scanned(n, rest))
  {
    var k: nat := -n;
    var d := Digits(k);
    assert Render(n) + rest == ['-'] + (d + rest);
    DigitsValueOfDigits(k);
    assert DigitsValue(d) == -n;
    ScanSignedRun(d, rest, n);
  }

  /** "%d" on a minus sign, a run of digits worth -m and text that does not continue the run. */
  lemma ScanSignedRun(d: seq<char>, rest: seq<char>, m: int)
    requires 1 <= |d| && AllDigits(d)
    requires DigitRun(d + rest) == |d|
    requires DigitsValue(d) == -m
    ensures ScanDecimal(['-'] + (d + rest)) == Some(Scanned(m, rest))
  {
    var t := d + rest;
    assert t[..|d|] == d && t[|d|..] == rest;
    ScanNegative(t, |d|, m, rest);
  }

  /** The three results of sscanf(s, "%d%c%d"). */
  datatype Expression = Expression(first: int, op: char, second: int)

  /** sscanf(s, "%d%c%d") when all three conversions succeed; None when one fails. */
  function ScanExpression(s: seq<char>): (r: Option<Expression>)
  {
    match ScanDecimal(s)
    case None => None
    case Some(a) =>
      if a.rest == [] then None
      else
        match ScanDecimal(a.rest[1..])
        case None => None
        case Some(b) => Some(Expression(a.value, a.rest[0], b.value))
  }

  /** A rendered result, an operator character and a typed operand scan back
      to their values: what chaining a result into the next calculation needs. */
  lemma ScanChained(n: int, op: char, digits: seq<char>)
    requires !IsDigit(op) && 1 <= |digits| && AllDigits(digits)
    ensures ScanExpression(Render(n) + [op] + digits) == Some(Expression(n, op, DigitsValue(digits)))
  {
    ScanRenderedThenDigits(n, op, digits);
    Regroup(Render(n), [op], digits);
    ScanExpressionOf(Render(n) + ([op] + digits), n, op, digits, DigitsValue(digits), []);
  }

  /** The two "%d" conversions of ScanChained, one at a time. */
  lemma ScanRenderedThenDigits(n: int, op: char, digits: seq<char>)
    requires !IsDigit(op) && 1 <= |digits| && AllDigits(digits)
    ensures ScanDecimal(Render(n) + ([op] + digits)) == Some(Scanned(n, [op] + digits))
    ensures ScanDecimal(digits) == Some(Scanned(DigitsValue(digits), []))
  {
    ScanRender(n, [op] + digits);
    ScanWhole(digits);
  }

  /** "%d" on a run of digits that ends the text. */
  lemma ScanWhole(digits: seq<char>)
    requires 1 <= |digits| && AllDigits(digits)
    ensures ScanDecimal(digits) == Some(Scanned(DigitsValue(digits), []))
  {
    assert digits + [] == digits;
    ScanDigits(digits, []);
  }

  lemma Regroup(a: seq<char>, b: seq<char>, c: seq<char>)
    ensures a + b + c == a + (b + c)
  {
  }

  /** A rendered result, an operator character and a minus sign before a
      typed operand: the first "%d" stops at the operator, and the second
      takes the sign as part of its number. */
  lemma ScanRenderedThenSigned(n: int, op: char, digits: seq<char>)
    requires !IsDigit(op) && 1 <= |digits| && AllDigits(digits)
    ensures ScanDecimal(Render(n) + ([op] + (['-'] + digits))) == Some(Scanned(n, [op] + (['-'] + digits)))
    ensures ScanDecimal(['-'] + digits) == Some(Scanned(-(DigitsValue(digits) as int), []))
  {
    ScanMinusDigits(digits);
    ScanRender(n, [op] + (['-'] + digits));
  }

  /** "%d" on a minus sign and a run of digits that ends the text. */
  lemma ScanMinusDigits(digits: seq<char>)
    requires 1 <= |digits| && AllDigits(digits)
    ensures ScanDecimal(['-'] + digits) == Some(Scanned(-(DigitsValue(digits) as int), []))
  {
    DigitRunAll(digits);
    assert digits[..|digits|] == digits;
    assert digits[|digits|..] == [];
    ScanNegative(digits, |digits|, -(DigitsValue(digits) as int), []);
  }

  /** A text made only of digits is one run. */
  lemma DigitRunAll(digits: seq<char>)
    requires AllDigits(digits)
    ensures DigitRun(digits) == |digits|
  {
    DigitRunOf(digits, []);
    assert digits + [] == digits;
  }


  /** sscanf("%d%c%d") as three conversions in a row. */
  lemma ScanExpressionOf(s: seq<char>, first: int, op: char, tail: seq<char>, second: int, rest: seq<char>)
    requires ScanDecimal(s) == Some(Scanned(first, [op] + tail))
    requires ScanDecimal(tail) == Some(Scanned(second, rest))
    ensures ScanExpression(s) == Some(Expression(first, op, second))
  {
    assert ([op] + tail)[1..] == tail;
  }
}
