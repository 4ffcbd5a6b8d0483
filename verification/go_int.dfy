/**
 * Go's integer semantics as the program relies on them: the `/` operator on
 * `int`, which truncates toward zero, and the `%d` verb of the fmt package,
 * which writes an integer in decimal with a leading '-' when it is negative.
 * Go's `int` is 32 or 64 bits wide depending on the platform; this model
 * uses unbounded integers.
 */
module GoInt {

  /**
   * Go's `a / b` for a positive divisor (the program divides only by the
   * constants 9 and 22): the quotient truncated toward zero. The remainder
   * `a - b * q` is smaller than the divisor and never has the opposite sign
   * of the dividend, as the Go specification defines it.
   */
  function Quo(a: int, b: int): (q: int)
    requires b > 0
    ensures a >= 0 ==> 0 <= a - b * q < b
    ensures a < 0 ==> -b < a - b * q <= 0
  {
    if a >= 0 then a / b else -((-a) / b)
  }

  /** The truncated quotient is the only quotient with the remainder law above. */
  lemma QuoUnique(a: int, b: int, q: int)
    requires b > 0
    requires a >= 0 ==> 0 <= a - b * q < b
    requires a < 0 ==> -b < a - b * q <= 0
    ensures q == Quo(a, b)
  {
    var p := Quo(a, b);
    if p > q {
      MulAtLeast(b, p - q);
    } else if p < q {
      MulAtLeast(b, q - p);
    }
  }

  lemma MulAtLeast(b: int, k: int)
    requires b > 0 && k >= 1
    ensures b * k >= b
  {
  }

  /** Truncation is symmetric about zero, unlike Euclidean division. */
  lemma QuoNegate(a: int, b: int)
    requires b > 0
    ensures Quo(-a, b) == -Quo(a, b)
  {
  }

  /** On a non-negative dividend Go's `/` agrees with Dafny's. */
  lemma QuoOfNonNegative(a: int, b: int)
    requires a >= 0 && b > 0
    ensures Quo(a, b) == a / b
  {
  }

  /** On a negative dividend that the divisor does not divide, Go's `/` is one above Dafny's. */
  lemma QuoOfNegative(a: int, b: int)
    requires a < 0 && b > 0 && a % b != 0
    ensures Quo(a, b) == a / b + 1
  {
    var q := a / b + 1;
    assert a == b * (a / b) + a % b;
    assert a - b * q == a % b - b;
    QuoUnique(a, b, q);
  }

  /** Dividing by a positive constant preserves order. */
  lemma QuoMonotonic(a1: int, a2: int, b: int)
    requires b > 0 && a1 <= a2
    ensures Quo(a1, b) <= Quo(a2, b)
  {
    var q1, q2 := Quo(a1, b), Quo(a2, b);
    if a1 < 0 <= a2 {
      QuoSign(a1, b);
      QuoSign(a2, b);
    } else if q2 < q1 {
      // both remainders lie on the same side of zero, so they differ by less than b,
      // while b * q1 would exceed b * q2 by at least b
      MulStep(b, q2, q1);
    }
  }

  /** The quotient never has the opposite sign of the dividend. */
  lemma QuoSign(a: int, b: int)
    requires b > 0
    ensures a >= 0 ==> Quo(a, b) >= 0
    ensures a < 0 ==> Quo(a, b) <= 0
  {
    // Quo is n / b or its negation for n == |a|; n / b is never negative, since
    // b * (n / b) + b <= 0 would leave n == b * (n / b) + n % b below zero
    var n := if a >= 0 then a else -a;
    if n / b < 0 {
      // this branch is never taken: the lemma call exhibits the contradiction
      MulStep(b, n / b, 0);
    }
  }

  lemma MulStep(b: int, x: int, y: int)
    requires b > 0 && x < y
    ensures b * x + b <= b * y
  {
    MulAtLeast(b, y - x);
    assert b * (y - x) == b * y - b * x;
  }

  // ---------------------------------------------------------------------------
  // `%d`: decimal text of an integer

  predicate IsDigit(c: char) {
    '0' <= c <= '9'
  }

  predicate IsDigits(s: string) {
    forall i :: 0 <= i < |s| ==> IsDigit(s[i])
  }

  function DigitChar(d: int): (c: char)
    requires 0 <= d < 10
    ensures IsDigit(c)
  {
    (d + '0' as int) as char
  }

  function DigitValue(c: char): (d: nat)
    requires IsDigit(c)
    ensures d < 10 && DigitChar(d) == c
  {
    c as int - '0' as int
  }

  /** Decimal digits of a natural number, without leading zeros. */
  function FormatNat(n: nat): (s: string)
    ensures |s| > 0 && IsDigits(s)
    ensures s[0] == '0' ==> n == 0
    decreases n
  {
    if n < 10 then [DigitChar(n)] else FormatNat(n / 10) + [DigitChar(n % 10)]
  }

  /** What `fmt.Printf("%d", n)` writes. */
  function FormatInt(n: int): (s: string)
    ensures |s| > 0
    ensures n < 0 <==> s[0] == '-'
    ensures IsDigits(if n < 0 then s[1..] else s)
  {
    if n < 0 then "-" + FormatNat(-n) else FormatNat(n)
  }

  /** Well-formed decimal text: an optional '-' and at least one digit. */
  predicate IsDecimal(s: string) {
    if |s| > 0 && s[0] == '-' then |s| > 1 && IsDigits(s[1..]) else |s| > 0 && IsDigits(s)
  }

  function ParseNat(s: string): nat
    requires IsDigits(s)
  {
    if s == [] then 0 else ParseNat(s[..|s| - 1]) * 10 + DigitValue(s[|s| - 1])
  }

  /** Reads decimal text back: the inverse of FormatInt. */
  function ParseInt(s: string): int
    requires IsDecimal(s)
  {
    if s[0] == '-' then -(ParseNat(s[1..]) as int) else ParseNat(s)
  }

  lemma {:induction false} ParseFormatNat(n: nat)
    ensures ParseNat(FormatNat(n)) == n
    decreases n
  {
    var s := FormatNat(n);
    if n >= 10 {
      ParseFormatNat(n / 10);
      assert s[..|s| - 1] == FormatNat(n / 10);
    }
  }

  /** `%d` loses nothing: the printed text reads back as the number. */
  lemma ParseFormatInt(n: int)
    ensures IsDecimal(FormatInt(n))
    ensures ParseInt(FormatInt(n)) == n
  {
    if n < 0 {
      ParseFormatNat(-n);
      assert FormatInt(n)[1..] == FormatNat(-n);
    } else {
      ParseFormatNat(n);
    }
  }

  /** Distinct numbers print differently. */
  lemma FormatIntInjective(a: int, b: int)
    requires FormatInt(a) == FormatInt(b)
    ensures a == b
  {
    ParseFormatInt(a);
    ParseFormatInt(b);
  }

  /** Every character of decimal text is a digit or the leading '-'. */
  lemma FormatIntChar(n: int, i: int)
    requires 0 <= i < |FormatInt(n)|
    ensures IsDigit(FormatInt(n)[i]) || FormatInt(n)[i] == '-'
  {
    var s := FormatInt(n);
    if n < 0 && i > 0 {
      assert s[i] == s[1..][i - 1];
    }
  }

  /** A two-digit number prints as its two digits. */
  lemma FormatTwoDigits(n: int)
    requires 10 <= n < 100
    ensures FormatInt(n) == [DigitChar(n / 10), DigitChar(n % 10)]
  {
    assert FormatNat(n / 10) == [DigitChar(n / 10)];
    assert FormatNat(n) == FormatNat(n / 10) + [DigitChar(n % 10)];
  }
}
