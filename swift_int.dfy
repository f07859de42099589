/** Swift's 64-bit `Int` as the interpreter uses it: the range of values, the division
    operator (which truncates toward zero), and the failable conversion `Int(String)`
    that the parser applies to integer literals. Arithmetic that leaves the range, and
    division by zero, trap in Swift; callers check `InRange` and model the trap. */
module SwiftInt {
  import opened Wrappers

  const MIN: int := -0x8000_0000_0000_0000
  const MAX: int := 0x7FFF_FFFF_FFFF_FFFF

  predicate InRange(x: int)
  {
    MIN <= x <= MAX
  }

  /** The values of a Swift `Int`. */
  type Int64 = x: int | MIN <= x <= MAX

  function Abs(x: int): nat
  {
    if x < 0 then -x else x
  }

  /** Swift's `/` on integers: the quotient rounded toward zero, that is, the quotient of
      the magnitudes, negated when the operands' signs differ. */
  function TruncDiv(a: int, b: int): (q: int)
    requires b != 0
    ensures Abs(q) == Abs(a) / Abs(b)
    ensures q != 0 ==> (q > 0 <==> (a > 0 <==> b > 0))
  {
    var m := Abs(a) / Abs(b);
    assert a == 0 ==> m == 0;
    if (a >= 0) == (b > 0) then m else -m
  }

  /** Truncating division is odd in each argument. */
  lemma TruncDivSigns(a: int, b: int)
    requires b != 0
    ensures TruncDiv(-a, b) == -TruncDiv(a, b)
    ensures TruncDiv(a, -b) == -TruncDiv(a, b)
  {
  }

  /** Dividing by at least two at least halves. */
  lemma DivByAtLeastTwo(x: nat, y: int)
    requires y >= 2
    ensures x / y <= x / 2
  {
    var q := x / y;
    assert q * y <= x;
    assert q * 2 <= q * y by {
      assert q * y - q * 2 == q * (y - 2);
    }
  }

  predicate IsDigit(c: char)
  {
    '0' <= c <= '9'
  }

  predicate AllDigits(s: string)
  {
    forall i :: 0 <= i < |s| ==> IsDigit(s[i])
  }

  function DigitValue(c: char): nat
    requires IsDigit(c)
  {
    c as int - '0' as int
  }

  /** The value of a string of decimal digits, most significant first. */
  function DigitsValue(s: string): nat
    requires AllDigits(s)
  {
    if |s| == 0 then 0 else DigitsValue(s[..|s| - 1]) * 10 + DigitValue(s[|s| - 1])
  }

  /** Foundation's `Int(_: String)`: an optional `+` or `-` sign followed by at least one
      decimal digit, whose value fits in 64 bits; anything else gives nil. */
  function ParseInt(s: string): (r: Option<Int64>)
    ensures r.Some? ==> |s| >= 1
    ensures r.Some? && AllDigits(s) ==> r.value == DigitsValue(s)
    ensures |s| >= 1 && AllDigits(s) && DigitsValue(s) <= MAX ==> r == Some(DigitsValue(s))
  {
    if |s| == 0 then None
    else
      var negative := s[0] == '-';
      var digits := if s[0] == '-' || s[0] == '+' then s[1..] else s;
      if |digits| == 0 || !AllDigits(digits) then None
      else
        var v: int := if negative then 0 - DigitsValue(digits) else DigitsValue(digits);
        if InRange(v) then Some(v) else None
  }

  function DigitChar(d: nat): (c: char)
    requires d < 10
    ensures IsDigit(c) && DigitValue(c) == d
  {
    ('0' as int + d) as char
  }

  /** The decimal spelling of a natural number, without leading zeros. */
  function Decimal(n: nat): (s: string)
    ensures |s| >= 1 && AllDigits(s)
  {
    if n < 10 then [DigitChar(n)] else Decimal(n / 10) + [DigitChar(n % 10)]
  }

  /** Reading back the decimal spelling of `n` gives `n`. */
  lemma {:induction false} DecimalRoundTrip(n: nat)
    ensures DigitsValue(Decimal(n)) == n
  {
    var s := Decimal(n);
    if n >= 10 {
      DecimalRoundTrip(n / 10);
      assert s[..|s| - 1] == Decimal(n / 10);
    }
  }

  /** `Int(String)` accepts the decimal spelling of every 64-bit value, with a leading
      minus sign for the negative ones, and returns that value. */
  lemma ParseIntOfDecimal(n: int)
    requires InRange(n)
    ensures ParseInt(if n < 0 then "-" + Decimal(-n) else Decimal(n)) == Some(n)
  {
    if n < 0 {
      var d := Decimal(-n);
      var s := "-" + d;
      DecimalRoundTrip(-n);
      assert s[0] == '-' && s[1..] == d;
      assert ParseInt(s) == Some(0 - DigitsValue(d));
    } else {
      DecimalRoundTrip(n);
    }
  }

  /** A digit string whose value exceeds the largest `Int` is rejected. */
  lemma ParseIntRejectsOverflow(s: string)
    requires AllDigits(s) && DigitsValue(s) > MAX
    ensures ParseInt(s) == None
  {
  }
}
