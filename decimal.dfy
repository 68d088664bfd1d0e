/**
 * Base-10 digit strings: reading a digit run as a number (the lexer's
 * `parse::<i32>` of a pure digit span) and writing an integer the way
 * Rust's `{}` formatting does (token display and the emitter's `$<k>`).
 */
module Decimal {

  const I32_MIN: int := -0x8000_0000
  const I32_MAX: int := 0x7fff_ffff

  /** Rust's `i32`. */
  type i32 = x: int | I32_MIN <= x <= I32_MAX

  predicate IsDigit(c: char) { '0' <= c <= '9' }

  predicate AllDigits(s: string) {
    forall k :: 0 <= k < |s| ==> IsDigit(s[k])
  }

  function DigitValue(c: char): (d: nat)
    requires IsDigit(c)
    ensures d < 10
  {
    c as int - '0' as int
  }

  function DigitChar(d: nat): (c: char)
    requires d < 10
    ensures IsDigit(c) && DigitValue(c) == d
  {
    ('0' as int + d) as char
  }

  /** The value of a run of decimal digits, most significant first; leading zeros are allowed. */
  function Value(s: string): nat
    requires AllDigits(s)
  {
    if s == [] then 0 else Value(s[..|s| - 1]) * 10 + DigitValue(s[|s| - 1])
  }

  /** The shortest decimal rendering of a natural number. */
  function Digits(n: nat): (s: string)
    ensures |s| > 0 && AllDigits(s)
    ensures |s| > 1 ==> s[0] != '0'
    decreases n
  {
    if n < 10 then [DigitChar(n)] else Digits(n / 10) + [DigitChar(n % 10)]
  }

  /** Rust's `Display` of an integer: a minus sign for negatives, then the digits. */
  function Signed(i: int): (s: string)
    ensures |s| > 0 && IsDigit(s[|s| - 1])
    ensures s[0] == '-' || IsDigit(s[0])
    ensures AllDigits(s[1..])
    ensures s[0] == '-' <==> i < 0
  {
    if i < 0 then "-" + Digits(-i) else Digits(i)
  }

  /** Reading back what `Digits` writes gives the number again. */
  lemma {:induction false} ValueOfDigits(n: nat)
    ensures Value(Digits(n)) == n
    decreases n
  {
    if n >= 10 {
      var s := Digits(n);
      assert s[..|s| - 1] == Digits(n / 10);
      ValueOfDigits(n / 10);
    }
  }

  /** What `Signed` writes denotes `i`: the digits after the sign read back as its magnitude. */
  lemma SignedValue(i: int)
    ensures var s := Signed(i);
      && (i < 0 ==> Value(s[1..]) == -i)
      && (i >= 0 ==> Value(s) == i)
  {
    if i < 0 {
      assert Signed(i)[1..] == Digits(-i);
      ValueOfDigits(-i);
    } else {
      assert Signed(i) == Digits(i);
      ValueOfDigits(i);
    }
  }

  /** Distinct naturals have distinct digits. */
  lemma DigitsInjective(m: nat, n: nat)
    requires Digits(m) == Digits(n)
    ensures m == n
  {
    ValueOfDigits(m);
    ValueOfDigits(n);
  }

  /** Distinct integers are written differently. */
  lemma SignedInjective(i: int, j: int)
    requires Signed(i) == Signed(j)
    ensures i == j
  {
    var s := Signed(i);
    assert (i < 0) == (j < 0) by {
      assert s[0] == Signed(j)[0];
    }
    if i < 0 {
      assert Digits(-i) == s[1..] == Digits(-j);
      DigitsInjective(-i, -j);
    } else {
      DigitsInjective(i, j);
    }
  }

}
