/** Decimal digits: printing and reading natural numbers. */
module Decimals {
  function DigitChar(d: int): char
    requires 0 <= d < 10
  {
    '0' + d as char
  }

  /** The last `w` decimal digits of `n`, most significant first. */
  function Digits(n: int, w: nat): (s: string)
    requires 0 <= n
    ensures |s| == w
    ensures forall i | 0 <= i < w :: '0' <= s[i] <= '9'
    decreases w
  {
    if w == 0 then "" else Digits(n / 10, w - 1) + [DigitChar(n % 10)]
  }

  predicate IsDigit(c: char) { '0' <= c <= '9' }

  function DigitValue(c: char): int
    requires IsDigit(c)
  {
    c as int - '0' as int
  }

  function Value(s: string): int
    requires forall i | 0 <= i < |s| :: IsDigit(s[i])
  {
    if s == "" then 0 else 10 * Value(s[..|s| - 1]) + DigitValue(s[|s| - 1])
  }

  function Pow10(w: nat): int {
    if w == 0 then 1 else 10 * Pow10(w - 1)
  }

  /** A digit is written and read as usual. */
  lemma DigitAsWritten(d: nat)
    requires d < 10
    ensures var ch := "0123456789"[d];
            Digits(d, 1) == [ch] && IsDigit(ch) && Value([ch]) == d
  {
    assert Digits(0, 0) == "" && [DigitChar(d)][..0] == "";
  }

  lemma {:induction false} ValueOfDigits(n: int, w: nat)
    requires 0 <= n < Pow10(w)
    ensures Value(Digits(n, w)) == n
    decreases w
  {
    if w > 0 {
      ValueOfDigits(n / 10, w - 1);
      var s := Digits(n, w);
      assert s[..w - 1] == Digits(n / 10, w - 1);
    }
  }

  lemma {:induction false} DigitsOfValue(s: string)
    requires forall i | 0 <= i < |s| :: IsDigit(s[i])
    ensures 0 <= Value(s) < Pow10(|s|)
    ensures Digits(Value(s), |s|) == s
    decreases |s|
  {
    if s != "" {
      var t := s[..|s| - 1];
      DigitsOfValue(t);
      assert Value(s) / 10 == Value(t) && Value(s) % 10 == DigitValue(s[|s| - 1]);
      assert s == t + [s[|s| - 1]];
    }
  }

  lemma SmallPowers()
    ensures Pow10(2) == 100 && Pow10(4) == 10000
  {
    assert Pow10(1) == 10;
    assert Pow10(3) == 1000;
  }

  /** How many digits a number is printed with. */
  function Length(n: int): (w: nat)
    requires 0 <= n
    ensures 1 <= w
  {
    if n < 10 then 1 else 1 + Length(n / 10)
  }

  function Decimal(n: int): string
    requires 0 <= n
  {
    Digits(n, Length(n))
  }

  lemma {:induction false} LengthSuffices(n: int)
    requires 0 <= n
    ensures n < Pow10(Length(n))
  {
    if n >= 10 {
      LengthSuffices(n / 10);
    } else {
      assert Pow10(1) == 10;
    }
  }

  lemma ValueOfDecimal(n: int)
    requires 0 <= n
    ensures Value(Decimal(n)) == n
  {
    LengthSuffices(n);
    ValueOfDigits(n, Length(n));
  }
}
