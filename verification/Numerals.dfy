/** Numbers written in a base, as the standard formatting routines write them. */
module Numerals {

  function Digit(d: nat): (c: char)
    requires d < 16
  {
    if d < 10 then '0' + d as char else 'a' + (d - 10) as char
  }

  /** The value of a digit, -1 for another character. */
  function DigitValue(c: char): int {
    if '0' <= c <= '9' then c as int - '0' as int
    else if 'a' <= c <= 'f' then c as int - 'a' as int + 10
    else -1
  }

  predicate IsDigit(c: char) { '0' <= c <= '9' }

  predicate AllDigits(s: string) {
    forall i :: 0 <= i < |s| ==> IsDigit(s[i])
  }

  lemma DigitsOf(s: string)
    ensures AllDigits(s) <==> Digits(s, 10)
  {
    if Digits(s, 10) {
      forall i | 0 <= i < |s| ensures IsDigit(s[i]) { assert 0 <= DigitValue(s[i]) < 10; }
    }
  }

  predicate IsBase(base: nat) { base == 10 || base == 16 }

  /** A text of digits. */
  predicate Digits(s: string, base: nat) {
    forall i :: 0 <= i < |s| ==> 0 <= DigitValue(s[i]) < base
  }

  function Quotient(n: nat, base: nat): nat { if base == 10 then n / 10 else n / 16 }

  function Remainder(n: nat, base: nat): nat { if base == 10 then n % 10 else n % 16 }

  function Scaled(n: nat, base: nat): nat { if base == 10 then n * 10 else n * 16 }

  lemma Division(n: nat, base: nat)
    requires IsBase(base)
    ensures Scaled(Quotient(n, base), base) + Remainder(n, base) == n && Remainder(n, base) < base
    ensures n >= base ==> Quotient(n, base) < n
    ensures n < base ==> Remainder(n, base) == n
  {
  }

  lemma DigitRoundTrip(d: nat)
    requires d < 16
    ensures DigitValue(Digit(d)) == d
  {
  }

  /** n in the given base, without leading zeros. */
  function Numeral(n: nat, base: nat): (r: string)
    requires IsBase(base)
    ensures r != [] && Digits(r, base)
    decreases n
  {
    Division(n, base);
    DigitRoundTrip(Remainder(n, base));
    if n < base then [Digit(n)] else Numeral(Quotient(n, base), base) + [Digit(Remainder(n, base))]
  }

  /** The number that a text of digits denotes. */
  function Amount(s: string, base: nat): nat
    requires Digits(s, base)
  {
    if s == [] then 0 else Scaled(Amount(s[..|s| - 1], base), base) + DigitValue(s[|s| - 1])
  }

  lemma {:induction false} AmountOfNumeral(n: nat, base: nat)
    requires IsBase(base)
    ensures Amount(Numeral(n, base), base) == n
    decreases n
  {
    hide Digit, DigitValue, Quotient, Remainder, Scaled;
    var s := Numeral(n, base);
    Division(n, base);
    DigitRoundTrip(Remainder(n, base));
    if n < base {
      assert s[..0] == [] && s[0] == Digit(n);
      assert Scaled(0, base) == 0 by { ScaledZero(base); }
    } else {
      AmountOfNumeral(Quotient(n, base), base);
      assert s[..|s| - 1] == Numeral(Quotient(n, base), base);
    }
  }

  lemma ScaledZero(base: nat)
    ensures Scaled(0, base) == 0
  {
  }

  lemma NumeralUnique(m: nat, n: nat, base: nat)
    requires IsBase(base) && Numeral(m, base) == Numeral(n, base)
    ensures m == n
  {
    AmountOfNumeral(m, base);
    AmountOfNumeral(n, base);
  }

  /** A signed decimal. */
  function Signed(i: int): string { if i < 0 then "-" + Numeral(-i, 10) else Numeral(i, 10) }

  lemma SignedUnique(i: int, j: int)
    requires Signed(i) == Signed(j)
    ensures i == j
  {
    var a, b := Signed(i), Signed(j);
    assert (i < 0 <==> a[0] == '-') && (j < 0 <==> b[0] == '-');
    if i < 0 {
      assert a[1..] == Numeral(-i, 10) && b[1..] == Numeral(-j, 10);
      NumeralUnique(-i, -j, 10);
    } else {
      NumeralUnique(i, j, 10);
    }
  }

  // ------------------------------------------------------------------------------------- decimal texts

  /** A text of digits without leading zeros is the numeral of its amount. */
  lemma {:induction false} NumeralOfAmount(s: string)
    requires s != "" && Digits(s, 10) && (|s| == 1 || s[0] != '0')
    ensures Numeral(Amount(s, 10), 10) == s
    ensures s[0] != '0' ==> Amount(s, 10) >= 1
    decreases |s|
  {
    hide Digit, DigitValue;
    var n := |s| - 1;
    DigitOfValue(s[n]);
    var d := DigitValue(s[n]);
    if n == 0 {
      OneDigitAmount(s);
    } else {
      NumeralOfAmount(s[..n]);
      var a := Amount(s[..n], 10);
      assert Amount(s, 10) == a * 10 + d;
      assert Quotient(a * 10 + d, 10) == a && Remainder(a * 10 + d, 10) == d;
      assert s == s[..n] + [s[n]];
    }
  }

  lemma DigitOfValue(c: char)
    requires 0 <= DigitValue(c) < 10
    ensures Digit(DigitValue(c)) == c && (c != '0' ==> DigitValue(c) >= 1)
  {
  }

  lemma OneDigitAmount(s: string)
    requires |s| == 1 && Digits(s, 10)
    ensures Amount(s, 10) == DigitValue(s[0])
  {
    assert s[..0] == "" && Amount(s[..0], 10) == 0;
  }

  function Pow10(n: nat): (r: nat)
    ensures r >= 1
  {
    if n == 0 then 1 else 10 * Pow10(n - 1)
  }

  lemma DigitsConcat(a: string, b: string)
    requires Digits(a, 10) && Digits(b, 10)
    ensures Digits(a + b, 10)
  {
  }

  /** Digits in front of n digits count n places higher. */
  lemma {:induction false} AmountConcat(a: string, b: string)
    requires Digits(a, 10) && Digits(b, 10)
    ensures Digits(a + b, 10) && Amount(a + b, 10) == Amount(a, 10) * Pow10(|b|) + Amount(b, 10)
    decreases |b|
  {
    hide DigitValue;
    var s := a + b;
    if b == "" {
      assert s == a;
    } else {
      var n := |b| - 1;
      AmountConcat(a, b[..n]);
      assert s[..|s| - 1] == a + b[..n] && s[|s| - 1] == b[n];
      Shift(Amount(a, 10), Pow10(n), Amount(b[..n], 10));
    }
  }

  lemma Shift(a: nat, p: nat, b: nat)
    ensures Scaled(a * p + b, 10) == a * (10 * p) + Scaled(b, 10)
  {
    assert a * (10 * p) == 10 * (a * p);
  }

  /** n digits amount to less than the power of ten. */
  lemma {:induction false} AmountBound(s: string)
    requires Digits(s, 10)
    ensures Amount(s, 10) < Pow10(|s|)
    decreases |s|
  {
    if s != "" { AmountBound(s[..|s| - 1]); }
  }

  /** Two texts of equally many digits with one amount are the same text. */
  lemma {:induction false} DigitsUnique(a: string, b: string)
    requires Digits(a, 10) && Digits(b, 10) && |a| == |b| && Amount(a, 10) == Amount(b, 10)
    ensures a == b
    decreases |a|
  {
    if a != "" {
      var n := |a| - 1;
      assert Amount(a, 10) == Amount(a[..n], 10) * 10 + DigitValue(a[n]);
      assert Amount(b, 10) == Amount(b[..n], 10) * 10 + DigitValue(b[n]);
      DigitsUnique(a[..n], b[..n]);
      assert a == a[..n] + [a[n]] && b == b[..n] + [b[n]];
    }
  }

  /** A number below the power of ten has at most that many digits. */
  lemma {:induction false} NumeralLength(n: nat, k: nat)
    requires k >= 1 && n < Pow10(k)
    ensures |Numeral(n, 10)| <= k
    decreases k
  {
    if n >= 10 {
      assert k > 1;
      NumeralLength(n / 10, k - 1);
    }
  }
}
