/** Exact decimals: the canonical text of a value, and its scaled integer. */
module Decimals {
  import opened Common
  import opened Numerals

  /** A decimal text: its sign, the digits before the point and the digits after it. */
  datatype Parts = Parts(negative: bool, whole: string, fraction: string)

  /** The place of the first point, or the length of the text. */
  function Point(s: string): (n: nat)
    ensures n <= |s| && (forall i :: 0 <= i < n ==> s[i] != '.') && (n < |s| ==> s[n] == '.')
  {
    if s == "" || s[0] == '.' then 0 else 1 + Point(s[1..])
  }

  /** Digits, or digits, a point and digits. */
  function Unsigned(s: string): Option<(string, string)> {
    var n := Point(s);
    if n == |s| then (if s != "" && AllDigits(s) then Some((s, "")) else None)
    else if n > 0 && AllDigits(s[..n]) && n + 1 < |s| && AllDigits(s[n + 1..]) then Some((s[..n], s[n + 1..]))
    else None
  }

  function Parse(input: string): Option<Parts> {
    if input == "" then None
    else
      var signed := input[0] == '-' || input[0] == '+';
      var u := Unsigned(if signed then input[1..] else input);
      if u.None? then None else Some(Parts(input[0] == '-', u.value.0, u.value.1))
  }

  function TrimZeros(s: string): string { if s != "" && s[0] == '0' then TrimZeros(s[1..]) else s }

  function Zeros(n: nat): (r: string)
    ensures |r| == n && forall i :: 0 <= i < n ==> r[i] == '0'
  {
    seq(n, i => '0')
  }

  /** The digits before the point without leading zeros. */
  function Whole(s: string): string { if TrimZeros(s) == "" then "0" else TrimZeros(s) }

  predicate ValidScale(precision: int, scale: int) { 1 <= precision <= 18 && 0 <= scale <= precision }

  /** The parts fit in the declared precision and scale. */
  predicate Fits(p: Parts, precision: int, scale: int) {
    && ValidScale(precision, scale) && |p.fraction| <= scale
    && (if Whole(p.whole) == "0" then 0 else |Whole(p.whole)|) + scale <= precision
  }

  /** Digits before and after the point. */
  function Body(whole: string, fraction: string): string { whole + if fraction == "" then "" else "." + fraction }

  /** The text of a sign, canonical digits before the point and all digits after it. */
  function Print(negative: bool, whole: string, fraction: string): string {
    (if negative then "-" else "") + Body(whole, fraction)
  }

  function Normalize(input: string, precision: int, scale: int): Option<string> {
    var p := Parse(input);
    if !ValidScale(precision, scale) || p.None? || !Fits(p.value, precision, scale) then None
    else
      var whole := Whole(p.value.whole);
      var fraction := p.value.fraction + Zeros(scale - |p.value.fraction|);
      var negative := p.value.negative && !(whole == "0" && fraction == Zeros(scale));
      Some(Print(negative, whole, fraction))
  }

  // ------------------------------------------------------------------------------------- the value

  /** The value of a text times 10^scale: the integer that stands for it exactly. */
  function Numeric(p: Parts, scale: nat): int
    requires AllDigits(p.whole) && AllDigits(p.fraction) && |p.fraction| <= scale
  {
    var digits := p.whole + (p.fraction + Zeros(scale - |p.fraction|));
    DigitsOf(digits);
    var n: int := Amount(digits, 10);
    if p.negative then -n else n
  }

  lemma ParseDigits(input: string)
    requires Parse(input).Some?
    ensures AllDigits(Parse(input).value.whole) && AllDigits(Parse(input).value.fraction)
    ensures Parse(input).value.whole != ""
  {
  }

  lemma {:induction false} TrimKeeps(s: string)
    requires AllDigits(s)
    ensures AllDigits(TrimZeros(s)) && Digits(s, 10) && Digits(TrimZeros(s), 10)
    ensures Amount(TrimZeros(s), 10) == Amount(s, 10)
    ensures TrimZeros(s) != "" ==> TrimZeros(s)[0] != '0'
    decreases |s|
  {
    DigitsOf(s);
    if s != "" && s[0] == '0' {
      TrimKeeps(s[1..]);
      LeadingZero(s[1..]);
      assert s == "0" + s[1..];
    }
  }

  lemma LeadingZero(s: string)
    requires Digits(s, 10)
    ensures Digits("0" + s, 10) && Amount("0" + s, 10) == Amount(s, 10)
  {
    ZeroAmount();
    AmountConcat("0", s);
  }

  lemma ZeroAmount()
    ensures Digits("0", 10) && Amount("0", 10) == 0
  {
    assert "0"[..0] == "";
    assert Amount("", 10) == 0;
  }

  /** The canonical digits before the point: no leading zero but in "0" itself, and the same amount. */
  lemma WholeKeeps(s: string)
    requires AllDigits(s)
    ensures AllDigits(Whole(s)) && Whole(s) != "" && (|Whole(s)| == 1 || Whole(s)[0] != '0')
    ensures Digits(s, 10) && Digits(Whole(s), 10) && Amount(Whole(s), 10) == Amount(s, 10)
    ensures Whole(Whole(s)) == Whole(s)
  {
    TrimKeeps(s);
    ZeroAmount();
    assert TrimZeros("0") == TrimZeros("") == "" by { assert "0"[1..] == ""; }
  }

  // ------------------------------------------------------------------------------------- canonical parts

  /** The sign, the digits before the point and the digits after it of a canonical text. */
  predicate Canonical(p: Parts, scale: nat) {
    && AllDigits(p.whole) && AllDigits(p.fraction) && |p.fraction| == scale
    && p.whole != "" && (|p.whole| == 1 || p.whole[0] != '0')
    && (p.negative ==> !(p.whole == "0" && p.fraction == Zeros(scale)))
  }

  function CanonicalParts(p: Parts, scale: nat): Parts
    requires |p.fraction| <= scale
  {
    var whole := Whole(p.whole);
    var fraction := p.fraction + Zeros(scale - |p.fraction|);
    Parts(p.negative && !(whole == "0" && fraction == Zeros(scale)), whole, fraction)
  }

  lemma ZerosDigits(n: nat)
    ensures AllDigits(Zeros(n)) && Digits(Zeros(n), 10) && Amount(Zeros(n), 10) == 0
    decreases n
  {
    DigitsOf(Zeros(n));
    if n > 0 {
      ZerosDigits(n - 1);
      assert Zeros(n)[..n - 1] == Zeros(n - 1);
    }
  }

  /** Canonical parts have the value of the parts that they come from. */
  lemma CanonicalKeepsValue(p: Parts, scale: nat)
    requires AllDigits(p.whole) && AllDigits(p.fraction) && |p.fraction| <= scale
    ensures Canonical(CanonicalParts(p, scale), scale)
    ensures Numeric(CanonicalParts(p, scale), scale) == Numeric(p, scale)
  {
    hide Whole, Amount, Zeros, DigitValue;
    var q := CanonicalParts(p, scale);
    var tail := p.fraction + Zeros(scale - |p.fraction|);
    ZerosDigits(scale - |p.fraction|);
    WholeKeeps(p.whole);
    DigitsOf(p.fraction);
    DigitsOf(p.whole);
    DigitsConcat(p.fraction, Zeros(scale - |p.fraction|));
    DigitsOf(tail);
    assert q.fraction + Zeros(0) == q.fraction;
    AmountConcat(p.whole, tail);
    AmountConcat(q.whole, tail);
    if p.negative && !q.negative {
      ZerosDigits(scale);
      ZeroAmount();
      assert Amount(p.whole, 10) == 0 && Amount(tail, 10) == 0;
      assert 0 * Pow10(|tail|) == 0;
    }
  }

  /** Canonical parts of one value are the same parts. */
  lemma CanonicalUnique(p: Parts, q: Parts, scale: nat)
    requires Canonical(p, scale) && Canonical(q, scale) && Numeric(p, scale) == Numeric(q, scale)
    ensures p == q
  {
    hide Amount, Zeros, DigitValue;
    DigitsOf(p.whole);
    DigitsOf(q.whole);
    DigitsOf(p.fraction);
    DigitsOf(q.fraction);
    assert p.fraction + Zeros(0) == p.fraction && q.fraction + Zeros(0) == q.fraction;
    AmountConcat(p.whole, p.fraction);
    AmountConcat(q.whole, q.fraction);
    AmountBound(p.fraction);
    AmountBound(q.fraction);
    SignOf(p, scale);
    SignOf(q, scale);
    Divide(Amount(p.whole, 10), Amount(q.whole, 10), Amount(p.fraction, 10), Amount(q.fraction, 10), Pow10(scale));
    NumeralOfAmount(p.whole);
    NumeralOfAmount(q.whole);
    DigitsUnique(p.fraction, q.fraction);
  }

  lemma SignOf(p: Parts, scale: nat)
    requires Canonical(p, scale)
    ensures p.negative <==> Numeric(p, scale) < 0
  {
    hide Amount, Zeros, DigitValue;
    DigitsOf(p.whole);
    DigitsOf(p.fraction);
    assert p.fraction + Zeros(0) == p.fraction;
    AmountConcat(p.whole, p.fraction);
    if p.negative && Numeric(p, scale) == 0 {
      NotZero(p, scale);
    }
  }

  lemma NotZero(p: Parts, scale: nat)
    requires Canonical(p, scale) && p.negative && Digits(p.whole, 10) && Digits(p.fraction, 10)
    ensures Amount(p.whole, 10) * Pow10(scale) + Amount(p.fraction, 10) > 0
  {
    hide Amount, Zeros, DigitValue;
    ZerosDigits(scale);
    ZeroAmount();
    NumeralOfAmount(p.whole);
    if p.whole == "0" {
      if Amount(p.fraction, 10) == 0 { DigitsUnique(p.fraction, Zeros(scale)); }
    } else {
      if Amount(p.whole, 10) == 0 { NumeralOfAmount("0"); }
      assert Amount(p.whole, 10) >= 1 ==> Amount(p.whole, 10) * Pow10(scale) >= 1;
    }
  }

  lemma Divide(a: nat, b: nat, c: nat, d: nat, p: nat)
    requires p >= 1 && c < p && d < p && a * p + c == b * p + d
    ensures a == b && c == d
  {
    Distribute(a, b, p);
    Gap(a - b, p);
  }

  lemma Distribute(a: int, b: int, p: int)
    ensures (a - b) * p == a * p - b * p
  {
  }

  lemma Gap(x: int, p: nat)
    ensures x >= 1 ==> x * p >= p
    ensures x <= -1 ==> x * p <= -(p as int)
  {
    Distribute(x, 1, p);
    Distribute(x, -1, p);
    if x >= 1 { assert (x - 1) * p >= 0; }
    if x <= -1 { assert (-1 - x) * p >= 0; }
  }

  // ------------------------------------------------------------------------------------- texts

  lemma PointIs(s: string, n: nat)
    requires n <= |s| && (forall i :: 0 <= i < n ==> s[i] != '.') && (n < |s| ==> s[n] == '.')
    ensures Point(s) == n
  {
  }

  lemma UnsignedBody(whole: string, fraction: string)
    requires whole != "" && AllDigits(whole) && AllDigits(fraction)
    ensures Unsigned(Body(whole, fraction)) == Some((whole, fraction)) && Body(whole, fraction)[0] == whole[0]
  {
    hide Point;
    var body := Body(whole, fraction);
    if fraction == "" {
      assert body == whole;
      PointIs(body, |body|);
    } else {
      assert body[|whole|] == '.' && body[..|whole|] == whole && body[|whole| + 1..] == fraction;
      PointIs(body, |whole|);
    }
  }

  /** A printed text parses as the parts that it was printed from. */
  lemma ParsePrint(p: Parts)
    requires p.whole != "" && AllDigits(p.whole) && AllDigits(p.fraction)
    ensures Parse(Print(p.negative, p.whole, p.fraction)) == Some(p)
  {
    hide Unsigned, Body;
    var body := Body(p.whole, p.fraction);
    UnsignedBody(p.whole, p.fraction);
    var t := Print(p.negative, p.whole, p.fraction);
    BodyStarts(p.whole, p.fraction);
    if p.negative {
      assert t[1..] == body;
    } else {
      assert t == body;
    }
  }

  lemma BodyStarts(whole: string, fraction: string)
    requires whole != "" && AllDigits(whole)
    ensures Body(whole, fraction) != "" && IsDigit(Body(whole, fraction)[0])
  {
  }

  /** Normalizing prints the canonical parts. */
  lemma NormalizePrints(input: string, precision: int, scale: int)
    requires Normalize(input, precision, scale).Some?
    ensures var p := Parse(input).value;
            var q := CanonicalParts(p, scale);
            && AllDigits(p.whole) && AllDigits(p.fraction) && Canonical(q, scale)
            && Numeric(q, scale) == Numeric(p, scale) && Fits(q, precision, scale)
            && Normalize(input, precision, scale) == Some(Print(q.negative, q.whole, q.fraction))
            && Parse(Normalize(input, precision, scale).value) == Some(q)
  {
    hide Whole, Parse, Print, Numeric, Canonical;
    ParseDigits(input);
    var p := Parse(input).value;
    CanonicalKeepsValue(p, scale);
    WholeKeeps(p.whole);
    CanonicalDigits(CanonicalParts(p, scale), scale);
    ParsePrint(CanonicalParts(p, scale));
  }

  lemma CanonicalDigits(p: Parts, scale: nat)
    requires Canonical(p, scale)
    ensures p.whole != "" && AllDigits(p.whole) && AllDigits(p.fraction) && |p.fraction| == scale
  {
  }

  /** The value of an accepted text times 10^scale. */
  function ValueOf(input: string, scale: nat): int
    requires Parse(input).Some? && |Parse(input).value.fraction| <= scale
  {
    ParseDigits(input);
    Numeric(Parse(input).value, scale)
  }

  /** Normalizing keeps the value, and a normal text is its own normal form. */
  lemma NormalizeKeepsValue(input: string, precision: int, scale: int)
    requires Normalize(input, precision, scale).Some?
    ensures var t := Normalize(input, precision, scale).value;
            && Parse(t).Some? && |Parse(t).value.fraction| == scale && |Parse(input).value.fraction| <= scale
            && ValueOf(t, scale) == ValueOf(input, scale) && Normalize(t, precision, scale) == Some(t)
  {
    hide Whole, Parse, Print, Numeric;
    NormalizePrints(input, precision, scale);
    var p := Parse(input).value;
    var q := CanonicalParts(p, scale);
    WholeKeeps(p.whole);
    assert q.fraction + Zeros(0) == q.fraction;
    assert CanonicalParts(q, scale) == q;
  }

  /** Two accepted texts have one normal form exactly when they have one value. */
  lemma NormalFormsAreValues(a: string, b: string, precision: int, scale: int)
    requires Normalize(a, precision, scale).Some? && Normalize(b, precision, scale).Some?
    ensures |Parse(a).value.fraction| <= scale && |Parse(b).value.fraction| <= scale
    ensures Normalize(a, precision, scale) == Normalize(b, precision, scale) <==> ValueOf(a, scale) == ValueOf(b, scale)
  {
    hide Whole, Parse, Print, Numeric;
    NormalizePrints(a, precision, scale);
    NormalizePrints(b, precision, scale);
    var p, q := CanonicalParts(Parse(a).value, scale), CanonicalParts(Parse(b).value, scale);
    if ValueOf(a, scale) == ValueOf(b, scale) { CanonicalUnique(p, q, scale); }
  }

  // ------------------------------------------------------------------------------------- scaled integers

  const MIN_INT64 := -0x8000_0000_0000_0000
  const MAX_INT64 := 0x7fff_ffff_ffff_ffff

  lemma {:induction false} Pow10Grows(a: nat, b: nat)
    requires a <= b
    ensures Pow10(a) <= Pow10(b)
    decreases b - a
  {
    if a < b { Pow10Grows(a, b - 1); }
  }

  lemma Pow10Of18()
    ensures Pow10(18) == 1_000_000_000_000_000_000
  {
    assert Pow10(3) == 1_000;
    assert Pow10(6) == 1_000_000;
    assert Pow10(9) == 1_000_000_000;
    assert Pow10(12) == 1_000_000_000_000;
    assert Pow10(15) == 1_000_000_000_000_000;
  }

  lemma {:induction false} Pow10Adds(a: nat, b: nat)
    ensures Pow10(a + b) == Pow10(a) * Pow10(b)
    decreases b
  {
    if b > 0 {
      Pow10Adds(a, b - 1);
      Tenfold(Pow10(a), Pow10(b - 1));
    }
  }

  lemma Tenfold(a: nat, b: nat)
    ensures 10 * (a * b) == a * (10 * b)
  {
  }

  /** Below the power of ten on both sides of zero. */
  predicate Within(n: int, precision: int) { precision >= 0 && n < Pow10(precision) && -n < Pow10(precision) }

  /** The scaled value of an accepted text is below 10^precision, so it fits in 64 bits. */
  lemma ValueBound(input: string, precision: int, scale: int)
    requires Normalize(input, precision, scale).Some?
    ensures |Parse(input).value.fraction| <= scale
    ensures Within(ValueOf(input, scale), precision)
    ensures MIN_INT64 <= ValueOf(input, scale) <= MAX_INT64
  {
    hide Whole, Parse, Print, Amount, Zeros, Pow10, DigitValue;
    NormalizePrints(input, precision, scale);
    var q := CanonicalParts(Parse(input).value, scale);
    PartsBound(q, precision, scale);
    Pow10Grows(precision, 18);
    Pow10Of18();
  }

  lemma PartsBound(q: Parts, precision: int, scale: int)
    requires Fits(q, precision, scale) && Canonical(q, scale)
    ensures Within(Numeric(q, scale), precision)
  {
    hide Whole, Amount, Zeros, Pow10, DigitValue;
    DigitsOf(q.whole);
    DigitsOf(q.fraction);
    WholeKeeps(q.whole);
    assert q.fraction + Zeros(0) == q.fraction;
    AmountConcat(q.whole, q.fraction);
    AmountBound(q.fraction);
    WholeIs(q.whole);
    if q.whole == "0" {
      ZeroAmount();
      Pow10Grows(scale, precision);
      assert 0 * Pow10(scale) == 0;
    } else {
      DigitsConcat(q.whole, q.fraction);
      AmountBound(q.whole + q.fraction);
      Pow10Grows(|q.whole| + scale, precision);
    }
  }

  lemma WholeIs(s: string)
    requires AllDigits(s) && s != "" && (|s| == 1 || s[0] != '0')
    ensures Whole(s) == s
  {
    if s[0] == '0' {
      assert s == "0" && s[1..] == "";
      assert TrimZeros(s) == TrimZeros(s[1..]) == "";
    }
  }

  function DropPoint(s: string): string { if Point(s) == |s| then s else s[..Point(s)] + s[Point(s) + 1..] }

  /** A signed decimal number that fits in 64 bits. */
  function ParseInt64(s: string): Option<int> {
    var digits := if s != "" && (s[0] == '-' || s[0] == '+') then s[1..] else s;
    if digits == "" || !AllDigits(digits) then None
    else
      DigitsOf(digits);
      var n: int := Amount(digits, 10);
      var v := if s[0] == '-' then -n else n;
      if MIN_INT64 <= v <= MAX_INT64 then Some(v) else None
  }

  function ScaledInt(input: string, precision: int, scale: int): Option<int> {
    var t := Normalize(input, precision, scale);
    if t.None? then None else ParseInt64(DropPoint(t.value))
  }

  /** The digits of a scaled integer; the smallest one has no positive counterpart and keeps its sign. */
  function Magnitude(n: int): string { if n == MIN_INT64 then Signed(n) else Numeral(if n < 0 then -n else n, 10) }

  /** Zeros in front until there are more digits than the scale. */
  function Widened(digits: string, scale: int): string {
    if 0 < scale && |digits| <= scale then Zeros(scale + 1 - |digits|) + digits else digits
  }

  function WithPoint(wide: string, scale: int): string {
    if 0 < scale <= |wide| then wide[..|wide| - scale] + ("." + wide[|wide| - scale..]) else wide
  }

  /** The text of a scaled integer before it is normalized. */
  function ScaledText(n: int, scale: int): string {
    (if n < 0 then "-" else "") + WithPoint(Widened(Magnitude(n), scale), scale)
  }

  function FromScaled(n: int, precision: int, scale: int): Option<string> {
    Normalize(ScaledText(n, scale), precision, scale)
  }

  lemma DropAt(a: string, f: string)
    requires '.' !in a
    ensures DropPoint(a) == a && DropPoint(a + ("." + f)) == a + f
  {
    hide Point;
    PointIs(a, |a|);
    var t := a + ("." + f);
    assert t[|a|] == '.' && t[..|a|] == a && t[|a| + 1..] == f;
    PointIs(t, |a|);
  }

  lemma DropPrint(p: Parts)
    requires p.whole != "" && AllDigits(p.whole) && AllDigits(p.fraction)
    ensures DropPoint(Print(p.negative, p.whole, p.fraction)) ==
              (if p.negative then "-" else "") + (p.whole + p.fraction)
  {
    hide DropPoint;
    var sign := if p.negative then "-" else "";
    var a := sign + p.whole;
    DropAt(a, p.fraction);
    assert sign + (p.whole + p.fraction) == a + p.fraction;
    if p.fraction == "" {
      assert p.whole + "" == p.whole && a + p.fraction == a;
    } else {
      assert sign + (p.whole + ("." + p.fraction)) == a + ("." + p.fraction);
    }
  }

  lemma ParseCanonical(q: Parts, scale: nat)
    requires Canonical(q, scale) && MIN_INT64 <= Numeric(q, scale) <= MAX_INT64
    ensures ParseInt64((if q.negative then "-" else "") + (q.whole + q.fraction)) == Some(Numeric(q, scale))
  {
    hide Amount;
    var digits := q.whole + q.fraction;
    var s := (if q.negative then "-" else "") + digits;
    assert q.fraction + Zeros(0) == q.fraction;
    assert AllDigits(digits);
    if q.negative { assert s[1..] == digits; } else { assert s == digits && IsDigit(s[0]); }
  }

  /** The scaled integer of an accepted text is its value; reading it as a 64-bit number never fails. */
  lemma ScaledIsValue(input: string, precision: int, scale: int)
    requires Normalize(input, precision, scale).Some?
    ensures |Parse(input).value.fraction| <= scale && ScaledInt(input, precision, scale) == Some(ValueOf(input, scale))
  {
    hide Whole, Parse, Print, Numeric, DropPoint, ParseInt64, Canonical;
    NormalizePrints(input, precision, scale);
    ValueBound(input, precision, scale);
    var q := CanonicalParts(Parse(input).value, scale);
    CanonicalDigits(q, scale);
    DropPrint(q);
    ParseCanonical(q, scale);
  }

  // ------------------------------------------------------------------------------------- back from the integer

  /** The parts of the text of a scaled integer. */
  function ScaledParts(n: int, scale: nat): Parts
    requires n != MIN_INT64
  {
    var digits := Numeral(if n < 0 then -n else n, 10);
    var wide := if |digits| <= scale then Zeros(scale + 1 - |digits|) + digits else digits;
    Parts(n < 0, wide[..|wide| - scale], wide[|wide| - scale..])
  }

  lemma NumeralDigits(n: nat)
    ensures AllDigits(Numeral(n, 10)) && Numeral(n, 10) != ""
  {
    DigitsOf(Numeral(n, 10));
  }

  lemma ScaledTextPrints(n: int, scale: nat)
    requires n != MIN_INT64
    ensures var p := ScaledParts(n, scale);
            && p.whole != "" && AllDigits(p.whole) && AllDigits(p.fraction) && |p.fraction| == scale
            && ScaledText(n, scale) == Print(p.negative, p.whole, p.fraction)
            && p.whole + p.fraction == Wide(n, scale)
  {
    hide Numeral, Zeros;
    WideDigits(n, scale);
    var w := Wide(n, scale);
    var p := ScaledParts(n, scale);
    assert w[..|w| - scale] + w[|w| - scale..] == w;
    if scale == 0 { assert p.whole == w && p.fraction == ""; }
  }

  function Wide(n: int, scale: nat): string {
    var digits := Numeral(if n < 0 then -n else n, 10);
    if |digits| <= scale then Zeros(scale + 1 - |digits|) + digits else digits
  }

  lemma WideDigits(n: int, scale: nat)
    ensures AllDigits(Wide(n, scale)) && |Wide(n, scale)| > scale
  {
    hide Numeral, Zeros;
    var digits := Numeral(if n < 0 then -n else n, 10);
    NumeralDigits(if n < 0 then -n else n);
    if |digits| <= scale { ZerosDigits(scale + 1 - |digits|); }
  }

  lemma WideAmount(n: int, scale: nat)
    ensures Digits(Wide(n, scale), 10) && Amount(Wide(n, scale), 10) == if n < 0 then -n else n
  {
    hide Numeral, Amount, Zeros;
    var m := if n < 0 then -n else n;
    AmountOfNumeral(m, 10);
    var digits := Numeral(m, 10);
    if |digits| <= scale {
      ZerosDigits(scale + 1 - |digits|);
      AmountConcat(Zeros(scale + 1 - |digits|), digits);
      assert 0 * Pow10(|digits|) == 0;
    }
  }

  /** The text of a scaled integer has its value. */
  lemma ScaledPartsValue(n: int, scale: nat)
    requires n != MIN_INT64
    ensures var p := ScaledParts(n, scale);
            AllDigits(p.whole) && AllDigits(p.fraction) && |p.fraction| == scale && Numeric(p, scale) == n
  {
    hide Wide, ScaledParts, Amount;
    ScaledTextPrints(n, scale);
    WideAmount(n, scale);
    var p := ScaledParts(n, scale);
    assert p.fraction + Zeros(0) == p.fraction;
    assert p.negative <==> n < 0 by { ScaledSign(n, scale); }
  }

  lemma ScaledSign(n: int, scale: nat)
    requires n != MIN_INT64
    ensures ScaledParts(n, scale).negative <==> n < 0
  {
  }

  /** The parts fit exactly when their value is below 10^precision. */
  lemma FitsIff(p: Parts, precision: int, scale: int)
    requires ValidScale(precision, scale) && p.whole != "" && AllDigits(p.whole) && AllDigits(p.fraction)
    requires |p.fraction| == scale
    ensures Fits(p, precision, scale) <==> Within(Numeric(p, scale), precision)
  {
    hide Whole, Amount, Zeros, Pow10, DigitValue, Numeral;
    DigitsOf(p.whole);
    DigitsOf(p.fraction);
    assert p.fraction + Zeros(0) == p.fraction;
    AmountConcat(p.whole, p.fraction);
    AmountBound(p.fraction);
    WholeKeeps(p.whole);
    var w, a, f := Whole(p.whole), Amount(p.whole, 10), Amount(p.fraction, 10);
    NumeralOfAmount(w);
    if w == "0" {
      ZeroAmount();
      Pow10Grows(scale, precision);
      assert 0 * Pow10(scale) == 0;
    } else {
      if a == 0 { NumeralOfAmount("0") by { ZeroAmount(); } ZeroAmount(); }
      WholeFits(w, a, f, precision, scale);
    }
  }

  lemma WholeFits(w: string, a: nat, f: nat, precision: int, scale: int)
    requires ValidScale(precision, scale) && w != "" && Digits(w, 10) && Amount(w, 10) == a && Numeral(a, 10) == w
    requires a > 0
    requires f < Pow10(scale)
    ensures |w| + scale <= precision <==> a * Pow10(scale) + f < Pow10(precision)
  {
    hide Amount, Pow10, DigitValue, Numeral;
    var k := precision - scale;
    Pow10Adds(k, scale);
    AmountBound(w);
    if |w| <= k {
      Pow10Grows(|w|, k);
      BelowProduct(a, Pow10(k), Pow10(scale), f);
    } else if a < Pow10(k) {
      if k == 0 { assert Pow10(0) == 1 by { PowZero(); } } else { NumeralLength(a, k); }
    } else {
      AboveProduct(a, Pow10(k), Pow10(scale));
    }
  }

  lemma PowZero()
    ensures Pow10(0) == 1
  {
  }

  lemma BelowProduct(a: nat, b: nat, p: nat, f: nat)
    requires a < b && f < p
    ensures a * p + f < b * p
  {
    Distribute(b, a, p);
    Gap(b - a, p);
  }

  lemma AboveProduct(a: nat, b: nat, p: nat)
    requires a >= b
    ensures a * p >= b * p
  {
    Distribute(a, b, p);
    if a > b { Gap(a - b, p); }
  }

  lemma SmallestIsRefused(precision: int, scale: int)
    ensures FromScaled(MIN_INT64, precision, scale).None?
  {
    hide Numeral;
    var s := ScaledText(MIN_INT64, scale);
    assert s[0] == '-';
    if ValidScale(precision, scale) {
      SmallestLength();
      assert s[1..][0] == '-';
    }
  }

  lemma SmallestLength()
    ensures |Signed(MIN_INT64)| == 20 && Signed(MIN_INT64)[0] == '-'
  {
    assert |Numeral(9223372036854775808, 10)| == 19 by { NineteenDigits(9223372036854775808); }
  }

  lemma NineteenDigits(n: nat)
    requires 1_000_000_000_000_000_000 <= n < 10_000_000_000_000_000_000
    ensures |Numeral(n, 10)| == 19
  {
    hide Numeral, Amount;
    Pow10Of18();
    assert Pow10(19) == 10 * Pow10(18);
    NumeralLength(n, 19);
    AmountOfNumeral(n, 10);
    AmountBound(Numeral(n, 10));
    if |Numeral(n, 10)| <= 18 { Pow10Grows(|Numeral(n, 10)|, 18); }
  }

  /** A 64-bit integer is read back exactly when it is below 10^precision, and then with its value. */
  lemma FromScaledAccepts(n: int, precision: int, scale: int)
    requires MIN_INT64 <= n <= MAX_INT64
    ensures FromScaled(n, precision, scale).Some? <==> ValidScale(precision, scale) && Within(n, precision)
    ensures FromScaled(n, precision, scale).Some? ==> Parse(ScaledText(n, scale)).Some?
    ensures FromScaled(n, precision, scale).Some? ==>
              |Parse(ScaledText(n, scale)).value.fraction| <= scale && ValueOf(ScaledText(n, scale), scale) == n
  {
    hide Whole, Parse, Print, Numeric, ScaledText, ScaledParts, Fits, Pow10;
    if n == MIN_INT64 {
      SmallestIsRefused(precision, scale);
      if ValidScale(precision, scale) {
        Pow10Of18();
        Pow10Grows(precision, 18);
      }
    } else if ValidScale(precision, scale) {
      var p := ScaledParts(n, scale);
      ScaledTextPrints(n, scale);
      ScaledPartsValue(n, scale);
      ParsePrint(p);
      FitsIff(p, precision, scale);
    }
  }

  /** Text to integer and back is the normal text; integer to text and back is the integer. */
  lemma ScaledRoundTrips(input: string, n: int, precision: int, scale: int)
    requires MIN_INT64 <= n <= MAX_INT64
    ensures ScaledInt(input, precision, scale) == Some(n) ==>
              FromScaled(n, precision, scale) == Normalize(input, precision, scale)
    ensures FromScaled(n, precision, scale) == Some(input) ==> ScaledInt(input, precision, scale) == Some(n)
  {
    hide Whole, Parse, Print, Numeric, ScaledText, Normalize, ParseInt64, DropPoint, Pow10;
    FromScaledAccepts(n, precision, scale);
    if ScaledInt(input, precision, scale) == Some(n) {
      ScaledIsValue(input, precision, scale);
      ValueBound(input, precision, scale);
      ValidOf(input, precision, scale);
      NormalFormsAreValues(ScaledText(n, scale), input, precision, scale);
    }
    if FromScaled(n, precision, scale) == Some(input) {
      NormalizeKeepsValue(ScaledText(n, scale), precision, scale);
      ScaledIsValue(input, precision, scale);
    }
  }

  lemma ValidOf(input: string, precision: int, scale: int)
    requires Normalize(input, precision, scale).Some?
    ensures ValidScale(precision, scale)
  {
  }

  // ------------------------------------------------------------------------------------- the accepted texts

  /** A sign or none, digits, and perhaps a point with digits after it. */
  predicate Form(input: string, sign: string, whole: string, fraction: string) {
    && (sign == "" || sign == "-" || sign == "+") && whole != "" && AllDigits(whole) && AllDigits(fraction)
    && input == sign + Body(whole, fraction)
  }

  /** A text of the form is read as its sign and its digits. */
  lemma FormIsParsed(input: string, sign: string, whole: string, fraction: string)
    requires Form(input, sign, whole, fraction)
    ensures Parse(input) == Some(Parts(sign == "-", whole, fraction))
  {
    hide Unsigned, Body;
    UnsignedBody(whole, fraction);
    BodyStarts(whole, fraction);
    if sign == "" { assert input == Body(whole, fraction); } else { assert input[1..] == Body(whole, fraction); }
  }

  /** Only texts of the form are read. */
  lemma ParsedHasForm(input: string) returns (sign: string)
    requires Parse(input).Some?
    ensures Form(input, sign, Parse(input).value.whole, Parse(input).value.fraction)
    ensures Parse(input).value.negative <==> sign == "-"
  {
    hide Unsigned, Body, AllDigits;
    var signed := input[0] == '-' || input[0] == '+';
    sign := if signed then [input[0]] else "";
    var rest := if signed then input[1..] else input;
    assert input == sign + rest;
    UnsignedHasForm(rest);
  }

  lemma UnsignedHasForm(s: string)
    requires Unsigned(s).Some?
    ensures var (whole, fraction) := Unsigned(s).value;
            whole != "" && AllDigits(whole) && AllDigits(fraction) && s == Body(whole, fraction)
  {
    hide Point;
    var n := Point(s);
    if n < |s| { assert s == s[..n] + ("." + s[n + 1..]); } else { assert s == s + ""; }
  }

  /** A text is accepted exactly when its value is one of the declared precision and scale. */
  lemma AcceptsExactly(input: string, precision: int, scale: int)
    requires Parse(input).Some?
    ensures Normalize(input, precision, scale).Some? <==>
              && ValidScale(precision, scale) && |Parse(input).value.fraction| <= scale
              && Within(ValueOf(input, scale), precision)
  {
    hide Parse, Whole, Print, Amount, Pow10, Zeros;
    ParseDigits(input);
    var p := Parse(input).value;
    if ValidScale(precision, scale) && |p.fraction| <= scale {
      ZerosDigits(scale - |p.fraction|);
      var q := p.(fraction := p.fraction + Zeros(scale - |p.fraction|));
      assert q.fraction + Zeros(0) == q.fraction;
      FitsIff(q, precision, scale);
    }
  }

  // ------------------------------------------------------------------------------------- the methods

  method CheckDigits(s: string) returns (ok: bool)
    ensures ok <==> AllDigits(s)
  {
    for i := 0 to |s|
      invariant AllDigits(s[..i])
    {
      if s[i] < '0' || s[i] > '9' { return false; }
      assert s[..i + 1] == s[..i] + [s[i]];
    }
    assert s[..|s|] == s;
    return true;
  }

  method NormalizeDecimal(input: string, precision: int, scale: int) returns (r: Option<string>)
    ensures r == Normalize(input, precision, scale)
  {
    hide Whole;
    if precision < 1 || precision > 18 || scale < 0 || scale > precision { return None; }
    if input == "" { return None; }
    var negative, text := false, input;
    if input[0] == '-' || input[0] == '+' {
      negative := input[0] == '-';
      text := input[1..];
    }
    var n := Point(text);
    var whole, fraction := text[..n], "";
    if n < |text| { fraction := text[n + 1..]; }
    assert n == |text| ==> whole == text;
    if whole == "" || (n < |text| && fraction == "") { return None; }
    var digits := CheckDigits(whole);
    if !digits { return None; }
    digits := CheckDigits(fraction);
    if !digits { return None; }
    whole := Whole(whole);
    if |fraction| > scale { return None; }
    var wholeDigits := |whole|;
    if whole == "0" { wholeDigits := 0; }
    if wholeDigits + scale > precision { return None; }
    fraction := fraction + Zeros(scale - |fraction|);
    if whole == "0" && fraction == Zeros(scale) { negative := false; }
    return Some(Print(negative, whole, fraction));
  }

  method DecimalScaledInt(input: string, precision: int, scale: int) returns (r: Option<int>)
    ensures r == ScaledInt(input, precision, scale)
    ensures r.None? <==> Normalize(input, precision, scale).None?
  {
    var canonical := NormalizeDecimal(input, precision, scale);
    if canonical.None? { return None; }
    ScaledIsValue(input, precision, scale);
    return ParseInt64(DropPoint(canonical.value));
  }

  method PadLeft(plain: string, scale: nat) returns (digits: string)
    requires scale > 0
    ensures digits == Widened(plain, scale) && |digits| >= scale
  {
    digits := plain;
    ghost var k := 0;
    assert Zeros(0) + plain == plain;
    while |digits| <= scale
      invariant digits == Zeros(k) + plain && (k > 0 ==> |digits| <= scale + 1)
      decreases scale - |digits|
    {
      assert "0" + (Zeros(k) + plain) == Zeros(k + 1) + plain;
      digits := "0" + digits;
      k := k + 1;
    }
  }

  method DecimalFromScaledInt(raw: int, precision: int, scale: int) returns (r: Option<string>)
    requires MIN_INT64 <= raw <= MAX_INT64
    ensures r == FromScaled(raw, precision, scale)
  {
    hide Normalize, Numeral, Widened;
    var negative := raw < 0;
    // The smallest integer has no positive counterpart: its negation is itself.
    var n := if negative && raw != MIN_INT64 then -raw else raw;
    var digits := Signed(n);
    assert digits == Magnitude(raw);
    if scale > 0 {
      digits := PadLeft(digits, scale);
      digits := digits[..|digits| - scale] + ("." + digits[|digits| - scale..]);
    } else {
      NotWidened(digits, scale);
    }
    assert digits == WithPoint(Widened(Magnitude(raw), scale), scale);
    if negative { digits := "-" + digits; } else { assert "" + digits == digits; }
    r := NormalizeDecimal(digits, precision, scale);
  }

  lemma NotWidened(digits: string, scale: int)
    requires scale <= 0
    ensures Widened(digits, scale) == digits
  {
  }
}
