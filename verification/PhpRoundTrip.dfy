/** What reading back a written value gives, and when it is the value's normal form. */
module PhpRoundTrip {
  import opened Common
  import opened Numerals
  import opened Php

  // ------------------------------------------------------------------------------------- normal forms

  /** The key that an entry has after it was written and read: a number is written in its shortest form. */
  function Canon(k: string): string { if IntKey(k).Some? then Signed(IntKey(k).value) else k }

  /** The keys of the entries from `at` on are read as the numbers from `at` on. */
  predicate Counts(es: seq<Pair>, at: nat) {
    es == [] || (IntKey(es[0].key) == Some(at) && Counts(es[1..], at + 1))
  }

  /** What a value is after it was written and read. */
  function Back(v: PVal): PVal {
    match v
    case List(items) => List(BackItems(items))
    case Map(entries) =>
      if Counts(entries, 0) then List(Vals(BackPairs(entries))) else Map(FromPairs(BackPairs(entries)))
    case _ => v
  }

  function BackItems(items: seq<PVal>): (r: seq<PVal>)
    ensures |r| == |items|
  {
    if items == [] then [] else [Back(items[0])] + BackItems(items[1..])
  }

  function BackPairs(es: seq<Pair>): (r: seq<Pair>)
    ensures |r| == |es|
  {
    if es == [] then [] else [BackPair(es[0])] + BackPairs(es[1..])
  }

  function BackPair(e: Pair): Pair { Pair(Canon(e.key), Back(e.val)) }

  /** Lengths fit in 64 bits, and a map lists each key once, in order. */
  predicate WellFormed(v: PVal) {
    match v
    case Str(s) => |s| <= MOST
    case List(items) => |items| <= MOST && forall i :: 0 <= i < |items| ==> WellFormed(items[i])
    case Map(entries) => |entries| <= MOST && Sorted(entries) && forall i :: 0 <= i < |entries| ==>
      WellFormedPair(entries[i])
    case _ => true
  }

  predicate WellFormedPair(e: Pair) { |e.key| <= MOST && WellFormed(e.val) }

  predicate Sorted(es: seq<Pair>) {
    forall i, j :: 0 <= i < j < |es| ==> Less(es[i].key, es[j].key)
  }

  // ------------------------------------------------------------------------------------- scalars

  lemma {:induction false} UntilFirst(a: string, c: char, rest: string)
    requires c !in a
    ensures Until(a + ([c] + rest), c) == Ok(a, rest)
    decreases |a|
  {
    var s := a + ([c] + rest);
    if a == "" {
      assert s == [c] + rest && s[1..] == rest;
    } else {
      assert s[0] == a[0] && s[1..] == a[1..] + ([c] + rest);
      UntilFirst(a[1..], c, rest);
      assert a == [a[0]] + a[1..];
    }
  }

  lemma NumeralDigits(n: nat)
    ensures AllDigits(Numeral(n, 10))
    ensures forall i :: 0 <= i < |Numeral(n, 10)| ==> Numeral(n, 10)[i] != ':' && Numeral(n, 10)[i] != ';'
    ensures Numeral(n, 10)[0] != '+' && Numeral(n, 10)[0] != '-'
  {
    var s := Numeral(n, 10);
    forall i | 0 <= i < |s| ensures IsDigit(s[i]) { assert 0 <= DigitValue(s[i]) < 10; }
  }

  lemma ParseNumeral(n: nat)
    ensures ParseNumber(Numeral(n, 10)) == Some(n)
  {
    NumeralDigits(n);
    AmountOfNumeral(n, 10);
  }

  lemma ParseSigned(i: int)
    ensures ParseNumber(Signed(i)) == Some(i) && ';' !in Signed(i)
  {
    if i >= 0 {
      ParseNumeral(i);
      NumeralDigits(i);
    } else {
      NumeralDigits(-i);
      AmountOfNumeral(-i, 10);
      assert Signed(i)[1..] == Numeral(-i, 10);
    }
  }

  lemma ReadNumber(i: Int64, k: string)
    ensures ReadValue("i:" + (Signed(i) + (";" + k))) == Ok(Num(i), k)
  {
    hide Signed, ParseNumber;
    var s := "i:" + (Signed(i) + (";" + k));
    ParseSigned(i);
    assert s[1..] == ":" + (Signed(i) + (";" + k));
    assert s[1..][1..] == Signed(i) + (";" + k);
    UntilFirst(Signed(i), ';', k);
  }

  lemma ReadLength(n: nat, k: string)
    requires n <= MOST
    ensures Length(":" + (Numeral(n, 10) + (":" + k))) == Ok(n, k)
  {
    hide Numeral, ParseNumber;
    ParseNumeral(n);
    NumeralDigits(n);
    var s := ":" + (Numeral(n, 10) + (":" + k));
    assert s[1..] == Numeral(n, 10) + (":" + k);
    UntilFirst(Numeral(n, 10), ':', k);
  }

  lemma ReadStr(t: string, k: string)
    requires |t| <= MOST
    ensures ReadValue(SerStr(t, k)) == Ok(Str(t), k)
  {
    hide Numeral, Length;
    var s := SerStr(t, k);
    var tail := "\"" + (t + ("\";" + k));
    assert s[1..] == ":" + (Numeral(|t|, 10) + (":" + tail));
    ReadLength(|t|, tail);
    var a := t + ("\";" + k);
    assert tail[1..] == a && a[..|t|] == t && a[|t|..] == "\";" + k;
    assert ("\";" + k)[1..] == ";" + k && (";" + k)[1..] == k;
  }

  /** The key of an entry reads as a number exactly when it is written as one. */
  lemma ReadKey(key: string, k: string)
    requires |key| <= MOST
    ensures ReadValue(SerKey(key, k)) == Ok(if IntKey(key).Some? then Num(IntKey(key).value) else Str(key), k)
  {
    hide IntKey, ReadValue, SerStr;
    if IntKey(key).Some? { ReadNumber(IntKey(key).value, k); } else { ReadStr(key, k); }
  }

  // ------------------------------------------------------------------------------------- the round trip

  lemma ReadArray(n: nat, body: string, es: Array, k: string)
    requires n <= MOST && Entries(body, n, 0) == Ok(es, "}" + k)
    ensures ReadValue(SerArray(n, body)) == Ok(ArrayValue(es), k)
  {
    hide Numeral, Length, Entries, ArrayValue;
    var s := SerArray(n, body);
    var tail := "{" + body;
    assert s[1..] == ":" + (Numeral(n, 10) + (":" + tail));
    ReadLength(n, tail);
    assert tail[1..] == body;
    assert ("}" + k)[1..] == k;
  }

  /** A written value reads back, and leaves what follows it. */
  lemma {:induction false} ReadBack(v: PVal, k: string)
    requires WellFormed(v)
    ensures ReadValue(Ser(v, k)) == Ok(Back(v), k)
    decreases v
  {
    hide SerArray, SerStr, SerInt, Entries, FromPairs, Vals, SerItems, SerPairs, BackItems, BackPairs;
    match v {
      case Nil => assert ("N;" + k)[1..] == ";" + k && (";" + k)[1..] == k;
      case Bool(b) => ReadBool(b, k);
      case Num(i) => ReadInt(i, k);
      case Str(s) => ReadStr(s, k);
      case List(items) =>
        ReadItems(items, 0, "}" + k);
        ReadArray(|items|, SerItems(items, 0, "}" + k), Array(Indexed(BackItems(items), 0), true), k);
        IndexedVals(BackItems(items), 0);
      case Map(entries) =>
        ReadPairs(entries, 0, "}" + k);
        ReadArray(|entries|, SerPairs(entries, "}" + k), Array(BackPairs(entries), Counts(entries, 0)), k);
    }
  }

  lemma ReadInt(i: Int64, k: string)
    ensures ReadValue(SerInt(i, k)) == Ok(Num(i), k)
  {
    ReadNumber(i, k);
  }

  lemma ReadBool(b: bool, k: string)
    ensures ReadValue((if b then "b:1;" else "b:0;") + k) == Ok(Bool(b), k)
  {
    var d := if b then "1" else "0";
    var s := (if b then "b:1;" else "b:0;") + k;
    assert s[1..] == ":" + (d + (";" + k));
    assert s[1..][1..] == d + (";" + k);
    UntilFirst(d, ';', k);
  }

  /** A list as the entries that it is written as. */
  function Indexed(items: seq<PVal>, at: nat): (r: seq<Pair>)
    ensures |r| == |items|
  {
    if items == [] then [] else [Pair(Signed(at), items[0])] + Indexed(items[1..], at + 1)
  }

  lemma {:induction false} IndexedVals(items: seq<PVal>, at: nat)
    ensures Vals(Indexed(items, at)) == items
    decreases |items|
  {
    if items != [] {
      IndexedVals(items[1..], at + 1);
      assert Vals(Indexed(items, at)) == [items[0]] + Vals(Indexed(items[1..], at + 1));
    }
  }

  lemma {:induction false} ReadItems(items: seq<PVal>, at: nat, k: string)
    requires |items| + at <= MOST && forall i :: 0 <= i < |items| ==> WellFormed(items[i])
    ensures Entries(SerItems(items, at, k), |items|, at) == Ok(Array(Indexed(BackItems(items), at), true), k)
    decreases items
  {
    hide ReadValue, Ser, Back;
    if items != [] {
      var rest := SerItems(items[1..], at + 1, k);
      ReadNumber(at, Ser(items[0], rest));
      ReadBack(items[0], rest);
      ReadItems(items[1..], at + 1, k);
      assert BackItems(items)[1..] == BackItems(items[1..]);
    }
  }

  lemma {:induction false} ReadPairs(es: seq<Pair>, at: nat, k: string)
    requires forall i :: 0 <= i < |es| ==> WellFormedPair(es[i])
    ensures Entries(SerPairs(es, k), |es|, at) == Ok(Array(BackPairs(es), Counts(es, at)), k)
    decreases es
  {
    hide ReadValue, Ser, Back, SerKey, IntKey;
    if es != [] {
      var rest := SerPairs(es[1..], k);
      ReadPair(es[0], rest);
      ReadPairs(es[1..], at + 1, k);
    }
  }

  lemma {:induction false} ReadPair(e: Pair, rest: string)
    requires WellFormedPair(e)
    ensures ReadValue(SerPair(e, rest))
              == Ok(if IntKey(e.key).Some? then Num(IntKey(e.key).value) else Str(e.key), Ser(e.val, rest))
    ensures ReadValue(Ser(e.val, rest)) == Ok(Back(e.val), rest)
    decreases e
  {
    hide ReadValue, Ser, Back, SerKey, IntKey;
    ReadKey(e.key, Ser(e.val, rest));
    ReadBack(e.val, rest);
  }

  /** Writing a value and reading it gives `Back`, and consumes all of the text. */
  lemma RoundTrip(v: PVal)
    requires WellFormed(v)
    ensures Unserialize(Ser(v, "")) == Ok(Back(v), "")
  {
    hide ReadValue, Ser, Back;
    ReadBack(v, "");
  }
}
