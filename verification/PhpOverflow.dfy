/**
  Lengths that the parser's machine cannot handle.  The parser adds a string's length to its cursor in 64 bits, and
  makes room for all entries of an array before it reads the first.  `size` is the length of the whole text, of which
  `s` is the rest behind the cursor; `room` is the most entries that the machine can make room for.
 */
module PhpOverflow {
  import opened Common
  import opened Numerals
  import opened Php
  import opened PhpRoundTrip

  /** The sum of two 64-bit numbers as the machine computes it. */
  function Sum64(a: Int64, b: Int64): Int64 {
    var s := a + b;
    if s > MOST then s - 0x1_0000_0000_0000_0000 else if s < -MOST - 1 then s + 0x1_0000_0000_0000_0000 else s
  }

  /** The rest starts with a string whose end is beyond 64 bits, or with an array that the machine has no room for. */
  predicate Oversized(s: string, size: nat, room: nat) {
    s != "" &&
    var n := Length(s[1..]);
    && n.Ok? && n.rest != ""
    && ((s[0] == 's' && n.rest[0] == '"' && size - (|n.rest| - 1) + n.value > MOST)
        || (s[0] == 'a' && n.rest[0] == '{' && n.value > room))
  }

  /** The rests at which the parser starts to read a value. */
  function Starts(s: string): set<string>
    decreases |s|, 0
  {
    {s} + if s != "" && s[0] == 'a' then ArrayStarts(s[1..]) else {}
  }

  function ArrayStarts(s: string): set<string>
    decreases |s|, 2
  {
    var n := Length(s);
    if n.Ok? && n.rest != "" && n.rest[0] == '{' then EntryStarts(n.rest[1..], n.value) else {}
  }

  function EntryStarts(s: string, n: nat): set<string>
    decreases |s|, 1
  {
    if n == 0 then {} else
    var k := ReadValue(s);
    if k.Bad? || (!k.value.Num? && !k.value.Str?) then Starts(s) else
    var v := ReadValue(k.rest);
    Starts(s) + Starts(k.rest) + if v.Bad? then {} else EntryStarts(v.rest, n - 1)
  }

  /** One of these rests starts with a length that the machine cannot handle. */
  ghost predicate Overflows(starts: set<string>, size: nat, room: nat) {
    exists t :: t in starts && Oversized(t, size, room)
  }

  lemma OverflowsEither(a: set<string>, b: set<string>, size: nat, room: nat)
    ensures Overflows(a + b, size, room) <==> Overflows(a, size, room) || Overflows(b, size, room)
  {
    hide Oversized;
    if Overflows(a, size, room) {
      var t :| t in a && Oversized(t, size, room);
      assert t in a + b;
    }
    if Overflows(b, size, room) {
      var t :| t in b && Oversized(t, size, room);
      assert t in a + b;
    }
  }

  lemma OverflowsOne(s: string, size: nat, room: nat)
    ensures Overflows({s}, size, room) <==> Oversized(s, size, room)
  {
    if Oversized(s, size, room) { assert s in {s}; }
  }

  /** Reading a value overflows in its own header or in one of its entries. */
  lemma StartsOverflow(s: string, size: nat, room: nat)
    ensures Overflows(Starts(s), size, room) <==>
              || Oversized(s, size, room)
              || (s != "" && s[0] == 'a' && Overflows(ArrayStarts(s[1..]), size, room))
  {
    hide Oversized, ArrayStarts, Overflows;
    var more := if s != "" && s[0] == 'a' then ArrayStarts(s[1..]) else {};
    OverflowsEither({s}, more, size, room);
    OverflowsOne(s, size, room);
    NothingOverflows(size, room);
  }

  lemma NothingOverflows(size: nat, room: nat)
    ensures !Overflows({}, size, room)
  {
  }

  /** Entries overflow in the first key, in its value, or in the entries behind. */
  lemma EntriesOverflow(s: string, n: nat, size: nat, room: nat)
    requires n > 0
    ensures var k := ReadValue(s);
            Overflows(EntryStarts(s, n), size, room) <==>
              || Overflows(Starts(s), size, room)
              || (k.Ok? && (k.value.Num? || k.value.Str?) && Overflows(Starts(k.rest), size, room))
              || (k.Ok? && (k.value.Num? || k.value.Str?) && ReadValue(k.rest).Ok?
                  && Overflows(EntryStarts(ReadValue(k.rest).rest, n - 1), size, room))
  {
    hide ReadValue, Starts, Overflows;
    var k := ReadValue(s);
    if k.Ok? && (k.value.Num? || k.value.Str?) {
      var v := ReadValue(k.rest);
      var more := if v.Bad? then {} else EntryStarts(v.rest, n - 1);
      OverflowsEither(Starts(s) + Starts(k.rest), more, size, room);
      OverflowsEither(Starts(s), Starts(k.rest), size, room);
      NothingOverflows(size, room);
    }
  }

  // ------------------------------------------------------------------------------------- texts of values

  /** Every entry takes up text. */
  lemma {:induction false} EntriesConsume(s: string, n: nat, at: nat)
    requires Entries(s, n, at).Ok?
    ensures n + |Entries(s, n, at).rest| <= |s|
    decreases n
  {
    hide ReadValue;
    if n > 0 { EntriesConsume(ReadValue(ReadValue(s).rest).rest, n - 1, at + 1); }
  }

  /** The text of a value never overflows, on a machine with room for as many entries as the text has characters. */
  lemma {:induction false} ValuesFit(s: string, size: nat, room: nat)
    requires |s| <= size <= MOST && size <= room && ReadValue(s).Ok?
    ensures !Overflows(Starts(s), size, room)
    decreases |s|, 0
  {
    hide Overflows, Entries, Length, Starts, EntryStarts, ArrayValue;
    StartsOverflow(s, size, room);
    var n := Length(s[1..]);
    if s[0] == 'a' {
      var body := n.rest[1..];
      EntriesConsume(body, n.value, 0);
      EntriesFit(body, n.value, 0, size, room);
    } else if s[0] == 's' && n.Ok? && n.rest != "" {
      assert n.rest[0] == '"' ==> n.value <= |n.rest[1..]|;
    }
  }

  lemma {:induction false} EntriesFit(s: string, n: nat, at: nat, size: nat, room: nat)
    requires |s| <= size <= MOST && size <= room && Entries(s, n, at).Ok?
    ensures !Overflows(EntryStarts(s, n), size, room)
    decreases |s|, 1
  {
    hide Overflows, ReadValue, Starts;
    if n == 0 {
      NothingOverflows(size, room);
    } else {
      hide EntryStarts;
      EntriesOverflow(s, n, size, room);
      var k := ReadValue(s);
      ValuesFit(s, size, room);
      ValuesFit(k.rest, size, room);
      EntriesFit(ReadValue(k.rest).rest, n - 1, at + 1, size, room);
    }
  }

  /** A written value is read without an overflow. */
  lemma WrittenFits(v: PVal, room: nat)
    requires WellFormed(v) && |Ser(v, "")| <= MOST && |Ser(v, "")| <= room
    ensures !Overflows(Starts(Ser(v, "")), |Ser(v, "")|, room)
  {
    hide ReadValue, Ser, Back, Starts, WellFormed, Overflows;
    ReadBack(v, "");
    ValuesFit(Ser(v, ""), |Ser(v, "")|, room);
  }

  // ------------------------------------------------------------------------------------- texts that overflow

  /** A text that is a string's header overflows exactly when its length does not fit behind it in 64 bits. */
  lemma StringHeader(n: nat, rest: string, room: nat)
    requires n <= MOST
    ensures var head := "s:" + (Numeral(n, 10) + ":\"");
            Overflows(Starts(head + rest), |head + rest|, room) <==> |head| + n > MOST
  {
    hide Length, Numeral, Overflows, ArrayStarts;
    var head := "s:" + (Numeral(n, 10) + ":\"");
    var s := head + rest;
    assert s[1..] == ":" + (Numeral(n, 10) + (":" + ("\"" + rest)));
    ReadLength(n, "\"" + rest);
    StartsOverflow(s, |s|, room);
  }

  /** A text that is an array's header overflows exactly when the machine has no room for its entries. */
  lemma ArrayHeader(n: nat, room: nat)
    requires n <= MOST
    ensures var head := "a:" + (Numeral(n, 10) + ":{");
            Overflows(Starts(head), |head|, room) <==> n > room
  {
    hide Length, Numeral, Overflows, Entries;
    var head := "a:" + (Numeral(n, 10) + ":{");
    assert head[1..] == ":" + (Numeral(n, 10) + (":" + "{"));
    ReadLength(n, "{");
    StartsOverflow(head, |head|, room);
    var body := "{"[1..];
    assert body == "";
    NothingOverflows(size := |head|, room := room);
    if n > 0 {
      EntriesOverflow("", n, |head|, room);
      StartsOverflow("", |head|, room);
    }
  }

  /**
    Two texts that end neither with a value nor with an error: the headers of a string and an array of length 2^63 - 1.
   */
  lemma HugeLengthsOverflow(room: nat)
    ensures var text := "s:" + (Numeral(MOST, 10) + ":\""); Overflows(Starts(text), |text|, room)
    ensures var text := "a:" + (Numeral(MOST, 10) + ":{"); room < MOST ==> Overflows(Starts(text), |text|, room)
  {
    hide Overflows, Starts, Numeral;
    var text := "s:" + (Numeral(MOST, 10) + ":\"");
    assert text + "" == text;
    StringHeader(MOST, "", room);
    ArrayHeader(MOST, room);
  }
}
