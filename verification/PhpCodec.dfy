/** The writer and the parser at work: one appends to a text, the other moves a cursor over it. */
module PhpCodec {
  import opened Common
  import opened Numerals
  import opened Php
  import opened PhpRoundTrip
  import opened PhpOverflow

  /** The text written so far. */
  class Writer {
    var text: string

    constructor ()
      ensures text == ""
    {
      text := "";
    }

    method Append(s: string)
      modifies this
      ensures forall k :: text + k == old(text) + (s + k)
      ensures text == old(text) + s
    {
      text := text + s;
    }

    method WriteInt(i: int)
      modifies this
      ensures forall k :: text + k == old(text) + ("i:" + (Signed(i) + (";" + k)))
    {
      hide Signed;
      Append("i:");
      Append(Signed(i));
      Append(";");
    }

    method WriteStr(s: string)
      modifies this
      ensures forall k :: text + k == old(text) + SerStr(s, k)
    {
      hide Numeral;
      Append("s:");
      Append(Numeral(|s|, 10));
      Append(":\"");
      Append(s);
      Append("\";");
    }

    method WriteHead(n: nat)
      modifies this
      ensures forall k :: text + k == old(text) + SerArray(n, k)
    {
      hide Numeral;
      Append("a:");
      Append(Numeral(n, 10));
      Append(":{");
    }

    method WriteKey(key: string)
      modifies this
      ensures forall k :: text + k == old(text) + SerKey(key, k)
    {
      hide IntKey, SerStr, Signed;
      var n := IntKey(key);
      if n.Some? { WriteInt(n.value); } else { WriteStr(key); }
    }

    method Write(v: PVal)
      modifies this
      ensures forall k :: text + k == old(text) + Ser(v, k)
      decreases v
    {
      hide SerStr, SerArray, Signed;
      match v {
        case Nil => Append("N;");
        case Bool(b) => Append(if b then "b:1;" else "b:0;");
        case Num(i) => WriteInt(i);
        case Str(s) => WriteStr(s);
        case List(items) => WriteList(items);
        case Map(entries) => WriteMap(entries);
      }
    }

    method WriteList(items: seq<PVal>)
      modifies this
      ensures forall k :: text + k == old(text) + SerArray(|items|, SerItems(items, 0, "}" + k))
      decreases items
    {
      hide SerArray, Signed, Ser;
      WriteHead(|items|);
      label L:
      for i := 0 to |items|
        invariant forall k :: text + SerItems(items[i..], i, k) == old@L(text) + SerItems(items, 0, k)
      {
        assert items[i..][0] == items[i] && items[i..][1..] == items[i + 1..];
        WriteInt(i);
        Write(items[i]);
      }
      assert items[|items|..] == [];
      Append("}");
    }

    method WriteMap(es: seq<Pair>)
      modifies this
      ensures forall k :: text + k == old(text) + SerArray(|es|, SerPairs(es, "}" + k))
      decreases es
    {
      hide SerArray, SerKey, Ser;
      WriteHead(|es|);
      label L:
      for i := 0 to |es|
        invariant forall k :: text + SerPairs(es[i..], k) == old@L(text) + SerPairs(es, k)
      {
        assert es[i..][0] == es[i] && es[i..][1..] == es[i + 1..];
        WritePair(es[i]);
      }
      assert es[|es|..] == [];
      Append("}");
    }

    method WritePair(e: Pair)
      modifies this
      ensures forall k :: text + k == old(text) + SerPair(e, k)
      decreases e
    {
      hide SerKey, Ser;
      WriteKey(e.key);
      Write(e.val);
    }
  }

  method Serialize(v: PVal) returns (s: string)
    ensures s == Ser(v, "")
  {
    hide Ser;
    var w := new Writer();
    w.Write(v);
    assert w.text + "" == "" + Ser(v, "");
    assert w.text + "" == w.text && "" + Ser(v, "") == Ser(v, "");
    return w.text;
  }

  /** The parser ends with a value, with an error, or in a panic. */
  datatype Result = Got(value: PVal) | Wrong(error: Error) | Panicked

  /** The parser: `at` is the cursor, and `room` the most entries that the machine can make room for. */
  class Parser {
    const text: string
    const room: nat
    var at: nat

    constructor (text: string, room: nat)
      ensures this.text == text && this.room == room && at == 0
    {
      this.text, this.room, this.at := text, room, 0;
    }

    ghost predicate Valid()
      reads this
    {
      at <= |text| <= MOST
    }

    ghost predicate Overflow(starts: set<string>) { Overflows(starts, |text|, room) }

    ghost function Rest(): string
      requires Valid()
      reads this
    {
      text[at..]
    }

    method ExpectChar(c: char) returns (ok: bool)
      requires Valid()
      modifies this
      ensures Valid() && old(at) <= at
      ensures ok <==> Expect(old(Rest()), c).Some?
      ensures ok ==> Rest() == Expect(old(Rest()), c).value
    {
      if at >= |text| || text[at] != c { return false; }
      assert text[at..][1..] == text[at + 1..];
      at := at + 1;
      return true;
    }

    method UntilChar(c: char) returns (ok: bool, s: string)
      requires Valid()
      modifies this
      ensures Valid() && old(at) <= at
      ensures ok <==> Until(old(Rest()), c).Ok?
      ensures ok ==> Until(old(Rest()), c) == Ok(s, Rest())
    {
      hide Until;
      var j := at;
      while j < |text| && text[j] != c
        invariant at <= j <= |text| && forall i :: at <= i < j ==> text[i] != c
      {
        j := j + 1;
      }
      if j == |text| {
        UntilNothing(text[at..], c);
        return false, "";
      }
      s := text[at..j];
      assert text[at..] == s + ([c] + text[j + 1..]);
      UntilFirst(s, c, text[j + 1..]);
      at := j + 1;
      return true, s;
    }

    method ReadLength() returns (n: Option<nat>)
      requires Valid()
      modifies this
      ensures Valid() && old(at) <= at
      ensures n.Some? <==> Length(old(Rest())).Ok?
      ensures n.Some? ==> old(at) < at && n.value <= MOST
      ensures n.Some? ==> Length(old(Rest())) == Ok(n.value, Rest())
    {
      hide Expect, Until, ParseInt;
      var ok := ExpectChar(':');
      if !ok { return None; }
      var found, s := UntilChar(':');
      if !found { return None; }
      var m := ParseInt(s);
      if m.None? || m.value < 0 { return None; }
      return Some(m.value);
    }

    method ReadScalar() returns (s: Option<string>)
      requires Valid()
      modifies this
      ensures Valid() && old(at) <= at
      ensures s.Some? <==> Scalar(old(Rest())).Ok?
      ensures s.Some? ==> Scalar(old(Rest())) == Ok(s.value, Rest())
    {
      hide Expect, Until;
      var ok := ExpectChar(':');
      if !ok { return None; }
      var found, t := UntilChar(';');
      return if found then Some(t) else None;
    }

    /**
      A string after its letter.  The sum of the cursor and the length can be negative, and is then no place to cut at.
     */
    method ReadStr() returns (r: Result)
      requires Valid()
      modifies this
      ensures Valid() && old(at) <= at
      ensures r.Panicked? <==> Oversized("s" + old(Rest()), |text|, room)
      ensures r.Got? ==> ParseStr(old(Rest())) == Ok(r.value, Rest())
      ensures r.Wrong? ==> ParseStr(old(Rest())) == Bad(r.error)
    {
      hide Expect, Length;
      assert ("s" + Rest())[1..] == Rest();
      var n := ReadLength();
      if n.None? { return Wrong(Decode); }
      ghost var quoted := Rest();
      var ok := ExpectChar('"');
      assert ok ==> quoted != "" && quoted[0] == '"' && |quoted| - 1 == |text| - at by { StartsWith(quoted, '"'); }
      assert !ok ==> quoted == "" || quoted[0] != '"' by { StartsWith(quoted, '"'); }
      if !ok { return Wrong(Decode); }
      var end := Sum64(at, n.value);
      if end > |text| { return Wrong(Decode); }
      if end < at { return Panicked; }
      ghost var rest := Rest();
      var t := text[at..end];
      at := end;
      assert rest[..n.value] == t && rest[n.value..] == Rest();
      ok := ExpectChar('"');
      if !ok { return Wrong(Decode); }
      ok := ExpectChar(';');
      return if ok then Got(Str(t)) else Wrong(Decode);
    }

    method Read() returns (r: Result)
      requires Valid()
      modifies this
      ensures Valid() && old(at) <= at
      ensures r.Panicked? <==> Overflow(Starts(old(Rest())))
      ensures r.Got? ==> old(at) < at && Php.ReadValue(old(Rest())) == Ok(r.value, Rest())
      ensures r.Wrong? ==> Php.ReadValue(old(Rest())) == Bad(r.error)
      decreases |text| - at, 0
    {
      hide Expect, Scalar, ParseStr, Length, ParseInt, Entries, ArrayValue, Oversized, Starts, ArrayStarts, Overflows;
      ghost var all := Rest();
      StartsOverflow(all, |text|, room);
      OnlyArraysAndStrings(all, |text|, room);
      if at >= |text| { return Wrong(Decode); }
      var t := text[at];
      at := at + 1;
      assert all[0] == t && all[1..] == Rest();
      match t {
        case 'N' =>
          var ok := ExpectChar(';');
          return if ok then Got(Nil) else Wrong(Decode);
        case 'b' =>
          var s := ReadScalar();
          if s.None? { return Wrong(Decode); }
          return if s.value == "0" then Got(Bool(false)) else if s.value == "1" then Got(Bool(true)) else Wrong(Decode);
        case 'i' =>
          var s := ReadScalar();
          if s.None? { return Wrong(Decode); }
          var n := ParseInt(s.value);
          return if n.Some? then Got(Num(n.value)) else Wrong(Decode);
        case 's' =>
          assert "s" + Rest() == all;
          r := ReadStr();
        case 'a' =>
          assert "a" + Rest() == all;
          r := ReadArray();
        case _ =>
          return Wrong(if t in "OCrR" then Unsupported else Decode);
      }
    }

    /** An array after its letter. */
    method ReadArray() returns (r: Result)
      requires Valid()
      modifies this
      ensures Valid() && old(at) <= at
      ensures r.Panicked? <==> Overflow(Starts("a" + old(Rest())))
      ensures r.Got? ==> Php.ReadValue("a" + old(Rest())) == Ok(r.value, Rest())
      ensures r.Wrong? ==> Php.ReadValue("a" + old(Rest())) == Bad(r.error)
      decreases |text| - at, 2
    {
      hide Expect, Length, Entries, Starts, EntryStarts, Overflows;
      ghost var all := "a" + Rest();
      assert all[1..] == Rest();
      StartsOverflow(all, |text|, room);
      NothingOverflows(|text|, room);
      var n := ReadLength();
      if n.None? { return Wrong(Decode); }
      ghost var braced := Rest();
      var ok := ExpectChar('{');
      StartsWith(braced, '{');
      if !ok { return Wrong(Decode); }
      if n.value > room { return Panicked; }
      var stop, pairs, isList := ReadEntries(n.value);
      if stop.Some? { return stop.value; }
      ok := ExpectChar('}');
      if !ok { return Wrong(Decode); }
      if isList { return Got(List(Vals(pairs))); }
      var m: seq<Pair> := [];
      for i := 0 to |pairs|
        invariant m == FromPairs(pairs[..i])
      {
        assert pairs[..i + 1][..i] == pairs[..i];
        m := Stored(m, pairs[i]);
      }
      assert pairs[..|pairs|] == pairs;
      return Got(Map(m));
    }

    method ReadEntries(n: nat) returns (stop: Option<Result>, pairs: seq<Pair>, isList: bool)
      requires Valid()
      modifies this
      ensures Valid() && old(at) <= at
      ensures stop == Some(Panicked) <==> Overflow(EntryStarts(old(Rest()), n))
      ensures stop.None? ==> Entries(old(Rest()), n, 0) == Ok(Array(pairs, isList), Rest())
      ensures stop.Some? && stop.value.Wrong? ==> Entries(old(Rest()), n, 0) == Bad(stop.value.error)
      ensures stop.Some? ==> !stop.value.Got?
      decreases |text| - at, 1
    {
      hide Php.ReadValue, Signed, Entries, Join, Starts, EntryStarts, Overflows;
      pairs, isList := [], true;
      ghost var all := Entries(Rest(), n, 0);
      ghost var starts := EntryStarts(Rest(), n);
      JoinNothing(all);
      for k := 0 to n
        invariant Valid() && old(at) <= at
        invariant all == Join(pairs, isList, Entries(Rest(), n - k, k))
        invariant Overflow(starts) <==> Overflow(EntryStarts(Rest(), n - k))
      {
        ghost var s := Rest();
        EntriesOverflow(s, n - k, |text|, room);
        var kv := Read();
        if kv.Panicked? { return Some(Panicked), [], false; }
        if kv.Wrong? {
          EntryFails(s, n - k, k, pairs, isList);
          return Some(kv), [], false;
        }
        if !kv.value.Num? && !kv.value.Str? {
          EntryFails(s, n - k, k, pairs, isList);
          return Some(Wrong(Decode)), [], false;
        }
        var key := if kv.value.Num? then Signed(kv.value.i) else kv.value.s;
        var inOrder := kv.value.Num? && kv.value.i == k;
        var v := Read();
        if v.Panicked? { return Some(Panicked), [], false; }
        if v.Wrong? {
          EntryFails(s, n - k, k, pairs, isList);
          return Some(v), [], false;
        }
        EntryStep(s, n - k, k, pairs, isList);
        pairs := pairs + [Pair(key, v.value)];
        if !inOrder { isList := false; }
      }
      EntriesEnd(Rest(), n, pairs, isList);
      NoEntryOverflows(Rest(), |text|, room);
      return None, pairs, isList;
    }
  }

  lemma StartsWith(s: string, c: char)
    ensures Expect(s, c) == if s != "" && s[0] == c then Some(s[1..]) else None
  {
  }

  lemma OnlyArraysAndStrings(s: string, size: nat, room: nat)
    ensures Oversized(s, size, room) ==> s != "" && (s[0] == 's' || s[0] == 'a')
  {
  }

  lemma NoEntryOverflows(s: string, size: nat, room: nat)
    ensures !Overflows(EntryStarts(s, 0), size, room)
  {
  }

  /** Entries read before others. */
  function Join(pairs: seq<Pair>, isList: bool, more: Parsed<Array>): Parsed<Array> {
    if more.Bad? then more else Ok(Array(pairs + more.value.pairs, isList && more.value.isList), more.rest)
  }

  lemma JoinNothing(more: Parsed<Array>)
    ensures Join([], true, more) == more
  {
    if more.Ok? { assert [] + more.value.pairs == more.value.pairs; }
  }

  lemma EntriesEnd(s: string, n: nat, pairs: seq<Pair>, isList: bool)
    ensures Join(pairs, isList, Entries(s, 0, n)) == Ok(Array(pairs, isList), s)
  {
    assert pairs + [] == pairs;
  }

  /** A key or a value that does not parse, or a key of another kind, ends the entries. */
  lemma EntryFails(s: string, n: nat, at: nat, pairs: seq<Pair>, isList: bool)
    requires n > 0
    ensures var k := Php.ReadValue(s);
            && (k.Bad? ==> Join(pairs, isList, Entries(s, n, at)) == Bad(k.error))
            && (k.Ok? && !k.value.Num? && !k.value.Str? ==> Join(pairs, isList, Entries(s, n, at)) == Bad(Decode))
            && (k.Ok? && (k.value.Num? || k.value.Str?) && Php.ReadValue(k.rest).Bad? ==>
                  Join(pairs, isList, Entries(s, n, at)) == Bad(Php.ReadValue(k.rest).error))
  {
    hide Php.ReadValue;
  }

  lemma EntryStep(s: string, n: nat, at: nat, pairs: seq<Pair>, isList: bool)
    requires n > 0 && Php.ReadValue(s).Ok? && (Php.ReadValue(s).value.Num? || Php.ReadValue(s).value.Str?)
    requires Php.ReadValue(Php.ReadValue(s).rest).Ok?
    ensures var k := Php.ReadValue(s);
            var v := Php.ReadValue(k.rest);
            var key := if k.value.Num? then Signed(k.value.i) else k.value.s;
            Join(pairs, isList, Entries(s, n, at))
              == Join(pairs + [Pair(key, v.value)], isList && k.value.Num? && k.value.i == at,
                Entries(v.rest, n - 1, at + 1))
  {
    hide Php.ReadValue, Signed;
    var k := Php.ReadValue(s);
    var v := Php.ReadValue(k.rest);
    var more := Entries(v.rest, n - 1, at + 1);
    var p := Pair(if k.value.Num? then Signed(k.value.i) else k.value.s, v.value);
    if more.Ok? {
      assert pairs + ([p] + more.value.pairs) == pairs + [p] + more.value.pairs;
    }
  }

  lemma {:induction false} UntilNothing(s: string, c: char)
    requires c !in s
    ensures Until(s, c).Bad?
    decreases |s|
  {
    if s != "" { UntilNothing(s[1..], c); }
  }

  /** Parsing panics exactly when it meets a length that the machine cannot handle, and is exact otherwise. */
  method ParseAll(text: string, room: nat) returns (r: Result)
    requires |text| <= MOST
    ensures r.Panicked? <==> Overflows(Starts(text), |text|, room)
    ensures r.Got? ==> Unserialize(text) == Ok(r.value, "")
    ensures r.Wrong? ==> Unserialize(text) == Bad(r.error)
  {
    hide Php.ReadValue, Starts, Overflows;
    var p := new Parser(text, room);
    assert text[0..] == text;
    r := p.Read();
    if r.Got? && p.at != |text| { r := Wrong(Decode); }
  }
}
