/**
  Collection keys.  A key of several components writes every component with its tag and its length, so that two lists of
  components never share a key.
 */
module Keys {
  import opened Common
  import opened Numerals

  datatype Key = Key(tag: char, data: string)

  /** The outcome of building a key: it was built, a component is null, or an error. */
  datatype Outcome<+T> = Got(value: T) | Absent | Failed

  /** A float that is not a number, or infinite: all bits of the exponent are set. */
  predicate NotFinite(bits: nat) { bits / 0x10_0000_0000_0000 % 0x800 == 0x7ff }

  function Chars(b: seq<bv8>): (r: string)
    ensures |r| == |b|
  {
    seq(|b|, i requires 0 <= i < |b| => b[i] as char)
  }

  function Hex(s: string): string {
    if s == [] then [] else [Digit(s[0] as int / 16 % 16), Digit(s[0] as int % 16)] + Hex(s[1..])
  }

  /** The key of one value; null and a float that is not finite have none. */
  function KeyOf(v: Value): Outcome<Key> {
    match v
    case Null => Failed
    case Int(i) => Got(Key('i', Signed(i)))
    case Text(s) => Got(Key('s', s))
    case Bytes(b) => Got(Key('b', Chars(b)))
    case Flag(f) => Got(Key('t', if f then "1" else "0"))
    case Float(bits) => if NotFinite(bits) then Failed else Got(Key('f', Numeral(PlusZero(bits), 16)))
    case Time(t) => Got(Key('d', t))
  }

  /**
    One component of a key: its tag, the length of its data, a colon and the data; bytes are written in hexadecimal.
   */
  function Part(k: Key): string {
    var data := if k.tag == 'b' then Hex(k.data) else k.data;
    [k.tag] + Numeral(|data|, 10) + ":" + data
  }

  /** The components of the values, or an error. */
  function Parts(vs: seq<Value>): Option<string> {
    if vs == [] then Some("")
    else
      var k := KeyOf(vs[0]);
      var rest := Parts(vs[1..]);
      if !k.Got? || rest.None? then None else Some(Part(k.value) + rest.value)
  }

  function KeyOfValues(vs: seq<Value>): Outcome<Key> {
    if |vs| == 0 then Failed
    else if |vs| == 1 then KeyOf(vs[0])
    else if Parts(vs).None? then Failed
    else Got(Key('c', Parts(vs).value))
  }

  /** The key of the cells of a row; the first missing cell decides before any value is converted. */
  function KeyOfRow(row: seq<Value>, refs: seq<int>): Outcome<Key> {
    if |refs| == 0 then Failed
    else match Scan(row, refs)
      case Absent => Absent
      case Failed => Failed
      case Got(vs) => KeyOfValues(vs)
  }

  function Scan(row: seq<Value>, refs: seq<int>): (r: Outcome<seq<Value>>)
    ensures r.Got? ==> |r.value| == |refs|
    ensures r.Got? ==> forall i :: 0 <= i < |refs| ==>
              0 <= refs[i] < |row| && r.value[i] == row[refs[i]] && r.value[i] != Null
  {
    if refs == [] then Got([])
    else if refs[0] < 0 || refs[0] >= |row| then Failed
    else if row[refs[0]] == Null then Absent
    else match Scan(row, refs[1..])
      case Got(vs) => Got([row[refs[0]]] + vs)
      case Absent => Absent
      case Failed => Failed
  }

  // ------------------------------------------------------------------------------------- which rows have a key

  /** The values that have a key. */
  predicate Keyable(v: Value) {
    v != Null && (v.Float? ==> !NotFinite(v.bits))
  }

  /** Component n of the row is null, and no index up to it is outside the row. */
  predicate NullAt(row: seq<Value>, refs: seq<int>, n: nat) {
    n < |refs| && (forall i :: 0 <= i <= n ==> 0 <= refs[i] < |row|) && row[refs[n]] == Null
  }

  /** Index n is outside the row, and no component before it is null. */
  predicate OutsideAt(row: seq<Value>, refs: seq<int>, n: nat) {
    && n < |refs| && !(0 <= refs[n] < |row|)
    && forall i :: 0 <= i < n && 0 <= refs[i] < |row| ==> row[refs[i]] != Null
  }

  predicate NullCell(row: seq<Value>, refs: seq<int>) { exists n :: 0 <= n < |refs| && NullAt(row, refs, n) }

  predicate OutsideCell(row: seq<Value>, refs: seq<int>) { exists n :: 0 <= n < |refs| && OutsideAt(row, refs, n) }

  /** Every component is a value of the row that has a key. */
  predicate KeyedRow(row: seq<Value>, refs: seq<int>) {
    refs != [] && forall i :: 0 <= i < |refs| ==> 0 <= refs[i] < |row| && Keyable(row[refs[i]])
  }

  /** A float has no key exactly when all eleven bits of its exponent are set, whatever its sign and its fraction. */
  lemma NotFiniteBits(bits: nat, sign: nat, exponent: nat, fraction: nat)
    requires exponent < 0x800 && fraction < 0x10_0000_0000_0000
    requires bits == (sign * 0x800 + exponent) * 0x10_0000_0000_0000 + fraction
    ensures Keyable(Float(bits)) <==> exponent < 0x7ff
  {
    var top := sign * 0x800 + exponent;
    assert bits / 0x10_0000_0000_0000 == top;
    assert top % 0x800 == exponent;
  }

  lemma KeyableExactly(v: Value)
    ensures KeyOf(v).Got? <==> Keyable(v)
    ensures KeyOf(v).Failed? <==> !Keyable(v)
  {
  }

  lemma {:induction false} PartsExactly(vs: seq<Value>)
    ensures Parts(vs).Some? <==> forall i :: 0 <= i < |vs| ==> Keyable(vs[i])
    decreases |vs|
  {
    hide KeyOf, Part, Keyable;
    if vs != [] {
      KeyableExactly(vs[0]);
      PartsExactly(vs[1..]);
      assert forall i :: 1 <= i < |vs| ==> vs[i] == vs[1..][i - 1];
      assert forall i :: 0 <= i < |vs| - 1 ==> vs[1..][i] == vs[i + 1];
    }
  }

  lemma {:induction false} ScanExactly(row: seq<Value>, refs: seq<int>)
    ensures Scan(row, refs).Absent? <==> NullCell(row, refs)
    ensures Scan(row, refs).Failed? <==> OutsideCell(row, refs)
    decreases |refs|
  {
    hide NullCell, OutsideCell;
    if refs != [] {
      ScanExactly(row, refs[1..]);
      NullTail(row, refs);
      OutsideTail(row, refs);
    } else {
      NothingMissing(row);
    }
  }

  lemma NothingMissing(row: seq<Value>)
    ensures !NullCell(row, []) && !OutsideCell(row, [])
  {
  }

  lemma NullTail(row: seq<Value>, refs: seq<int>)
    requires refs != []
    ensures NullCell(row, refs) <==>
              0 <= refs[0] < |row| && (row[refs[0]] == Null || NullCell(row, refs[1..]))
  {
    var rest := refs[1..];
    if n :| 0 <= n < |refs| && NullAt(row, refs, n) {
      assert forall i :: 0 <= i < |rest| ==> rest[i] == refs[i + 1];
      if n > 0 { assert NullAt(row, rest, n - 1); }
    }
    if 0 <= refs[0] < |row| {
      if row[refs[0]] == Null {
        assert NullAt(row, refs, 0);
      } else if n :| 0 <= n < |rest| && NullAt(row, rest, n) {
        assert forall i :: 1 <= i < |refs| ==> refs[i] == rest[i - 1];
        assert NullAt(row, refs, n + 1);
      }
    }
  }

  lemma OutsideTail(row: seq<Value>, refs: seq<int>)
    requires refs != []
    ensures OutsideCell(row, refs) <==>
              !(0 <= refs[0] < |row|) || (row[refs[0]] != Null && OutsideCell(row, refs[1..]))
  {
    var rest := refs[1..];
    if !(0 <= refs[0] < |row|) {
      assert OutsideAt(row, refs, 0);
    } else {
      if n :| 0 <= n < |refs| && OutsideAt(row, refs, n) {
        assert forall i :: 0 <= i < |rest| ==> rest[i] == refs[i + 1];
        assert OutsideAt(row, rest, n - 1);
      }
      if n :| row[refs[0]] != Null && 0 <= n < |rest| && OutsideAt(row, rest, n) {
        assert forall i :: 1 <= i < |refs| ==> refs[i] == rest[i - 1];
        assert OutsideAt(row, refs, n + 1);
      }
    }
  }

  /**
    A row has no key exactly when a component is null and no index up to it is outside the row.  Building the key fails
    exactly when there are no components, an index is outside the row before any null component, or no component is null
    and one has no key.
   */
  lemma KeyOfRowExactly(row: seq<Value>, refs: seq<int>)
    ensures KeyOfRow(row, refs).Absent? <==> NullCell(row, refs)
    ensures KeyOfRow(row, refs).Got? <==> KeyedRow(row, refs)
    ensures KeyOfRow(row, refs).Failed? <==>
              || refs == [] || OutsideCell(row, refs)
              || ((forall i :: 0 <= i < |refs| ==> 0 <= refs[i] < |row| && row[refs[i]] != Null)
                  && exists i :: 0 <= i < |refs| && !Keyable(row[refs[i]]))
  {
    hide NullCell, OutsideCell, NotFinite, KeyOf, Parts;
    ScanExactly(row, refs);
    if !Scan(row, refs).Got? { NoValue(row, refs); }
    match Scan(row, refs)
    case Got(vs) =>
      if |vs| == 1 { KeyableExactly(vs[0]); }
      PartsExactly(vs);
    case _ =>
  }

  lemma RowOutcome(row: seq<Value>, refs: seq<int>)
    ensures KeyOfRow(row, refs).Absent? <==> NullCell(row, refs)
    ensures KeyOfRow(row, refs).Got? <==> KeyedRow(row, refs)
  {
    hide NullCell, KeyedRow, KeyOfRow;
    KeyOfRowExactly(row, refs);
  }

  lemma NoValue(row: seq<Value>, refs: seq<int>)
    requires NullCell(row, refs) || OutsideCell(row, refs)
    ensures exists i :: 0 <= i < |refs| && (0 <= refs[i] < |row| ==> row[refs[i]] == Null)
  {
    if NullCell(row, refs) {
      var n :| 0 <= n < |refs| && NullAt(row, refs, n);
      assert row[refs[n]] == Null;
    } else {
      var n :| 0 <= n < |refs| && OutsideAt(row, refs, n);
      assert !(0 <= refs[n] < |row|);
    }
  }

  method KeyFromValues(vs: seq<Value>) returns (r: Outcome<Key>)
    ensures r == KeyOfValues(vs)
  {
    hide KeyOf, Part;
    if |vs| == 0 { return Failed; }
    if |vs| == 1 { return KeyOf(vs[0]); }
    var b := "";
    for i := 0 to |vs|
      invariant Parts(vs).Some? <==> Parts(vs[i..]).Some?
      invariant Parts(vs).Some? ==> Parts(vs).value == b + Parts(vs[i..]).value
    {
      assert vs[i..][0] == vs[i] && vs[i..][1..] == vs[i + 1..];
      var part := KeyOf(vs[i]);
      if !part.Got? { return Failed; }
      b := b + Part(part.value);
    }
    assert vs[|vs|..] == [] && b + "" == b;
    return Got(Key('c', b));
  }

  method KeyFromRow(row: seq<Value>, refs: seq<int>) returns (r: Outcome<Key>)
    ensures r == KeyOfRow(row, refs)
    ensures r.Absent? <==> NullCell(row, refs)
    ensures r.Got? <==> KeyedRow(row, refs)
  {
    hide KeyOfValues, NullCell, KeyedRow;
    RowOutcome(row, refs);
    if |refs| == 0 { return Failed; }
    var values: seq<Value> := [];
    for i := 0 to |refs|
      invariant Scan(row, refs).Got? <==> Scan(row, refs[i..]).Got?
      invariant Scan(row, refs).Got? ==> Scan(row, refs).value == values + Scan(row, refs[i..]).value
      invariant !Scan(row, refs).Got? ==> Scan(row, refs) == Scan(row, refs[i..])
    {
      assert refs[i..][0] == refs[i] && refs[i..][1..] == refs[i + 1..];
      if refs[i] < 0 || refs[i] >= |row| { return Failed; }
      if row[refs[i]] == Null { return Absent; }
      values := values + [row[refs[i]]];
    }
    assert refs[|refs|..] == [] && values + [] == values;
    r := KeyFromValues(values);
  }

  // ------------------------------------------------------------------------------------- uniqueness

  lemma CharsUnique(a: seq<bv8>, b: seq<bv8>)
    requires Chars(a) == Chars(b)
    ensures a == b
  {
    forall i | 0 <= i < |a| ensures a[i] == b[i] {
      assert Chars(a)[i] == Chars(b)[i];
      assert (a[i] as int) as bv8 == (b[i] as int) as bv8;
    }
  }

  /** One value: equal keys exactly for values that are alike. */
  lemma KeyOfUnique(a: Value, b: Value)
    requires KeyOf(a).Got? && KeyOf(b).Got?
    ensures KeyOf(a) == KeyOf(b) <==> Alike(a, b)
  {
    hide NotFinite, PlusZero, Chars, Numeral, Signed;
    if KeyOf(a) == KeyOf(b) {
      match a
      case Int(i) => SignedUnique(i, b.i);
      case Bytes(x) => CharsUnique(x, b.b);
      case Float(x) => NumeralUnique(PlusZero(x), PlusZero(b.bits), 16);
      case _ =>
    }
  }

  lemma {:induction false} HexUnique(a: string, b: string)
    requires Hex(a) == Hex(b) && (forall i :: 0 <= i < |a| ==> a[i] as int < 256)
    requires forall i :: 0 <= i < |b| ==> b[i] as int < 256
    ensures a == b
    decreases |a|
  {
    if a == [] || b == [] {
      assert a == b;
    } else {
      var x, y := a[0] as int, b[0] as int;
      var m, n := Hex(a), Hex(b);
      assert m[0] == n[0] && m[1] == n[1];
      DigitRoundTrip(x / 16 % 16);
      DigitRoundTrip(y / 16 % 16);
      DigitRoundTrip(x % 16);
      DigitRoundTrip(y % 16);
      assert x == y;
      assert m[2..] == Hex(a[1..]) && n[2..] == Hex(b[1..]);
      HexUnique(a[1..], b[1..]);
      assert a == [a[0]] + a[1..] && b == [b[0]] + b[1..];
    }
  }

  /** A key as `KeyOf` builds it: the data of bytes are bytes. */
  predicate Scalar(k: Key) {
    k.tag == 'b' ==> forall i :: 0 <= i < |k.data| ==> k.data[i] as int < 256
  }

  lemma KeyOfScalar(v: Value)
    requires KeyOf(v).Got?
    ensures Scalar(KeyOf(v).value)
  {
  }

  /** A text is split at its first colon in one way. */
  lemma {:induction false} ColonUnique(a: string, b: string, x: string, y: string)
    requires ':' !in a && ':' !in b && a + ":" + x == b + ":" + y
    ensures a == b && x == y
    decreases |a|
  {
    var l, r := a + ":" + x, b + ":" + y;
    assert (a == [] <==> l[0] == ':') && (b == [] <==> r[0] == ':');
    if a == [] {
      assert l[1..] == x && r[1..] == y;
    } else {
      assert l[0] == a[0] && r[0] == b[0];
      assert l[1..] == a[1..] + ":" + x && r[1..] == b[1..] + ":" + y;
      ColonUnique(a[1..], b[1..], x, y);
      assert a == [a[0]] + a[1..] && b == [b[0]] + b[1..];
    }
  }

  lemma NumeralHasNoColon(n: nat)
    ensures ':' !in Numeral(n, 10)
  {
    assert DigitValue(':') == -1;
  }

  /** A component can be read off the front of a text. */
  lemma PartUnique(k: Key, l: Key, s: string, t: string)
    requires Scalar(k) && Scalar(l) && Part(k) + s == Part(l) + t
    ensures k == l && s == t
  {
    hide Hex, Numeral;
    var d, e := if k.tag == 'b' then Hex(k.data) else k.data, if l.tag == 'b' then Hex(l.data) else l.data;
    var m, n := Numeral(|d|, 10), Numeral(|e|, 10);
    var x, y := Part(k) + s, Part(l) + t;
    assert x[0] == k.tag && y[0] == l.tag;
    assert x[1..] == m + ":" + (d + s) && y[1..] == n + ":" + (e + t);
    NumeralHasNoColon(|d|);
    NumeralHasNoColon(|e|);
    ColonUnique(m, n, d + s, e + t);
    NumeralUnique(|d|, |e|, 10);
    assert d == (d + s)[..|d|] && e == (e + t)[..|d|];
    assert s == (d + s)[|d|..] && t == (e + t)[|d|..];
    if k.tag == 'b' {
      HexUnique(k.data, l.data);
    }
  }

  predicate AllAlike(a: seq<Value>, b: seq<Value>) {
    |a| == |b| && forall i :: 0 <= i < |a| ==> Alike(a[i], b[i])
  }

  lemma {:induction false} PartsUnique(a: seq<Value>, b: seq<Value>)
    requires Parts(a).Some? && Parts(b).Some?
    ensures Parts(a) == Parts(b) <==> AllAlike(a, b)
    decreases |a|
  {
    hide KeyOf, Part, Alike, Scalar;
    if a == [] || b == [] {
      PartIsNotEmpty(a);
      PartIsNotEmpty(b);
    } else {
      var k, l := KeyOf(a[0]).value, KeyOf(b[0]).value;
      PartsUnique(a[1..], b[1..]);
      KeyOfUnique(a[0], b[0]);
      if Parts(a) == Parts(b) {
        KeyOfScalar(a[0]);
        KeyOfScalar(b[0]);
        PartUnique(k, l, Parts(a[1..]).value, Parts(b[1..]).value);
        assert forall i :: 1 <= i < |a| ==> a[i] == a[1..][i - 1] && b[i] == b[1..][i - 1];
      } else if AllAlike(a, b) {
        assert forall i :: 0 <= i < |a| - 1 ==> a[1..][i] == a[i + 1] && b[1..][i] == b[i + 1];
      }
    }
  }

  lemma PartIsNotEmpty(a: seq<Value>)
    requires Parts(a).Some?
    ensures Parts(a).value == "" <==> a == []
  {
  }

  /** Keys of values, single or composite, are equal exactly when the values are alike, component by component. */
  lemma KeysAreExact(a: seq<Value>, b: seq<Value>)
    requires KeyOfValues(a).Got? && KeyOfValues(b).Got?
    ensures KeyOfValues(a) == KeyOfValues(b) <==> AllAlike(a, b)
  {
    hide Parts, Alike;
    if |a| == 1 && |b| == 1 {
      KeyOfUnique(a[0], b[0]);
    } else if |a| > 1 && |b| > 1 {
      PartsUnique(a, b);
    }
  }
}
