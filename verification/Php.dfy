/**
  Values in PHP's serialize format: the text of a value, the parser, and what a value becomes on its way through both.
  `Ser(v, k)` is the text of v followed by k.
 */
module Php {
  import opened Common
  import opened Numerals

  type Int64 = x: int | -0x8000_0000_0000_0000 <= x < 0x8000_0000_0000_0000

  /** A map lists its entries in the byte order of its keys, each key once. */
  datatype PVal =
    | Nil | Bool(b: bool) | Num(i: Int64) | Str(s: string) | List(items: seq<PVal>) | Map(entries: seq<Pair>)

  datatype Pair = Pair(key: string, val: PVal)

  // ------------------------------------------------------------------------------------- numbers

  /** A signed decimal number without a bound. */
  function ParseNumber(s: string): Option<int> {
    var rest := if s != "" && (s[0] == '+' || s[0] == '-') then s[1..] else s;
    if rest == "" || !AllDigits(rest) then None
    else
      DigitsOf(rest);
      var n: int := Amount(rest, 10);
      Some(if s[0] == '-' then -n else n)
  }

  /** A number that fits in 64 bits. */
  function ParseInt(s: string): Option<Int64> {
    var n := ParseNumber(s);
    if n.Some? && -0x8000_0000_0000_0000 <= n.value < 0x8000_0000_0000_0000 then Some(n.value) else None
  }

  /** The key of an entry that is written as a number. */
  function IntKey(k: string): Option<Int64> {
    if k == "" || k == "-0" || (|k| > 1 && k[0] == '0') || (|k| > 2 && k[0] == '-' && k[1] == '0') then None
    else ParseInt(k)
  }

  // ------------------------------------------------------------------------------------- text

  function SerInt(i: Int64, k: string): string { "i:" + (Signed(i) + (";" + k)) }

  function SerStr(s: string, k: string): string { "s:" + (Numeral(|s|, 10) + (":\"" + (s + ("\";" + k)))) }

  function SerKey(key: string, k: string): string {
    if IntKey(key).Some? then SerInt(IntKey(key).value, k) else SerStr(key, k)
  }

  function SerArray(n: nat, body: string): string { "a:" + (Numeral(n, 10) + (":{" + body)) }

  function Ser(v: PVal, k: string): string {
    match v
    case Nil => "N;" + k
    case Bool(b) => (if b then "b:1;" else "b:0;") + k
    case Num(i) => SerInt(i, k)
    case Str(s) => SerStr(s, k)
    case List(items) => SerArray(|items|, SerItems(items, 0, "}" + k))
    case Map(entries) => SerArray(|entries|, SerPairs(entries, "}" + k))
  }

  /** The items numbered from `at` on. */
  function SerItems(items: seq<PVal>, at: nat, k: string): string
    decreases items
  {
    if items == [] then k else SerIndex(at, Ser(items[0], SerItems(items[1..], at + 1, k)))
  }

  function SerIndex(at: nat, k: string): string { "i:" + (Signed(at) + (";" + k)) }

  function SerPairs(es: seq<Pair>, k: string): string {
    if es == [] then k else SerPair(es[0], SerPairs(es[1..], k))
  }

  function SerPair(e: Pair, k: string): string { SerKey(e.key, Ser(e.val, k)) }

  // ------------------------------------------------------------------------------------- parser
  // The parser with exact arithmetic, on a machine where every array has room.

  datatype Error = Decode | Unsupported

  datatype Parsed<+T> = Ok(value: T, rest: string) | Bad(error: Error)

  function Expect(s: string, c: char): (r: Option<string>)
    ensures r.Some? ==> |r.value| < |s|
  {
    if s == "" || s[0] != c then None else Some(s[1..])
  }

  /** The text before the first c, and what follows it. */
  function Until(s: string, c: char): (r: Parsed<string>)
    ensures r.Ok? ==> |r.rest| < |s|
  {
    if s == "" then Bad(Decode)
    else if s[0] == c then Ok("", s[1..])
    else match Until(s[1..], c)
      case Ok(t, rest) => Ok([s[0]] + t, rest)
      case Bad(e) => Bad(e)
  }

  /** The length that follows the letter of a string or an array. */
  function Length(s: string): (r: Parsed<nat>)
    ensures r.Ok? ==> |r.rest| < |s| && r.value <= MOST
  {
    var a := Expect(s, ':');
    if a.None? then Bad(Decode) else
    var t := Until(a.value, ':');
    if t.Bad? then Bad(Decode) else
    var n := ParseInt(t.value);
    if n.None? || n.value < 0 then Bad(Decode) else Ok(n.value, t.rest)
  }

  /** The text up to the semicolon of a scalar. */
  function Scalar(s: string): (r: Parsed<string>)
    ensures r.Ok? ==> |r.rest| < |s|
  {
    var a := Expect(s, ':');
    if a.None? then Bad(Decode) else Until(a.value, ';')
  }

  function ParseStr(s: string): (r: Parsed<PVal>)
    ensures r.Ok? ==> |r.rest| < |s|
    ensures r.Bad? ==> r.error == Decode
  {
    var n := Length(s);
    if n.Bad? then Bad(Decode) else
    var a := Expect(n.rest, '"');
    if a.None? || n.value > |a.value| then Bad(Decode) else
    var b := Expect(a.value[n.value..], '"');
    if b.None? then Bad(Decode) else
    var c := Expect(b.value, ';');
    if c.None? then Bad(Decode) else Ok(Str(a.value[..n.value]), c.value)
  }

  /** The entries of an array in the order of the text; `isList` when the keys are the numbers 0, 1, 2, ... */
  datatype Array = Array(pairs: seq<Pair>, isList: bool)

  function ReadValue(s: string): (r: Parsed<PVal>)
    ensures r.Ok? ==> |r.rest| < |s|
    decreases |s|, 0
  {
    if s == "" then Bad(Decode)
    else
      var t := s[1..];
      match s[0]
      case 'N' => var a := Expect(t, ';'); if a.None? then Bad(Decode) else Ok(Nil, a.value)
      case 'b' =>
        var x := Scalar(t);
        if x.Bad? then Bad(Decode)
        else if x.value == "0" then Ok(Bool(false), x.rest)
        else if x.value == "1" then Ok(Bool(true), x.rest)
        else Bad(Decode)
      case 'i' =>
        var x := Scalar(t);
        if x.Bad? || ParseInt(x.value).None? then Bad(Decode) else Ok(Num(ParseInt(x.value).value), x.rest)
      case 's' => ParseStr(t)
      case 'a' =>
        var n := Length(t);
        if n.Bad? then Bad(Decode) else
        var a := Expect(n.rest, '{');
        if a.None? then Bad(Decode) else
        var es := Entries(a.value, n.value, 0);
        if es.Bad? then Bad(es.error) else
        var b := Expect(es.rest, '}');
        if b.None? then Bad(Decode) else Ok(ArrayValue(es.value), b.value)
      case _ => Bad(if s[0] in "OCrR" then Unsupported else Decode)
  }

  function Entries(s: string, n: nat, at: nat): (r: Parsed<Array>)
    ensures r.Ok? ==> |r.rest| <= |s|
    decreases |s|, 1
  {
    if n == 0 then Ok(Array([], true), s) else
    var k := ReadValue(s);
    if k.Bad? then Bad(k.error)
    else if !k.value.Num? && !k.value.Str? then Bad(Decode)
    else
      var v := ReadValue(k.rest);
      if v.Bad? then Bad(v.error) else
      var more := Entries(v.rest, n - 1, at + 1);
      if more.Bad? then more
      else
        var key := if k.value.Num? then Signed(k.value.i) else k.value.s;
        Ok(Array([Pair(key, v.value)] + more.value.pairs, k.value.Num? && k.value.i == at && more.value.isList),
          more.rest)
  }

  function ArrayValue(a: Array): PVal {
    if a.isList then List(Vals(a.pairs)) else Map(FromPairs(a.pairs))
  }

  function Vals(ps: seq<Pair>): (r: seq<PVal>)
    ensures |r| == |ps|
  {
    seq(|ps|, i requires 0 <= i < |ps| => ps[i].val)
  }

  /** The map that the pairs make when they are stored one after the other. */
  function FromPairs(ps: seq<Pair>): seq<Pair> {
    if ps == [] then [] else Stored(FromPairs(ps[..|ps| - 1]), ps[|ps| - 1])
  }

  function Stored(es: seq<Pair>, p: Pair): seq<Pair> {
    if es == [] then [p]
    else if es[0].key == p.key then [p] + es[1..]
    else if Less(p.key, es[0].key) then [p] + es
    else [es[0]] + Stored(es[1..], p)
  }

  function Unserialize(s: string): Parsed<PVal> {
    var r := ReadValue(s);
    if r.Bad? then r else if r.rest != "" then Bad(Decode) else r
  }
}
