/**
  The texts that the parser of PHP's serialize format reads, as trees: it reads every text of a tree as the value of
  the tree, and no other text.
 */
module PhpGrammar {
  import opened Common
  import opened Numerals
  import opened Php
  import opened PhpRoundTrip

  /** A text as it is written: a number and a length keep their digits. */
  datatype Tree =
    | NilT | BoolT(b: bool) | IntT(digits: string) | StrT(length: string, s: string)
    | ArrT(length: string, entries: seq<TreePair>)

  datatype TreePair = TreePair(key: Tree, val: Tree)

  /** The text of a tree, followed by k. */
  function Text(t: Tree, k: string): string {
    match t
    case NilT => "N;" + k
    case BoolT(b) => "b:" + ((if b then "1" else "0") + (";" + k))
    case IntT(d) => "i:" + (d + (";" + k))
    case StrT(l, s) => "s:" + (l + (":\"" + (s + ("\";" + k))))
    case ArrT(l, es) => "a:" + (l + (":{" + PairsText(es, "}" + k)))
  }

  function PairsText(es: seq<TreePair>, k: string): string {
    if es == [] then k else PairText(es[0], PairsText(es[1..], k))
  }

  function PairText(e: TreePair, k: string): string { Text(e.key, Text(e.val, k)) }

  /** Numbers are 64-bit decimals, lengths are true, and keys are numbers or strings. */
  predicate Proper(t: Tree) {
    match t
    case IntT(d) => ParseInt(d).Some?
    case StrT(l, s) => ParseInt(l) == Some(|s|)
    case ArrT(l, es) => ParseInt(l) == Some(|es|) && forall i :: 0 <= i < |es| ==> ProperPair(es[i])
    case _ => true
  }

  predicate ProperPair(e: TreePair) { (e.key.IntT? || e.key.StrT?) && Proper(e.key) && Proper(e.val) }

  /** The value of a tree: an array is a list when its keys are the numbers 0, 1, 2, ... */
  function Denoted(t: Tree): PVal
    requires Proper(t)
  {
    match t
    case NilT => Nil
    case BoolT(b) => Bool(b)
    case IntT(d) => Num(ParseInt(d).value)
    case StrT(_, s) => Str(s)
    case ArrT(_, es) => if Listed(es, 0) then List(Vals(Denotes(es))) else Map(FromPairs(Denotes(es)))
  }

  predicate Listed(es: seq<TreePair>, at: nat) {
    forall i :: 0 <= i < |es| ==> es[i].key.IntT? && ParseInt(es[i].key.digits) == Some(at + i)
  }

  /** The entries of an array in the order of the text. */
  function Denotes(es: seq<TreePair>): (r: seq<Pair>)
    requires forall i :: 0 <= i < |es| ==> ProperPair(es[i])
    ensures |r| == |es|
  {
    if es == [] then [] else [DenotedPair(es[0])] + Denotes(es[1..])
  }

  function DenotedPair(e: TreePair): Pair
    requires ProperPair(e)
  {
    assert Proper(e.key);
    Pair(if e.key.IntT? then Signed(ParseInt(e.key.digits).value) else e.key.s, Denoted(e.val))
  }

  // ------------------------------------------------------------------------------------- every text of a tree is read

  lemma NoSeparator(d: string)
    requires ParseInt(d).Some?
    ensures ';' !in d && ':' !in d
  {
    var rest := if d[0] == '+' || d[0] == '-' then d[1..] else d;
    assert forall i :: 0 <= i < |rest| ==> IsDigit(rest[i]);
    assert forall i :: 1 <= i < |d| ==> rest == d || d[i] == rest[i - 1];
  }

  lemma ReadIntText(d: string, k: string)
    requires ParseInt(d).Some?
    ensures ReadValue(Text(IntT(d), k)) == Ok(Num(ParseInt(d).value), k)
  {
    hide ParseInt;
    var s := Text(IntT(d), k);
    NoSeparator(d);
    assert s[1..] == ":" + (d + (";" + k));
    assert s[1..][1..] == d + (";" + k);
    UntilFirst(d, ';', k);
  }

  lemma ReadLengthText(l: string, k: string)
    requires ParseInt(l).Some? && ParseInt(l).value >= 0
    ensures Length(":" + (l + (":" + k))) == Ok(ParseInt(l).value, k)
  {
    hide ParseInt;
    var s := ":" + (l + (":" + k));
    NoSeparator(l);
    assert s[1..] == l + (":" + k);
    UntilFirst(l, ':', k);
  }

  lemma ReadStrText(l: string, t: string, k: string)
    requires ParseInt(l) == Some(|t|)
    ensures ReadValue(Text(StrT(l, t), k)) == Ok(Str(t), k)
  {
    hide ParseInt, Length;
    var s := Text(StrT(l, t), k);
    var tail := "\"" + (t + ("\";" + k));
    assert s[1..] == ":" + (l + (":" + tail));
    ReadLengthText(l, tail);
    var a := t + ("\";" + k);
    assert tail[1..] == a && a[..|t|] == t && a[|t|..] == "\";" + k;
    assert ("\";" + k)[1..] == ";" + k && (";" + k)[1..] == k;
  }

  lemma ReadArrayText(l: string, n: nat, body: string, es: Array, k: string)
    requires ParseInt(l) == Some(n) && Entries(body, n, 0) == Ok(es, "}" + k)
    ensures ReadValue("a:" + (l + (":{" + body))) == Ok(ArrayValue(es), k)
  {
    hide ParseInt, Length, Entries, ArrayValue;
    var s := "a:" + (l + (":{" + body));
    var tail := "{" + body;
    assert s[1..] == ":" + (l + (":" + tail));
    ReadLengthText(l, tail);
    assert tail[1..] == body;
    assert ("}" + k)[1..] == k;
  }

  lemma ReadBoolText(b: bool, k: string)
    ensures ReadValue(Text(BoolT(b), k)) == Ok(Bool(b), k)
  {
    ReadBool(b, k);
    assert Text(BoolT(b), k) == (if b then "b:1;" else "b:0;") + k;
  }

  /** The text of a proper tree is read as the value of the tree, and leaves what follows it. */
  lemma {:induction false} TreeIsRead(t: Tree, k: string)
    requires Proper(t)
    ensures ReadValue(Text(t, k)) == Ok(Denoted(t), k)
    decreases t
  {
    hide Entries, FromPairs, Vals, ParseInt, PairsText, Denotes, Listed;
    match t {
      case NilT => assert ("N;" + k)[1..] == ";" + k && (";" + k)[1..] == k;
      case BoolT(b) => ReadBoolText(b, k);
      case IntT(d) => ReadIntText(d, k);
      case StrT(l, s) => ReadStrText(l, s, k);
      case ArrT(l, es) =>
        PairsAreRead(es, 0, "}" + k);
        ReadArrayText(l, |es|, PairsText(es, "}" + k), Array(Denotes(es), Listed(es, 0)), k);
    }
  }

  lemma {:induction false} PairsAreRead(es: seq<TreePair>, at: nat, k: string)
    requires forall i :: 0 <= i < |es| ==> ProperPair(es[i])
    ensures Entries(PairsText(es, k), |es|, at) == Ok(Array(Denotes(es), Listed(es, at)), k)
    decreases es
  {
    hide ReadValue, Text, Denoted, ParseInt, ProperPair, Signed, DenotedPair, Listed;
    if es == [] {
      NoneListed(at);
    } else {
      var rest := PairsText(es[1..], k);
      PairIsRead(es[0], rest);
      PairsAreRead(es[1..], at + 1, k);
      ListedFirst(es, at);
    }
  }

  lemma NoneListed(at: nat)
    ensures Listed([], at)
  {
  }

  lemma ListedFirst(es: seq<TreePair>, at: nat)
    requires es != []
    ensures Listed(es, at) <==>
              es[0].key.IntT? && ParseInt(es[0].key.digits) == Some(at) && Listed(es[1..], at + 1)
  {
    hide ParseInt;
    var rest := es[1..];
    if Listed(es, at) {
      assert ParseInt(es[0].key.digits) == Some(at + 0);
      forall i | 0 <= i < |rest| ensures rest[i].key.IntT? && ParseInt(rest[i].key.digits) == Some(at + 1 + i) {
        assert rest[i] == es[i + 1] && at + 1 + i == at + (i + 1);
      }
    }
    if es[0].key.IntT? && ParseInt(es[0].key.digits) == Some(at) && Listed(rest, at + 1) {
      forall i | 0 <= i < |es| ensures es[i].key.IntT? && ParseInt(es[i].key.digits) == Some(at + i) {
        if i > 0 { assert es[i] == rest[i - 1] && at + 1 + (i - 1) == at + i; }
      }
    }
  }

  lemma {:induction false} PairIsRead(e: TreePair, rest: string)
    requires ProperPair(e)
    ensures var key := ReadValue(PairText(e, rest));
            && key == Ok(Denoted(e.key), Text(e.val, rest)) && (key.value.Num? || key.value.Str?)
            && DenotedPair(e).key == (if key.value.Num? then Signed(key.value.i) else key.value.s)
            && (key.value.Num? <==> e.key.IntT?)
            && (e.key.IntT? ==> ParseInt(e.key.digits) == Some(key.value.i))
    ensures ReadValue(Text(e.val, rest)) == Ok(DenotedPair(e).val, rest)
    decreases e
  {
    hide ReadValue, ParseInt, Signed, Entries, PairsText;
    TreeIsRead(e.key, Text(e.val, rest));
    TreeIsRead(e.val, rest);
  }

  // ------------------------------------------------------------------------------------- no other text is read

  lemma {:induction false} UntilSplits(s: string, c: char)
    requires Until(s, c).Ok?
    ensures s == Until(s, c).value + ([c] + Until(s, c).rest)
    decreases |s|
  {
    if s[0] != c {
      UntilSplits(s[1..], c);
      var r := Until(s[1..], c);
      assert s == [s[0]] + s[1..];
      assert [s[0]] + (r.value + ([c] + r.rest)) == ([s[0]] + r.value) + ([c] + r.rest);
    } else {
      assert s == "" + ([s[0]] + s[1..]);
    }
  }

  lemma ScalarSplits(s: string, x: char)
    requires s != "" && s[0] == x && Scalar(s[1..]).Ok?
    ensures s == [x, ':'] + (Scalar(s[1..]).value + (";" + Scalar(s[1..]).rest))
  {
    hide Until;
    var t := s[1..];
    UntilSplits(t[1..], ';');
    assert s == [x, ':'] + t[1..];
  }

  lemma LengthSplits(s: string) returns (l: string)
    requires Length(s).Ok?
    ensures ParseInt(l) == Some(Length(s).value) && s == ":" + (l + (":" + Length(s).rest))
  {
    hide Until, ParseInt;
    UntilSplits(s[1..], ':');
    l := Until(s[1..], ':').value;
    assert s == ":" + s[1..];
  }

  lemma ExpectSplits(s: string, c: char)
    requires Expect(s, c).Some?
    ensures s == [c] + Expect(s, c).value
  {
  }

  lemma StrPieces(s: string) returns (l: string, text: string)
    requires ParseStr(s).Ok?
    ensures ParseInt(l) == Some(|text|) && ParseStr(s).value == Str(text)
    ensures s == ":" + (l + (":" + ("\"" + (text + ("\"" + (";" + ParseStr(s).rest))))))
  {
    hide Length, ParseInt, Expect;
    var n := Length(s);
    l := LengthSplits(s);
    var a := Expect(n.rest, '"').value;
    ExpectSplits(n.rest, '"');
    text := a[..n.value];
    var b := a[n.value..];
    assert a == text + b;
    ExpectSplits(b, '"');
    ExpectSplits(Expect(b, '"').value, ';');
  }

  lemma StrSplits(s: string) returns (t: Tree)
    requires s != "" && s[0] == 's' && ParseStr(s[1..]).Ok?
    ensures t.StrT? && Proper(t) && s == Text(t, ParseStr(s[1..]).rest) && Denoted(t) == ParseStr(s[1..]).value
  {
    hide ParseStr, ParseInt, Text;
    var l, text := StrPieces(s[1..]);
    t := StrT(l, text);
    StrTogether(l, text, ParseStr(s[1..]).rest);
    assert s == "s" + s[1..];
  }

  lemma StrTogether(l: string, t: string, k: string)
    ensures Text(StrT(l, t), k) == "s" + (":" + (l + (":" + ("\"" + (t + ("\"" + (";" + k)))))))
  {
    assert "\"" + (";" + k) == "\";" + k;
    var tail := t + ("\";" + k);
    assert ":" + ("\"" + tail) == ":\"" + tail;
    var all := l + (":\"" + tail);
    assert "s" + (":" + all) == "s:" + all;
  }

  /** A text that is read is the text of a proper tree with what is left of it, and the value is the tree's. */
  lemma {:induction false} ReadHasTree(s: string) returns (t: Tree)
    requires ReadValue(s).Ok?
    ensures Proper(t) && s == Text(t, ReadValue(s).rest) && Denoted(t) == ReadValue(s).value
    ensures ReadValue(s).value.Num? ==> t.IntT?
    ensures ReadValue(s).value.Str? ==> t.StrT?
    decreases |s|, 1
  {
    hide Entries, FromPairs, Vals, ParseInt, Scalar, Length, ParseStr;
    match s[0]
    case 'N' =>
      t := NilT;
      assert s == "N" + (";" + ReadValue(s).rest) == "N;" + ReadValue(s).rest;
    case 'b' =>
      ScalarSplits(s, 'b');
      t := BoolT(Scalar(s[1..]).value == "1");
    case 'i' =>
      ScalarSplits(s, 'i');
      t := IntT(Scalar(s[1..]).value);
    case 's' => t := StrSplits(s);
    case 'a' => t := ArrayHasTree(s);
    case _ => t := NilT;
  }

  lemma {:induction false} ArrayHasTree(s: string) returns (t: Tree)
    requires s != "" && s[0] == 'a' && ReadValue(s).Ok?
    ensures t.ArrT? && Proper(t) && s == Text(t, ReadValue(s).rest) && Denoted(t) == ReadValue(s).value
    decreases |s|, 0
  {
    hide Entries, FromPairs, Vals, ParseInt, Length, Denotes, Listed, PairsText;
    var n := Length(s[1..]);
    var l := LengthSplits(s[1..]);
    var body := n.rest[1..];
    var es := Entries(body, n.value, 0);
    var trees := EntriesHaveTrees(body, n.value, 0);
    t := ArrT(l, trees);
    var k := es.rest[1..];
    assert es.rest == "}" + k && n.rest == "{" + body;
    assert ":" + n.rest == ":{" + body;
    assert s == "a" + s[1..] && "a" + (":" + (l + (":" + n.rest))) == "a:" + (l + (":" + n.rest));
  }

  lemma {:induction false} EntriesHaveTrees(s: string, n: nat, at: nat) returns (es: seq<TreePair>)
    requires Entries(s, n, at).Ok?
    ensures |es| == n && forall i :: 0 <= i < |es| ==> ProperPair(es[i])
    ensures s == PairsText(es, Entries(s, n, at).rest)
    ensures Entries(s, n, at).value == Array(Denotes(es), Listed(es, at))
    decreases |s|, 2
  {
    hide ReadValue, ParseInt, Signed, Text, Listed;
    es := [];
    if n == 0 {
      NoneListed(at);
    } else {
      var k := ReadValue(s);
      var key := ReadHasTree(s);
      var v := ReadValue(k.rest);
      var val := ReadHasTree(k.rest);
      var more := EntriesHaveTrees(v.rest, n - 1, at + 1);
      es := [TreePair(key, val)] + more;
      assert es[1..] == more;
      ListedFirst(es, at);
    }
  }

  /** A whole text is read exactly when it is the text of a proper tree. */
  lemma ReadsExactlyTrees(s: string)
    ensures Unserialize(s).Ok? <==> exists t :: Proper(t) && s == Text(t, "")
    ensures forall t :: Proper(t) && s == Text(t, "") ==> Unserialize(s) == Ok(Denoted(t), "")
  {
    hide ReadValue, Text, Proper, Denoted;
    if Unserialize(s).Ok? {
      var t := ReadHasTree(s);
      assert Proper(t) && s == Text(t, "");
    }
    forall t | Proper(t) && s == Text(t, "") ensures Unserialize(s) == Ok(Denoted(t), "") { TreeIsRead(t, ""); }
  }
}
