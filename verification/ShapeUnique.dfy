/**
  The byte stream of a request determines the request: every node can be read back off the front of the stream, so two
  requests with one stream are equal.
 */
module ShapeUnique {
  import opened Common
  import opened Ir
  import opened Shape

  /** Two token lists that fit and give the same bytes. */
  ghost predicate Same(a: seq<Token>, b: seq<Token>, sum: Summer) {
    AllFit(a, sum) && AllFit(b, sum) && Stream(a, sum) == Stream(b, sum)
  }

  /**
    Different entries have different sums; entries that do not occur have no sum, which is a number that does not fit.
   */
  ghost predicate Separates(sum: Summer) {
    forall a, b :: 0 <= sum(a) < WORDS && sum(a) == sum(b) ==> a == b
  }

  // ------------------------------------------------------------------------------------- words

  function Power(n: nat): nat { if n == 0 then 1 else 256 * Power(n - 1) }

  lemma {:induction false} LowBytesUnique(u: nat, v: nat, n: nat)
    requires u < Power(n) && v < Power(n) && LowBytes(u, n) == LowBytes(v, n)
    ensures u == v
  {
    if n > 0 {
      var a, b := LowBytes(u, n), LowBytes(v, n);
      assert a[0] == u % 256 && b[0] == v % 256;
      assert a[1..] == LowBytes(u / 256, n - 1) && b[1..] == LowBytes(v / 256, n - 1);
      LowBytesUnique(u / 256, v / 256, n - 1);
    }
  }

  lemma WordsPower()
    ensures Power(8) == WORDS
  {
    assert Power(2) == 0x1_0000;
    assert Power(4) == 0x1_0000_0000;
    assert Power(6) == 0x1_0000_0000_0000;
  }

  lemma WordUnique(v: int, w: int)
    requires WordBytes(v) == WordBytes(w)
    requires (-MOST - 1 <= v <= MOST && -MOST - 1 <= w <= MOST) || (0 <= v < WORDS && 0 <= w < WORDS)
    ensures v == w
  {
    hide Power, LowBytes;
    WordsPower();
    WrapRange(v);
    WrapRange(w);
    LowBytesUnique(v % WORDS, w % WORDS, 8);
    Wrap(v);
    Wrap(w);
  }

  lemma WrapRange(v: int)
    ensures 0 <= v % WORDS < WORDS
  {
  }

  /** A signed 64-bit number, as an unsigned one. */
  lemma Wrap(v: int)
    requires -MOST - 1 <= v < WORDS
    ensures v % WORDS == if v < 0 then v + WORDS else v
  {
  }

  // ------------------------------------------------------------------------------------- one token

  lemma Uncons(t: Token, k: seq<Token>, sum: Summer)
    ensures Stream([t] + k, sum) == TokenBytes(t, sum) + Stream(k, sum)
    ensures AllFit([t] + k, sum) ==> Fits(t, sum) && AllFit(k, sum)
  {
    var ts := [t] + k;
    assert ts[0] == t && ts[1..] == k;
  }

  /** Two lists whose first tokens take equally many bytes agree on those bytes and on what follows. */
  lemma Heads(a: Token, b: Token, s: seq<Token>, t: seq<Token>, sum: Summer)
    requires Same([a] + s, [b] + t, sum) && |TokenBytes(a, sum)| == |TokenBytes(b, sum)|
    ensures Fits(a, sum) && Fits(b, sum) && TokenBytes(a, sum) == TokenBytes(b, sum) && Same(s, t, sum)
  {
    hide TokenBytes, Fits, AllFit;
    Uncons(a, s, sum);
    Uncons(b, t, sum);
    var x, y := TokenBytes(a, sum), TokenBytes(b, sum);
    var l, r := Stream([a] + s, sum), Stream([b] + t, sum);
    assert l[..|x|] == x && r[..|x|] == y;
    assert l[|x|..] == Stream(s, sum) && r[|x|..] == Stream(t, sum);
  }

  lemma ByteHead(b: int, c: int, s: seq<Token>, t: seq<Token>, sum: Summer)
    requires Same(PutByte(b, s), PutByte(c, t), sum)
    ensures b == c && Same(s, t, sum)
  {
    hide Same;
    Heads(Byte(b), Byte(c), s, t, sum);
    assert TokenBytes(Byte(b), sum)[0] == TokenBytes(Byte(c), sum)[0];
  }

  lemma WordHead(v: int, w: int, s: seq<Token>, t: seq<Token>, sum: Summer)
    requires Same(PutWord(v, s), PutWord(w, t), sum)
    ensures v == w && Same(s, t, sum)
  {
    hide Same, WordBytes;
    Heads(Word(v), Word(w), s, t, sum);
    WordUnique(v, w);
  }

  lemma CharHead(c: char, d: char, s: seq<Token>, t: seq<Token>, sum: Summer)
    requires Same([Char(c)] + s, [Char(d)] + t, sum)
    ensures c == d && Same(s, t, sum)
  {
    hide Same;
    Heads(Char(c), Char(d), s, t, sum);
    assert TokenBytes(Char(c), sum)[0] == TokenBytes(Char(d), sum)[0];
  }

  lemma DigestHead(a: seq<Entry>, b: seq<Entry>, s: seq<Token>, t: seq<Token>, sum: Summer)
    requires Separates(sum) && Same(PutDigest(a, s), PutDigest(b, t), sum)
    ensures EntryBytes(a, sum) == EntryBytes(b, sum) && Same(s, t, sum)
    ensures Fits(Digest(a), sum) && Fits(Digest(b), sum)
  {
    hide Same, WordBytes, EntryBytes, Ordered, AllFit;
    Heads(Digest(a), Digest(b), s, t, sum);
    WordUnique(sum(EntryBytes(a, sum)), sum(EntryBytes(b, sum)));
  }

  // ------------------------------------------------------------------------------------- leaves

  lemma {:induction false} CharsHead(x: string, y: string, s: seq<Token>, t: seq<Token>, sum: Summer)
    requires |x| == |y| && Same(PutChars(x, s), PutChars(y, t), sum)
    ensures x == y && Same(s, t, sum)
    decreases |x|
  {
    hide Same;
    if x != [] {
      CharHead(x[0], y[0], PutChars(x[1..], s), PutChars(y[1..], t), sum);
      CharsHead(x[1..], y[1..], s, t, sum);
      assert x == [x[0]] + x[1..] && y == [y[0]] + y[1..];
    }
  }

  lemma StrHead(x: string, y: string, s: seq<Token>, t: seq<Token>, sum: Summer)
    requires Same(PutStr(x, s), PutStr(y, t), sum)
    ensures x == y && Same(s, t, sum)
  {
    hide Same, PutChars, PutWord;
    WordHead(|x|, |y|, PutChars(x, s), PutChars(y, t), sum);
    CharsHead(x, y, s, t, sum);
  }

  lemma {:induction false} WordsHead(x: seq<int>, y: seq<int>, s: seq<Token>, t: seq<Token>, sum: Summer)
    requires |x| == |y| && Same(PutWords(x, s), PutWords(y, t), sum)
    ensures x == y && Same(s, t, sum)
    decreases |x|
  {
    hide Same;
    if x != [] {
      WordHead(x[0], y[0], PutWords(x[1..], s), PutWords(y[1..], t), sum);
      WordsHead(x[1..], y[1..], s, t, sum);
      assert x == [x[0]] + x[1..] && y == [y[0]] + y[1..];
    }
  }

  lemma {:induction false} EachHead(x: seq<string>, y: seq<string>, s: seq<Token>, t: seq<Token>, sum: Summer)
    requires |x| == |y| && Same(PutEach(x, s), PutEach(y, t), sum)
    ensures x == y && Same(s, t, sum)
    decreases |x|
  {
    hide Same, PutStr;
    if x != [] {
      StrHead(x[0], y[0], PutEach(x[1..], s), PutEach(y[1..], t), sum);
      EachHead(x[1..], y[1..], s, t, sum);
      assert x == [x[0]] + x[1..] && y == [y[0]] + y[1..];
    }
  }

  /** A byte, a word and a string can be read off the front of a stream. */
  lemma Scalars(sum: Summer)
    ensures forall b, c, s, t {:trigger Same(PutByte(b, s), PutByte(c, t), sum)} ::
              Same(PutByte(b, s), PutByte(c, t), sum) ==> b == c && Same(s, t, sum)
    ensures forall b, c, s, t {:trigger Same(PutBool(b, s), PutBool(c, t), sum)} ::
              Same(PutBool(b, s), PutBool(c, t), sum) ==> b == c && Same(s, t, sum)
    ensures forall b, c, s, t {:trigger Same(PutWord(b, s), PutWord(c, t), sum)} ::
              Same(PutWord(b, s), PutWord(c, t), sum) ==> b == c && Same(s, t, sum)
    ensures forall x, y, s, t {:trigger Same(PutStr(x, s), PutStr(y, t), sum)} ::
              Same(PutStr(x, s), PutStr(y, t), sum) ==> x == y && Same(s, t, sum)
  {
    hide Same, PutByte, PutWord, PutStr;
    forall b, c, s, t | Same(PutByte(b, s), PutByte(c, t), sum) ensures b == c && Same(s, t, sum) {
      ByteHead(b, c, s, t, sum);
    }
    forall b, c, s, t | Same(PutBool(b, s), PutBool(c, t), sum) ensures b == c && Same(s, t, sum) {
      ByteHead(if b then 1 else 0, if c then 1 else 0, s, t, sum);
    }
    forall b, c, s, t | Same(PutWord(b, s), PutWord(c, t), sum) ensures b == c && Same(s, t, sum) {
      WordHead(b, c, s, t, sum);
    }
    forall x, y, s, t | Same(PutStr(x, s), PutStr(y, t), sum) ensures x == y && Same(s, t, sum) {
      StrHead(x, y, s, t, sum);
    }
  }

  lemma OptIntHead(x: Option<int>, y: Option<int>, s: seq<Token>, t: seq<Token>, sum: Summer)
    requires Same(PutOptInt(x, s), PutOptInt(y, t), sum)
    ensures x == y && Same(s, t, sum)
  {
    hide Same, PutByte, PutWord;
    Scalars(sum);
  }

  lemma IntsHead(x: seq<int>, y: seq<int>, s: seq<Token>, t: seq<Token>, sum: Summer)
    requires Same(PutInts(x, s), PutInts(y, t), sum)
    ensures x == y && Same(s, t, sum)
  {
    hide Same, PutWord, PutWords;
    Scalars(sum);
    WordsHead(x, y, s, t, sum);
  }

  lemma StrsHead(x: seq<string>, y: seq<string>, s: seq<Token>, t: seq<Token>, sum: Summer)
    requires Same(PutStrs(x, s), PutStrs(y, t), sum)
    ensures x == y && Same(s, t, sum)
  {
    hide Same, PutWord, PutEach;
    Scalars(sum);
    EachHead(x, y, s, t, sum);
  }

  lemma FnHead(x: Option<Func>, y: Option<Func>, s: seq<Token>, t: seq<Token>, sum: Summer)
    requires Same(PutFn(x, s), PutFn(y, t), sum)
    ensures x == y && Same(s, t, sum)
  {
    hide Same, PutByte, PutStr, PutInts;
    Scalars(sum);
    if x.Some? && y.Some? {
      IntsHead(x.value.ps, y.value.ps, s, t, sum);
    }
  }

  /** Lists of numbers and strings, optional numbers and functions can be read off the front of a stream. */
  lemma Leaves(sum: Summer)
    ensures forall x, y, s, t {:trigger Same(PutOptInt(x, s), PutOptInt(y, t), sum)} ::
              Same(PutOptInt(x, s), PutOptInt(y, t), sum) ==> x == y && Same(s, t, sum)
    ensures forall x, y, s, t {:trigger Same(PutInts(x, s), PutInts(y, t), sum)} ::
              Same(PutInts(x, s), PutInts(y, t), sum) ==> x == y && Same(s, t, sum)
    ensures forall x, y, s, t {:trigger Same(PutStrs(x, s), PutStrs(y, t), sum)} ::
              Same(PutStrs(x, s), PutStrs(y, t), sum) ==> x == y && Same(s, t, sum)
    ensures forall x, y, s, t {:trigger Same(PutFn(x, s), PutFn(y, t), sum)} ::
              Same(PutFn(x, s), PutFn(y, t), sum) ==> x == y && Same(s, t, sum)
  {
    hide Same, PutOptInt, PutInts, PutStrs, PutFn;
    forall x, y, s, t | Same(PutOptInt(x, s), PutOptInt(y, t), sum) ensures x == y && Same(s, t, sum) {
      OptIntHead(x, y, s, t, sum);
    }
    forall x, y, s, t | Same(PutInts(x, s), PutInts(y, t), sum) ensures x == y && Same(s, t, sum) {
      IntsHead(x, y, s, t, sum);
    }
    forall x, y, s, t | Same(PutStrs(x, s), PutStrs(y, t), sum) ensures x == y && Same(s, t, sum) {
      StrsHead(x, y, s, t, sum);
    }
    forall x, y, s, t | Same(PutFn(x, s), PutFn(y, t), sum) ensures x == y && Same(s, t, sum) {
      FnHead(x, y, s, t, sum);
    }
  }

  // ------------------------------------------------------------------------------------- maps

  lemma {:induction false} EntryAt(es: seq<Entry>, m: seq<int>, sum: Summer) returns (i: nat)
    requires m in EntryBytes(es, sum)
    ensures i < |es| && Stream(es[i].stream, sum) == m
  {
    if m == Stream(es[0].stream, sum) {
      i := 0;
    } else {
      var j := EntryAt(es[1..], m, sum);
      i := j + 1;
    }
  }

  ghost predicate KeysReadBack(a: seq<Entry>, b: seq<Entry>, sum: Summer) {
    forall i, j :: 0 <= i < |a| && 0 <= j < |b| && Stream(a[i].stream, sum) == Stream(b[j].stream, sum) ==>
      a[i].key == b[j].key
  }

  /** The first entries of two maps with the same entries are the same: no other entry has the smallest key. */
  lemma FirstEntries(a: seq<Entry>, b: seq<Entry>, sum: Summer)
    requires a != [] && b != [] && Ordered(a) && Ordered(b) && EntryBytes(a, sum) == EntryBytes(b, sum)
    requires KeysReadBack(a, b, sum)
    ensures Stream(a[0].stream, sum) == Stream(b[0].stream, sum)
  {
    var x, y := Stream(a[0].stream, sum), Stream(b[0].stream, sum);
    assert x in EntryBytes(a, sum) && y in EntryBytes(b, sum);
    var j := EntryAt(b, x, sum);
    var i := EntryAt(a, y, sum);
    assert a[0].key == b[j].key && a[i].key == b[0].key;
    if i > 0 && j > 0 {
      assert Less(b[0].key, b[j].key) && Less(a[0].key, a[i].key);
      LessIsTransitive(a[0].key, b[0].key, a[0].key);
      LessIsStrict(a[0].key);
    }
  }

  lemma TailEntries(a: seq<Entry>, b: seq<Entry>, sum: Summer)
    requires a != [] && b != [] && Ordered(a) && Ordered(b) && KeysReadBack(a, b, sum)
    ensures Ordered(a[1..]) && Ordered(b[1..]) && KeysReadBack(a[1..], b[1..], sum)
  {
    hide Less, Stream;
  }

  lemma TailEntryBytes(a: seq<Entry>, b: seq<Entry>, sum: Summer)
    requires a != [] && b != [] && EntryBytes(a, sum) == EntryBytes(b, sum)
    requires Stream(a[0].stream, sum) == Stream(b[0].stream, sum)
    ensures EntryBytes(a[1..], sum) == EntryBytes(b[1..], sum)
  {
    hide Stream;
    var m := multiset{Stream(a[0].stream, sum)};
    assert EntryBytes(a[1..], sum) == EntryBytes(a, sum) - m;
    assert EntryBytes(b[1..], sum) == EntryBytes(b, sum) - m;
  }

  /** Two maps with the same entries in any order are the same list of entries in key order. */
  lemma {:induction false} SameEntries(a: seq<Entry>, b: seq<Entry>, sum: Summer)
    requires Ordered(a) && Ordered(b) && EntryBytes(a, sum) == EntryBytes(b, sum)
    requires KeysReadBack(a, b, sum)
    ensures |a| == |b| && forall i :: 0 <= i < |a| ==> Stream(a[i].stream, sum) == Stream(b[i].stream, sum)
    decreases |a|
  {
    hide Stream, Ordered, KeysReadBack, EntryBytes;
    assert |a| == |EntryBytes(a, sum)| == |b|;
    if a != [] {
      FirstEntries(a, b, sum);
      TailEntries(a, b, sum);
      TailEntryBytes(a, b, sum);
      SameEntries(a[1..], b[1..], sum);
      forall i | 0 <= i < |a| ensures Stream(a[i].stream, sum) == Stream(b[i].stream, sum) {
        if i > 0 { assert a[i] == a[1..][i - 1] && b[i] == b[1..][i - 1]; }
      }
    }
  }

  // ------------------------------------------------------------------------------------- nodes

  lemma {:induction false} ColFnEntry(fs: seq<ColFunc>, i: nat)
    requires i < |fs|
    ensures ColFnEntries(fs)[i] ==
              Entry(fs[i].name, PutStr(fs[i].name, PutStr(fs[i].column, PutFn(Some(fs[i].fn), []))))
  {
    hide PutStr, PutFn;
    if i > 0 { ColFnEntry(fs[1..], i - 1); }
  }

  lemma {:induction false} ColSubEntry(ss: seq<ColSub>, i: nat)
    requires i < |ss|
    ensures ColSubEntries(ss)[i] == Entry(ss[i].name, PutStr(ss[i].name, PutSub(ss[i].sub, [])))
  {
    hide PutStr, PutSub;
    if i > 0 { ColSubEntry(ss[1..], i - 1); }
  }

  lemma ColFnsUnique(x: seq<ColFunc>, y: seq<ColFunc>, sum: Summer)
    requires EntryBytes(ColFnEntries(x), sum) == EntryBytes(ColFnEntries(y), sum)
    requires Fits(Digest(ColFnEntries(x)), sum) && Fits(Digest(ColFnEntries(y)), sum)
    ensures x == y
  {
    hide Same, AllFit, Ordered, ColFnEntries, EntryBytes, Stream, PutStr, PutFn;
    var a, b := ColFnEntries(x), ColFnEntries(y);
    forall i, j | 0 <= i < |a| && 0 <= j < |b| && Stream(a[i].stream, sum) == Stream(b[j].stream, sum)
      ensures x[i] == y[j] && a[i].key == b[j].key
    {
      ColFnEntry(x, i);
      ColFnEntry(y, j);
      assert Same(a[i].stream, b[j].stream, sum) by { SameOf(a[i].stream, b[j].stream, sum); }
      Scalars(sum);
      Leaves(sum);
    }
    SameEntries(a, b, sum);
    assert forall i :: 0 <= i < |x| ==> Stream(a[i].stream, sum) == Stream(b[i].stream, sum) && x[i] == y[i];
  }

  lemma SameOf(a: seq<Token>, b: seq<Token>, sum: Summer)
    requires AllFit(a, sum) && AllFit(b, sum) && Stream(a, sum) == Stream(b, sum)
    ensures Same(a, b, sum)
  {
  }

  lemma {:induction false} SubUnique(x: Option<Sub>, y: Option<Sub>, s: seq<Token>, t: seq<Token>, sum: Summer)
    requires Separates(sum) && Same(PutSub(x, s), PutSub(y, t), sum)
    ensures x == y && Same(s, t, sum)
    decreases x
  {
    hide Same, PutByte, PutStr, PutQueryPtr;
    Scalars(sum);
    if x.Some? && y.Some? {
      QueryPtrUnique(x.value.query, y.value.query, PutStr(x.value.column, PutStr(x.value.agg, s)),
                     PutStr(y.value.column, PutStr(y.value.agg, t)), sum);
    }
  }

  lemma {:induction false} QueryPtrUnique(x: Option<Query>, y: Option<Query>, s: seq<Token>, t: seq<Token>, sum: Summer)
    requires Separates(sum) && Same(PutQueryPtr(x, s), PutQueryPtr(y, t), sum)
    ensures x == y && Same(s, t, sum)
    decreases x
  {
    hide Same, PutByte, PutQuery;
    Scalars(sum);
    if x.Some? && y.Some? {
      QueryUnique(x.value, y.value, s, t, sum);
    }
  }

  lemma {:induction false} ColSubsUnique(x: seq<ColSub>, y: seq<ColSub>, sum: Summer)
    requires Separates(sum) && EntryBytes(ColSubEntries(x), sum) == EntryBytes(ColSubEntries(y), sum)
    requires Fits(Digest(ColSubEntries(x)), sum) && Fits(Digest(ColSubEntries(y)), sum)
    ensures x == y
    decreases x
  {
    hide Same, AllFit, Ordered, ColSubEntries, EntryBytes, Stream, PutStr, PutSub;
    var a, b := ColSubEntries(x), ColSubEntries(y);
    forall i, j | 0 <= i < |a| && 0 <= j < |b| && Stream(a[i].stream, sum) == Stream(b[j].stream, sum)
      ensures x[i] == y[j] && a[i].key == b[j].key
    {
      ColSubEntry(x, i);
      ColSubEntry(y, j);
      assert Same(a[i].stream, b[j].stream, sum) by { SameOf(a[i].stream, b[j].stream, sum); }
      Scalars(sum);
      SubUnique(x[i].sub, y[j].sub, [], [], sum);
    }
    SameEntries(a, b, sum);
    assert forall i :: 0 <= i < |x| ==> Stream(a[i].stream, sum) == Stream(b[i].stream, sum) && x[i] == y[i];
  }

  lemma {:induction false} ColumnsUnique(
    x: Option<Columns>, y: Option<Columns>, s: seq<Token>, t: seq<Token>, sum: Summer)
    requires Separates(sum) && Same(PutColumns(x, s), PutColumns(y, t), sum)
    ensures x == y && Same(s, t, sum)
    decreases x
  {
    hide Same, PutByte, PutWord, PutStr, PutStrs, PutDigest, Fits, EntryBytes, ColFnEntries, ColSubEntries;
    Scalars(sum);
    Leaves(sum);
    if x.Some? && y.Some? {
      var c, d := x.value, y.value;
      var k, l := PutDigest(ColSubEntries(c.sub), s), PutDigest(ColSubEntries(d.sub), t);
      DigestHead(ColFnEntries(c.fn), ColFnEntries(d.fn), PutWord(|c.sub|, k), PutWord(|d.sub|, l), sum);
      ColFnsUnique(c.fn, d.fn, sum);
      DigestHead(ColSubEntries(c.sub), ColSubEntries(d.sub), s, t, sum);
      ColSubsUnique(c.sub, d.sub, sum);
    }
  }

  lemma {:induction false} GroupUnique(x: Option<Group>, y: Option<Group>, s: seq<Token>, t: seq<Token>, sum: Summer)
    requires Separates(sum) && Same(PutGroup(x, s), PutGroup(y, t), sum)
    ensures x == y && Same(s, t, sum)
    decreases x
  {
    hide Same, PutByte, PutWord, PutBool, PutStr, PutItems;
    Scalars(sum);
    if x.Some? && y.Some? {
      ItemsUnique(x.value.items, y.value.items, s, t, sum);
    }
  }

  lemma {:induction false} ItemsUnique(x: seq<Item>, y: seq<Item>, s: seq<Token>, t: seq<Token>, sum: Summer)
    requires Separates(sum) && |x| == |y| && Same(PutItems(x, s), PutItems(y, t), sum)
    ensures x == y && Same(s, t, sum)
    decreases x
  {
    hide Same, PutItem;
    if x != [] {
      ItemUnique(x[0], y[0], PutItems(x[1..], s), PutItems(y[1..], t), sum);
      ItemsUnique(x[1..], y[1..], s, t, sum);
      assert x == [x[0]] + x[1..] && y == [y[0]] + y[1..];
    }
  }

  lemma {:induction false} ItemUnique(x: Item, y: Item, s: seq<Token>, t: seq<Token>, sum: Summer)
    requires Separates(sum) && Same(PutItem(x, s), PutItem(y, t), sum)
    ensures x == y && Same(s, t, sum)
    decreases x
  {
    hide Same, PutByte, PutStr, PutPred, PutGroup;
    Scalars(sum);
    var k, l := PutGroup(x.group, s), PutGroup(y.group, t);
    if x.pred.Some? && y.pred.Some? {
      PredUnique(x.pred.value, y.pred.value, PutJoined(x.joined, k), PutJoined(y.joined, l), sum);
    }
    assert x.pred == y.pred && Same(PutJoined(x.joined, k), PutJoined(y.joined, l), sum);
    assert x.joined == y.joined && Same(k, l, sum);
    GroupUnique(x.group, y.group, s, t, sum);
  }

  lemma {:induction false} PredUnique(x: Pred, y: Pred, s: seq<Token>, t: seq<Token>, sum: Summer)
    requires Separates(sum) && Same(PutPred(x, s), PutPred(y, t), sum)
    ensures x == y && Same(s, t, sum)
    decreases x
  {
    hide Same, PutByte, PutStr, PutOptInt, PutInts, PutFn, PutStrs, PutSub, PutRef;
    Scalars(sum);
    Leaves(sum);
    var k, l := PutStrs(x.cols, PutSub(x.sub, s)), PutStrs(y.cols, PutSub(y.sub, t));
    RefUnique(x.ref, y.ref, PutFn(x.fn, PutFn(x.value, k)), PutFn(y.fn, PutFn(y.value, l)), sum);
    SubUnique(x.sub, y.sub, s, t, sum);
  }

  lemma RefUnique(x: Option<ColRef>, y: Option<ColRef>, s: seq<Token>, t: seq<Token>, sum: Summer)
    requires Same(PutRef(x, s), PutRef(y, t), sum)
    ensures x == y && Same(s, t, sum)
  {
    hide Same, PutByte, PutStr;
    Scalars(sum);
  }

  lemma {:induction false} JoinUnique(x: Option<Join>, y: Option<Join>, s: seq<Token>, t: seq<Token>, sum: Summer)
    requires Separates(sum) && Same(PutJoin(x, s), PutJoin(y, t), sum)
    ensures x == y && Same(s, t, sum)
    decreases x
  {
    hide Same, PutByte, PutStr, PutQueryPtr;
    Scalars(sum);
    if x.Some? && y.Some? {
      QueryPtrUnique(x.value.query, y.value.query, s, t, sum);
    }
  }

  lemma {:induction false} JoinsUnique(
    x: seq<Option<Join>>, y: seq<Option<Join>>, s: seq<Token>, t: seq<Token>, sum: Summer)
    requires Separates(sum) && |x| == |y| && Same(PutJoins(x, s), PutJoins(y, t), sum)
    ensures x == y && Same(s, t, sum)
    decreases x
  {
    hide Same, PutJoin;
    if x != [] {
      JoinUnique(x[0], y[0], PutJoins(x[1..], s), PutJoins(y[1..], t), sum);
      JoinsUnique(x[1..], y[1..], s, t, sum);
      assert x == [x[0]] + x[1..] && y == [y[0]] + y[1..];
    }
  }

  lemma {:induction false} KeysUnique(x: seq<KeyPair>, y: seq<KeyPair>, s: seq<Token>, t: seq<Token>, sum: Summer)
    requires |x| == |y| && Same(PutKeys(x, s), PutKeys(y, t), sum)
    ensures x == y && Same(s, t, sum)
    decreases |x|
  {
    hide Same, PutStr;
    if x != [] {
      Scalars(sum);
      assert Same(PutKeys(x[1..], s), PutKeys(y[1..], t), sum);
      KeysUnique(x[1..], y[1..], s, t, sum);
      assert x == [x[0]] + x[1..] && y == [y[0]] + y[1..];
    }
  }

  lemma {:induction false} RelationUnique(
    x: Option<Relation>, y: Option<Relation>, s: seq<Token>, t: seq<Token>, sum: Summer)
    requires Separates(sum) && Same(PutRelation(x, s), PutRelation(y, t), sum)
    ensures x == y && Same(s, t, sum)
    decreases x
  {
    hide Same, PutByte, PutWord, PutStr, PutKeys, PutQueryPtr;
    Scalars(sum);
    if x.Some? && y.Some? {
      var k, l := PutQueryPtr(x.value.query, s), PutQueryPtr(y.value.query, t);
      KeysUnique(x.value.keys, y.value.keys, k, l, sum);
      QueryPtrUnique(x.value.query, y.value.query, s, t, sum);
    }
  }

  lemma {:induction false} RelationsUnique(
    x: seq<Option<Relation>>, y: seq<Option<Relation>>, s: seq<Token>, t: seq<Token>, sum: Summer)
    requires Separates(sum) && |x| == |y| && Same(PutRelations(x, s), PutRelations(y, t), sum)
    ensures x == y && Same(s, t, sum)
    decreases x
  {
    hide Same, PutRelation;
    if x != [] {
      RelationUnique(x[0], y[0], PutRelations(x[1..], s), PutRelations(y[1..], t), sum);
      RelationsUnique(x[1..], y[1..], s, t, sum);
      assert x == [x[0]] + x[1..] && y == [y[0]] + y[1..];
    }
  }

  lemma {:induction false} OrdersUnique(x: seq<Order>, y: seq<Order>, s: seq<Token>, t: seq<Token>, sum: Summer)
    requires |x| == |y| && Same(PutOrders(x, s), PutOrders(y, t), sum)
    ensures x == y && Same(s, t, sum)
    decreases |x|
  {
    hide Same, PutStr, PutBool, PutFn;
    if x != [] {
      Scalars(sum);
      Leaves(sum);
      assert Same(PutOrders(x[1..], s), PutOrders(y[1..], t), sum);
      OrdersUnique(x[1..], y[1..], s, t, sum);
      assert x == [x[0]] + x[1..] && y == [y[0]] + y[1..];
    }
  }

  lemma LimitUnique(x: Option<Limit>, y: Option<Limit>, s: seq<Token>, t: seq<Token>, sum: Summer)
    requires Same(PutLimit(x, s), PutLimit(y, t), sum)
    ensures x == y && Same(s, t, sum)
  {
    hide Same, PutByte, PutWord, PutOptInt;
    Scalars(sum);
    Leaves(sum);
  }

  lemma IfParentUnique(x: Option<IfParent>, y: Option<IfParent>, s: seq<Token>, t: seq<Token>, sum: Summer)
    requires Same(PutIfParent(x, s), PutIfParent(y, t), sum)
    ensures x == y && Same(s, t, sum)
  {
    hide Same, PutByte, PutWord, PutStr;
    Scalars(sum);
  }

  lemma OptionsUnique(
    x: Options, y: Options, i: Option<IfParent>, j: Option<IfParent>, s: seq<Token>, t: seq<Token>, sum: Summer)
    requires Same(PutOptions(x, i, s), PutOptions(y, j, t), sum)
    ensures x == y && i == j && Same(s, t, sum)
  {
    hide Same, PutBool, PutWord, PutStr, PutIfParent;
    Scalars(sum);
    IfParentUnique(i, j, PutBool(x.noCascadeDelete, s), PutBool(y.noCascadeDelete, t), sum);
  }

  lemma TailUnique(x: Query, y: Query, s: seq<Token>, t: seq<Token>, sum: Summer)
    requires Same(PutTail(x, s), PutTail(y, t), sum)
    ensures x.order == y.order && x.groupBy == y.groupBy && x.limit == y.limit && x.options == y.options
    ensures x.ifParent == y.ifParent && Same(s, t, sum)
  {
    hide Same, PutWord, PutOrders, PutStrs, PutLimit, PutOptions;
    Scalars(sum);
    Leaves(sum);
    var k, l := PutOptions(x.options, x.ifParent, s), PutOptions(y.options, y.ifParent, t);
    OrdersUnique(x.order, y.order, PutStrs(x.groupBy, PutLimit(x.limit, k)), PutStrs(y.groupBy, PutLimit(y.limit, l)),
      sum);
    LimitUnique(x.limit, y.limit, k, l, sum);
    OptionsUnique(x.options, y.options, x.ifParent, y.ifParent, s, t, sum);
  }

  lemma {:induction false} QueryUnique(x: Query, y: Query, s: seq<Token>, t: seq<Token>, sum: Summer)
    requires Separates(sum) && Same(PutQuery(x, s), PutQuery(y, t), sum)
    ensures x == y && Same(s, t, sum)
    decreases x
  {
    hide Same, PutWord, PutStr, PutColumns, PutGroup, PutJoins, PutRelations, PutTail;
    Scalars(sum);
    ColumnsUnique(x.columns, y.columns, PutFilters(x, s), PutFilters(y, t), sum);
    GroupUnique(x.on, y.on, PutGroup(x.where, PutBranches(x, s)), PutGroup(y.where, PutBranches(y, t)), sum);
    GroupUnique(x.where, y.where, PutBranches(x, s), PutBranches(y, t), sum);
    var k, l := PutRelations(x.relations, PutTail(x, s)), PutRelations(y.relations, PutTail(y, t));
    JoinsUnique(x.joins, y.joins, PutWord(|x.relations|, k), PutWord(|y.relations|, l), sum);
    RelationsUnique(x.relations, y.relations, PutTail(x, s), PutTail(y, t), sum);
    TailUnique(x, y, s, t, sum);
  }

  lemma {:induction false} AssignsUnique(x: seq<Assign>, y: seq<Assign>, s: seq<Token>, t: seq<Token>, sum: Summer)
    requires |x| == |y| && Same(PutAssigns(x, s), PutAssigns(y, t), sum)
    ensures x == y && Same(s, t, sum)
    decreases |x|
  {
    hide Same, PutStr, PutBool, PutOptInt;
    if x != [] {
      Scalars(sum);
      Leaves(sum);
      assert Same(PutAssigns(x[1..], s), PutAssigns(y[1..], t), sum);
      AssignsUnique(x[1..], y[1..], s, t, sum);
      assert x == [x[0]] + x[1..] && y == [y[0]] + y[1..];
    }
  }

  lemma {:induction false} RowsUnique(x: seq<seq<int>>, y: seq<seq<int>>, s: seq<Token>, t: seq<Token>, sum: Summer)
    requires |x| == |y| && Same(PutRows(x, s), PutRows(y, t), sum)
    ensures x == y && Same(s, t, sum)
    decreases |x|
  {
    hide Same, PutInts;
    if x != [] {
      IntsHead(x[0], y[0], PutRows(x[1..], s), PutRows(y[1..], t), sum);
      RowsUnique(x[1..], y[1..], s, t, sum);
      assert x == [x[0]] + x[1..] && y == [y[0]] + y[1..];
    }
  }

  lemma OptimistUnique(x: Option<Optimist>, y: Option<Optimist>, s: seq<Token>, t: seq<Token>, sum: Summer)
    requires Same(PutOptimist(x, s), PutOptimist(y, t), sum)
    ensures x == y && Same(s, t, sum)
  {
    hide Same, PutByte, PutWord, PutStr;
    Scalars(sum);
  }

  /** The part of the stream after the assignments. */
  function AfterSets(r: Request): seq<Token> {
    PutOptimist(r.optimistic, PutStr(r.agg, PutWord(r.nParams, PutWord(|r.rows|, PutRows(r.rows, [])))))
  }

  lemma WritesUnique(x: Request, y: Request, sum: Summer)
    requires Same(PutWrites(x, []), PutWrites(y, []), sum)
    ensures x.sets == y.sets && x.onDuplicate == y.onDuplicate && x.optimistic == y.optimistic && x.agg == y.agg
    ensures x.nParams == y.nParams && x.rows == y.rows
  {
    hide Same, PutWord, PutStr, PutAssigns, PutOptimist, PutRows;
    Scalars(sum);
    var k, l := PutWord(|x.onDuplicate|, PutAssigns(x.onDuplicate, AfterSets(x))),
                PutWord(|y.onDuplicate|, PutAssigns(y.onDuplicate, AfterSets(y)));
    AssignsUnique(x.sets, y.sets, k, l, sum);
    AssignsUnique(x.onDuplicate, y.onDuplicate, AfterSets(x), AfterSets(y), sum);
    OptimistUnique(x.optimistic, y.optimistic,
                   PutStr(x.agg, PutWord(x.nParams, PutWord(|x.rows|, PutRows(x.rows, [])))),
                   PutStr(y.agg, PutWord(y.nParams, PutWord(|y.rows|, PutRows(y.rows, [])))), sum);
    RowsUnique(x.rows, y.rows, [], [], sum);
  }

  /** Two requests that fit and feed the hash the same bytes are the same request. */
  lemma StreamDeterminesRequest(x: Request, y: Request, sum: Summer)
    requires Separates(sum)
    requires AllFit(PutRequest(x, []), sum) && AllFit(PutRequest(y, []), sum)
    ensures Stream(PutRequest(x, []), sum) == Stream(PutRequest(y, []), sum) <==> x == y
  {
    hide Same, AllFit, PutWord, PutStr, PutBool, PutQuery, PutWrites;
    if Stream(PutRequest(x, []), sum) == Stream(PutRequest(y, []), sum) {
      SameOf(PutRequest(x, []), PutRequest(y, []), sum);
      Scalars(sum);
      QueryUnique(x.query, y.query, PutWrites(x, []), PutWrites(y, []), sum);
      WritesUnique(x, y, sum);
    }
  }
}
