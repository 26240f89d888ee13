/**
  Normalizing a value, which is writing and reading it, twice.  The first pass rewrites keys, drops entries whose keys
  have become equal, and sorts; the second can then find a list where the first found a map.
 */
module PhpTwice {
  import opened Common
  import opened Numerals
  import opened Php
  import opened PhpRoundTrip
  import opened PhpNormal

  /** No later entry has the same key once both are written as numbers. */
  predicate Survives(es: seq<Pair>, i: nat)
    requires i < |es|
  {
    forall j :: i < j < |es| ==> Canon(es[j].key) != Canon(es[i].key)
  }

  function KeySet(es: seq<Pair>): set<string> { set i | 0 <= i < |es| :: Canon(es[i].key) }

  /** The keys 0, 1, ..., n - 1, which are in byte order only as long as each is one digit. */
  function FirstDigits(a: nat, n: nat): set<string>
    requires n <= 10
  {
    set d: nat | a <= d < n :: [Digit(d)]
  }

  /** A map whose keys are the first numbers, but not in the order in which the map is written. */
  predicate Relists(es: seq<Pair>) {
    !Counts(es, 0) && exists n :: 0 <= n <= 10 && KeySet(es) == FirstDigits(0, n)
  }

  /** No map that a first pass keeps would become a list on the second. */
  predicate Stable(v: PVal) {
    match v
    case List(items) => forall i :: 0 <= i < |items| ==> Stable(items[i])
    case Map(entries) =>
      !Relists(entries) && forall i :: 0 <= i < |entries| && Survives(entries, i) ==> Stable(entries[i].val)
    case _ => true
  }

  // ------------------------------------------------------------------------------------- storing entries

  lemma {:induction false} LessIsTotal(a: string, b: string)
    requires a != b
    ensures Less(a, b) || Less(b, a)
    decreases |a|
  {
    if a != [] && b != [] && a[0] == b[0] {
      assert a == [a[0]] + a[1..] && b == [b[0]] + b[1..];
      LessIsTotal(a[1..], b[1..]);
    }
  }

  lemma SortedTail(es: seq<Pair>)
    requires Sorted(es) && es != []
    ensures Sorted(es[1..]) && forall e :: e in es[1..] ==> Less(es[0].key, e.key) && e.key != es[0].key
  {
    hide Less;
    LessIsStrict(es[0].key);
  }

  lemma SortedCons(p: Pair, es: seq<Pair>)
    requires Sorted(es) && forall e :: e in es ==> Less(p.key, e.key)
    ensures Sorted([p] + es)
  {
    hide Less;
  }

  lemma SortedShort(es: seq<Pair>)
    requires |es| <= 1
    ensures Sorted(es)
  {
  }

  /** Storing an entry keeps the order, and replaces the entry of its key. */
  lemma {:induction false} StoredIn(es: seq<Pair>, q: Pair)
    requires Sorted(es)
    ensures Sorted(Stored(es, q)) && |Stored(es, q)| <= |es| + 1
    ensures forall p :: p in Stored(es, q) <==> p == q || (p in es && p.key != q.key)
    decreases |es|
  {
    hide Less, Sorted;
    if es == [] {
      SortedShort([q]);
    } else {
      SortedTail(es);
      assert es == [es[0]] + es[1..];
      if es[0].key == q.key {
        SortedCons(q, es[1..]);
      } else if Less(q.key, es[0].key) {
        forall e | e in es ensures Less(q.key, e.key) && e.key != q.key {
          if e != es[0] { LessIsTransitive(q.key, es[0].key, e.key); }
          LessIsStrict(q.key);
        }
        SortedCons(q, es);
      } else {
        LessIsTotal(q.key, es[0].key);
        StoredIn(es[1..], q);
        SortedCons(es[0], Stored(es[1..], q));
      }
    }
  }

  /** No later entry has the same key. */
  predicate Last(ps: seq<Pair>, j: nat)
    requires j < |ps|
  {
    forall m :: j < m < |ps| ==> ps[m].key != ps[j].key
  }

  lemma {:induction false} FromIn(ps: seq<Pair>, p: Pair)
    ensures Sorted(FromPairs(ps)) && |FromPairs(ps)| <= |ps|
    ensures p in FromPairs(ps) <==> exists j :: 0 <= j < |ps| && ps[j] == p && Last(ps, j)
    decreases |ps|
  {
    hide Sorted, Stored;
    if ps == [] {
      SortedShort([]);
    } else {
      var n := |ps| - 1;
      var init := ps[..n];
      FromIn(init, p);
      StoredIn(FromPairs(init), ps[n]);
      if p == ps[n] {
        assert Last(ps, n);
      } else if p in FromPairs(init) && p.key != ps[n].key {
        var j :| 0 <= j < |init| && init[j] == p && Last(init, j);
        assert Last(ps, j);
      }
      if j :| 0 <= j < |ps| && ps[j] == p && Last(ps, j) {
        if j < n { assert init[j] == p && Last(init, j); }
      }
    }
  }

  // ------------------------------------------------------------------------------------- what the first pass keeps

  lemma LastSurvives(es: seq<Pair>, j: nat)
    requires j < |es|
    ensures BackPairs(es)[j] == BackPair(es[j]) && (Last(BackPairs(es), j) <==> Survives(es, j))
  {
    hide Canon, Back, BackPairs;
    BackPairAt(es, j);
    forall m | j < m < |es| ensures BackPairs(es)[m].key == Canon(es[m].key) { BackPairAt(es, m); }
  }

  /** The entries behind the first pass are those that survive. */
  lemma KeptEntries(es: seq<Pair>, p: Pair)
    ensures Sorted(FromPairs(BackPairs(es))) && |FromPairs(BackPairs(es))| <= |es|
    ensures p in FromPairs(BackPairs(es)) <==> exists j :: 0 <= j < |es| && p == BackPair(es[j]) && Survives(es, j)
  {
    hide Sorted, FromPairs, BackPairs, BackPair, Last, Survives;
    var ps := BackPairs(es);
    FromIn(ps, p);
    forall j | 0 <= j < |es| ensures ps[j] == BackPair(es[j]) && (Last(ps, j) <==> Survives(es, j)) {
      LastSurvives(es, j);
    }
    if j :| 0 <= j < |es| && p == BackPair(es[j]) && Survives(es, j) {
      assert ps[j] == p && Last(ps, j);
    }
  }

  /** Every key has an entry that survives. */
  lemma {:induction false} SomeSurvives(es: seq<Pair>, i: nat) returns (j: nat)
    requires i < |es|
    ensures i <= j < |es| && Canon(es[j].key) == Canon(es[i].key) && Survives(es, j)
    decreases |es| - i
  {
    hide Canon;
    j := i;
    if !Survives(es, i) {
      var m :| i < m < |es| && Canon(es[m].key) == Canon(es[i].key);
      j := SomeSurvives(es, m);
    }
  }

  function Keys(es: seq<Pair>): set<string> { set i | 0 <= i < |es| :: es[i].key }

  lemma KeptKeys(es: seq<Pair>)
    ensures var ms := FromPairs(BackPairs(es)); Keys(ms) == KeySet(es) && NoPlusKeys(ms)
  {
    hide Canon, FromPairs, BackPairs, Survives, Back, PlusKey, Sorted;
    var ms := FromPairs(BackPairs(es));
    forall i | 0 <= i < |ms| ensures ms[i].key in KeySet(es) && !PlusKey(ms[i].key) {
      KeptEntries(es, ms[i]);
      assert ms[i] in ms;
      var j :| 0 <= j < |es| && ms[i] == BackPair(es[j]) && Survives(es, j);
      CanonIsNotPlus(es[j].key);
    }
    forall k | k in KeySet(es) ensures k in Keys(ms) {
      var i :| 0 <= i < |es| && k == Canon(es[i].key);
      var j := SomeSurvives(es, i);
      KeptEntries(es, BackPair(es[j]));
      var m :| 0 <= m < |ms| && ms[m] == BackPair(es[j]);
      assert ms[m].key == k;
    }
  }

  // ----------------------------------------------------------------------------------- the first numbers in byte order

  lemma OneDigitText(d: nat)
    requires d < 10
    ensures Signed(d) == [Digit(d)]
  {
  }

  lemma {:induction false} NumberedAt(es: seq<Pair>, at: nat, i: nat)
    requires Numbered(es, at) && i < |es|
    ensures es[i].key == Signed(at + i)
    decreases i
  {
    hide Signed;
    if i > 0 { NumberedAt(es[1..], at + 1, i - 1); }
  }

  lemma NumberedKeys(ms: seq<Pair>)
    requires Sorted(ms) && Numbered(ms, 0)
    ensures |ms| <= 10 && Keys(ms) == FirstDigits(0, |ms|)
  {
    hide Signed, Sorted, Numbered, Less;
    if |ms| > 10 {
      NumberedAt(ms, 0, 9);
      NumberedAt(ms, 0, 10);
      assert Less(ms[9].key, ms[10].key) by { assert Sorted(ms); SortedAt(ms, 9, 10); }
      NineBeforeTen();
    }
    forall i | 0 <= i < |ms| ensures ms[i].key == [Digit(i)] {
      NumberedAt(ms, 0, i);
      OneDigitText(i);
    }
    forall d: nat | d < |ms| ensures [Digit(d)] in Keys(ms) { assert ms[d].key == [Digit(d)]; }
  }

  lemma SortedAt(ms: seq<Pair>, i: nat, j: nat)
    requires Sorted(ms) && i < j < |ms|
    ensures Less(ms[i].key, ms[j].key)
  {
  }

  lemma NineBeforeTen()
    ensures !Less(Signed(9), Signed(10))
  {
    assert Numeral(1, 10) == "1";
    assert Numeral(10, 10) == "1" + "0" && Signed(9) == "9";
  }

  lemma DigitOrder(d: nat, a: nat)
    requires a <= d < 10
    ensures !Less([Digit(d)], [Digit(a)]) && ([Digit(d)] == [Digit(a)] ==> d == a)
  {
    assert [Digit(d)][0] == Digit(d) && [Digit(a)][0] == Digit(a);
    assert !Less([], []);
  }

  lemma {:induction false} KeysNumbered(ms: seq<Pair>, a: nat, n: nat)
    requires n <= 10 && Sorted(ms) && Keys(ms) == FirstDigits(a, n)
    ensures Numbered(ms, a)
    decreases |ms|
  {
    hide Less, Signed, Digit, Sorted;
    if ms != [] {
      assert ms[0].key in Keys(ms);
      var d: nat :| a <= d < n && ms[0].key == [Digit(d)];
      assert [Digit(a)] in FirstDigits(a, n);
      var j :| 0 <= j < |ms| && ms[j].key == [Digit(a)];
      if j > 0 { SortedAt(ms, 0, j); }
      DigitOrder(d, a);
      OneDigitText(a);
      SortedTail(ms);
      TailKeys(ms, a, n);
      KeysNumbered(ms[1..], a + 1, n);
    }
  }

  lemma TailKeys(ms: seq<Pair>, a: nat, n: nat)
    requires ms != [] && a < n <= 10 && Keys(ms) == FirstDigits(a, n) && ms[0].key == [Digit(a)]
    requires forall e :: e in ms[1..] ==> e.key != ms[0].key
    ensures Keys(ms[1..]) == FirstDigits(a + 1, n)
  {
    hide Digit;
    forall k | k in Keys(ms[1..]) ensures k in FirstDigits(a + 1, n) {
      var i :| 0 <= i < |ms| - 1 && ms[1..][i].key == k;
      assert ms[1..][i] in ms[1..] && ms[i + 1].key == k && k in Keys(ms);
      var d: nat :| a <= d < n && k == [Digit(d)];
    }
    forall d: nat | a + 1 <= d < n ensures [Digit(d)] in Keys(ms[1..]) {
      assert [Digit(d)] in FirstDigits(a, n);
      var i :| 0 <= i < |ms| && ms[i].key == [Digit(d)];
      DigitOrder(d, a);
      assert i > 0 && ms[1..][i - 1].key == [Digit(d)];
    }
  }

  /** What the first pass leaves counts exactly when the keys are the first numbers. */
  lemma KeptCounts(es: seq<Pair>)
    ensures Counts(FromPairs(BackPairs(es)), 0) <==> exists n :: 0 <= n <= 10 && KeySet(es) == FirstDigits(0, n)
  {
    hide Counts, Numbered, KeySet, Keys, FirstDigits, Sorted, FromPairs, BackPairs, PlusKey;
    var ms := FromPairs(BackPairs(es));
    KeptKeys(es);
    KeptEntries(es, Pair("", Nil));
    CountsNumbered(ms, 0);
    if Numbered(ms, 0) { NumberedKeys(ms); }
    if n :| 0 <= n <= 10 && KeySet(es) == FirstDigits(0, n) { KeysNumbered(ms, 0, n); }
  }

  // ------------------------------------------------------------------------------------- twice is once

  /** The second pass changes nothing exactly when no map that the first one keeps would become a list. */
  lemma {:induction false} TwiceIsOnce(v: PVal)
    requires WellFormed(v)
    ensures Back(Back(v)) == Back(v) <==> Stable(v)
    decreases v
  {
    hide BackItems, BackPairs, FromPairs, Vals, Sorted, Relists, Survives, Counts;
    match v {
      case List(items) =>
        forall i | 0 <= i < |items| ensures Back(Back(items[i])) == Back(items[i]) <==> Stable(items[i]) {
          TwiceIsOnce(items[i]);
        }
        forall i | 0 <= i < |items| ensures BackItems(items)[i] == Back(items[i]) { BackItemAt(items, i); }
        ItemsTwice(BackItems(items));
      case Map(entries) => EntriesTwice(entries);
      case _ =>
    }
  }

  lemma {:induction false} PairTwiceIsOnce(e: Pair)
    requires WellFormedPair(e)
    ensures Back(Back(e.val)) == Back(e.val) <==> Stable(e.val)
    decreases e
  {
    TwiceIsOnce(e.val);
  }

  lemma ItemsTwice(items: seq<PVal>)
    ensures BackItems(items) == items <==> forall i :: 0 <= i < |items| ==> Back(items[i]) == items[i]
  {
    hide Back, BackItems;
    forall i | 0 <= i < |items| ensures BackItems(items)[i] == Back(items[i]) { BackItemAt(items, i); }
  }

  lemma {:induction false} EntriesTwice(es: seq<Pair>)
    requires WellFormed(Map(es))
    ensures Back(Back(Map(es))) == Back(Map(es)) <==> Stable(Map(es))
    decreases es
  {
    hide BackItems, BackPairs, FromPairs, Vals, Sorted, Survives, Counts, Stable, Back, WellFormed, KeySet, FirstDigits;
    forall i | 0 <= i < |es| ensures Back(Back(es[i].val)) == Back(es[i].val) <==> Stable(es[i].val) {
      assert WellFormedPair(es[i]) by { PairIn(es, i); }
      PairTwiceIsOnce(es[i]);
    }
    StableMap(es);
    if Counts(es, 0) {
      CountedTwice(es);
    } else {
      KeptCounts(es);
      KeptTwice(es);
    }
  }

  lemma PairIn(es: seq<Pair>, i: nat)
    requires WellFormed(Map(es)) && i < |es|
    ensures WellFormedPair(es[i])
  {
  }

  lemma StableMap(es: seq<Pair>)
    ensures Stable(Map(es)) <==> !Relists(es) && forall i :: 0 <= i < |es| && Survives(es, i) ==> Stable(es[i].val)
  {
  }

  lemma {:induction false} CountsAt(es: seq<Pair>, at: nat, i: nat)
    requires Counts(es, at) && i < |es|
    ensures IntKey(es[i].key) == Some(at + i)
    decreases i
  {
    hide IntKey;
    if i > 0 { CountsAt(es[1..], at + 1, i - 1); }
  }

  /** A map that counts becomes a list of all its values. */
  lemma CountedTwice(es: seq<Pair>)
    requires Counts(es, 0)
    ensures Back(Back(Map(es))) == Back(Map(es)) <==>
              forall i :: 0 <= i < |es| ==> Back(Back(es[i].val)) == Back(es[i].val)
    ensures forall i :: 0 <= i < |es| ==> Survives(es, i)
  {
    hide BackItems, BackPairs, Counts, Survives, FromPairs, Vals;
    var items := Vals(BackPairs(es));
    assert Back(Map(es)) == List(items);
    assert Back(List(items)) == List(BackItems(items));
    hide Back;
    forall i | 0 <= i < |es| ensures items[i] == Back(es[i].val) && Survives(es, i) {
      BackPairAt(es, i);
      ValsAt(BackPairs(es));
      CountedSurvives(es, i);
    }
    ItemsTwice(items);
  }

  lemma CountedSurvives(es: seq<Pair>, i: nat)
    requires Counts(es, 0) && i < |es|
    ensures Survives(es, i)
  {
    hide Counts, IntKey, Signed;
    forall j | i < j < |es| ensures Canon(es[j].key) != Canon(es[i].key) {
      CountsAt(es, 0, i);
      CountsAt(es, 0, j);
      if Canon(es[j].key) == Canon(es[i].key) { SignedUnique(i, j); }
    }
  }

  /** A map that does not count becomes the map of the entries that survive. */
  lemma KeptTwice(es: seq<Pair>)
    requires !Counts(es, 0)
    ensures var ms := FromPairs(BackPairs(es));
            Back(Back(Map(es))) == Back(Map(es)) <==>
              !Counts(ms, 0) && forall i :: 0 <= i < |es| && Survives(es, i) ==>
                Back(Back(es[i].val)) == Back(es[i].val)
  {
    hide BackItems, BackPairs, FromPairs, Counts, Sorted, PlusKey, Vals, Survives, Canon, Keys, KeySet;
    var ms := FromPairs(BackPairs(es));
    assert Back(Map(es)) == Map(ms);
    KeptKeys(es);
    KeptEntries(es, Pair("", Nil));
    if !Counts(ms, 0) {
      assert Back(Map(ms)) == Map(FromPairs(BackPairs(ms)));
      SameKeys(ms);
      hide Back;
      assert BackPairs(ms) == ms <==> forall m :: 0 <= m < |ms| ==> Back(ms[m].val) == ms[m].val by {
        assert forall m :: 0 <= m < |ms| ==> (BackPairs(ms)[m] == ms[m] <==> Back(ms[m].val) == ms[m].val);
      }
      KeptValues(es);
    }
  }

  lemma KeptValues(es: seq<Pair>)
    ensures var ms := FromPairs(BackPairs(es));
            (forall m :: 0 <= m < |ms| ==> Back(ms[m].val) == ms[m].val) <==>
              forall i :: 0 <= i < |es| && Survives(es, i) ==> Back(Back(es[i].val)) == Back(es[i].val)
  {
    hide BackPairs, FromPairs, Sorted, Survives, Canon, Back;
    var ms := FromPairs(BackPairs(es));
    if forall m :: 0 <= m < |ms| ==> Back(ms[m].val) == ms[m].val {
      forall i | 0 <= i < |es| && Survives(es, i) ensures Back(Back(es[i].val)) == Back(es[i].val) {
        KeptEntries(es, BackPair(es[i]));
        var m :| 0 <= m < |ms| && ms[m] == BackPair(es[i]);
      }
    }
    if forall i :: 0 <= i < |es| && Survives(es, i) ==> Back(Back(es[i].val)) == Back(es[i].val) {
      forall m | 0 <= m < |ms| ensures Back(ms[m].val) == ms[m].val {
        KeptEntries(es, ms[m]);
        assert ms[m] in ms;
        var i :| 0 <= i < |es| && ms[m] == BackPair(es[i]) && Survives(es, i);
      }
    }
  }

  // ------------------------------------------------------------------------------------- writing the result again

  lemma CanonLength(k: string)
    requires |k| <= MOST
    ensures |Canon(k)| <= MOST
  {
    if IntKey(k).Some? {
      var i: int := IntKey(k).value;
      TwentyDigits();
      NumeralLength(if i < 0 then -i else i, 20);
    }
  }

  lemma TwentyDigits()
    ensures 0x8000_0000_0000_0000 < Pow10(20)
  {
    assert Pow10(10) == 10000000000;
    assert Pow10(20) == 10000000000 * Pow10(10);
  }

  /** What the first pass leaves can be written again. */
  lemma {:induction false} BackIsWellFormed(v: PVal)
    requires WellFormed(v)
    ensures WellFormed(Back(v))
    decreases v
  {
    hide BackItems, BackPairs, FromPairs, Vals, Sorted, Counts, Canon;
    match v {
      case List(items) =>
        forall i | 0 <= i < |items| ensures WellFormed(BackItems(items)[i]) {
          BackIsWellFormed(items[i]);
          BackItemAt(items, i);
        }
      case Map(entries) => EntriesWellFormed(entries);
      case _ =>
    }
  }

  lemma {:induction false} PairWellFormed(e: Pair)
    requires WellFormedPair(e)
    ensures WellFormedPair(BackPair(e))
    decreases e
  {
    hide Canon;
    BackIsWellFormed(e.val);
    CanonLength(e.key);
  }

  lemma {:induction false} EntriesWellFormed(es: seq<Pair>)
    requires WellFormed(Map(es))
    ensures WellFormed(Back(Map(es)))
    decreases es
  {
    hide BackPairs, FromPairs, Sorted, Counts, Canon, BackPair, WellFormedPair, Survives;
    forall i | 0 <= i < |es| ensures WellFormedPair(BackPair(es[i])) { PairWellFormed(es[i]); }
    if Counts(es, 0) {
      var ps := BackPairs(es);
      forall i | 0 <= i < |es| ensures WellFormed(Vals(ps)[i]) {
        BackPairAt(es, i);
        PairHolds(ps[i]);
      }
    } else {
      var ms := FromPairs(BackPairs(es));
      KeptEntries(es, Pair("", Nil));
      forall m | 0 <= m < |ms| ensures WellFormedPair(ms[m]) {
        KeptEntries(es, ms[m]);
        assert ms[m] in ms;
        var i :| 0 <= i < |es| && ms[m] == BackPair(es[i]) && Survives(es, i);
      }
    }
  }

  lemma PairHolds(e: Pair)
    requires WellFormedPair(e)
    ensures WellFormed(e.val)
  {
  }

  /** Normalizing twice gives what normalizing once gives exactly when the value is stable. */
  lemma NormalizingTwice(v: PVal)
    requires WellFormed(v)
    ensures Unserialize(Ser(v, "")) == Ok(Back(v), "")
    ensures Unserialize(Ser(Back(v), "")) == Ok(Back(v), "") <==> Stable(v)
  {
    hide Unserialize, Ser, Back, WellFormed, Stable;
    RoundTrip(v);
    BackIsWellFormed(v);
    RoundTrip(Back(v));
    TwiceIsOnce(v);
  }

  /** With a plus sign the second normalization can differ from the first: here a map becomes a list. */
  lemma PlusNormalizesTwice()
    ensures var v := Map([Pair("+1", Nil), Pair("0", Nil)]);
            && Back(v) == Map([Pair("0", Nil), Pair("1", Nil)])
            && Back(Back(v)) == List([Nil, Nil])
  {
    hide IntKey, Signed, FromPairs, Less;
    var a, b := Pair("+1", Nil), Pair("0", Nil);
    var c := Pair("1", Nil);
    SampleKeys();
    SampleStored(b, c);
    assert [a, b][1..] == [b] && [b][1..] == [] && [b, c][1..] == [c] && [c][1..] == [];
    assert BackPairs([]) == [];
    assert BackPairs([b]) == [b] && BackPairs([c]) == [c];
    assert BackPairs([a, b]) == [c, b] && BackPairs([b, c]) == [b, c];
    assert !Counts([a, b], 0);
    assert Counts([], 2) && Counts([c], 1) && Counts([b, c], 0);
    assert Vals([b, c]) == [Nil, Nil];
  }

  lemma SampleKeys()
    ensures Signed(0) == "0" && Signed(1) == "1"
    ensures IntKey("+1") == Some(1) && IntKey("0") == Some(0) && IntKey("1") == Some(1)
  {
    SampleNumbers();
  }

  lemma SampleStored(b: Pair, c: Pair)
    requires b.key == "0" && c.key == "1"
    ensures FromPairs([c, b]) == [b, c]
  {
    assert [c, b][..1] == [c] && [c][..0] == [];
    assert FromPairs([c]) == Stored([], c) == [c];
    assert Less("0", "1");
    assert Stored([c], b) == [b] + [c];
  }

  lemma SampleNumbers()
    ensures Signed(0) == "0" && Signed(1) == "1" && ParseInt("0") == Some(0) && ParseInt("1") == Some(1)
    ensures ParseInt("+1") == Some(1)
  {
    assert "+1"[1..] == "1";
    assert "1"[..0] == "" && "0"[..0] == "";
    assert Amount("", 10) == 0;
    DigitsOf("1");
    DigitsOf("0");
  }
}
