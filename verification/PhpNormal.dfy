/** The normal form of a value, and the keys for which writing and reading does not give it. */
module PhpNormal {
  import opened Common
  import opened Numerals
  import opened Php
  import opened PhpRoundTrip

  /** The keys of the entries from `at` on are the numbers from `at` on. */
  predicate Numbered(es: seq<Pair>, at: nat) {
    es == [] || (at <= MOST && es[0].key == Signed(at) && Numbered(es[1..], at + 1))
  }

  /** The normal form: a map whose sorted keys are 0, 1, 2, ... is a list. */
  function Norm(v: PVal): PVal {
    match v
    case List(items) => List(NormItems(items))
    case Map(entries) => if Numbered(entries, 0) then List(Vals(NormPairs(entries))) else Map(NormPairs(entries))
    case _ => v
  }

  function NormItems(items: seq<PVal>): (r: seq<PVal>)
    ensures |r| == |items|
  {
    if items == [] then [] else [Norm(items[0])] + NormItems(items[1..])
  }

  function NormPairs(es: seq<Pair>): (r: seq<Pair>)
    ensures |r| == |es|
  {
    if es == [] then [] else [NormPair(es[0])] + NormPairs(es[1..])
  }

  function NormPair(e: Pair): Pair { Pair(e.key, Norm(e.val)) }

  /** A key that is read as a number although no number is written so. */
  predicate PlusKey(k: string) { IntKey(k).Some? && k[0] == '+' }

  predicate NoPlus(v: PVal) {
    match v
    case List(items) => forall i :: 0 <= i < |items| ==> NoPlus(items[i])
    case Map(entries) => forall i :: 0 <= i < |entries| ==> !PlusKey(entries[i].key) && NoPlus(entries[i].val)
    case _ => true
  }

  // ------------------------------------------------------------------------------------- keys

  /** A key that is read as a number, and has no plus sign, is the number's text. */
  lemma CanonKeeps(k: string)
    requires !PlusKey(k)
    ensures Canon(k) == k
  {
    if IntKey(k).Some? {
      if k[0] == '-' {
        DigitsOf(k[1..]);
        NumeralOfAmount(k[1..]);
        assert k == "-" + k[1..];
      } else {
        DigitsOf(k);
        NumeralOfAmount(k);
      }
    }
  }

  lemma SignedStart(i: int)
    ensures Signed(i) != "" && Signed(i)[0] != '+'
  {
    if i >= 0 { NumeralDigits(i); }
  }

  /** The text of a number is a key that is read as that number. */
  lemma SignedKey(n: nat)
    requires n <= MOST
    ensures IntKey(Signed(n)) == Some(n)
  {
    ParseSigned(n);
    NumeralDigits(n);
    NumeralStart(n);
  }

  lemma {:induction false} NumeralStart(n: nat)
    ensures |Numeral(n, 10)| > 1 ==> Numeral(n, 10)[0] != '0'
    decreases n
  {
    if n >= 10 {
      NumeralStart(n / 10);
      var s := Numeral(n / 10, 10);
      assert Numeral(n, 10) == s + [Digit(n % 10)];
      assert Numeral(n, 10)[0] == s[0];
      if |s| == 1 { OneDigit(n / 10); }
    }
  }

  lemma OneDigit(n: nat)
    requires |Numeral(n, 10)| == 1
    ensures n < 10 && Numeral(n, 10) == [Digit(n)]
  {
  }

  // ------------------------------------------------------------------------------------- maps

  lemma Asymmetric(a: string, b: string)
    requires Less(a, b)
    ensures a != b && !Less(b, a)
  {
    LessIsStrict(a);
    if Less(b, a) { LessIsTransitive(a, b, a); }
  }

  lemma {:induction false} StoredLast(es: seq<Pair>, p: Pair)
    requires forall i :: 0 <= i < |es| ==> Less(es[i].key, p.key)
    ensures Stored(es, p) == es + [p]
    decreases |es|
  {
    hide Less;
    if es != [] {
      Asymmetric(es[0].key, p.key);
      StoredLast(es[1..], p);
    }
  }

  /** Entries that are already in order make a map of themselves. */
  lemma {:induction false} FromSorted(ps: seq<Pair>)
    requires Sorted(ps)
    ensures FromPairs(ps) == ps
    decreases |ps|
  {
    hide Less, Stored;
    if ps != [] {
      var n := |ps| - 1;
      FromSorted(ps[..n]);
      StoredLast(ps[..n], ps[n]);
      assert ps == ps[..n] + [ps[n]];
    }
  }

  predicate HasKey(es: seq<Pair>, k: string) {
    exists i :: 0 <= i < |es| && es[i].key == k
  }

  lemma {:induction false} StoredKeys(es: seq<Pair>, p: Pair, k: string)
    requires HasKey(Stored(es, p), k)
    ensures k == p.key || HasKey(es, k)
    decreases |es|
  {
    hide Less;
    var r := Stored(es, p);
    var i :| 0 <= i < |r| && r[i].key == k;
    if es == [] {
    } else if es[0].key == p.key {
      if i > 0 { assert es[i].key == k; }
    } else if Less(p.key, es[0].key) {
      if i > 0 { assert es[i - 1].key == k; }
    } else if i == 0 {
      assert es[0].key == k;
    } else {
      assert Stored(es[1..], p)[i - 1].key == k;
      StoredKeys(es[1..], p, k);
      if HasKey(es[1..], k) {
        var j :| 0 <= j < |es[1..]| && es[1..][j].key == k;
        assert es[j + 1].key == k;
      }
    }
  }

  lemma {:induction false} FromKeys(ps: seq<Pair>, k: string)
    requires HasKey(FromPairs(ps), k)
    ensures HasKey(ps, k)
    decreases |ps|
  {
    hide Stored;
    if ps != [] {
      var n := |ps| - 1;
      StoredKeys(FromPairs(ps[..n]), ps[n], k);
      if k == ps[n].key {
        assert ps[n].key == k;
      } else {
        FromKeys(ps[..n], k);
        var i :| 0 <= i < n && ps[..n][i].key == k;
        assert ps[i].key == k;
      }
    }
  }

  // ------------------------------------------------------------------------------------- entries

  lemma {:induction false} BackPairAt(es: seq<Pair>, i: nat)
    requires i < |es|
    ensures BackPairs(es)[i] == BackPair(es[i]) && NormPairs(es)[i] == NormPair(es[i])
    decreases i
  {
    hide BackPair, NormPair;
    if i > 0 { BackPairAt(es[1..], i - 1); }
  }

  lemma {:induction false} BackItemAt(items: seq<PVal>, i: nat)
    requires i < |items|
    ensures BackItems(items)[i] == Back(items[i]) && NormItems(items)[i] == Norm(items[i])
    decreases i
  {
    hide Back, Norm;
    if i > 0 { BackItemAt(items[1..], i - 1); }
  }

  predicate NoPlusKeys(es: seq<Pair>) {
    forall i :: 0 <= i < |es| ==> !PlusKey(es[i].key)
  }

  lemma {:induction false} CountsNumbered(es: seq<Pair>, at: nat)
    requires NoPlusKeys(es)
    ensures Counts(es, at) <==> Numbered(es, at)
    decreases |es|
  {
    hide PlusKey, IntKey, Signed;
    if es != [] {
      assert forall i :: 0 <= i < |es[1..]| ==> es[1..][i] == es[i + 1];
      CountsNumbered(es[1..], at + 1);
      CanonKeeps(es[0].key);
      if at <= MOST { SignedKey(at); }
    }
  }

  lemma {:induction false} NumberedHasNoPlus(es: seq<Pair>, at: nat)
    requires Numbered(es, at)
    ensures NoPlusKeys(es)
    decreases |es|
  {
    hide IntKey, Signed;
    if es != [] {
      SignedStart(at);
      NumberedHasNoPlus(es[1..], at + 1);
      assert forall i :: 1 <= i < |es| ==> es[i] == es[1..][i - 1];
    }
  }

  /** The entries keep their keys and their order. */
  lemma SameKeys(es: seq<Pair>)
    requires Sorted(es) && NoPlusKeys(es)
    ensures FromPairs(BackPairs(es)) == BackPairs(es)
    ensures forall i :: 0 <= i < |es| ==> BackPairs(es)[i] == Pair(es[i].key, Back(es[i].val))
  {
    hide Less, Canon, PlusKey, FromPairs, Back;
    forall i | 0 <= i < |es| ensures BackPairs(es)[i] == Pair(es[i].key, Back(es[i].val)) {
      BackPairAt(es, i);
      CanonKeeps(es[i].key);
    }
    FromSorted(BackPairs(es));
  }

  // ------------------------------------------------------------------------------------- exactly when

  /** A map with a plus key loses it. */
  lemma PlusIsLost(es: seq<Pair>, i: nat)
    requires i < |es| && PlusKey(es[i].key)
    ensures Back(Map(es)) != Norm(Map(es))
  {
    hide PlusKey, Canon, FromPairs, Stored, Vals, IntKey, Back, Norm;
    assert Norm(Map(es)) == Map(NormPairs(es)) by { PlusNotNumbered(es, i); }
    if Back(Map(es)) == Norm(Map(es)) {
      BackOfMap(es);
      BackPairAt(es, i);
      var k := es[i].key;
      assert NormPairs(es)[i].key == k;
      FromKeys(BackPairs(es), k);
      var j :| 0 <= j < |es| && BackPairs(es)[j].key == k;
      BackPairAt(es, j);
      CanonIsNotPlus(es[j].key);
    }
  }

  lemma BackOfMap(es: seq<Pair>)
    requires Back(Map(es)).Map?
    ensures Back(Map(es)) == Map(FromPairs(BackPairs(es)))
  {
  }

  lemma PlusNotNumbered(es: seq<Pair>, i: nat)
    requires i < |es| && PlusKey(es[i].key)
    ensures Norm(Map(es)) == Map(NormPairs(es))
  {
    hide PlusKey, NormPairs;
    if Numbered(es, 0) { NumberedHasNoPlus(es, 0); }
  }

  lemma CanonIsNotPlus(k: string)
    ensures !PlusKey(Canon(k))
  {
    if PlusKey(k) {
      SignedStart(IntKey(k).value);
    } else {
      CanonKeeps(k);
    }
  }

  /** Writing and reading gives the normal form exactly when no key is a number with a plus sign. */
  lemma {:induction false} BackIsNorm(v: PVal)
    requires WellFormed(v)
    ensures Back(v) == Norm(v) <==> NoPlus(v)
    decreases v
  {
    hide PlusKey, BackItems, BackPairs, NormItems, NormPairs, FromPairs, Vals, Sorted;
    match v {
      case List(items) =>
        forall i | 0 <= i < |items|
          ensures Back(items[i]) == Norm(items[i]) <==> NoPlus(items[i])
          ensures BackItems(items)[i] == Back(items[i]) && NormItems(items)[i] == Norm(items[i])
        {
          BackIsNorm(items[i]);
          BackItemAt(items, i);
        }
        assert BackItems(items) == NormItems(items) <==>
                 forall i :: 0 <= i < |items| ==> BackItems(items)[i] == NormItems(items)[i];
      case Map(entries) =>
        if NoPlusKeys(entries) {
          EntriesAreNorm(entries);
        } else {
          var i :| 0 <= i < |entries| && PlusKey(entries[i].key);
          PlusIsLost(entries, i);
        }
      case _ =>
    }
  }

  lemma {:induction false} EntriesAreNorm(es: seq<Pair>)
    requires Sorted(es) && NoPlusKeys(es) && forall i :: 0 <= i < |es| ==> WellFormedPair(es[i])
    ensures Back(Map(es)) == Norm(Map(es)) <==> forall i :: 0 <= i < |es| ==> NoPlus(es[i].val)
    decreases es
  {
    hide PlusKey, BackPairs, NormPairs, FromPairs, Sorted;
    SameKeys(es);
    CountsNumbered(es, 0);
    var a, b := BackPairs(es), NormPairs(es);
    forall i | 0 <= i < |es|
      ensures a[i] == b[i] <==> NoPlus(es[i].val)
      ensures a[i].val == b[i].val <==> NoPlus(es[i].val)
    {
      BackPairAt(es, i);
      PairIsNorm(es[i]);
    }
    assert Vals(a) == Vals(b) <==> forall i :: 0 <= i < |es| ==> a[i].val == b[i].val by {
      if Vals(a) == Vals(b) {
        forall i | 0 <= i < |es| ensures a[i].val == b[i].val { assert Vals(a)[i] == Vals(b)[i]; }
      }
    }
    assert a == b <==> forall i :: 0 <= i < |es| ==> a[i] == b[i];
  }

  lemma {:induction false} PairIsNorm(e: Pair)
    requires WellFormedPair(e)
    ensures Back(e.val) == Norm(e.val) <==> NoPlus(e.val)
    decreases e
  {
    BackIsNorm(e.val);
  }

  // ---------------------------------------------------------------------------------- the normal form of a normal form

  lemma {:induction false} NormPairsNumbered(es: seq<Pair>, at: nat)
    ensures Numbered(NormPairs(es), at) <==> Numbered(es, at)
    decreases |es|
  {
    hide Norm, Signed;
    if es != [] { NormPairsNumbered(es[1..], at + 1); }
  }

  /** A normal form is its own normal form, and keeps the conditions that make it one. */
  lemma {:induction false} NormTwice(v: PVal)
    requires WellFormed(v) && NoPlus(v)
    ensures Norm(Norm(v)) == Norm(v) && WellFormed(Norm(v)) && NoPlus(Norm(v))
    decreases v
  {
    hide PlusKey, NormItems, NormPairs, Less, Numbered, Vals;
    match v {
      case List(items) =>
        var ns := NormItems(items);
        forall i | 0 <= i < |items| ensures Norm(ns[i]) == ns[i] && WellFormed(ns[i]) && NoPlus(ns[i]) {
          BackItemAt(items, i);
          NormTwice(items[i]);
        }
        NormedItems(ns);
      case Map(entries) =>
        var ns := NormPairs(entries);
        forall i | 0 <= i < |entries|
          ensures ns[i].key == entries[i].key && Norm(ns[i].val) == ns[i].val
          ensures WellFormedPair(ns[i]) && NoPlus(ns[i].val)
        {
          BackPairAt(entries, i);
          PairTwice(entries[i]);
        }
        NormedPairs(ns);
        NormPairsNumbered(entries, 0);
        if Numbered(entries, 0) {
          ValsAt(ns);
          NormedItems(Vals(ns));
        }
      case _ =>
    }
  }

  lemma {:induction false} PairTwice(e: Pair)
    requires WellFormedPair(e) && NoPlus(e.val)
    ensures Norm(Norm(e.val)) == Norm(e.val) && WellFormed(Norm(e.val)) && NoPlus(Norm(e.val))
    decreases e
  {
    NormTwice(e.val);
  }

  lemma ValsAt(ps: seq<Pair>)
    ensures |Vals(ps)| == |ps| && forall i :: 0 <= i < |ps| ==> Vals(ps)[i] == ps[i].val
  {
  }

  lemma NormedItems(items: seq<PVal>)
    requires forall i :: 0 <= i < |items| ==> Norm(items[i]) == items[i]
    ensures NormItems(items) == items
  {
    hide Norm, NormItems;
    forall i | 0 <= i < |items| ensures NormItems(items)[i] == items[i] { BackItemAt(items, i); }
  }

  lemma NormedPairs(es: seq<Pair>)
    requires forall i :: 0 <= i < |es| ==> Norm(es[i].val) == es[i].val
    ensures NormPairs(es) == es
  {
    hide Norm, NormPairs;
    forall i | 0 <= i < |es| ensures NormPairs(es)[i] == es[i] { BackPairAt(es, i); }
  }

  /** Without a key that is a number with a plus sign, a value and its normal form both read back as the normal form. */
  lemma NormIsReadBack(v: PVal)
    requires WellFormed(v) && NoPlus(v)
    ensures Unserialize(Ser(v, "")) == Ok(Norm(v), "")
    ensures Unserialize(Ser(Norm(v), "")) == Ok(Norm(v), "")
  {
    hide Unserialize, Ser, Norm, Back, WellFormed, NoPlus;
    RoundTrip(v);
    BackIsNorm(v);
    NormTwice(v);
    RoundTrip(Norm(v));
    BackIsNorm(Norm(v));
  }
}
