/** Splitting a list into chunks whose size is a power of two, and padding a list to a power of two. */
module Chunking {
  import Canonical

  predicate Pow2(n: nat) { n == 1 || (n > 1 && n % 2 == 0 && Pow2(n / 2)) }

  lemma {:induction false} NextPower(b: nat, c: nat)
    requires Pow2(b) && Pow2(c) && b < c
    ensures 2 * b <= c
  {
    if b > 1 { NextPower(b / 2, c / 2); }
  }

  lemma {:induction false} BucketFromWithin(b: nat, n: nat, c: nat)
    requires Pow2(b) && Pow2(c) && n <= c && b <= c
    ensures Pow2(Canonical.BucketFrom(b, n)) && Canonical.BucketFrom(b, n) <= c
    decreases n - b
  {
    if b < n {
      NextPower(b, c);
      assert 2 * b / 2 == b;
      BucketFromWithin(2 * b, n, c);
    }
  }

  /** A list that fits in a chunk still fits once it is padded. */
  lemma BucketWithin(n: nat, c: nat)
    requires Pow2(c) && n <= c
    ensures Pow2(Canonical.Bucket(n)) && n <= Canonical.Bucket(n) <= c
  {
    BucketFromWithin(1, n, c);
  }

  /** The largest power of two that is not above max. */
  method LargestPower(max: nat) returns (p: nat)
    requires max >= 1
    ensures Pow2(p) && p <= max < 2 * p
  {
    p := 1;
    while p * 2 <= max
      invariant Pow2(p) && p <= max
    {
      assert p * 2 / 2 == p;
      p := p * 2;
    }
  }

  /** The smallest power of two that is not below n. */
  method SmallestPower(n: nat) returns (p: nat)
    ensures p == Canonical.Bucket(n)
  {
    p := 1;
    while p < n
      invariant p >= 1 && Canonical.BucketFrom(p, n) == Canonical.Bucket(n)
      decreases n - p
    {
      p := 2 * p;
    }
  }

  function Chunks<T>(s: seq<T>, size: nat): seq<seq<T>>
    requires size > 0
  {
    if s == [] then [] else if |s| <= size then [s] else [s[..size]] + Chunks(s[size..], size)
  }

  function Concat<T>(ss: seq<seq<T>>): seq<T> { if ss == [] then [] else ss[0] + Concat(ss[1..]) }

  lemma {:induction false} ChunksOf<T>(s: seq<T>, size: nat)
    requires size > 0
    ensures Concat(Chunks(s, size)) == s
    ensures forall i :: 0 <= i < |Chunks(s, size)| ==> 1 <= |Chunks(s, size)[i]| <= size
    ensures forall i :: 0 <= i < |Chunks(s, size)| - 1 ==> |Chunks(s, size)[i]| == size
  {
    if s == [] {
    } else if |s| <= size {
      assert Concat([s]) == s + Concat([]);
    } else {
      ChunksOf(s[size..], size);
      var rest := Chunks(s[size..], size);
      assert ([s[..size]] + rest)[1..] == rest;
    }
  }

  /** The places past the last element repeat it. */
  function Padded<T>(s: seq<T>): (r: seq<T>)
    requires s != []
    ensures |r| == Canonical.Bucket(|s|)
    ensures forall i :: 0 <= i < |r| ==> r[i] == s[if i < |s| then i else |s| - 1]
  {
    seq(Canonical.Bucket(|s|), i requires 0 <= i => s[if i < |s| then i else |s| - 1])
  }

  lemma PaddedHolds<T>(s: seq<T>, x: T)
    requires s != []
    ensures x in Padded(s) <==> x in s
  {
    if x in s {
      var i :| 0 <= i < |s| && s[i] == x;
      assert Padded(s)[i] == x;
    }
  }
}
