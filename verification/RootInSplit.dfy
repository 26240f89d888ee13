/** The methods that split a root IN list and merge the parts, and what the merged result is. */
module RootInSplit {
  import opened Common
  import opened Ir
  import opened Keys
  import opened Chunking
  import opened RootIn
  import RelationLoader
  import M = IrMeaning

  // ------------------------------------------------------------------------------------- the list to split

  function Items(q: Query): seq<Item> { if q.where.None? then [] else q.where.value.items }

  /** The longest list, the first of those that are equally long. */
  predicate Longest(items: seq<Item>, t: nat) {
    && t < |items| && IsList(items[t])
    && (forall i :: 0 <= i < |items| && IsList(items[i]) ==> |items[i].pred.value.ps| <= |items[t].pred.value.ps|)
    && (forall i :: 0 <= i < t && IsList(items[i]) ==> |items[i].pred.value.ps| < |items[t].pred.value.ps|)
  }

  method RootInTarget(q: Query) returns (target: Option<nat>)
    ensures target.Some? ==> Longest(Items(q), target.value)
    ensures target.None? <==> forall i :: 0 <= i < |Items(q)| ==> !IsList(Items(q)[i])
  {
    if q.where.None? { return None; }
    target := None;
    var items := q.where.value.items;
    for i := 0 to |items|
      invariant target.Some? ==> target.value < i && Longest(items[..i], target.value)
      invariant target.None? <==> forall n :: 0 <= n < i ==> !IsList(items[n])
    {
      if IsList(items[i]) && (target.None? || |items[i].pred.value.ps| > |items[target.value].pred.value.ps|) {
        target := Some(i);
      }
    }
    assert items[..|items|] == items;
  }

  // ------------------------------------------------------------------------------------- the distinct values

  /** The places whose values have keys not in `seen`, one place for each key; None when a value has no key. */
  function Uniques(ps: seq<int>, params: seq<Value>, seen: set<Key>): Option<seq<int>> {
    if ps == [] then Some([])
    else
      var k := KeyOf(M.V(params, ps[0]));
      if !k.Got? then None
      else if k.value in seen then Uniques(ps[1..], params, seen)
      else match Uniques(ps[1..], params, seen + {k.value})
        case None => None
        case Some(us) => Some([ps[0]] + us)
  }

  ghost predicate Unlike(params: seq<Value>, us: seq<int>) {
    forall i, j :: 0 <= i < j < |us| ==> !Alike(M.V(params, us[i]), M.V(params, us[j]))
  }

  lemma SymmetricAlike(a: Value, b: Value, c: Value)
    ensures Alike(a, b) <==> Alike(b, a)
    ensures Alike(a, b) && Alike(b, c) ==> Alike(a, c)
  {
  }

  lemma {:induction false} UniquesCover(ps: seq<int>, params: seq<Value>, seen: set<Key>, us: seq<int>)
    requires Uniques(ps, params, seen) == Some(us)
    ensures forall n :: 0 <= n < |us| ==> KeyOf(M.V(params, us[n])).Got? && KeyOf(M.V(params, us[n])).value !in seen
    ensures Unlike(params, us)
    ensures forall x :: Holds(params, us, x) ==> Holds(params, ps, x)
    ensures forall n :: 0 <= n < |ps| ==>
              KeyOf(M.V(params, ps[n])).Got? &&
                (KeyOf(M.V(params, ps[n])).value in seen || Holds(params, us, M.V(params, ps[n])))
    decreases |ps|
  {
    hide KeyOf, Alike, M.V;
    if ps != [] {
      var v := M.V(params, ps[0]);
      var k := KeyOf(v).value;
      assert forall n :: 1 <= n < |ps| ==> ps[n] == ps[1..][n - 1];
      if k in seen {
        UniquesCover(ps[1..], params, seen, us);
        HoldsTail(params, ps);
      } else {
        var rest := us[1..];
        assert us == [ps[0]] + rest;
        UniquesCover(ps[1..], params, seen + {k}, rest);
        HoldsTail(params, ps);
        HoldsTail(params, us);
        FirstUnique(params, us, k);
        forall n | 0 <= n < |ps|
          ensures KeyOf(M.V(params, ps[n])).Got?
          ensures (KeyOf(M.V(params, ps[n])).value in seen || Holds(params, us, M.V(params, ps[n])))
        {
          var w := M.V(params, ps[n]);
          assert n > 0 ==> ps[n] == ps[1..][n - 1];
          if KeyOf(w) == Got(k) {
            KeyOfUnique(w, v);
            assert Alike(w, M.V(params, us[0]));
          }
        }
      }
    }
  }

  lemma HoldsTail(params: seq<Value>, ps: seq<int>)
    requires ps != []
    ensures forall x :: Holds(params, ps, x) <==> Alike(x, M.V(params, ps[0])) || Holds(params, ps[1..], x)
  {
    hide Alike;
    var rest := ps[1..];
    forall x ensures Holds(params, ps, x) <==> Alike(x, M.V(params, ps[0])) || Holds(params, rest, x) {
      if Holds(params, rest, x) {
        var n :| 0 <= n < |rest| && Alike(x, M.V(params, rest[n]));
        assert Alike(x, M.V(params, ps[n + 1]));
      }
      if Holds(params, ps, x) {
        var n :| 0 <= n < |ps| && Alike(x, M.V(params, ps[n]));
        assert n > 0 ==> ps[n] == rest[n - 1];
      }
    }
  }

  lemma FirstUnique(params: seq<Value>, us: seq<int>, k: Key)
    requires us != [] && KeyOf(M.V(params, us[0])) == Got(k) && Unlike(params, us[1..])
    requires forall n :: 0 <= n < |us[1..]| ==>
              KeyOf(M.V(params, us[1..][n])).Got? && KeyOf(M.V(params, us[1..][n])).value != k
    ensures Unlike(params, us)
  {
    hide KeyOf, Alike, M.V;
    forall i, j | 0 <= i < j < |us| ensures !Alike(M.V(params, us[i]), M.V(params, us[j])) {
      assert us[j] == us[1..][j - 1];
      if i == 0 {
        KeyOfUnique(M.V(params, us[0]), M.V(params, us[j]));
      } else {
        assert us[i] == us[1..][i - 1];
      }
    }
  }

  // ------------------------------------------------------------------------------------- the parts

  function PaddedAll(cs: seq<seq<int>>): (r: seq<seq<int>>)
    requires forall c :: 0 <= c < |cs| ==> cs[c] != []
    ensures |r| == |cs| && forall c :: 0 <= c < |cs| ==> r[c] == Padded(cs[c])
  {
    seq(|cs|, c requires 0 <= c < |cs| => Padded(cs[c]))
  }

  lemma HoldsPadded(params: seq<Value>, ps: seq<int>, x: Value)
    requires ps != []
    ensures Holds(params, Padded(ps), x) <==> Holds(params, ps, x)
  {
    hide Alike, M.V;
    if Holds(params, ps, x) {
      var n :| 0 <= n < |ps| && Alike(x, M.V(params, ps[n]));
      assert Padded(ps)[n] == ps[n];
    }
    if Holds(params, Padded(ps), x) {
      var n :| 0 <= n < |Padded(ps)| && Alike(x, M.V(params, Padded(ps)[n]));
      assert Alike(x, M.V(params, ps[if n < |ps| then n else |ps| - 1]));
    }
  }

  /** Chunks of values that are not alike share no value, and together hold all of them. */
  lemma {:induction false} ChunksHold(params: seq<Value>, cs: seq<seq<int>>)
    requires Unlike(params, Concat(cs))
    ensures forall x :: Holds(params, Concat(cs), x) <==> InSome(params, cs, x)
    ensures forall a, b, x :: 0 <= a < b < |cs| && Holds(params, cs[a], x) ==> !Holds(params, cs[b], x)
    decreases |cs|
  {
    hide Alike, M.V;
    if cs != [] {
      var rest := cs[1..];
      var a, b := cs[0], Concat(rest);
      HoldsSplit(params, a, b);
      ChunksHold(params, rest);
      assert forall n :: 1 <= n < |cs| ==> cs[n] == rest[n - 1];
      assert forall n :: 0 <= n < |rest| ==> rest[n] == cs[n + 1];
      forall x ensures InSome(params, cs, x) <==> Holds(params, a, x) || InSome(params, rest, x) {
        if InSome(params, rest, x) {
          var n :| 0 <= n < |rest| && Holds(params, rest[n], x);
          assert Holds(params, cs[n + 1], x);
        }
      }
      forall m, n, x | 0 <= m < n < |cs| && Holds(params, cs[m], x) ensures !Holds(params, cs[n], x) {
        assert cs[n] == rest[n - 1];
        if m == 0 {
          assert Holds(params, rest[n - 1], x) ==> InSome(params, rest, x);
        } else {
          assert cs[m] == rest[m - 1];
        }
      }
    }
  }

  lemma HoldsSplit(params: seq<Value>, a: seq<int>, b: seq<int>)
    requires Unlike(params, a + b)
    ensures Unlike(params, a) && Unlike(params, b)
    ensures forall x :: Holds(params, a + b, x) <==> Holds(params, a, x) || Holds(params, b, x)
    ensures forall x :: !(Holds(params, a, x) && Holds(params, b, x))
  {
    hide Alike, M.V;
    var s := a + b;
    assert forall i :: 0 <= i < |a| ==> a[i] == s[i];
    assert forall i :: 0 <= i < |b| ==> b[i] == s[|a| + i];
    forall x
      ensures Holds(params, s, x) <==> Holds(params, a, x) || Holds(params, b, x)
      ensures !(Holds(params, a, x) && Holds(params, b, x))
    {
      if Holds(params, s, x) {
        var i :| 0 <= i < |s| && Alike(x, M.V(params, s[i]));
        assert if i < |a| then a[i] == s[i] else b[i - |a|] == s[i];
      }
      if Holds(params, a, x) && Holds(params, b, x) {
        var i :| 0 <= i < |a| && Alike(x, M.V(params, a[i]));
        var j :| 0 <= j < |b| && Alike(x, M.V(params, b[j]));
        SymmetricAlike(M.V(params, a[i]), x, M.V(params, b[j]));
      }
    }
  }

  /** The padded chunks of the distinct values are a partition of the list. */
  lemma PartsPartition(params: seq<Value>, ps: seq<int>, us: seq<int>, size: nat)
    requires size > 0 && ps != [] && Uniques(ps, params, {}) == Some(us)
    ensures forall c :: 0 <= c < |Chunks(us, size)| ==> Chunks(us, size)[c] != []
    ensures Partition(params, ps, PaddedAll(Chunks(us, size))) && |Chunks(us, size)| >= 1
  {
    hide Alike, M.V, KeyOf, Holds, Chunks;
    var cs := Chunks(us, size);
    UniquesCover(ps, params, {}, us);
    ChunksOf(us, size);
    ChunksHold(params, cs);
    var parts := PaddedAll(cs);
    forall c, x | 0 <= c < |cs| ensures Holds(params, parts[c], x) <==> Holds(params, cs[c], x) {
      HoldsPadded(params, cs[c], x);
    }
    forall x ensures Holds(params, ps, x) <==> InSome(params, parts, x) {
      ListHeld(params, ps, us, x);
      if InSome(params, cs, x) {
        var c :| 0 <= c < |cs| && Holds(params, cs[c], x);
        assert Holds(params, parts[c], x);
      }
    }
    NotEmpty(params, ps, us, cs);
  }

  lemma ListHeld(params: seq<Value>, ps: seq<int>, us: seq<int>, x: Value)
    requires forall y :: Holds(params, us, y) ==> Holds(params, ps, y)
    requires forall n :: 0 <= n < |ps| ==> Holds(params, us, M.V(params, ps[n]))
    ensures Holds(params, ps, x) <==> Holds(params, us, x)
  {
    hide M.V;
    if Holds(params, ps, x) {
      var n :| 0 <= n < |ps| && Alike(x, M.V(params, ps[n]));
      var m :| 0 <= m < |us| && Alike(M.V(params, ps[n]), M.V(params, us[m]));
      SymmetricAlike(x, M.V(params, ps[n]), M.V(params, us[m]));
    }
  }

  lemma NotEmpty(params: seq<Value>, ps: seq<int>, us: seq<int>, cs: seq<seq<int>>)
    requires ps != [] && Concat(cs) == us && Holds(params, us, M.V(params, ps[0]))
    ensures |cs| >= 1
  {
  }

  // ------------------------------------------------------------------------------------- splitting

  datatype Split = Unsplit | Parts(parts: seq<Query>) | TooLarge | BadValue

  /** What the split asks of the query: no order, range or grouping, and no OR next to a root predicate. */
  predicate Guarded(q: Query) {
    && q.limit.None? && q.order == [] && q.groupBy == [] && q.where.Some?
    && forall i :: 0 <= i < |Items(q)| && Items(q)[i].pred.Some? ==> NoOrAt(Items(q), i)
  }

  predicate NoOrAt(items: seq<Item>, i: nat)
    requires i < |items|
  {
    ItemConn(items[i]) != "or" && (i + 1 < |items| ==> ItemConn(items[i + 1]) != "or")
  }

  function Queries(q: Query, t: nat, lists: seq<seq<int>>): (r: seq<Query>)
    requires ListAt(q, t)
    ensures |r| == |lists| && forall n :: 0 <= n < |lists| ==> r[n] == WithList(q, t, lists[n])
  {
    seq(|lists|, n requires 0 <= n < |lists| => WithList(q, t, lists[n]))
  }

  /** The parts of a split: the padded chunks of the distinct values in place of the longest list. */
  ghost predicate SplitInto(q: Query, params: seq<Value>, t: nat, us: seq<int>, size: nat, parts: seq<Query>) {
    && ListAt(q, t) && Longest(Items(q), t) && Pow2(size)
    && Uniques(ListOf(q, t), params, {}) == Some(us)
    && (forall c :: 0 <= c < |Chunks(us, size)| ==> Chunks(us, size)[c] != [])
    && parts == Queries(q, t, PaddedAll(Chunks(us, size)))
  }

  predicate NoList(q: Query) {
    forall i :: 0 <= i < |Items(q)| ==> !IsList(Items(q)[i])
  }

  /** Splits a list that exceeds the driver's bind limit; every part stays within it. */
  method RootInParts(q: Query, params: seq<Value>, slots: int, driver: string)
    returns (r: Split, ghost t: nat, ghost us: seq<int>, ghost size: nat)
    ensures r.Unsplit? <==> slots <= RelationLoader.BindLimit(driver)
    ensures !r.Unsplit? && (!Guarded(q) || NoList(q)) ==> r.TooLarge?
    ensures !r.Unsplit? && Guarded(q) && !NoList(q) ==>
              ListAt(q, t) && Longest(Items(q), t)
              && (r.TooLarge? <==> RelationLoader.BindLimit(driver) - (slots - |ListOf(q, t)|) < 1)
              && (r.BadValue? <==> !r.TooLarge? && Uniques(ListOf(q, t), params, {}).None?)
    ensures r.Parts? ==> Guarded(q) && SplitInto(q, params, t, us, size, r.parts)
    ensures r.Parts? ==> size <= RelationLoader.BindLimit(driver) - (slots - |ListOf(q, t)|) < 2 * size
    ensures r.Parts? ==> forall n :: 0 <= n < |r.parts| ==>
              ListAt(r.parts[n], t) && slots - |ListOf(q, t)| +
                |ListOf(r.parts[n], t)| <= RelationLoader.BindLimit(driver)
  {
    hide Pow2, Chunks, Padded, KeyOf, Uniques;
    t, us, size := 0, [], 1;
    var limit := RelationLoader.BindLimit(driver);
    if slots <= limit { return Unsplit, 0, [], 1; }
    if q.limit.Some? || |q.order| > 0 || |q.groupBy| > 0 || q.where.None? { return TooLarge, 0, [], 1; }
    var items := q.where.value.items;
    for i := 0 to |items|
      invariant forall n :: 0 <= n < i && items[n].pred.Some? ==> NoOrAt(items, n)
    {
      if items[i].pred.None? { continue; }
      if items[i].pred.value.conn == "or" || (i + 1 < |items| && ItemConn(items[i + 1]) == "or") {
        return TooLarge, 0, [], 1;
      }
    }
    var target := RootInTarget(q);
    if target.None? { return TooLarge, 0, [], 1; }
    t := target.value;
    var ps := items[target.value].pred.value.ps;
    var available := limit - (slots - |ps|);
    if available < 1 { return TooLarge, t, [], 1; }
    var chunk := LargestPower(available);
    RelationLoader.PowerIsPositive(chunk);
    size := chunk;
    var unique := Distinct(ps, params);
    if unique.None? { return BadValue, t, [], size; }
    us := unique.value;
    ChunksOf(us, size);
    var parts := PartQueries(q, target.value, unique.value, chunk);
    forall n | 0 <= n < |parts|
      ensures ListAt(parts[n], t) && slots - |ps| + |ListOf(parts[n], t)| <= limit
    {
      PaddedFits(Chunks(us, size)[n], size);
    }
    return Parts(parts), t, us, size;
  }

  lemma PaddedFits(c: seq<int>, size: nat)
    requires c != [] && |c| <= size && Pow2(size)
    ensures 1 <= |Padded(c)| <= size
  {
    BucketWithin(|c|, size);
  }

  method Distinct(ps: seq<int>, params: seq<Value>) returns (r: Option<seq<int>>)
    ensures r == Uniques(ps, params, {})
  {
    hide KeyOf;
    var seen: set<Key> := {};
    var unique: seq<int> := [];
    for i := 0 to |ps|
      invariant Uniques(ps, params, {}).None? <==> Uniques(ps[i..], params, seen).None?
      invariant Uniques(ps, params, {}).Some? ==>
                Uniques(ps, params, {}).value == unique + Uniques(ps[i..], params, seen).value
    {
      assert ps[i..][0] == ps[i] && ps[i..][1..] == ps[i + 1..];
      var key := KeyOf(M.V(params, ps[i]));
      if !key.Got? { return None; }
      if key.value !in seen {
        seen := seen + {key.value};
        unique := unique + [ps[i]];
      }
    }
    assert ps[|ps|..] == [] && unique + [] == unique;
    return Some(unique);
  }

  method PartQueries(q: Query, t: nat, us: seq<int>, size: nat) returns (parts: seq<Query>)
    requires ListAt(q, t) && size > 0 && forall c :: 0 <= c < |Chunks(us, size)| ==> Chunks(us, size)[c] != []
    ensures parts == Queries(q, t, PaddedAll(Chunks(us, size)))
  {
    hide Chunks, Padded, WithList;
    ghost var cs := Chunks(us, size);
    parts := [];
    var start := 0;
    ghost var c := 0;
    assert us[0..] == us && cs[0..] == cs;
    while start < |us|
      invariant 0 <= start <= |us| && c <= |cs| && |parts| == c
      invariant Chunks(us[start..], size) == cs[c..]
      invariant forall n :: 0 <= n < c ==> parts[n] == WithList(q, t, Padded(cs[n]))
    {
      var end := if start + size <= |us| then start + size else |us|;
      ChunkStep(us, start, size);
      assert cs[c..][0] == us[start..end] && cs[c..][1..] == Chunks(us[end..], size);
      assert cs[c] == us[start..end] && cs[c + 1..] == cs[c..][1..];
      var list := PadIndexes(us[start..end]);
      parts := parts + [WithList(q, t, list)];
      start := end;
      c := c + 1;
    }
    assert us[start..] == [];
    ChunksOf<int>([], size);
    ChunksNone(size);
  }

  lemma ChunksNone(size: nat)
    requires size > 0
    ensures Chunks<int>([], size) == []
  {
  }

  lemma ChunkStep(us: seq<int>, start: nat, size: nat)
    requires size > 0 && start < |us|
    ensures var end := if start + size <= |us| then start + size else |us|;
            Chunks(us[start..], size) == [us[start..end]] + Chunks(us[end..], size)
  {
    var s := us[start..];
    if |s| <= size {
      assert us[|us|..] == [] && us[start..|us|] == s;
    } else {
      assert s[..size] == us[start..start + size] && s[size..] == us[start + size..];
    }
  }

  method PadIndexes(ps: seq<int>) returns (out: seq<int>)
    requires ps != []
    ensures out == Padded(ps)
  {
    var n := SmallestPower(|ps|);
    out := ps;
    for i := |ps| to n
      invariant |out| == i && forall m :: 0 <= m < i ==> out[m] == ps[if m < |ps| then m else |ps| - 1]
    {
      out := out + [ps[|ps| - 1]];
    }
  }
}
