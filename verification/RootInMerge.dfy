/** Merging the parts of a split list: the rows, the count, and the one query shape whose count comes out too high. */
module RootInMerge {
  import opened Common
  import opened Ir
  import opened Keys
  import opened Chunking
  import opened RootIn
  import opened RootInSplit
  import RelationLoader
  import M = IrMeaning

  /** The identity of a row; None when a component is null or has no key. */
  type RowKey = Row -> Option<Key>

  // ------------------------------------------------------------------------------------- rows

  /** The rows whose keys are not in `seen`, the first row of each key. */
  function Merged(rs: seq<Row>, key: RowKey, seen: set<Key>): Option<seq<Row>> {
    if rs == [] then Some([])
    else if key(rs[0]).None? then None
    else if key(rs[0]).value in seen then Merged(rs[1..], key, seen)
    else match Merged(rs[1..], key, seen + {key(rs[0]).value})
      case None => None
      case Some(m) => Some([rs[0]] + m)
  }

  method MergeRows(results: seq<seq<Row>>, key: RowKey) returns (r: Option<seq<Row>>)
    ensures r == Merged(Concat(results), key, {})
  {
    var seen: set<Key> := {};
    var main: seq<Row> := [];
    ghost var all := Concat(results);
    ghost var done := 0;
    assert all[0..] == all;
    for p := 0 to |results|
      invariant done <= |all| && all[done..] == Concat(results[p..])
      invariant Merged(all, key, {}).None? <==> Merged(all[done..], key, seen).None?
      invariant Merged(all, key, {}).Some? ==> Merged(all, key, {}).value == main + Merged(all[done..], key, seen).value
    {
      var rows := results[p];
      ghost var rest := Concat(results[p + 1..]);
      assert results[p..][1..] == results[p + 1..];
      ghost var from := done;
      for i := 0 to |rows|
        invariant done == from + i && done <= |all| && all[done..] == rows[i..] + rest
        invariant Merged(all, key, {}).None? <==> Merged(all[done..], key, seen).None?
        invariant Merged(all, key, {}).Some? ==>
                  Merged(all, key, {}).value == main + Merged(all[done..], key, seen).value
      {
        assert all[done..][0] == rows[i];
        assert all[done..][1..] == all[done + 1..] == rows[i + 1..] + rest;
        var k := key(rows[i]);
        if k.None? { return None; }
        if k.value !in seen {
          seen := seen + {k.value};
          main := main + [rows[i]];
        }
        done := done + 1;
      }
      assert rows[|rows|..] + rest == rest;
    }
    assert results[|results|..] == [] && main + [] == main;
    return Some(main);
  }

  /** One more row comes last, unless a row before it has its key. */
  lemma {:induction false} MergedAppend(rs: seq<Row>, row: Row, key: RowKey, seen: set<Key>)
    requires Merged(rs, key, seen).Some? && key(row).Some?
    ensures Merged(rs + [row], key, seen)
              == Some(Merged(rs, key, seen).value + if Known(rs, key, seen, key(row)) then [] else [row])
    decreases |rs|
  {
    var all := rs + [row];
    if rs == [] {
      assert all == [row] && all[0] == row && all[1..] == [];
      assert Merged([], key, seen) == Some([]) && Merged([], key, seen + {key(row).value}) == Some([]);
      assert [row] + [] == [row] && [] + [row] == [row];
    } else {
      var rest := rs[1..];
      assert rs == [rs[0]] + rest && all[0] == rs[0] && all[1..] == rest + [row];
      var more := if key(rs[0]).value in seen then seen else seen + {key(rs[0]).value};
      MergedAppend(rest, row, key, more);
      KnownFirst(rs, key, seen, key(row));
      Regroup([rs[0]], Merged(rest, key, more).value, if Known(rs, key, seen, key(row)) then [] else [row]);
    }
  }

  /** The key was seen, or a row has it. */
  predicate Known(rs: seq<Row>, key: RowKey, seen: set<Key>, k: Option<Key>) {
    (k.Some? && k.value in seen) || exists r :: r in rs && key(r) == k
  }

  lemma KnownFirst(rs: seq<Row>, key: RowKey, seen: set<Key>, k: Option<Key>)
    requires rs != [] && key(rs[0]).Some? && k.Some?
    ensures var more := if key(rs[0]).value in seen then seen else seen + {key(rs[0]).value};
            Known(rs, key, seen, k) <==> Known(rs[1..], key, more, k)
  {
    assert rs == [rs[0]] + rs[1..];
    if k.value !in seen && key(rs[0]) == k { assert rs[0] in rs; }
  }

  /** No two rows have one key. */
  predicate OneKeyEach(rs: seq<Row>, key: RowKey) {
    && (forall n :: 0 <= n < |rs| ==> key(rs[n]).Some?)
    && (forall m, n :: 0 <= m < n < |rs| ==> key(rs[m]) != key(rs[n]))
  }

  ghost predicate KeyIn(rs: seq<Row>, key: RowKey, k: Option<Key>) {
    exists n :: 0 <= n < |rs| && key(rs[n]) == k
  }

  /** Every row has a key that was seen or that a row of m has. */
  ghost predicate Covers(rs: seq<Row>, m: seq<Row>, key: RowKey, seen: set<Key>) {
    forall r :: r in rs ==> key(r).Some? && (key(r).value in seen || KeyIn(m, key, key(r)))
  }

  ghost predicate Drawn(rs: seq<Row>, m: seq<Row>, key: RowKey, seen: set<Key>) {
    forall n :: 0 <= n < |m| ==> m[n] in rs && key(m[n]).Some? && key(m[n]).value !in seen
  }

  lemma {:induction false} MergedOnce(rs: seq<Row>, key: RowKey, seen: set<Key>)
    requires forall n :: 0 <= n < |rs| ==> key(rs[n]).Some?
    ensures Merged(rs, key, seen).Some?
    ensures var m := Merged(rs, key, seen).value;
            OneKeyEach(m, key) && Drawn(rs, m, key, seen) && Covers(rs, m, key, seen)
    decreases |rs|
  {
    if rs != [] {
      var k := key(rs[0]).value;
      assert rs == [rs[0]] + rs[1..];
      if k in seen {
        MergedOnce(rs[1..], key, seen);
      } else {
        MergedOnce(rs[1..], key, seen + {k});
        var rest := Merged(rs[1..], key, seen + {k}).value;
        MergedFirst(rs, rest, key, seen);
        MergedCovers(rs, rest, key, seen);
      }
    }
  }

  lemma MergedFirst(rs: seq<Row>, rest: seq<Row>, key: RowKey, seen: set<Key>)
    requires rs != [] && key(rs[0]).Some? && key(rs[0]).value !in seen && OneKeyEach(rest, key)
    requires Drawn(rs[1..], rest, key, seen + {key(rs[0]).value})
    ensures OneKeyEach([rs[0]] + rest, key) && Drawn(rs, [rs[0]] + rest, key, seen)
  {
    var m := [rs[0]] + rest;
    assert rs == [rs[0]] + rs[1..];
    assert m[0] == rs[0] && forall n :: 1 <= n < |m| ==> m[n] == rest[n - 1];
  }

  lemma MergedCovers(rs: seq<Row>, rest: seq<Row>, key: RowKey, seen: set<Key>)
    requires rs != [] && key(rs[0]).Some? && Covers(rs[1..], rest, key, seen + {key(rs[0]).value})
    ensures Covers(rs, [rs[0]] + rest, key, seen)
  {
    var m := [rs[0]] + rest;
    assert rs == [rs[0]] + rs[1..];
    assert m[0] == rs[0];
    forall r | r in rs ensures key(r).Some? && (key(r).value in seen || KeyIn(m, key, key(r))) {
      if r in rs[1..] && KeyIn(rest, key, key(r)) {
        var n :| 0 <= n < |rest| && key(rest[n]) == key(r);
        assert m[n + 1] == rest[n];
      }
    }
  }

  lemma {:induction false} Occurs(rs: seq<Row>, key: RowKey, x: Row)
    requires OneKeyEach(rs, key)
    ensures multiset(rs)[x] == if x in rs then 1 else 0
    decreases |rs|
  {
    if rs != [] {
      var rest := rs[1..];
      assert rs == [rs[0]] + rest;
      assert forall n :: 0 <= n < |rest| ==> rest[n] == rs[n + 1];
      Occurs(rest, key, x);
      assert multiset(rs) == multiset{rs[0]} + multiset(rest);
    }
  }

  /** Rows that repeat, merged by a key that is unique among them, are those rows once each. */
  lemma MergedIsSet(rs: seq<Row>, goal: seq<Row>, key: RowKey)
    requires OneKeyEach(goal, key) && forall r :: r in rs <==> r in goal
    ensures Merged(rs, key, {}).Some? && multiset(Merged(rs, key, {}).value) == multiset(goal)
  {
    hide Merged;
    assert forall n :: 0 <= n < |rs| ==> rs[n] in goal;
    MergedOnce(rs, key, {});
    var m := Merged(rs, key, {}).value;
    forall x ensures multiset(m)[x] == multiset(goal)[x] {
      Occurs(m, key, x);
      Occurs(goal, key, x);
      if x in goal {
        assert KeyIn(m, key, key(x));
        var n :| 0 <= n < |m| && key(m[n]) == key(x);
        assert m[n] in goal;
        var a :| 0 <= a < |goal| && goal[a] == x;
        var b :| 0 <= b < |goal| && goal[b] == m[n];
      }
    }
  }

  /** The rows that the parts of a split read are the rows of the query, once each, whatever joins the root items. */
  lemma SplitReadsTheSameRows(
    i: M.Interp, q: Query, t: nat, params: seq<Value>, us: seq<int>, size: nat, parts: seq<Query>, rows: seq<Row>,
    key: RowKey)
    requires Upright(q) && SplitInto(q, params, t, us, size, parts)
    requires OneKeyEach(M.Filter(i, q, false, params, rows), key)
    ensures Merged(PartRows(i, parts, params, rows), key, {}).Some?
    ensures multiset(Merged(PartRows(i, parts, params, rows), key, {}).value) ==
              multiset(M.Filter(i, q, false, params, rows))
  {
    hide M.Filter, Partition, Uniques, Chunks, Pow2, Merged, OneKeyEach;
    PowerPositive(size);
    PartsPartition(params, ListOf(q, t), us, size);
    var lists := PaddedAll(Chunks(us, size));
    PartsCollect(i, q, t, params, lists, parts, rows);
    forall r ensures r in PartRows(i, parts, params, rows) <==> r in M.Filter(i, q, false, params, rows) {
      SplitSelects(i, q, t, params, lists, rows, r);
    }
    MergedIsSet(PartRows(i, parts, params, rows), M.Filter(i, q, false, params, rows), key);
  }

  lemma PowerPositive(n: nat)
    requires Pow2(n)
    ensures n > 0
  {
  }

  ghost function PartRows(i: M.Interp, parts: seq<Query>, params: seq<Value>, rows: seq<Row>): seq<Row> {
    if parts == [] then [] else M.Filter(i, parts[0], false, params, rows) + PartRows(i, parts[1..], params, rows)
  }

  lemma {:induction false} PartsCollect(
    i: M.Interp, q: Query, t: nat, params: seq<Value>, lists: seq<seq<int>>, parts: seq<Query>, rows: seq<Row>)
    requires ListAt(q, t) && parts == Queries(q, t, lists)
    ensures PartRows(i, parts, params, rows) == Collected(i, q, t, params, lists, rows)
    ensures PartCounts(i, parts, params, rows) == Summed(i, q, t, params, lists, rows)
    decreases |lists|
  {
    hide M.Filter;
    if lists != [] {
      assert parts[1..] == Queries(q, t, lists[1..]);
      PartsCollect(i, q, t, params, lists[1..], parts[1..], rows);
    }
  }

  // ------------------------------------------------------------------------------------- counts

  ghost function PartCounts(i: M.Interp, parts: seq<Query>, params: seq<Value>, rows: seq<Row>): nat {
    if parts == [] then 0 else |M.Filter(i, parts[0], false, params, rows)| + PartCounts(i, parts[1..], params, rows)
  }

  /** With AND between all root items the counts of the parts add up to the count of the query. */
  lemma SplitCountsTheSameRows(
    i: M.Interp, q: Query, t: nat, params: seq<Value>, us: seq<int>, size: nat, parts: seq<Query>, rows: seq<Row>)
    requires Upright(q) && SplitInto(q, params, t, us, size, parts)
    ensures AllAnd(q) ==> PartCounts(i, parts, params, rows) == |M.Filter(i, q, false, params, rows)|
    ensures PartCounts(i, parts, params, rows)
              == |M.Filter(i, q, false, params, rows)| +
                (|parts| - 1) * |M.Filter(i, WithList(q, t, []), false, params, rows)|
  {
    hide M.Filter, Partition, Uniques, Chunks, Pow2, Summed, PartCounts;
    PowerPositive(size);
    PartsPartition(params, ListOf(q, t), us, size);
    var lists := PaddedAll(Chunks(us, size));
    PartsCollect(i, q, t, params, lists, parts, rows);
    SplitCount(i, q, t, params, lists, rows);
    if AllAnd(q) { AllAndHasNoAlternative(i, q, t, params, rows); }
  }

  /** An OR in front of item n, which is no predicate and follows none. */
  predicate OrBetweenGroups(items: seq<Item>, n: nat) {
    1 <= n < |items| && items[n - 1].pred.None? && items[n].pred.None? && ItemConn(items[n]) == "or"
  }

  /** The guard leaves an OR only between two items that are no predicates; without one, the counts add up. */
  lemma GuardLeavesGroups(q: Query)
    requires Guarded(q)
    ensures AllAnd(q) <==> forall n :: 1 <= n < |Items(q)| ==> !OrBetweenGroups(Items(q), n)
  {
    var items := Items(q);
    assert items == q.where.value.items;
    forall n | 1 <= n < |items| ensures OrBetweenGroups(items, n) <==> ItemConn(items[n]) == "or" {
      if items[n - 1].pred.Some? {
        assert NoOrAt(items, n - 1);
      } else if items[n].pred.Some? {
        assert NoOrAt(items, n);
      }
    }
  }

  const MAX_INT64 := 0x7fff_ffff_ffff_ffff

  function Total(ns: seq<nat>): nat { if ns == [] then 0 else ns[0] + Total(ns[1..]) }

  /** Adds the counts of the parts; None when the sum does not fit in 64 bits. */
  method AddCounts(ns: seq<nat>) returns (total: Option<nat>)
    ensures total == if Total(ns) <= MAX_INT64 then Some(Total(ns)) else None
  {
    var sum := 0;
    for i := 0 to |ns|
      invariant sum <= MAX_INT64 && sum + Total(ns[i..]) == Total(ns)
    {
      assert ns[i..][1..] == ns[i + 1..];
      if ns[i] > 0 && sum > MAX_INT64 - ns[i] { return None; }
      sum := sum + ns[i];
    }
    return Some(sum);
  }

  // ------------------------------------------------------------------------------------- an alternative between groups

  function Condition(conn: string, column: string, op: string, p: Option<int>, ps: seq<int>): Item {
    Item(Some(Pred(conn, column, op, p, ps, None, None, None, [], None)), None, None)
  }

  /** The numbers from a to n. */
  function Range(a: nat, n: nat): (r: seq<int>)
    requires a <= n
    ensures |r| == n - a && forall i :: 0 <= i < |r| ==> r[i] == a + i
  {
    seq(n - a, i => a + i)
  }

  function Nested(conn: string, column: string, p: int): Item {
    Item(None, Some(Group(conn, false, [Condition("", column, "eq", Some(p), [])])), None)
  }

  /** `c IN (p0, .., pn-1) AND (a = pn) OR (b = pn+1)`: the OR stands between two groups. */
  function TwoGroups(n: nat): Query {
    Query("t", None, None,
          Some(Group("", false, [Condition("", "c", "in", None, Range(0, n)),
                                 Nested("and", "a", n), Nested("or", "b", n + 1)])),
          [], [], [], [], None, Options("", "", "", false, 0, false), None)
  }

  function Ints(n: nat): seq<Value> { seq(n, i => Int(i)) }

  /** A database where every equality holds, and no column has a listed value. */
  const ALL_EQUAL: M.Interp :=
    M.Interp((e: string) => [], (e: string) => "", (r: Row, p: string, c: string) => Int(-1),
             (r: Row, p: string, s: Row) => r,
             (op: string, v: Value, vs: seq<Value>) => M.True, (n: string, v: Value, vs: seq<Value>) => v,
             (n: string, vs: seq<Value>) => Null, (ks: seq<M.OrderKey>, rs: seq<Row>) => rs,
             (cs: seq<string>, rs: seq<Row>) => rs)

  lemma SampleGuard(n: nat)
    requires n > 0
    ensures Guarded(TwoGroups(n)) && ListAt(TwoGroups(n), 0) && Upright(TwoGroups(n)) && !NoList(TwoGroups(n))
    ensures ListOf(TwoGroups(n), 0) == Range(0, n) && forall t: nat :: ListAt(TwoGroups(n), t) ==> t == 0
  {
    hide Range;
    var items := TwoGroups(n).where.value.items;
    assert ItemConn(items[0]) == "" && ItemConn(items[1]) == "and" && ItemConn(items[2]) == "or";
    assert IsList(items[0]) && IsList(Items(TwoGroups(n))[0]) && !IsList(items[1]) && !IsList(items[2]);
  }

  lemma NestedHolds(conn: string, column: string, p: int, params: seq<Value>, joined: map<string, M.Truth>)
    ensures M.EvalItem(ALL_EQUAL, "", Nested(conn, column, p), params, map[], joined) == (conn, M.True)
  {
    var it := Condition("", column, "eq", Some(p), []);
    assert M.EvalItem(ALL_EQUAL, "", it, params, map[], joined) == ("", M.True);
    assert [it][1..] == [];
    assert M.EvalItems(ALL_EQUAL, "", [it], params, map[], joined) == [("", M.True)];
  }

  /** Whatever list stands in it, the query selects the row. */
  lemma SampleSelected(n: nat, params: seq<Value>, ps: seq<int>)
    requires n > 0 && ListAt(TwoGroups(n), 0)
    ensures M.Selects(ALL_EQUAL, WithList(TwoGroups(n), 0, ps), false, params, map[])
  {
    hide M.EvalItem, M.EvalItems, M.InList, WithList, M.Placed, Range, Nested;
    SampleGuard(n);
    var q := TwoGroups(n);
    var joined := M.JoinedTruths(ALL_EQUAL, "", q.joins, params, map[]);
    var ts := M.Terms(ALL_EQUAL, q, false, params, map[]);
    SelectsAt(ALL_EQUAL, q, 0, ps, params, map[]);
    ItemsLength(ALL_EQUAL, q.where.value.items, params, map[], joined);
    NestedHolds("and", "a", n, params, joined);
    NestedHolds("or", "b", n + 1, params, joined);
    var x := M.InList(Compared(ALL_EQUAL, q, 0, params, map[]), M.Vs(params, ps));
    assert ts[1..] == [("and", M.True), ("or", M.True)] && ts[0].0 == "and";
    assert Put(ts, 0, x)[1..] == ts[1..];
    SecondGroupHolds(M.And3(M.True, x));
  }

  lemma SecondGroupHolds(run: M.Truth)
    ensures M.Connect(run, [("and", M.True), ("or", M.True)]).True?
  {
    assert [("and", M.True), ("or", M.True)][1..] == [("or", M.True)];
    assert [("or", M.True)][1..] == [];
    assert M.Connect(M.True, []) == M.True;
  }

  /** Different numbers are different keys, so the list has no repetition. */
  lemma {:induction false} SampleUniques(a: nat, n: nat, m: nat, seen: set<Key>)
    requires a <= n <= m && forall k :: k in seen ==> exists i: nat :: i < a && KeyOf(Int(i)) == Got(k)
    ensures Uniques(Range(a, n), Ints(m), seen) == Some(Range(a, n))
    decreases n - a
  {
    hide KeyOf;
    var ps := Range(a, n);
    if a < n {
      assert ps[0] == a && ps[1..] == Range(a + 1, n) && M.V(Ints(m), a) == Int(a);
      IntKey(a);
      var key := KeyOf(Int(a)).value;
      if key in seen {
        var i: nat :| i < a && KeyOf(Int(i)) == Got(key);
        KeyOfUnique(Int(i), Int(a));
        assert false;
      }
      var more := seen + {key};
      forall k | k in more ensures exists i: nat :: i < a + 1 && KeyOf(Int(i)) == Got(k) {
        if k == key {
          assert KeyOf(Int(a)) == Got(k);
        } else {
          var i: nat :| i < a && KeyOf(Int(i)) == Got(k);
          assert i < a + 1;
        }
      }
      SampleUniques(a + 1, n, m, more);
      assert [a] + Range(a + 1, n) == ps;
    }
  }

  lemma IntKey(i: int)
    ensures KeyOf(Int(i)).Got?
  {
  }

  /** A list that does not fit in one part has several. */
  lemma SeveralParts(q: Query, t: nat, us: seq<int>, size: nat, most: nat)
    requires ListAt(q, t) && Pow2(size) && |us| > most
    requires forall c :: 0 <= c < |Chunks(us, size)| ==> Chunks(us, size)[c] != []
    requires var parts := Queries(q, t, PaddedAll(Chunks(us, size)));
             forall n :: 0 <= n < |parts| ==> ListAt(parts[n], t) && |ListOf(parts[n], t)| <= most
    ensures |Chunks(us, size)| >= 2
  {
    hide Padded, Chunks, Pow2;
    PowerPositive(size);
    ChunksOf(us, size);
    var cs := Chunks(us, size);
    forall c | 0 <= c < |cs| ensures |cs[c]| <= most {
      var part := Queries(q, t, PaddedAll(cs))[c];
      assert part == WithList(q, t, Padded(cs[c]));
      assert ListOf(part, t) == Padded(cs[c]);
      NotShorter(cs[c]);
    }
    FewChunks(cs, most);
  }

  lemma FewChunks(cs: seq<seq<int>>, most: nat)
    requires forall c :: 0 <= c < |cs| ==> |cs[c]| <= most
    ensures |cs| <= 1 ==> |Concat(cs)| <= most
  {
    if |cs| == 1 { assert cs[1..] == []; }
  }

  lemma NotShorter(c: seq<int>)
    requires c != []
    ensures |Padded(c)| >= |c|
  {
  }

  /**
    The guard admits this query on SQLite, whose limit is 999, for every list that is beyond it; yet each part counts
    the row that the second group selects, and there are at least two parts.
   */
  method GuardAdmitsOrBetweenGroups(n: nat) returns (parts: seq<Query>, ghost us: seq<int>, ghost size: nat)
    requires n + 2 > RelationLoader.BindLimit("sqlite")
    ensures Guarded(TwoGroups(n)) && |parts| >= 2
    ensures SplitInto(TwoGroups(n), Ints(n + 2), 0, us, size, parts)
    ensures |M.Filter(ALL_EQUAL, TwoGroups(n), false, Ints(n + 2), [map[]])| == 1
    ensures PartCounts(ALL_EQUAL, parts, Ints(n + 2), [map[]]) == |parts|
  {
    hide M.Selects, WithList, PartCounts, Guarded, Range, Ints, Longest, Chunks, PaddedAll, TwoGroups, Uniques, Pow2,
         NoList;
    var q, params := TwoGroups(n), Ints(n + 2);
    SampleGuard(n);
    SampleUniques(0, n, n + 2, {});
    ghost var t;
    var split;
    split, t, us, size := RootInParts(q, params, n + 2, "sqlite");
    parts := split.parts;
    Several(n, us, size, parts);
    SampleSelected(n, params, Range(0, n));
    SampleSelected(n, params, []);
    SampleWhole(n);
    OneSelected(q, params);
    OneSelected(WithList(q, 0, []), params);
    SplitCountsTheSameRows(ALL_EQUAL, q, 0, params, us, size, parts, [map[]]);
  }

  lemma Several(n: nat, us: seq<int>, size: nat, parts: seq<Query>)
    requires n + 2 > RelationLoader.BindLimit("sqlite") && SplitInto(TwoGroups(n), Ints(n + 2), 0, us, size, parts)
    requires us == Range(0, n) && ListOf(TwoGroups(n), 0) == Range(0, n)
    requires forall m :: 0 <= m < |parts| ==>
               ListAt(parts[m], 0) && n + 2 - n + |ListOf(parts[m], 0)| <= RelationLoader.BindLimit("sqlite")
    ensures |parts| >= 2
  {
    hide TwoGroups, Chunks, Pow2, Ints;
    SeveralParts(TwoGroups(n), 0, us, size, 997);
  }

  lemma SampleWhole(n: nat)
    requires ListAt(TwoGroups(n), 0)
    ensures WithList(TwoGroups(n), 0, Range(0, n)) == TwoGroups(n)
  {
    hide Range;
    var items := TwoGroups(n).where.value.items;
    assert ItemWith(items[0], Range(0, n)) == items[0];
    assert items[0 := items[0]] == items;
  }

  lemma OneSelected(q: Query, params: seq<Value>)
    requires M.Selects(ALL_EQUAL, q, false, params, map[])
    ensures |M.Filter(ALL_EQUAL, q, false, params, [map[]])| == 1
  {
    hide M.Selects;
    var one: seq<Row> := [map[]];
    assert one[1..] == [];
    assert M.Filter(ALL_EQUAL, q, false, params, []) == [];
  }
}
