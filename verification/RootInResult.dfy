/** The result of a split read: what the parts return together is what the query returns. */
module RootInResult {
  import opened Common
  import opened Ir
  import opened Chunking
  import opened RootIn
  import opened RootInSplit
  import opened RootInMerge
  import M = IrMeaning

  /** Without columns to group by or an order, rows are neither grouped nor sorted. */
  ghost predicate Plain(i: M.Interp) {
    forall rows :: i.group([], rows) == rows && i.sort([], rows) == rows
  }

  /** The rows that a query selects from. */
  function From(i: M.Interp, q: Query, params: seq<Value>, outer: Row): seq<Row> {
    var table := i.table(q.entity);
    M.EvalJoins(i, "", q.joins, params, seq(|table|, n requires 0 <= n < |table| => i.merge(table[n], "^", outer)))
  }

  /** The results of the parts, one after the other. */
  ghost function Results(i: M.Interp, parts: seq<Query>, params: seq<Value>, outer: Row): seq<Row> {
    if parts == [] then [] else M.EvalQuery(i, parts[0], false, params, outer) + Results(i, parts[1..], params, outer)
  }

  /** A query that the guard admits returns its selected rows with their columns. */
  lemma GuardedResult(i: M.Interp, q: Query, params: seq<Value>, outer: Row)
    requires Plain(i) && Guarded(q)
    ensures M.EvalQuery(i, q, false, params, outer)
              == M.EvalColumns(i, q.columns, params, M.Filter(i, q, false, params, From(i, q, params, outer)))
  {
    hide M.EvalJoins, M.Filter, M.EvalColumns;
    assert M.Keys([], params) == [];
  }

  /** The guard admits every part of a query that it admits. */
  lemma PartResult(i: M.Interp, q: Query, t: nat, ps: seq<int>, params: seq<Value>, outer: Row)
    requires Plain(i) && Guarded(q) && ListAt(q, t)
    ensures M.EvalQuery(i, WithList(q, t, ps), false, params, outer)
              == M.EvalColumns(i, q.columns, params,
                   M.Filter(i, WithList(q, t, ps), false, params, From(i, q, params, outer)))
  {
    hide M.EvalJoins, M.Filter, M.EvalColumns;
    var p := WithList(q, t, ps);
    forall n | 0 <= n < |Items(p)| && Items(p)[n].pred.Some? ensures NoOrAt(Items(p), n) {
      assert NoOrAt(Items(q), n);
      assert ItemConn(Items(p)[n]) == ItemConn(Items(q)[n]);
      assert n + 1 < |Items(p)| ==> ItemConn(Items(p)[n + 1]) == ItemConn(Items(q)[n + 1]);
    }
    GuardedResult(i, p, params, outer);
  }

  lemma {:induction false} ColumnsConcat(
    i: M.Interp, c: Option<Columns>, params: seq<Value>, a: seq<Row>, b: seq<Row>)
    ensures M.EvalColumns(i, c, params, a + b) == M.EvalColumns(i, c, params, a) + M.EvalColumns(i, c, params, b)
    decreases |a|
  {
    hide M.ColSubs, M.ColFns;
    if a == [] {
      assert a + b == b;
      assert M.EvalColumns(i, c, params, a) == [];
    } else if c.Some? {
      assert (a + b)[0] == a[0] && (a + b)[1..] == a[1..] + b;
      ColumnsConcat(i, c, params, a[1..], b);
    }
  }

  /** The columns of one row. */
  function One(i: M.Interp, c: Option<Columns>, params: seq<Value>, row: Row): Row {
    if c.None? then row else M.ColSubs(i, c.value.sub, params, M.ColFns(i, c.value.fn, params, row))
  }

  lemma {:induction false} ColumnsOf(i: M.Interp, c: Option<Columns>, params: seq<Value>, rows: seq<Row>)
    ensures |M.EvalColumns(i, c, params, rows)| == |rows|
    ensures forall n :: 0 <= n < |rows| ==> M.EvalColumns(i, c, params, rows)[n] == One(i, c, params, rows[n])
    decreases |rows|
  {
    hide M.ColSubs, M.ColFns;
    if c.Some? && rows != [] { ColumnsOf(i, c, params, rows[1..]); }
  }

  /** Rows that are the same as a set give results that are the same as a set. */
  lemma ColumnsOfSet(i: M.Interp, c: Option<Columns>, params: seq<Value>, a: seq<Row>, b: seq<Row>, x: Row)
    requires forall r :: r in a ==> r in b
    ensures x in M.EvalColumns(i, c, params, a) ==> x in M.EvalColumns(i, c, params, b)
  {
    hide M.EvalColumns, One;
    ColumnsOf(i, c, params, a);
    ColumnsOf(i, c, params, b);
    if x in M.EvalColumns(i, c, params, a) {
      var n :| 0 <= n < |a| && M.EvalColumns(i, c, params, a)[n] == x;
      assert a[n] in b;
      var m :| 0 <= m < |b| && b[m] == a[n];
      assert M.EvalColumns(i, c, params, b)[m] == x;
    }
  }

  lemma {:induction false} ResultsCollect(
    i: M.Interp, q: Query, t: nat, params: seq<Value>, lists: seq<seq<int>>, parts: seq<Query>, outer: Row)
    requires Plain(i) && Guarded(q) && ListAt(q, t) && parts == Queries(q, t, lists)
    ensures Results(i, parts, params, outer)
              == M.EvalColumns(i, q.columns, params, PartRows(i, parts, params, From(i, q, params, outer)))
    decreases |lists|
  {
    hide M.Filter, M.EvalColumns, M.EvalQuery, Plain, Guarded, From;
    var from := From(i, q, params, outer);
    if lists == [] {
      ColumnsOf(i, q.columns, params, []);
    } else {
      assert parts[1..] == Queries(q, t, lists[1..]);
      ResultsCollect(i, q, t, params, lists[1..], parts[1..], outer);
      PartResult(i, q, t, lists[0], params, outer);
      ColumnsConcat(i, q.columns, params, M.Filter(i, parts[0], false, params, from),
        PartRows(i, parts[1..], params, from));
    }
  }

  /**
    What the parts of a split read return, merged by the identity of the rows, is what the query returns, each row once.
    A limit, an order or a grouping, which the guard refuses, would change with the parts.
   */
  lemma SplitReadsTheSameResult(
    i: M.Interp, q: Query, t: nat, params: seq<Value>, us: seq<int>, size: nat, parts: seq<Query>, key: RowKey,
    outer: Row)
    requires Plain(i) && Guarded(q) && Upright(q) && SplitInto(q, params, t, us, size, parts)
    requires OneKeyEach(M.EvalQuery(i, q, false, params, outer), key)
    ensures Merged(Results(i, parts, params, outer), key, {}).Some?
    ensures multiset(Merged(Results(i, parts, params, outer), key, {}).value)
              == multiset(M.EvalQuery(i, q, false, params, outer))
  {
    hide M.Filter, M.EvalColumns, M.EvalQuery, Partition, Uniques, Chunks, Pow2, Merged, OneKeyEach, Plain, Guarded,
         From, Results, PartRows;
    PowerPositive(size);
    PartsPartition(params, ListOf(q, t), us, size);
    var lists := PaddedAll(Chunks(us, size));
    var from := From(i, q, params, outer);
    var a, b := PartRows(i, parts, params, from), M.Filter(i, q, false, params, from);
    PartsCollect(i, q, t, params, lists, parts, from);
    forall r ensures r in a <==> r in b { SplitSelects(i, q, t, params, lists, from, r); }
    ResultsCollect(i, q, t, params, lists, parts, outer);
    GuardedResult(i, q, params, outer);
    forall x ensures x in Results(i, parts, params, outer) <==> x in M.EvalQuery(i, q, false, params, outer) {
      ColumnsOfSet(i, q.columns, params, a, b, x);
      ColumnsOfSet(i, q.columns, params, b, a, x);
    }
    MergedIsSet(Results(i, parts, params, outer), M.EvalQuery(i, q, false, params, outer), key);
  }
}
