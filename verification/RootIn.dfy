/**
  Splitting an IN list of the root query that exceeds the driver's bind limit: what the parts read together, and what
  their counts add up to.
 */
module RootIn {
  import opened Common
  import opened Ir
  import M = IrMeaning

  type Row = M.Row

  /** An item that is an IN list of values. */
  predicate IsList(it: Item) {
    it.pred.Some? && it.pred.value.op == "in" && it.pred.value.sub.None? && |it.pred.value.ps| > 0
  }

  predicate ListAt(q: Query, t: nat) {
    q.where.Some? && t < |q.where.value.items| && IsList(q.where.value.items[t])
  }

  function ListOf(q: Query, t: nat): seq<int>
    requires ListAt(q, t)
  {
    q.where.value.items[t].pred.value.ps
  }

  function ItemWith(it: Item, ps: seq<int>): Item
    requires IsList(it)
  {
    it.(pred := Some(it.pred.value.(ps := ps)))
  }

  /** The query with another list in place of its list. */
  function WithList(q: Query, t: nat, ps: seq<int>): Query
    requires ListAt(q, t)
  {
    var g := q.where.value;
    q.(where := Some(g.(items := g.items[t := ItemWith(g.items[t], ps)])))
  }

  // ------------------------------------------------------------------------------------- one row

  function Put(ts: seq<M.Term>, t: nat, x: M.Truth): seq<M.Term>
    requires t < |ts|
  {
    ts[t := (ts[t].0, x)]
  }

  /** What a conjunction that is still open contributes. */
  lemma {:induction false} OpenRun(x: M.Truth, ts: seq<M.Term>)
    ensures M.Connect(x, ts).True? <==> M.Connect(M.False, ts).True? || (x.True? && M.Connect(M.True, ts).True?)
    decreases |ts|
  {
    if ts != [] && ts[0].0 != "or" {
      OpenRun(M.And3(x, ts[0].1), ts[1..]);
      OpenRun(M.And3(M.True, ts[0].1), ts[1..]);
    }
  }

  /**
    A condition holds with a truth in one place exactly when it holds with False there, or when the truth is True and it
    holds with True there.
   */
  lemma {:induction false} AtItem(run: M.Truth, ts: seq<M.Term>, t: nat, x: M.Truth)
    requires t < |ts|
    ensures M.Connect(run, Put(ts, t, x)).True? <==>
              M.Connect(run, Put(ts, t, M.False)).True? || (x.True? && M.Connect(run, Put(ts, t, M.True)).True?)
    decreases |ts|
  {
    hide M.And3, M.Or3;
    if t == 0 {
      FirstItem(run, ts, x);
    } else {
      var next := M.And3(run, ts[0].1);
      PutLater(ts, t, x);
      PutLater(ts, t, M.False);
      PutLater(ts, t, M.True);
      OrTrue(run);
      AtItem(if ts[0].0 == "or" then ts[0].1 else next, ts[1..], t - 1, x);
    }
  }

  lemma OrTrue(run: M.Truth)
    ensures forall a :: M.Or3(run, a).True? <==> run.True? || a.True?
  {
  }

  lemma PutLater(ts: seq<M.Term>, t: nat, x: M.Truth)
    requires 0 < t < |ts|
    ensures Put(ts, t, x)[0] == ts[0] && Put(ts, t, x)[1..] == Put(ts[1..], t - 1, x)
  {
  }

  lemma FirstItem(run: M.Truth, ts: seq<M.Term>, x: M.Truth)
    requires ts != []
    ensures M.Connect(run, Put(ts, 0, x)).True? <==>
              M.Connect(run, Put(ts, 0, M.False)).True? || (x.True? && M.Connect(run, Put(ts, 0, M.True)).True?)
  {
    var rest := ts[1..];
    assert forall y :: Put(ts, 0, y)[1..] == rest;
    if ts[0].0 == "or" {
      OpenRun(x, rest);
    } else {
      OpenRun(M.And3(run, x), rest);
      OpenRun(M.And3(run, M.True), rest);
    }
  }

  predicate NoOr(ts: seq<M.Term>) {
    forall n :: 0 <= n < |ts| ==> ts[n].0 != "or"
  }

  lemma NoOrConcat(a: seq<M.Term>, b: seq<M.Term>)
    requires NoOr(a) && NoOr(b)
    ensures NoOr(a + b)
  {
  }

  lemma {:induction false} FalseRun(run: M.Truth, ts: seq<M.Term>)
    requires !run.True? && NoOr(ts)
    ensures !M.Connect(run, ts).True?
    decreases |ts|
  {
    if ts != [] { FalseRun(M.And3(run, ts[0].1), ts[1..]); }
  }

  lemma {:induction false} FalseItem(run: M.Truth, ts: seq<M.Term>, t: nat)
    requires t < |ts| && ts[t].1.False? && NoOr(ts)
    ensures !M.Connect(run, ts).True?
    decreases |ts|
  {
    if t == 0 { FalseRun(M.And3(run, ts[0].1), ts[1..]); } else { FalseItem(M.And3(run, ts[0].1), ts[1..], t - 1); }
  }

  // ------------------------------------------------------------------------------------- one row of the query

  /** The place of a where item among the terms of the query's condition. */
  ghost function Place(i: M.Interp, q: Query, t: nat): nat { t + if i.soft(q.entity) == "" then 0 else 1 }

  lemma {:induction false} ItemsLength(
    i: M.Interp, items: seq<Item>, params: seq<Value>, row: Row, joined: map<string, M.Truth>)
    ensures |M.EvalItems(i, "", items, params, row, joined)| == |items|
    ensures forall n :: 0 <= n < |items| ==>
              M.EvalItems(i, "", items, params, row, joined)[n] == M.EvalItem(i, "", items[n], params, row, joined)
    decreases |items|
  {
    hide M.EvalItem;
    if items != [] { ItemsLength(i, items[1..], params, row, joined); }
  }

  /** The value that the list is compared with. */
  ghost function Compared(i: M.Interp, q: Query, t: nat, params: seq<Value>, row: Row): Value
    requires ListAt(q, t)
  {
    M.Left(i, "", q.where.value.items[t].pred.value, params, row)
  }

  ghost predicate Found(x: Value, params: seq<Value>, ps: seq<int>) {
    M.InList(x, M.Vs(params, ps)).True?
  }

  /** A valid root condition is not negated. */
  predicate Upright(q: Query) { q.where.Some? && !q.where.value.not }

  /** With another list, the condition changes in one place. */
  lemma SelectsAt(i: M.Interp, q: Query, t: nat, ps: seq<int>, params: seq<Value>, row: Row)
    requires ListAt(q, t) && Upright(q)
    ensures Place(i, q, t) < |M.Terms(i, q, false, params, row)|
    ensures M.Terms(i, WithList(q, t, ps), false, params, row)
              == Put(M.Terms(i, q, false, params, row), Place(i, q, t),
                     M.InList(Compared(i, q, t, params, row), M.Vs(params, ps)))
  {
    hide M.JoinedTruths, M.InList, M.Vs, M.Left, M.Flat, M.Unplaced, M.Placed;
    var joined := M.JoinedTruths(i, "", q.joins, params, row);
    var x := M.InList(Compared(i, q, t, params, row), M.Vs(params, ps));
    FlatAt(i, q, t, ps, params, row, joined);
    PlacedWith(q, t, ps);
    var a, b := M.Live(i, q.entity, "", row), M.Flat(i, "", q.where, params, row, joined);
    var c := M.Unplaced(i, "", M.Placed(q.where), q.joins, params, row);
    assert a + (Put(b, t, x) + c) == Put(a + (b + c), |a| + t, x);
  }

  lemma FlatAt(
    i: M.Interp, q: Query, t: nat, ps: seq<int>, params: seq<Value>, row: Row, joined: map<string, M.Truth>)
    requires ListAt(q, t) && Upright(q)
    ensures t < |M.Flat(i, "", q.where, params, row, joined)|
    ensures M.Flat(i, "", WithList(q, t, ps).where, params, row, joined)
              == Put(M.Flat(i, "", q.where, params, row, joined), t,
                     M.InList(Compared(i, q, t, params, row), M.Vs(params, ps)))
  {
    hide M.EvalItems, M.InList, M.Vs, M.Left;
    var items := q.where.value.items;
    var there := WithList(q, t, ps).where.value.items;
    ItemsLength(i, items, params, row, joined);
    ItemsLength(i, there, params, row, joined);
    ItemTruth(i, items[t], ps, params, row, joined);
    ItemTruth(i, items[t], items[t].pred.value.ps, params, row, joined);
    assert ItemWith(items[t], items[t].pred.value.ps) == items[t];
    var ts, us := M.EvalItems(i, "", items, params, row, joined), M.EvalItems(i, "", there, params, row, joined);
    assert us == Put(ts, t, M.InList(Compared(i, q, t, params, row), M.Vs(params, ps)));
  }

  /** A list places no join. */
  lemma PlacedWith(q: Query, t: nat, ps: seq<int>)
    requires ListAt(q, t)
    ensures M.Placed(WithList(q, t, ps).where) == M.Placed(q.where)
  {
    hide M.PlacedBy;
    PlacedByWith(q.where.value.items, t, ps);
  }

  lemma {:induction false} PlacedByWith(items: seq<Item>, t: nat, ps: seq<int>)
    requires t < |items| && IsList(items[t])
    ensures M.PlacedBy(items[t := ItemWith(items[t], ps)]) == M.PlacedBy(items)
    decreases |items|
  {
    var there := items[t := ItemWith(items[t], ps)];
    if t == 0 {
      assert there[1..] == items[1..];
    } else {
      assert there[1..] == items[1..][t - 1 := ItemWith(items[t], ps)];
      PlacedByWith(items[1..], t - 1, ps);
    }
  }

  lemma ItemTruth(i: M.Interp, it: Item, ps: seq<int>, params: seq<Value>, row: Row, joined: map<string, M.Truth>)
    requires IsList(it)
    ensures M.EvalItem(i, "", ItemWith(it, ps), params, row, joined)
              == (it.pred.value.conn, M.InList(M.Left(i, "", it.pred.value, params, row), M.Vs(params, ps)))
  {
    hide M.InList, M.Vs;
  }

  /** Selected although the list is empty: by an alternative that the list is not part of. */
  ghost predicate Elsewhere(i: M.Interp, q: Query, t: nat, params: seq<Value>, row: Row)
    requires ListAt(q, t)
  {
    M.Selects(i, WithList(q, t, []), false, params, row)
  }

  ghost predicate Otherwise(i: M.Interp, q: Query, t: nat, params: seq<Value>, row: Row)
    requires ListAt(q, t)
  {
    var ts, n := M.Terms(i, q, false, params, row), Place(i, q, t);
    n < |ts| && M.Connect(M.True, Put(ts, n, M.True)).True?
  }

  lemma NoValues(params: seq<Value>)
    ensures M.Vs(params, []) == []
  {
  }

  lemma SelectsIff(i: M.Interp, q: Query, t: nat, ps: seq<int>, params: seq<Value>, row: Row)
    requires ListAt(q, t) && Upright(q)
    ensures M.Selects(i, WithList(q, t, ps), false, params, row) <==>
              Elsewhere(i, q, t, params, row)
              || (Found(Compared(i, q, t, params, row), params, ps) && Otherwise(i, q, t, params, row))
  {
    hide M.Terms, Compared, Put, M.Vs, M.Connect, WithList;
    SelectsAt(i, q, t, ps, params, row);
    SelectsAt(i, q, t, [], params, row);
    var ts := M.Terms(i, q, false, params, row);
    AtItem(M.True, ts, Place(i, q, t), M.InList(Compared(i, q, t, params, row), M.Vs(params, ps)));
    assert M.Vs(params, []) == [] by { NoValues(params); }
  }

  // ------------------------------------------------------------------------------------- the parts of a list

  ghost predicate Holds(params: seq<Value>, ps: seq<int>, x: Value) {
    exists n :: 0 <= n < |ps| && Alike(x, M.V(params, ps[n]))
  }

  lemma FoundIff(x: Value, params: seq<Value>, ps: seq<int>)
    ensures Found(x, params, ps) <==> !x.Null? && Holds(params, ps, x)
  {
    var vs := M.Vs(params, ps);
    if Holds(params, ps, x) {
      var n :| 0 <= n < |ps| && Alike(x, M.V(params, ps[n]));
      assert vs[n] in vs && Alike(x, vs[n]);
    }
    if Found(x, params, ps) {
      var v :| v in vs && Alike(x, v);
      var n :| 0 <= n < |vs| && vs[n] == v;
      assert Alike(x, M.V(params, ps[n]));
    }
  }

  /** Every value of the list is in a part, every value of a part is in the list, and no value is in two parts. */
  ghost predicate Partition(params: seq<Value>, ps: seq<int>, parts: seq<seq<int>>) {
    && (forall x :: Holds(params, ps, x) <==> InSome(params, parts, x))
    && (forall a, b, x :: 0 <= a < b < |parts| && Holds(params, parts[a], x) ==> !Holds(params, parts[b], x))
  }

  ghost predicate InSome(params: seq<Value>, parts: seq<seq<int>>, x: Value) {
    exists a :: 0 <= a < |parts| && Holds(params, parts[a], x)
  }

  /** In how many parts the row is selected. */
  ghost function Times(i: M.Interp, q: Query, t: nat, params: seq<Value>, parts: seq<seq<int>>, row: Row): nat
    requires ListAt(q, t)
  {
    if parts == [] then 0
    else
      var here := if M.Selects(i, WithList(q, t, parts[0]), false, params, row) then 1 else 0;
      here + Times(i, q, t, params, parts[1..], row)
  }

  /** A row that an alternative selects is selected in every part, and any other row in the one part with its value. */
  lemma {:induction false} TimesSelected(
    i: M.Interp, q: Query, t: nat, params: seq<Value>, parts: seq<seq<int>>, row: Row)
    requires ListAt(q, t) && Upright(q)
    requires forall a, b, x :: 0 <= a < b < |parts| && Holds(params, parts[a], x) ==> !Holds(params, parts[b], x)
    ensures Times(i, q, t, params, parts, row)
              == if Elsewhere(i, q, t, params, row) then |parts|
                 else if Otherwise(i, q, t, params, row) && !Compared(i, q, t, params, row).Null?
                         && InSome(params, parts, Compared(i, q, t, params, row)) then 1
                 else 0
    decreases |parts|
  {
    hide M.Selects, Elsewhere, Otherwise, Compared, Found, Holds;
    if parts != [] {
      var x := Compared(i, q, t, params, row);
      var rest := parts[1..];
      assert forall a :: 1 <= a < |parts| ==> parts[a] == rest[a - 1];
      assert forall a :: 0 <= a < |rest| ==> rest[a] == parts[a + 1];
      TimesSelected(i, q, t, params, rest, row);
      SelectsIff(i, q, t, parts[0], params, row);
      FoundIff(x, params, parts[0]);
      assert InSome(params, parts, x) <==> Holds(params, parts[0], x) || InSome(params, rest, x);
    }
  }

  // ------------------------------------------------------------------------------------- counts

  /** The number of rows that the parts select, part by part. */
  ghost function Summed(i: M.Interp, q: Query, t: nat, params: seq<Value>, parts: seq<seq<int>>, rows: seq<Row>): nat
    requires ListAt(q, t)
  {
    if parts == [] then 0
    else |M.Filter(i, WithList(q, t, parts[0]), false, params, rows)| + Summed(i, q, t, params, parts[1..], rows)
  }

  lemma {:induction false} SummedByRow(
    i: M.Interp, q: Query, t: nat, params: seq<Value>, parts: seq<seq<int>>, rows: seq<Row>)
    requires ListAt(q, t) && rows != []
    ensures Summed(i, q, t, params, parts, rows)
              == Times(i, q, t, params, parts, rows[0]) + Summed(i, q, t, params, parts, rows[1..])
    decreases |parts|
  {
    hide M.Selects;
    if parts != [] { SummedByRow(i, q, t, params, parts[1..], rows); }
  }

  lemma {:induction false} SummedNothing(i: M.Interp, q: Query, t: nat, params: seq<Value>, parts: seq<seq<int>>)
    requires ListAt(q, t)
    ensures Summed(i, q, t, params, parts, []) == 0
    decreases |parts|
  {
    if parts != [] { SummedNothing(i, q, t, params, parts[1..]); }
  }

  /**
    The counts of the parts add up to the count of the query, plus one count of the alternatives for each further part.
   */
  lemma {:induction false} SplitCount(
    i: M.Interp, q: Query, t: nat, params: seq<Value>, parts: seq<seq<int>>, rows: seq<Row>)
    requires ListAt(q, t) && Upright(q) && |parts| >= 1 && Partition(params, ListOf(q, t), parts)
    ensures Summed(i, q, t, params, parts, rows)
              == |M.Filter(i, q, false, params, rows)| +
                (|parts| - 1) * |M.Filter(i, WithList(q, t, []), false, params, rows)|
    decreases |rows|
  {
    hide M.Selects, Otherwise, Compared, Holds, Found, Summed, Times, Partition;
    if rows == [] {
      SummedNothing(i, q, t, params, parts);
    } else {
      SummedByRow(i, q, t, params, parts, rows);
      SplitCount(i, q, t, params, parts, rows[1..]);
      OneRow(i, q, t, params, parts, rows[0]);
      var n, d := |parts| - 1, |M.Filter(i, WithList(q, t, []), false, params, rows[1..])|;
      assert n * (d + 1) == n * d + n;
    }
  }

  lemma OneRow(i: M.Interp, q: Query, t: nat, params: seq<Value>, parts: seq<seq<int>>, row: Row)
    requires ListAt(q, t) && Upright(q) && |parts| >= 1 && Partition(params, ListOf(q, t), parts)
    ensures Times(i, q, t, params, parts, row)
              == (if M.Selects(i, q, false, params, row) then 1 else 0)
                 + if M.Selects(i, WithList(q, t, []), false, params, row) then |parts| - 1 else 0
  {
    hide M.Selects, Otherwise, Compared, Holds, Found;
    var x := Compared(i, q, t, params, row);
    TimesSelected(i, q, t, params, parts, row);
    SelectsIff(i, q, t, ListOf(q, t), params, row);
    FoundIff(x, params, ListOf(q, t));
    assert WithList(q, t, ListOf(q, t)) == q by {
      var items := q.where.value.items;
      assert items[t := items[t]] == items;
    }
  }

  /** The summed count is the count of the query exactly when there is one part or no alternative selects a row. */
  lemma SplitCountExact(i: M.Interp, q: Query, t: nat, params: seq<Value>, parts: seq<seq<int>>, rows: seq<Row>)
    requires ListAt(q, t) && Upright(q) && |parts| >= 1 && Partition(params, ListOf(q, t), parts)
    ensures Summed(i, q, t, params, parts, rows) == |M.Filter(i, q, false, params, rows)| <==>
              |parts| == 1 || M.Filter(i, WithList(q, t, []), false, params, rows) == []
  {
    hide M.Selects, M.Filter, Partition;
    SplitCount(i, q, t, params, parts, rows);
    var n, d := |parts| - 1, |M.Filter(i, WithList(q, t, []), false, params, rows)|;
    assert n >= 1 && d >= 1 ==> n * d >= 1;
  }

  function ItemConn(it: Item): string {
    if it.pred.Some? then it.pred.value.conn
    else if it.group.Some? then it.group.value.conn
    else if it.joined.Some? then it.joined.value.conn
    else ""
  }

  /** No root item after the first is joined with OR. */
  predicate AllAnd(q: Query) {
    q.where.Some? && forall n :: 1 <= n < |q.where.value.items| ==> ItemConn(q.where.value.items[n]) != "or"
  }

  /** The terms of joins are not connected with OR. */
  lemma {:induction false} UnplacedAnd(
    i: M.Interp, path: string, placed: set<string>, js: seq<Option<Join>>, params: seq<Value>, row: Row)
    ensures NoOr(M.Unplaced(i, path, placed, js, params, row))
    decreases js
  {
    hide M.UnplacedOf;
    if js != [] {
      UnplacedOfAnd(i, path, placed, js[0], params, row);
      UnplacedAnd(i, path, placed, js[1..], params, row);
      NoOrConcat(M.UnplacedOf(i, path, placed, js[0], params, row), M.Unplaced(i, path, placed, js[1..], params, row));
    }
  }

  lemma {:induction false} UnplacedOfAnd(
    i: M.Interp, path: string, placed: set<string>, j: Option<Join>, params: seq<Value>, row: Row)
    ensures NoOr(M.UnplacedOf(i, path, placed, j, params, row))
    decreases j
  {
    hide M.Unplaced, M.EvalGroup, M.JoinedTruths, M.Under, M.Placed;
    if j.Some? && j.value.query.Some? {
      var q := j.value.query.value;
      var at := M.Under(path, j.value.rel);
      var own := if j.value.rel in placed then []
                 else M.Bracketed(i, at, q.where, params, row, M.JoinedTruths(i, at, q.joins, params, row));
      UnplacedAnd(i, at, M.Placed(q.where), q.joins, params, row);
      NoOrConcat(own, M.Unplaced(i, at, M.Placed(q.where), q.joins, params, row));
    }
  }

  lemma TermsAnd(i: M.Interp, q: Query, params: seq<Value>, row: Row)
    requires AllAnd(q)
    ensures NoOr(M.Terms(i, q, false, params, row))
  {
    hide M.Flat, M.Unplaced, M.JoinedTruths, M.Placed, AllAnd;
    var joined := M.JoinedTruths(i, "", q.joins, params, row);
    UnplacedAnd(i, "", M.Placed(q.where), q.joins, params, row);
    var b, c := M.Flat(i, "", q.where, params, row, joined), M.Unplaced(i, "", M.Placed(q.where), q.joins, params, row);
    FlatAnd(i, q, params, row, joined);
    NoOrConcat(b, c);
    NoOrConcat(M.Live(i, q.entity, "", row), b + c);
  }

  lemma FlatAnd(i: M.Interp, q: Query, params: seq<Value>, row: Row, joined: map<string, M.Truth>)
    requires AllAnd(q)
    ensures NoOr(M.Flat(i, "", q.where, params, row, joined))
  {
    hide M.EvalItems;
    ItemsLength(i, q.where.value.items, params, row, joined);
    var ts := M.Flat(i, "", q.where, params, row, joined);
    forall n | 0 <= n < |ts| ensures ts[n].0 != "or" { if n > 0 { ItemConnector(i, q, n, params, row, joined); } }
  }

  lemma ItemConnector(i: M.Interp, q: Query, n: nat, params: seq<Value>, row: Row, joined: map<string, M.Truth>)
    requires AllAnd(q) && 1 <= n < |q.where.value.items|
    ensures M.EvalItem(i, "", q.where.value.items[n], params, row, joined).0 != "or"
  {
    hide M.EvalPred, M.EvalGroup;
    assert ItemConn(q.where.value.items[n]) != "or";
  }

  /** With AND between all root items no alternative selects a row, so the counts of the parts add up to the count. */
  lemma {:induction false} AllAndHasNoAlternative(i: M.Interp, q: Query, t: nat, params: seq<Value>, rows: seq<Row>)
    requires ListAt(q, t) && Upright(q) && AllAnd(q)
    ensures M.Filter(i, WithList(q, t, []), false, params, rows) == []
    decreases |rows|
  {
    hide M.Terms, WithList, AllAnd;
    if rows != [] {
      var row := rows[0];
      SelectsAt(i, q, t, [], params, row);
      NoValues(params);
      TermsAnd(i, q, params, row);
      FalseItem(M.True, M.Terms(i, WithList(q, t, []), false, params, row), Place(i, q, t));
      AllAndHasNoAlternative(i, q, t, params, rows[1..]);
    }
  }

  // ------------------------------------------------------------------------------------- rows

  /** The rows of the parts, one part after the other. */
  ghost function Collected(
    i: M.Interp, q: Query, t: nat, params: seq<Value>, parts: seq<seq<int>>, rows: seq<Row>): seq<Row>
    requires ListAt(q, t)
  {
    if parts == [] then []
    else M.Filter(i, WithList(q, t, parts[0]), false, params, rows) + Collected(i, q, t, params, parts[1..], rows)
  }

  lemma {:induction false} FilterHolds(i: M.Interp, q: Query, params: seq<Value>, rows: seq<Row>, row: Row)
    ensures row in M.Filter(i, q, false, params, rows) <==> row in rows && M.Selects(i, q, false, params, row)
    decreases |rows|
  {
    hide M.Selects;
    if rows != [] {
      FilterHolds(i, q, params, rows[1..], row);
      assert rows == [rows[0]] + rows[1..];
    }
  }

  lemma {:induction false} CollectedHolds(
    i: M.Interp, q: Query, t: nat, params: seq<Value>, parts: seq<seq<int>>, rows: seq<Row>, row: Row)
    requires ListAt(q, t)
    ensures row in Collected(i, q, t, params, parts, rows) <==> row in rows && Times(i, q, t, params, parts, row) > 0
    decreases |parts|
  {
    hide M.Selects, M.Filter;
    if parts != [] {
      FilterHolds(i, WithList(q, t, parts[0]), params, rows, row);
      CollectedHolds(i, q, t, params, parts[1..], rows, row);
    }
  }

  /** The parts together select exactly the rows that the query selects, whatever the connectors are. */
  lemma SplitSelects(i: M.Interp, q: Query, t: nat, params: seq<Value>, parts: seq<seq<int>>, rows: seq<Row>, row: Row)
    requires ListAt(q, t) && Upright(q) && |parts| >= 1 && Partition(params, ListOf(q, t), parts)
    ensures row in Collected(i, q, t, params, parts, rows) <==> row in M.Filter(i, q, false, params, rows)
  {
    hide M.Selects, M.Filter, Partition, Times, Collected;
    CollectedHolds(i, q, t, params, parts, rows, row);
    FilterHolds(i, q, params, rows, row);
    OneRow(i, q, t, params, parts, row);
    SelectsIff(i, q, t, ListOf(q, t), params, row);
    assert WithList(q, t, ListOf(q, t)) == q by {
      var items := q.where.value.items;
      assert items[t := items[t]] == items;
    }
  }
}
