/**
  What a request tree means once its parameters are given: which rows a query reads, from which joined tables, in which
  order and range, with which computed columns; what its relations read; and what a write assigns.
  Scalar operators, functions, sorting and grouping are those of an arbitrary database, given by `Interp`.
 */
module IrMeaning {
  import opened Common
  import opened Ir

  type Row = map<string, Value>

  datatype Truth = True | False | Unknown

  function And3(a: Truth, b: Truth): Truth {
    if a.False? || b.False? then False else if a.True? && b.True? then True else Unknown
  }

  function Or3(a: Truth, b: Truth): Truth {
    if a.True? || b.True? then True else if a.False? && b.False? then False else Unknown
  }

  function Not3(a: Truth): Truth {
    match a case True => False case False => True case Unknown => Unknown
  }

  /** `x IN (vs)` in SQL's three-valued logic. */
  function InList(x: Value, vs: seq<Value>): Truth {
    if vs == [] then False
    else if x.Null? then Unknown
    else if exists v :: v in vs && Alike(x, v) then True
    else if Null in vs then Unknown
    else False
  }

  /** Repeating values of a list, or leaving out repetitions, changes no membership. */
  lemma InListBySet(x: Value, vs: seq<Value>, ws: seq<Value>)
    requires forall v :: v in vs <==> v in ws
    ensures InList(x, vs) == InList(x, ws)
  {
    if vs != [] { assert vs[0] in ws; }
    if ws != [] { assert ws[0] in vs; }
  }

  datatype Call = Call(name: string, args: seq<Value>)

  datatype OrderKey = OrderKey(column: string, desc: bool, random: bool, fn: Option<Call>)

  datatype Interp = Interp(
    table: string -> seq<Row>,                       // the rows of an entity
    soft: string -> string,                          // the soft delete column of an entity, "" without one
    cell: (Row, string, string) -> Value,            // the cell of a row by path and column
    merge: (Row, string, Row) -> Row,                // a row with another one under a path
    test: (string, Value, seq<Value>) -> Truth,      // an operator on a left value and its arguments
    call: (string, Value, seq<Value>) -> Value,      // a function on a value and its arguments
    fold: (string, seq<Value>) -> Value,             // an aggregate
    sort: (seq<OrderKey>, seq<Row>) -> seq<Row>,
    group: (seq<string>, seq<Row>) -> seq<Row>)

  function V(params: seq<Value>, p: int): Value { if 0 <= p < |params| then params[p] else Null }

  function VOpt(params: seq<Value>, p: Option<int>): seq<Value> { if p.None? then [] else [V(params, p.value)] }

  function Vs(params: seq<Value>, ps: seq<int>): (r: seq<Value>)
    ensures |r| == |ps|
  {
    seq(|ps|, i requires 0 <= i < |ps| => V(params, ps[i]))
  }

  // ---------------------------------------------------------------------------------- conditions

  /** A part of a condition, and how it is connected with the part in front of it. */
  type Term = (string, Truth)

  function Left(i: Interp, path: string, p: Pred, params: seq<Value>, row: Row): Value {
    var v := i.cell(row, path, p.column);
    if p.fn.None? then v else i.call(p.fn.value.name, v, Vs(params, p.fn.value.ps))
  }

  /**
    The arguments of an operator other than IN: its values, the compared column, the value function and its columns.
   */
  function Arguments(i: Interp, path: string, p: Pred, params: seq<Value>, row: Row): seq<Value> {
    VOpt(params, p.p) + Vs(params, p.ps)
      + (if p.ref.None? then [] else [i.cell(row, p.ref.value.path, p.ref.value.column)])
      + (if p.value.None? then [] else [i.call(p.value.value.name, Null, Vs(params, p.value.value.ps))])
      + seq(|p.cols|, n requires 0 <= n < |p.cols| => i.cell(row, path, p.cols[n]))
  }

  function EvalPred(i: Interp, path: string, p: Pred, params: seq<Value>, row: Row): Truth
    decreases p, 0, 0
  {
    var left := Left(i, path, p, params, row);
    if p.op == "in" || p.op == "not_in" then
      var t := InList(left, if p.sub.None? then Vs(params, p.ps) else EvalSub(i, p.sub.value, params, row));
      if p.op == "in" then t else Not3(t)
    else i.test(p.op, left, Arguments(i, path, p, params, row))
  }

  function EvalSub(i: Interp, s: Sub, params: seq<Value>, row: Row): seq<Value>
    decreases s, 0, 0
  {
    if s.query.None? then [] else
    var rows := EvalQuery(i, s.query.value, false, params, row);
    var vs := seq(|rows|, n requires 0 <= n < |rows| => i.cell(rows[n], "", s.column));
    if s.agg == "" then vs else [i.fold(s.agg, vs)]
  }

  /** The connector of an item and its truth; `joined` holds the truth of the conditions of each join by its name. */
  function EvalItem(
    i: Interp, path: string, it: Item, params: seq<Value>, row: Row, joined: map<string, Truth>): Term
    decreases it, 0, 0
  {
    if it.pred.Some? then (it.pred.value.conn, EvalPred(i, path, it.pred.value, params, row))
    else if it.group.Some? then (it.group.value.conn, EvalGroup(i, path, it.group, params, row, joined))
    else if it.joined.Some? then
      (it.joined.value.conn, if it.joined.value.join in joined then joined[it.joined.value.join] else True)
    else ("", True)
  }

  function EvalItems(
    i: Interp, path: string, items: seq<Item>, params: seq<Value>, row: Row, joined: map<string, Truth>): seq<Term>
    decreases items, 0, 0
  {
    if items == [] then []
    else [EvalItem(i, path, items[0], params, row, joined)] + EvalItems(i, path, items[1..], params, row, joined)
  }

  /** AND binds tighter than OR: `run` is the conjunction since the last OR. */
  function Connect(run: Truth, ts: seq<Term>): Truth
    decreases |ts|
  {
    if ts == [] then run
    else if ts[0].0 == "or" then Or3(run, Connect(ts[0].1, ts[1..]))
    else Connect(And3(run, ts[0].1), ts[1..])
  }

  /** A group in parentheses. */
  function EvalGroup(
    i: Interp, path: string, g: Option<Group>, params: seq<Value>, row: Row, joined: map<string, Truth>): Truth
    decreases g, 0, 0
  {
    if g.None? then True else
    var ts := EvalItems(i, path, g.value.items, params, row, joined);
    var t := if ts == [] then True else Connect(ts[0].1, ts[1..]);
    if g.value.not then Not3(t) else t
  }

  predicate Empty(g: Option<Group>) { g.None? || g.value.items == [] }

  /** A group in parentheses as one term of a condition, unless it is empty. */
  function Bracketed(
    i: Interp, path: string, g: Option<Group>, params: seq<Value>, row: Row, joined: map<string, Truth>): seq<Term>
    decreases g, 1, 0
  {
    if Empty(g) then [] else [("and", EvalGroup(i, path, g, params, row, joined))]
  }

  /** The items of a group written without parentheses: a NOT in front of them negates the first. */
  function Flat(
    i: Interp, path: string, g: Option<Group>, params: seq<Value>, row: Row, joined: map<string, Truth>): seq<Term>
    decreases g, 1, 0
  {
    if g.None? then [] else
    var ts := EvalItems(i, path, g.value.items, params, row, joined);
    if ts == [] then [] else [("and", if g.value.not then Not3(ts[0].1) else ts[0].1)] + ts[1..]
  }

  /** Rows that are not soft-deleted. */
  function Live(i: Interp, entity: string, path: string, row: Row): seq<Term> {
    var c := i.soft(entity);
    if c == "" then [] else [("and", if i.cell(row, path, c).Null? then True else False)]
  }

  // --------------------------------------------------------------------------------------- joins

  function Under(path: string, rel: string): string { if path == "" then rel else path + "/" + rel }

  /** The where conditions of every join, which a joined item of the enclosing where refers to by name. */
  function JoinedTruths(
    i: Interp, path: string, js: seq<Option<Join>>, params: seq<Value>, row: Row): map<string, Truth>
    decreases js, 0, 0
  {
    if js == [] then map[]
    else JoinedTruths(i, path, js[1..], params, row) + JoinTruth(i, path, js[0], params, row)
  }

  function JoinTruth(i: Interp, path: string, j: Option<Join>, params: seq<Value>, row: Row): map<string, Truth>
    decreases j, 0, 0
  {
    if j.None? || j.value.query.None? then map[] else
    var q := j.value.query.value;
    var at := Under(path, j.value.rel);
    map[j.value.rel := EvalGroup(i, at, q.where, params, row, JoinedTruths(i, at, q.joins, params, row))]
  }

  function EvalJoins(i: Interp, path: string, js: seq<Option<Join>>, params: seq<Value>, rows: seq<Row>): seq<Row>
    decreases js, 0, 0
  {
    if js == [] then rows else EvalJoins(i, path, js[1..], params, EvalJoin(i, path, js[0], params, rows))
  }

  /** The joins of a join apply to every row that it gives, also to one that a left join keeps without a match. */
  function EvalJoin(i: Interp, path: string, j: Option<Join>, params: seq<Value>, rows: seq<Row>): seq<Row>
    decreases j, 1, |rows|
  {
    if j.None? || j.value.query.None? then rows
    else if rows == [] then []
    else
      var q := j.value.query.value;
      var at := Under(path, j.value.rel);
      var matches := Matches(i, path, j.value, q.entity, q.on, params, rows[0], i.table(q.entity));
      var given := if matches == [] && j.value.kind == "left" then [rows[0]] else matches;
      EvalJoins(i, at, q.joins, params, given) + EvalJoin(i, path, j, params, rows[1..])
  }

  /** The live rows of the joined table whose key equals the row's and that meet the join's condition. */
  function Matches(
    i: Interp, path: string, j: Join, entity: string, on: Option<Group>, params: seq<Value>, row: Row, table: seq<Row>)
    : seq<Row>
    decreases on, 2, |table|
  {
    if table == [] then [] else
    var at := Under(path, j.rel);
    var merged := i.merge(row, at, table[0]);
    var rest := Matches(i, path, j, entity, on, params, row, table[1..]);
    var same := i.test("eq", i.cell(row, path, j.left), [i.cell(merged, at, j.right)]);
    if Connect(same, Live(i, entity, at, merged) + Flat(i, at, on, params, merged, map[])).True?
    then [merged] + rest else rest
  }

  /** The joins whose conditions a group places. */
  function Placed(g: Option<Group>): set<string>
    decreases g
  {
    if g.None? then {} else PlacedBy(g.value.items)
  }

  function PlacedBy(items: seq<Item>): set<string>
    decreases items
  {
    if items == [] then {} else PlacedByItem(items[0]) + PlacedBy(items[1..])
  }

  function PlacedByItem(it: Item): set<string>
    decreases it
  {
    (if it.joined.None? then {} else {it.joined.value.join}) + Placed(it.group)
  }

  /** The where conditions of the joins, and of the joins below them, that no group places. */
  function Unplaced(i: Interp, path: string, placed: set<string>, js: seq<Option<Join>>, params: seq<Value>, row: Row)
    : seq<Term>
    decreases js, 1, 0
  {
    if js == [] then []
    else UnplacedOf(i, path, placed, js[0], params, row) + Unplaced(i, path, placed, js[1..], params, row)
  }

  function UnplacedOf(i: Interp, path: string, placed: set<string>, j: Option<Join>, params: seq<Value>, row: Row)
    : seq<Term>
    decreases j, 1, 0
  {
    if j.None? || j.value.query.None? then [] else
    var q := j.value.query.value;
    var at := Under(path, j.value.rel);
    (if j.value.rel in placed then []
     else Bracketed(i, at, q.where, params, row, JoinedTruths(i, at, q.joins, params, row)))
    + Unplaced(i, at, Placed(q.where), q.joins, params, row)
  }

  // --------------------------------------------------------------------------------------- query

  function Filter(i: Interp, q: Query, related: bool, params: seq<Value>, rows: seq<Row>): seq<Row>
    decreases q, 2, |rows|
  {
    if rows == [] then []
    else if Selects(i, q, related, params, rows[0]) then [rows[0]] + Filter(i, q, related, params, rows[1..])
    else Filter(i, q, related, params, rows[1..])
  }

  /**
    The terms of a query's condition: the row is live, it meets the where group, and it meets the conditions of the
    joins that the group does not place.  Only the query of a relation has its where group in parentheses.
   */
  function Terms(i: Interp, q: Query, related: bool, params: seq<Value>, row: Row): seq<Term>
    decreases q, 0, 0
  {
    var joined := JoinedTruths(i, "", q.joins, params, row);
    Live(i, q.entity, "", row)
    + ((if related then Bracketed(i, "", q.where, params, row, joined) else Flat(i, "", q.where, params, row, joined))
       + Unplaced(i, "", Placed(q.where), q.joins, params, row))
  }

  /** Whether a row meets the condition of a query. */
  predicate Selects(i: Interp, q: Query, related: bool, params: seq<Value>, row: Row)
    decreases q, 1, 0
  {
    Connect(True, Terms(i, q, related, params, row)).True?
  }

  function Keys(os: seq<Order>, params: seq<Value>): seq<OrderKey> {
    if os == [] then []
    else [OrderKey(os[0].column, os[0].desc, os[0].random,
                   if os[0].fn.None? then None else Some(Call(os[0].fn.value.name, Vs(params, os[0].fn.value.ps))))]
         + Keys(os[1..], params)
  }

  function PageOf(l: Limit, params: seq<Value>): (int, int) {
    if l.offsetP.Some? && l.countP.Some? then (Number(V(params, l.offsetP.value)), Number(V(params, l.countP.value)))
    else (l.offset, l.count)
  }

  function Number(v: Value): int { if v.Int? then v.i else 0 }

  function EvalLimit(l: Option<Limit>, params: seq<Value>, rows: seq<Row>): seq<Row> {
    if l.None? then rows else
    var (offset, count) := PageOf(l.value, params);
    var rest := if offset <= 0 then rows else if offset >= |rows| then [] else rows[offset..];
    if count <= 0 then [] else if count >= |rest| then rest else rest[..count]
  }

  function ColFns(i: Interp, fs: seq<ColFunc>, params: seq<Value>, row: Row): Row
    decreases |fs|
  {
    if fs == [] then row
    else ColFns(i, fs[1..], params,
      row[fs[0].name := i.call(fs[0].fn.name, i.cell(row, "", fs[0].column), Vs(params, fs[0].fn.ps))])
  }

  function ColSubs(i: Interp, ss: seq<ColSub>, params: seq<Value>, row: Row): Row
    decreases ss, 0, 0
  {
    if ss == [] then row else ColSubs(i, ss[1..], params, ColSubOf(i, ss[0], params, row))
  }

  function ColSubOf(i: Interp, s: ColSub, params: seq<Value>, row: Row): Row
    decreases s, 0, 0
  {
    if s.sub.None? then row else
    var vs := EvalSub(i, s.sub.value, params, row);
    row[s.name := if vs == [] then Null else vs[0]]
  }

  function EvalColumns(i: Interp, c: Option<Columns>, params: seq<Value>, rows: seq<Row>): seq<Row>
    decreases c, 1, |rows|
  {
    if c.None? then rows
    else if rows == [] then []
    else
      var row := ColSubs(i, c.value.sub, params, ColFns(i, c.value.fn, params, rows[0]));
      [row] + EvalColumns(i, c, params, rows[1..])
  }

  /** The rows a query reads, for a row of the query that encloses it. */
  function EvalQuery(i: Interp, q: Query, related: bool, params: seq<Value>, outer: Row): seq<Row>
    decreases q, 3, 0
  {
    var table := i.table(q.entity);
    var from := seq(|table|, n requires 0 <= n < |table| => i.merge(table[n], "^", outer));
    var rows := Filter(i, q, related, params, EvalJoins(i, "", q.joins, params, from));
    EvalColumns(i, q.columns, params,
      EvalLimit(q.limit, params, i.sort(Keys(q.order, params), i.group(q.groupBy, rows))))
  }

  // ----------------------------------------------------------------------------- relations, writes

  /** What a query reads together with its relations, each for the parents that its condition selects. */
  datatype Result = Result(rows: seq<Row>, ifParent: Option<(string, Value)>, related: seq<Option<Related>>)

  datatype Related = Related(rel: string, kind: string, keys: seq<KeyPair>, result: Option<Result>)

  function Read(i: Interp, q: Query, related: bool, params: seq<Value>): Result
    decreases q, 4, 0
  {
    Result(EvalQuery(i, q, related, params, map[]),
           if q.ifParent.None? then None else Some((q.ifParent.value.column, V(params, q.ifParent.value.p))),
           ReadRelations(i, q.relations, params))
  }

  function ReadRelations(i: Interp, rs: seq<Option<Relation>>, params: seq<Value>): seq<Option<Related>>
    decreases rs, 0, 0
  {
    if rs == [] then [] else [ReadRelation(i, rs[0], params)] + ReadRelations(i, rs[1..], params)
  }

  function ReadRelation(i: Interp, r: Option<Relation>, params: seq<Value>): Option<Related>
    decreases r, 0, 0
  {
    if r.None? then None
    else Some(Related(r.value.rel, r.value.kind, r.value.keys,
                      if r.value.query.None? then None else Some(Read(i, r.value.query.value, true, params))))
  }

  datatype Assigned = Assigned(column: string, value: seq<Value>, isNull: bool, plus: seq<Value>, minus: seq<Value>)

  function Assigns(s: seq<Assign>, params: seq<Value>): seq<Assigned> {
    if s == [] then []
    else
      var plus, minus := VOpt(params, s[0].plusP), VOpt(params, s[0].minusP);
      [Assigned(s[0].column, VOpt(params, s[0].p), s[0].isNull, plus, minus)] + Assigns(s[1..], params)
  }

  function InsertRows(rows: seq<seq<int>>, params: seq<Value>): seq<seq<Value>> {
    if rows == [] then [] else [Vs(params, rows[0])] + InsertRows(rows[1..], params)
  }

  /** The condition of an update or a delete: the where group, the expected revision of an update, and a live row. */
  function WriteTerms(i: Interp, q: Query, o: Option<Optimist>, params: seq<Value>, row: Row): seq<Term> {
    Flat(i, "", q.where, params, row, map[])
    + ((if o.None? then [] else [("and", i.test("eq", i.cell(row, "", o.value.column), [V(params, o.value.p)]))])
       + Live(i, q.entity, "", row))
  }

  /** The rows that an update or a delete changes. */
  function Changed(i: Interp, q: Query, o: Option<Optimist>, params: seq<Value>, rows: seq<Row>): seq<Row>
    decreases |rows|
  {
    if rows == [] then []
    else if Connect(True, WriteTerms(i, q, o, params, rows[0])).True?
    then [rows[0]] + Changed(i, q, o, params, rows[1..])
    else Changed(i, q, o, params, rows[1..])
  }

  datatype Meaning = Meaning(
    read: Result, changed: seq<Row>, sets: seq<Assigned>, onDuplicate: seq<Assigned>, rows: seq<seq<Value>>,
    optimistic: Option<(string, Value)>)

  function Mean(i: Interp, r: Request, params: seq<Value>): Meaning {
    var expected := if r.kind == "update" then r.optimistic else None;
    Meaning(Read(i, r.query, false, params), Changed(i, r.query, expected, params, i.table(r.query.entity)),
            Assigns(r.sets, params), Assigns(r.onDuplicate, params), InsertRows(r.rows, params),
            if r.optimistic.None? then None else Some((r.optimistic.value.column, V(params, r.optimistic.value.p))))
  }
}
