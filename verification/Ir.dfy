/**
  The request tree that a client sends: a statement whose values are indexes into a separate list of parameters.
  A map from output names to column functions or subqueries is its entries in key order.
 */
module Ir {
  import opened Common

  datatype Func = Func(name: string, ps: seq<int>)

  datatype ColRef = ColRef(path: string, column: string)

  datatype Pred = Pred(
    conn: string, column: string, op: string, p: Option<int>, ps: seq<int>, ref: Option<ColRef>,
    fn: Option<Func>, value: Option<Func>, cols: seq<string>, sub: Option<Sub>)

  datatype JoinedRef = JoinedRef(conn: string, join: string)

  datatype Item = Item(pred: Option<Pred>, group: Option<Group>, joined: Option<JoinedRef>)

  datatype Group = Group(conn: string, not: bool, items: seq<Item>)

  datatype Sub = Sub(query: Option<Query>, column: string, agg: string)

  datatype ColFunc = ColFunc(name: string, column: string, fn: Func)

  datatype ColSub = ColSub(name: string, sub: Option<Sub>)

  datatype Columns = Columns(mode: string, add: seq<string>, remove: seq<string>, fn: seq<ColFunc>, sub: seq<ColSub>)

  datatype Join = Join(rel: string, kind: string, query: Option<Query>, left: string, right: string)

  datatype KeyPair = KeyPair(left: string, right: string)

  datatype Relation = Relation(rel: string, query: Option<Query>, kind: string, keys: seq<KeyPair>)

  datatype Order = Order(column: string, desc: bool, random: bool, fn: Option<Func>)

  datatype Limit = Limit(offset: int, count: int, offsetP: Option<int>, countP: Option<int>)

  datatype IfParent = IfParent(column: string, p: int)

  /** The options of a query that hold no parameter. */
  datatype Options = Options(
    forceIdx: string, lock: string, keyBy: string, flatten: bool, limitPerParent: int, noCascadeDelete: bool)

  datatype Query = Query(
    entity: string, columns: Option<Columns>, on: Option<Group>, where: Option<Group>,
    joins: seq<Option<Join>>, relations: seq<Option<Relation>>, order: seq<Order>, groupBy: seq<string>,
    limit: Option<Limit>, options: Options, ifParent: Option<IfParent>)

  datatype Assign = Assign(column: string, p: Option<int>, isNull: bool, plusP: Option<int>, minusP: Option<int>)

  datatype Optimist = Optimist(column: string, p: int)

  datatype Request = Request(
    irVersion: int, manifestHash: string, kind: string, query: Query, load: bool, sets: seq<Assign>,
    onDuplicate: seq<Assign>, rows: seq<seq<int>>, optimistic: Option<Optimist>, agg: string, nParams: int)

  /** An IN list of values, the one kind of list that a repeated value does not change. */
  predicate IsValueList(p: Pred) {
    (p.op == "in" || p.op == "not_in") && p.sub.None?
  }
}
