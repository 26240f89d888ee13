/**
  What canonicalization keeps of a tree, read off the tree itself.  Two trees have one shape when they agree in
  everything but parameter references, the length of value lists, the numbers of a root limit and the count of
  parameters.
 */
module CanonicalTree {
  import opened Common
  import opened Ir
  import opened Canonical

  // ------------------------------------------------------------------------------------- one shape

  predicate SameFn(a: Option<Func>, b: Option<Func>) {
    match (a, b)
    case (None, None) => true
    case (Some(f), Some(g)) => f.name == g.name && |f.ps| == |g.ps|
    case _ => false
  }

  /** A list of values may be longer, but neither begins nor ceases to be empty. */
  predicate SameList(a: Pred, b: Pred) {
    if IsValueList(a) then |a.ps| <= |b.ps| && (a.ps == [] <==> b.ps == []) else |a.ps| == |b.ps|
  }

  predicate SamePred(a: Pred, b: Pred)
    decreases a
  {
    && a.conn == b.conn && a.column == b.column && a.op == b.op && a.ref == b.ref && a.cols == b.cols
    && (a.p.Some? <==> b.p.Some?) && SameList(a, b) && SameFn(a.fn, b.fn) && SameFn(a.value, b.value)
    && SameSub(a.sub, b.sub)
  }

  predicate SameSub(a: Option<Sub>, b: Option<Sub>)
    decreases a
  {
    match (a, b)
    case (None, None) => true
    case (Some(s), Some(t)) => s.column == t.column && s.agg == t.agg && SameQueryPtr(s.query, t.query)
    case _ => false
  }

  predicate SameQueryPtr(a: Option<Query>, b: Option<Query>)
    decreases a
  {
    match (a, b)
    case (None, None) => true
    case (Some(p), Some(q)) => SameQuery(p, q, false)
    case _ => false
  }

  predicate SameItem(a: Item, b: Item)
    decreases a
  {
    && a.joined == b.joined && (a.pred.Some? <==> b.pred.Some?)
    && (a.pred.Some? && b.pred.Some? ==> SamePred(a.pred.value, b.pred.value))
    && SameGroup(a.group, b.group)
  }

  predicate SameGroup(a: Option<Group>, b: Option<Group>)
    decreases a
  {
    match (a, b)
    case (None, None) => true
    case (Some(g), Some(h)) => g.conn == h.conn && g.not == h.not && SameItems(g.items, h.items)
    case _ => false
  }

  predicate SameItems(a: seq<Item>, b: seq<Item>)
    decreases a
  {
    |a| == |b| && (a != [] ==> SameItem(a[0], b[0]) && SameItems(a[1..], b[1..]))
  }

  predicate SameColFn(a: ColFunc, b: ColFunc) {
    a.name == b.name && a.column == b.column && SameFn(Some(a.fn), Some(b.fn))
  }

  predicate SameColFns(a: seq<ColFunc>, b: seq<ColFunc>) {
    |a| == |b| && forall i :: 0 <= i < |a| ==> SameColFn(a[i], b[i])
  }

  predicate SameColSubs(a: seq<ColSub>, b: seq<ColSub>)
    decreases a
  {
    |a| == |b| && (a != [] ==> a[0].name == b[0].name && SameSub(a[0].sub, b[0].sub) && SameColSubs(a[1..], b[1..]))
  }

  predicate SameColumns(a: Option<Columns>, b: Option<Columns>)
    decreases a
  {
    match (a, b)
    case (None, None) => true
    case (Some(c), Some(d)) =>
      c.mode == d.mode && c.add == d.add && c.remove == d.remove && SameColFns(c.fn, d.fn) && SameColSubs(c.sub, d.sub)
    case _ => false
  }

  predicate SameJoin(a: Option<Join>, b: Option<Join>)
    decreases a
  {
    match (a, b)
    case (None, None) => true
    case (Some(i), Some(j)) =>
      && i.rel == j.rel && i.kind == j.kind && i.left == j.left && i.right == j.right && SameQueryPtr(i.query, j.query)
    case _ => false
  }

  predicate SameJoins(a: seq<Option<Join>>, b: seq<Option<Join>>)
    decreases a
  {
    |a| == |b| && (a != [] ==> SameJoin(a[0], b[0]) && SameJoins(a[1..], b[1..]))
  }

  predicate SameRelation(a: Option<Relation>, b: Option<Relation>)
    decreases a
  {
    match (a, b)
    case (None, None) => true
    case (Some(r), Some(s)) => r.rel == s.rel && r.kind == s.kind && r.keys == s.keys && SameQueryPtr(r.query, s.query)
    case _ => false
  }

  predicate SameRelations(a: seq<Option<Relation>>, b: seq<Option<Relation>>)
    decreases a
  {
    |a| == |b| && (a != [] ==> SameRelation(a[0], b[0]) && SameRelations(a[1..], b[1..]))
  }

  predicate SameOrder(a: Order, b: Order) {
    a.column == b.column && a.desc == b.desc && a.random == b.random && SameFn(a.fn, b.fn)
  }

  predicate SameOrders(a: seq<Order>, b: seq<Order>) {
    |a| == |b| && forall i :: 0 <= i < |a| ==> SameOrder(a[i], b[i])
  }

  /** Only the limit of the root query may change, and only to another limit. */
  predicate SameLimit(a: Option<Limit>, b: Option<Limit>, root: bool) {
    if root then a.Some? <==> b.Some? else a == b
  }

  predicate SameIfParent(a: Option<IfParent>, b: Option<IfParent>) {
    (a.Some? <==> b.Some?) && (a.Some? && b.Some? ==> a.value.column == b.value.column)
  }

  predicate SameQuery(a: Query, b: Query, root: bool)
    decreases a
  {
    && a.entity == b.entity && a.groupBy == b.groupBy && a.options == b.options
    && SameColumns(a.columns, b.columns) && SameGroup(a.on, b.on) && SameGroup(a.where, b.where)
    && SameJoins(a.joins, b.joins) && SameRelations(a.relations, b.relations) && SameOrders(a.order, b.order)
    && SameLimit(a.limit, b.limit, root) && SameIfParent(a.ifParent, b.ifParent)
  }

  predicate SameAssign(a: Assign, b: Assign) {
    && a.column == b.column && a.isNull == b.isNull && (a.p.Some? <==> b.p.Some?)
    && (a.plusP.Some? <==> b.plusP.Some?) && (a.minusP.Some? <==> b.minusP.Some?)
  }

  predicate SameAssigns(a: seq<Assign>, b: seq<Assign>) {
    |a| == |b| && forall i :: 0 <= i < |a| ==> SameAssign(a[i], b[i])
  }

  predicate SameRows(a: seq<seq<int>>, b: seq<seq<int>>) {
    |a| == |b| && forall i :: 0 <= i < |a| ==> |a[i]| == |b[i]|
  }

  predicate SameOptimist(a: Option<Optimist>, b: Option<Optimist>) {
    (a.Some? <==> b.Some?) && (a.Some? && b.Some? ==> a.value.column == b.value.column)
  }

  predicate SameRequest(a: Request, b: Request) {
    && a.irVersion == b.irVersion && a.manifestHash == b.manifestHash && a.kind == b.kind && a.load == b.load
    && a.agg == b.agg && SameQuery(a.query, b.query, true) && SameAssigns(a.sets, b.sets)
    && SameAssigns(a.onDuplicate, b.onDuplicate) && SameRows(a.rows, b.rows) && SameOptimist(a.optimistic, b.optimistic)
  }

  // ------------------------------------------------------------------------------------- a filled tree has one shape

  lemma PredShape(p: Pred, k: int, f: int -> int)
    ensures SamePred(p, FillPred(p, k, f))
    decreases p, 0
  {
    hide SubSlots, SameSub, FillSub;
    var k4 := k + |OptSlots(p.p)| + |PsSlots(p)| + |FnSlots(p.fn)| + |FnSlots(p.value)|;
    SubShape(p.sub, k4, f);
    ListLength(p);
  }

  lemma ListLength(p: Pred)
    ensures IsValueList(p) ==> |PsSlots(p)| >= |p.ps| && (p.ps == [] <==> |PsSlots(p)| == 0)
    ensures !IsValueList(p) ==> |PsSlots(p)| == |p.ps|
  {
  }

  lemma SubShape(s: Option<Sub>, k: int, f: int -> int)
    ensures SameSub(s, FillSub(s, k, f))
    decreases s, 0
  {
    hide SameQuery, FillQuery;
    if s.Some? && s.value.query.Some? { QueryShape(s.value.query.value, false, k, f); }
  }

  lemma ItemShape(it: Item, k: int, f: int -> int)
    ensures SameItem(it, FillItem(it, k, f))
    decreases it, 0
  {
    hide SamePred, FillPred, SameGroup, FillGroup, PredSlots;
    if it.pred.Some? { PredShape(it.pred.value, k, f); }
    GroupShape(it.group, k + if it.pred.None? then 0 else |PredSlots(it.pred.value)|, f);
  }

  lemma GroupShape(g: Option<Group>, k: int, f: int -> int)
    ensures SameGroup(g, FillGroup(g, k, f))
    decreases g, 0
  {
    hide SameItems, FillItems;
    if g.Some? { ItemsShape(g.value.items, k, f); }
  }

  lemma {:induction false} ItemsShape(items: seq<Item>, k: int, f: int -> int)
    ensures SameItems(items, FillItems(items, k, f))
    decreases items, 0
  {
    hide SameItem, FillItem, ItemSlots;
    if items != [] {
      ItemShape(items[0], k, f);
      ItemsShape(items[1..], k + |ItemSlots(items[0])|, f);
      assert FillItems(items, k, f)[1..] == FillItems(items[1..], k + |ItemSlots(items[0])|, f);
    }
  }

  lemma ColFnShape(c: ColFunc, k: int, f: int -> int)
    ensures SameColFn(c, c.(fn := c.fn.(ps := Fresh(|c.fn.ps|, k, f))))
  {
  }

  lemma {:induction false} ColFnsShape(fs: seq<ColFunc>, k: int, f: int -> int)
    ensures SameColFns(fs, FillColFns(fs, k, f))
    decreases |fs|
  {
    hide SameColFn;
    if fs != [] {
      var x := fs[0].(fn := fs[0].fn.(ps := Fresh(|fs[0].fn.ps|, k, f)));
      var rest := FillColFns(fs[1..], k + |fs[0].fn.ps|, f);
      ColFnsShape(fs[1..], k + |fs[0].fn.ps|, f);
      ColFnShape(fs[0], k, f);
      assert forall i :: 1 <= i < |fs| ==> fs[i] == fs[1..][i - 1] && ([x] + rest)[i] == rest[i - 1];
    }
  }

  lemma {:induction false} ColSubsShape(ss: seq<ColSub>, k: int, f: int -> int)
    ensures SameColSubs(ss, FillColSubs(ss, k, f))
    decreases ss, 0
  {
    hide SameSub, FillSub, SubSlots;
    if ss != [] {
      SubShape(ss[0].sub, k, f);
      ColSubsShape(ss[1..], k + |SubSlots(ss[0].sub)|, f);
      assert FillColSubs(ss, k, f)[1..] == FillColSubs(ss[1..], k + |SubSlots(ss[0].sub)|, f);
    }
  }

  lemma ColumnsShape(c: Option<Columns>, k: int, f: int -> int)
    ensures SameColumns(c, FillColumns(c, k, f))
    decreases c, 0
  {
    hide SameColFns, SameColSubs, FillColFns, FillColSubs;
    if c.Some? {
      ColFnsShape(c.value.fn, k, f);
      ColSubsShape(c.value.sub, k + |ColFnsSlots(c.value.fn)|, f);
    }
  }

  lemma JoinShape(j: Option<Join>, k: int, f: int -> int)
    ensures SameJoin(j, FillJoin(j, k, f))
    decreases j, 0
  {
    hide SameQuery, FillQuery;
    if j.Some? && j.value.query.Some? { QueryShape(j.value.query.value, false, k, f); }
  }

  lemma {:induction false} JoinsShape(js: seq<Option<Join>>, k: int, f: int -> int)
    ensures SameJoins(js, FillJoins(js, k, f))
    decreases js, 0
  {
    hide SameJoin, FillJoin, JoinSlots;
    if js != [] {
      JoinShape(js[0], k, f);
      JoinsShape(js[1..], k + |JoinSlots(js[0])|, f);
      assert FillJoins(js, k, f)[1..] == FillJoins(js[1..], k + |JoinSlots(js[0])|, f);
    }
  }

  lemma RelationShape(r: Option<Relation>, k: int, f: int -> int)
    ensures SameRelation(r, FillRelation(r, k, f))
    decreases r, 0
  {
    hide SameQuery, FillQuery;
    if r.Some? && r.value.query.Some? { QueryShape(r.value.query.value, false, k, f); }
  }

  lemma {:induction false} RelationsShape(rs: seq<Option<Relation>>, k: int, f: int -> int)
    ensures SameRelations(rs, FillRelations(rs, k, f))
    decreases rs, 0
  {
    hide SameRelation, FillRelation, RelationSlots;
    if rs != [] {
      RelationShape(rs[0], k, f);
      RelationsShape(rs[1..], k + |RelationSlots(rs[0])|, f);
      assert FillRelations(rs, k, f)[1..] == FillRelations(rs[1..], k + |RelationSlots(rs[0])|, f);
    }
  }

  lemma OrderShape(o: Order, k: int, f: int -> int)
    ensures SameOrder(o, o.(fn := FillFn(o.fn, k, f)))
  {
  }

  lemma {:induction false} OrdersShape(os: seq<Order>, k: int, f: int -> int)
    ensures SameOrders(os, FillOrders(os, k, f))
    decreases |os|
  {
    hide SameOrder, FillFn, FnSlots;
    if os != [] {
      var x, rest := os[0].(fn := FillFn(os[0].fn, k, f)), FillOrders(os[1..], k + |FnSlots(os[0].fn)|, f);
      OrdersShape(os[1..], k + |FnSlots(os[0].fn)|, f);
      OrderShape(os[0], k, f);
      assert forall i :: 1 <= i < |os| ==> os[i] == os[1..][i - 1] && ([x] + rest)[i] == rest[i - 1];
    }
  }

  lemma QueryShape(q: Query, root: bool, k: int, f: int -> int)
    ensures SameQuery(q, FillQuery(q, root, k, f), root)
    decreases q, 0
  {
    hide SameColumns, SameGroup, SameJoins, SameRelations, SameOrders, FillColumns, FillGroup, FillJoins, FillRelations,
         FillOrders, ColumnsSlots, GroupSlots, JoinsSlots, RelationsSlots, OrdersSlots;
    var k1 := k + |ColumnsSlots(q.columns)|;
    var k2 := k1 + |GroupSlots(q.on)|;
    var k3 := k2 + |GroupSlots(q.where)|;
    var k4 := k3 + |JoinsSlots(q.joins)|;
    ColumnsShape(q.columns, k, f);
    GroupShape(q.on, k1, f);
    GroupShape(q.where, k2, f);
    JoinsShape(q.joins, k3, f);
    RelationsShape(q.relations, k4, f);
    OrdersShape(q.order, k4 + |RelationsSlots(q.relations)|, f);
  }

  lemma AssignShape(a: Assign, k: int, f: int -> int)
    ensures SameAssign(a, FillAssign(a, k, f))
  {
  }

  lemma {:induction false} AssignsShape(s: seq<Assign>, k: int, f: int -> int)
    ensures SameAssigns(s, FillAssigns(s, k, f))
    decreases |s|
  {
    hide SameAssign, FillAssign, AssignSlots;
    if s != [] {
      var x, rest := FillAssign(s[0], k, f), FillAssigns(s[1..], k + |AssignSlots(s[0])|, f);
      AssignsShape(s[1..], k + |AssignSlots(s[0])|, f);
      AssignShape(s[0], k, f);
      assert forall i :: 1 <= i < |s| ==> s[i] == s[1..][i - 1] && ([x] + rest)[i] == rest[i - 1];
    }
  }

  lemma {:induction false} RowsShape(rows: seq<seq<int>>, k: int, f: int -> int)
    ensures SameRows(rows, FillRows(rows, k, f))
    decreases |rows|
  {
    if rows != [] {
      RowsShape(rows[1..], k + |rows[0]|, f);
      var r := FillRows(rows, k, f);
      assert r[1..] == FillRows(rows[1..], k + |rows[0]|, f);
      assert forall i :: 1 <= i < |rows| ==> rows[i] == rows[1..][i - 1] && r[i] == r[1..][i - 1];
    }
  }

  /** The canonical request agrees with the request in everything that is no parameter reference. */
  lemma CanonicalKeepsShape(r: Request, params: seq<Value>)
    ensures SameRequest(r, CanonOf(r, params).ir)
  {
    hide SameQuery, SameAssigns, SameRows, FillQuery, FillAssigns, FillRows, QuerySlots, AssignsSlots, RowsSlots,
         Leftover;
    var k1 := |QuerySlots(r.query, true)|;
    var k2 := k1 + |AssignsSlots(r.sets)|;
    QueryShape(r.query, true, 0, Same);
    AssignsShape(r.sets, k1, Same);
    AssignsShape(r.onDuplicate, k2, Same);
    RowsShape(r.rows, k2 + |AssignsSlots(r.onDuplicate)|, Same);
  }
}
