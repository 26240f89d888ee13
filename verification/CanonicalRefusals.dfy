/** Which requests canonicalization refuses, read off the tree itself. */
module CanonicalRefusals {
  import opened Common
  import opened Ir
  import opened Canonical

  /** The largest integer that a double holds exactly. */
  const MOST_EXACT := 0x1F_FFFF_FFFF_FFFF

  predicate Ref(p: int, params: seq<Value>) { 0 <= p < |params| }

  predicate Refs(ps: seq<int>, params: seq<Value>) { forall p :: p in ps ==> Ref(p, params) }

  predicate OptRef(p: Option<int>, params: seq<Value>) { p.Some? ==> Ref(p.value, params) }

  predicate FnRefs(f: Option<Func>, params: seq<Value>) { f.Some? ==> Refs(f.value.ps, params) }

  predicate PredRefs(p: Pred, params: seq<Value>)
    decreases p
  {
    && OptRef(p.p, params) && Refs(p.ps, params) && FnRefs(p.fn, params) && FnRefs(p.value, params)
    && SubRefs(p.sub, params)
  }

  predicate SubRefs(s: Option<Sub>, params: seq<Value>)
    decreases s
  {
    s.Some? && s.value.query.Some? ==> QueryRefs(s.value.query.value, false, params)
  }

  predicate GroupRefs(g: Option<Group>, params: seq<Value>)
    decreases g
  {
    g.Some? ==> ItemsRefs(g.value.items, params)
  }

  predicate ItemsRefs(items: seq<Item>, params: seq<Value>)
    decreases items
  {
    items != [] ==> ItemRefs(items[0], params) && ItemsRefs(items[1..], params)
  }

  predicate ItemRefs(it: Item, params: seq<Value>)
    decreases it
  {
    (it.pred.Some? ==> PredRefs(it.pred.value, params)) && GroupRefs(it.group, params)
  }

  predicate ColSubsRefs(ss: seq<ColSub>, params: seq<Value>)
    decreases ss
  {
    ss != [] ==> SubRefs(ss[0].sub, params) && ColSubsRefs(ss[1..], params)
  }

  predicate ColumnsRefs(c: Option<Columns>, params: seq<Value>)
    decreases c
  {
    c.Some? ==>
      && (forall i :: 0 <= i < |c.value.fn| ==> Refs(c.value.fn[i].fn.ps, params)) && ColSubsRefs(c.value.sub, params)
  }

  predicate JoinsRefs(js: seq<Option<Join>>, params: seq<Value>)
    decreases js
  {
    js != [] ==> JoinRefs(js[0], params) && JoinsRefs(js[1..], params)
  }

  predicate JoinRefs(j: Option<Join>, params: seq<Value>)
    decreases j
  {
    j.Some? && j.value.query.Some? ==> QueryRefs(j.value.query.value, false, params)
  }

  predicate RelationsRefs(rs: seq<Option<Relation>>, params: seq<Value>)
    decreases rs
  {
    rs != [] ==> RelationRefs(rs[0], params) && RelationsRefs(rs[1..], params)
  }

  predicate RelationRefs(r: Option<Relation>, params: seq<Value>)
    decreases r
  {
    r.Some? && r.value.query.Some? ==> QueryRefs(r.value.query.value, false, params)
  }

  /** Parameter p is an integer from `least` on that a double holds exactly. */
  predicate PageRef(p: int, params: seq<Value>, least: int) {
    Ref(p, params) && params[p].Int? && least <= params[p].i <= MOST_EXACT
  }

  /** The root query may page by two parameters and no numbers; any query may page by two numbers. */
  predicate LimitRefs(l: Limit, root: bool, params: seq<Value>) {
    if l.offsetP.None? && l.countP.None? then
      0 <= l.offset && 1 <= l.count && (root ==> l.offset <= MOST_EXACT && l.count <= MOST_EXACT)
    else
      && root && l.offset == 0 && l.count == 0
      && l.offsetP.Some? && PageRef(l.offsetP.value, params, 0) && l.countP.Some? && PageRef(l.countP.value, params, 1)
  }

  predicate QueryRefs(q: Query, root: bool, params: seq<Value>)
    decreases q
  {
    && ColumnsRefs(q.columns, params) && GroupRefs(q.on, params) && GroupRefs(q.where, params)
    && JoinsRefs(q.joins, params) && RelationsRefs(q.relations, params)
    && (forall i :: 0 <= i < |q.order| ==> FnRefs(q.order[i].fn, params))
    && (q.limit.Some? ==> LimitRefs(q.limit.value, root, params))
    && (q.ifParent.Some? ==> Ref(q.ifParent.value.p, params))
  }

  predicate AssignsRefs(s: seq<Assign>, params: seq<Value>) {
    forall i :: 0 <= i < |s| ==> OptRef(s[i].p, params) && OptRef(s[i].plusP, params) && OptRef(s[i].minusP, params)
  }

  /** Every parameter reference of the request names a parameter, and every page is in range. */
  predicate Bindable(r: Request, params: seq<Value>) {
    && QueryRefs(r.query, true, params) && AssignsRefs(r.sets, params) && AssignsRefs(r.onDuplicate, params)
    && (forall i :: 0 <= i < |r.rows| ==> Refs(r.rows[i], params))
    && (r.optimistic.Some? ==> Ref(r.optimistic.value.p, params))
  }

  // ------------------------------------------------------------------------------------- places without a fault

  predicate Free(ss: seq<Slot>, params: seq<Value>) {
    forall i :: 0 <= i < |ss| ==> Fault(ss[i], params).None?
  }

  lemma FreeConcat(a: seq<Slot>, b: seq<Slot>, params: seq<Value>)
    ensures Free(a + b, params) <==> Free(a, params) && Free(b, params)
  {
    hide Fault;
    if Free(a + b, params) {
      assert forall i :: 0 <= i < |a| ==> a[i] == (a + b)[i];
      assert forall i :: 0 <= i < |b| ==> b[i] == (a + b)[|a| + i];
    }
  }

  lemma FreeInts(ps: seq<int>, params: seq<Value>)
    ensures Free(IntsSlots(ps), params) <==> Refs(ps, params)
  {
    var ss := IntsSlots(ps);
    assert forall i :: 0 <= i < |ps| ==> ps[i] in ps;
    if Free(ss, params) {
      forall p | p in ps ensures Ref(p, params) {
        var i :| 0 <= i < |ps| && ps[i] == p;
        assert ss[i] == Of(p);
      }
    }
  }

  /** The places that repeat the last value of a list add no fault. */
  lemma FreeList(ps: seq<int>, params: seq<Value>)
    ensures Free(ListSlots(ps), params) <==> Refs(ps, params)
  {
    var ss := ListSlots(ps);
    assert forall i :: 0 <= i < |ps| ==> ps[i] in ps;
    if Free(ss, params) {
      forall p | p in ps ensures Ref(p, params) {
        var i :| 0 <= i < |ps| && ps[i] == p;
        assert ss[i] == Of(p);
      }
    }
  }

  lemma FreeOpt(p: Option<int>, params: seq<Value>)
    ensures Free(OptSlots(p), params) <==> OptRef(p, params)
  {
    if p.Some? { assert OptSlots(p)[0] == Of(p.value); }
  }

  lemma FreeFn(f: Option<Func>, params: seq<Value>)
    ensures Free(FnSlots(f), params) <==> FnRefs(f, params)
  {
    if f.Some? { FreeInts(f.value.ps, params); }
  }

  lemma FreePred(p: Pred, params: seq<Value>)
    ensures Free(PredSlots(p), params) <==> PredRefs(p, params)
    decreases p, 0
  {
    hide Free, Refs, OptRef, FnRefs, SubRefs, OptSlots, IntsSlots, ListSlots, FnSlots, SubSlots;
    var a, b, c, d, e := OptSlots(p.p), PsSlots(p), FnSlots(p.fn), FnSlots(p.value), SubSlots(p.sub);
    FreeConcat(a, b + (c + (d + e)), params);
    FreeConcat(b, c + (d + e), params);
    FreeConcat(c, d + e, params);
    FreeConcat(d, e, params);
    FreeOpt(p.p, params);
    FreeInts(p.ps, params);
    FreeList(p.ps, params);
    FreeFn(p.fn, params);
    FreeFn(p.value, params);
    FreeSub(p.sub, params);
  }

  lemma FreeSub(s: Option<Sub>, params: seq<Value>)
    ensures Free(SubSlots(s), params) <==> SubRefs(s, params)
    decreases s, 0
  {
    hide QuerySlots, QueryRefs;
    if s.Some? && s.value.query.Some? { FreeQuery(s.value.query.value, false, params); }
  }

  lemma FreeGroup(g: Option<Group>, params: seq<Value>)
    ensures Free(GroupSlots(g), params) <==> GroupRefs(g, params)
    decreases g, 0
  {
    hide ItemsSlots, ItemsRefs;
    if g.Some? { FreeItems(g.value.items, params); }
  }

  lemma {:induction false} FreeItems(items: seq<Item>, params: seq<Value>)
    ensures Free(ItemsSlots(items), params) <==> ItemsRefs(items, params)
    decreases items, 0
  {
    hide Fault, ItemSlots, ItemRefs;
    if items != [] {
      FreeConcat(ItemSlots(items[0]), ItemsSlots(items[1..]), params);
      FreeItem(items[0], params);
      FreeItems(items[1..], params);
    }
  }

  lemma FreeItem(it: Item, params: seq<Value>)
    ensures Free(ItemSlots(it), params) <==> ItemRefs(it, params)
    decreases it, 0
  {
    hide Fault, PredSlots, PredRefs, GroupSlots, GroupRefs;
    var a := if it.pred.None? then [] else PredSlots(it.pred.value);
    FreeConcat(a, GroupSlots(it.group), params);
    if it.pred.Some? { FreePred(it.pred.value, params); }
    FreeGroup(it.group, params);
  }

  lemma {:induction false} FreeColFns(fs: seq<ColFunc>, params: seq<Value>)
    ensures Free(ColFnsSlots(fs), params) <==> forall i :: 0 <= i < |fs| ==> Refs(fs[i].fn.ps, params)
    decreases |fs|
  {
    hide Fault, Refs;
    if fs != [] {
      FreeConcat(IntsSlots(fs[0].fn.ps), ColFnsSlots(fs[1..]), params);
      FreeInts(fs[0].fn.ps, params);
      FreeColFns(fs[1..], params);
      assert forall i :: 0 <= i < |fs| - 1 ==> fs[1..][i] == fs[i + 1];
      assert forall i :: 1 <= i < |fs| ==> fs[i] == fs[1..][i - 1];
    }
  }

  lemma {:induction false} FreeColSubs(ss: seq<ColSub>, params: seq<Value>)
    ensures Free(ColSubsSlots(ss), params) <==> ColSubsRefs(ss, params)
    decreases ss, 0
  {
    hide Fault, SubSlots, SubRefs;
    if ss != [] {
      FreeConcat(SubSlots(ss[0].sub), ColSubsSlots(ss[1..]), params);
      FreeSub(ss[0].sub, params);
      FreeColSubs(ss[1..], params);
    }
  }

  lemma FreeColumns(c: Option<Columns>, params: seq<Value>)
    ensures Free(ColumnsSlots(c), params) <==> ColumnsRefs(c, params)
    decreases c, 0
  {
    hide Fault, Refs, ColFnsSlots, ColSubsSlots, ColSubsRefs;
    if c.Some? {
      FreeConcat(ColFnsSlots(c.value.fn), ColSubsSlots(c.value.sub), params);
      FreeColFns(c.value.fn, params);
      FreeColSubs(c.value.sub, params);
    }
  }

  lemma {:induction false} FreeJoins(js: seq<Option<Join>>, params: seq<Value>)
    ensures Free(JoinsSlots(js), params) <==> JoinsRefs(js, params)
    decreases js, 0
  {
    hide Fault, JoinSlots, JoinRefs;
    if js != [] {
      FreeConcat(JoinSlots(js[0]), JoinsSlots(js[1..]), params);
      FreeJoin(js[0], params);
      FreeJoins(js[1..], params);
    }
  }

  lemma FreeJoin(j: Option<Join>, params: seq<Value>)
    ensures Free(JoinSlots(j), params) <==> JoinRefs(j, params)
    decreases j, 0
  {
    hide QuerySlots, QueryRefs;
    if j.Some? && j.value.query.Some? { FreeQuery(j.value.query.value, false, params); }
  }

  lemma {:induction false} FreeRelations(rs: seq<Option<Relation>>, params: seq<Value>)
    ensures Free(RelationsSlots(rs), params) <==> RelationsRefs(rs, params)
    decreases rs, 0
  {
    hide Fault, RelationSlots, RelationRefs;
    if rs != [] {
      FreeConcat(RelationSlots(rs[0]), RelationsSlots(rs[1..]), params);
      FreeRelation(rs[0], params);
      FreeRelations(rs[1..], params);
    }
  }

  lemma FreeRelation(r: Option<Relation>, params: seq<Value>)
    ensures Free(RelationSlots(r), params) <==> RelationRefs(r, params)
    decreases r, 0
  {
    hide QuerySlots, QueryRefs;
    if r.Some? && r.value.query.Some? { FreeQuery(r.value.query.value, false, params); }
  }

  lemma {:induction false} FreeOrders(os: seq<Order>, params: seq<Value>)
    ensures Free(OrdersSlots(os), params) <==> forall i :: 0 <= i < |os| ==> FnRefs(os[i].fn, params)
    decreases |os|
  {
    hide Fault, FnRefs, FnSlots;
    if os != [] {
      FreeConcat(FnSlots(os[0].fn), OrdersSlots(os[1..]), params);
      FreeFn(os[0].fn, params);
      FreeOrders(os[1..], params);
      assert forall i :: 0 <= i < |os| - 1 ==> os[1..][i] == os[i + 1];
      assert forall i :: 1 <= i < |os| ==> os[i] == os[1..][i - 1];
    }
  }

  lemma FreeLimit(l: Option<Limit>, root: bool, params: seq<Value>)
    ensures Free(LimitSlots(l, root), params) <==> (l.Some? ==> LimitRefs(l.value, root, params))
  {
    var ss := LimitSlots(l, root);
    assert |ss| <= 2;
    if |ss| == 1 { assert Fault(ss[0], params).Some?; }
    if |ss| == 2 { assert Free(ss, params) <==> Fault(ss[0], params).None? && Fault(ss[1], params).None?; }
  }

  lemma FreeIfParent(i: Option<IfParent>, params: seq<Value>)
    ensures Free(IfParentSlots(i), params) <==> (i.Some? ==> Ref(i.value.p, params))
  {
    if i.Some? { assert IfParentSlots(i)[0] == Of(i.value.p); }
  }

  lemma FreeQuery(q: Query, root: bool, params: seq<Value>)
    ensures Free(QuerySlots(q, root), params) <==> QueryRefs(q, root, params)
    decreases q, 0
  {
    hide Free, ColumnsSlots, GroupSlots, JoinsSlots, RelationsSlots, OrdersSlots, LimitSlots, IfParentSlots;
    hide ColumnsRefs, GroupRefs, JoinsRefs, RelationsRefs, FnRefs, LimitRefs, Ref;
    var a, b, c, d := ColumnsSlots(q.columns), GroupSlots(q.on), GroupSlots(q.where), JoinsSlots(q.joins);
    var e, o, l, i :=
      RelationsSlots(q.relations), OrdersSlots(q.order), LimitSlots(q.limit, root), IfParentSlots(q.ifParent);
    FreeConcat(a, b + (c + (d + (e + (o + (l + i))))), params);
    FreeConcat(b, c + (d + (e + (o + (l + i)))), params);
    FreeConcat(c, d + (e + (o + (l + i))), params);
    FreeConcat(d, e + (o + (l + i)), params);
    FreeConcat(e, o + (l + i), params);
    FreeConcat(o, l + i, params);
    FreeConcat(l, i, params);
    FreeColumns(q.columns, params);
    FreeGroup(q.on, params);
    FreeGroup(q.where, params);
    FreeJoins(q.joins, params);
    FreeRelations(q.relations, params);
    FreeOrders(q.order, params);
    FreeLimit(q.limit, root, params);
    FreeIfParent(q.ifParent, params);
  }

  lemma {:induction false} FreeAssigns(s: seq<Assign>, params: seq<Value>)
    ensures Free(AssignsSlots(s), params) <==> AssignsRefs(s, params)
    decreases |s|
  {
    hide Fault, OptRef, OptSlots;
    if s != [] {
      var a := s[0];
      FreeConcat(OptSlots(a.p), OptSlots(a.plusP) + OptSlots(a.minusP), params);
      FreeConcat(OptSlots(a.plusP), OptSlots(a.minusP), params);
      FreeConcat(AssignSlots(a), AssignsSlots(s[1..]), params);
      FreeOpt(a.p, params);
      FreeOpt(a.plusP, params);
      FreeOpt(a.minusP, params);
      FreeAssigns(s[1..], params);
      assert forall i :: 0 <= i < |s| - 1 ==> s[1..][i] == s[i + 1];
      assert forall i :: 1 <= i < |s| ==> s[i] == s[1..][i - 1];
    }
  }

  lemma {:induction false} FreeRows(rows: seq<seq<int>>, params: seq<Value>)
    ensures Free(RowsSlots(rows), params) <==> forall i :: 0 <= i < |rows| ==> Refs(rows[i], params)
    decreases |rows|
  {
    hide Fault, Refs;
    if rows != [] {
      FreeConcat(IntsSlots(rows[0]), RowsSlots(rows[1..]), params);
      FreeInts(rows[0], params);
      FreeRows(rows[1..], params);
      assert forall i :: 0 <= i < |rows| - 1 ==> rows[1..][i] == rows[i + 1];
      assert forall i :: 1 <= i < |rows| ==> rows[i] == rows[1..][i - 1];
    }
  }

  lemma FreeOptimist(o: Option<Optimist>, params: seq<Value>)
    ensures Free(OptimistSlots(o), params) <==> (o.Some? ==> Ref(o.value.p, params))
  {
    if o.Some? { assert OptimistSlots(o)[0] == Of(o.value.p); }
  }

  /** A request is refused exactly when it refers to a parameter that is missing, or its page is out of range. */
  lemma RefusedExactly(r: Request, params: seq<Value>)
    ensures Refused(r, params).None? <==> Bindable(r, params)
  {
    hide Fault, QuerySlots, AssignsSlots, RowsSlots, OptimistSlots, QueryRefs, AssignsRefs, Refs, Ref;
    var a, b, c := QuerySlots(r.query, true), AssignsSlots(r.sets), AssignsSlots(r.onDuplicate);
    var d, e := RowsSlots(r.rows), OptimistSlots(r.optimistic);
    FreeConcat(a, b + (c + (d + e)), params);
    FreeConcat(b, c + (d + e), params);
    FreeConcat(c, d + e, params);
    FreeConcat(d, e, params);
    FreeQuery(r.query, true, params);
    FreeAssigns(r.sets, params);
    FreeAssigns(r.onDuplicate, params);
    FreeRows(r.rows, params);
    FreeOptimist(r.optimistic, params);
    assert Refused(r, params).None? <==> Free(Slots(r), params);
  }
}
