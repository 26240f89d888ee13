/**
  The places of a tree behave like a lens: what is put into them is what they then hold, and a second filling forgets
  the first.  Hence canonicalization is idempotent and depends on the shape of the request alone.
 */
module CanonicalLaws {
  import opened Common
  import opened Ir
  import opened Canonical

  /** A place after it was filled with x: a literal page value has become a parameter. */
  function Rename(s: Slot, x: int): Slot {
    match s
    case Of(_) => Of(x)
    case Page(_, c) => Page(x, c)
    case Literal(_, c) => Page(x, c)
    case Bad(e) => Bad(e)
  }

  function Renamed(ss: seq<Slot>, k: int, f: int -> int): (r: seq<Slot>)
    ensures |r| == |ss|
  {
    seq(|ss|, i requires 0 <= i < |ss| => Rename(ss[i], f(k + i)))
  }

  lemma RenamedConcat(a: seq<Slot>, b: seq<Slot>, k: int, f: int -> int)
    ensures Renamed(a + b, k, f) == Renamed(a, k, f) + Renamed(b, k + |a|, f)
  {
    assert forall i :: |a| <= i < |a + b| ==> (a + b)[i] == b[i - |a|] && f(k + i) == f(k + |a| + (i - |a|));
  }

  lemma RenamedConcatFive(
    s1: seq<Slot>, s2: seq<Slot>, s3: seq<Slot>, s4: seq<Slot>, s5: seq<Slot>, k: int, f: int -> int)
    ensures Renamed(s1 + (s2 + (s3 + (s4 + s5))), k, f) ==
            Renamed(s1, k, f) + (Renamed(s2, k + |s1|, f) + (Renamed(s3, k + |s1| + |s2|, f)
              + (Renamed(s4, k + |s1| + |s2| + |s3|, f) + Renamed(s5, k + |s1| + |s2| + |s3| + |s4|, f))))
  {
    hide Renamed;
    RenamedConcat(s4, s5, k + |s1| + |s2| + |s3|, f);
    RenamedConcat(s3, s4 + s5, k + |s1| + |s2|, f);
    RenamedConcat(s2, s3 + (s4 + s5), k + |s1|, f);
    RenamedConcat(s1, s2 + (s3 + (s4 + s5)), k, f);
  }

  lemma {:induction false} BucketFromAgain(b: nat, n: nat)
    requires b >= 1
    ensures BucketFrom(b, BucketFrom(b, n)) == BucketFrom(b, n)
    decreases n - b
  {
    if b < n { BucketFromAgain(2 * b, n); }
  }

  lemma IntsLaw(ps: seq<int>, k: int, f: int -> int)
    ensures IntsSlots(Fresh(|ps|, k, f)) == Renamed(IntsSlots(ps), k, f)
  {
  }

  lemma OptLaw(p: Option<int>, k: int, f: int -> int, k': int, g: int -> int)
    ensures OptSlots(FillOpt(p, k, f)) == Renamed(OptSlots(p), k, f)
    ensures FillOpt(FillOpt(p, k, f), k', g) == FillOpt(p, k', g)
  {
  }

  lemma FnLaw(fn: Option<Func>, k: int, f: int -> int, k': int, g: int -> int)
    ensures FnSlots(FillFn(fn, k, f)) == Renamed(FnSlots(fn), k, f)
    ensures FillFn(FillFn(fn, k, f), k', g) == FillFn(fn, k', g)
  {
    if fn.Some? { IntsLaw(fn.value.ps, k, f); }
  }

  lemma PsLaw(p: Pred, p': Pred, k: int, f: int -> int)
    requires p'.op == p.op && (p'.sub.Some? <==> p.sub.Some?) && p'.ps == Fresh(|PsSlots(p)|, k, f)
    ensures PsSlots(p') == Renamed(PsSlots(p), k, f)
  {
    if IsValueList(p) && |p.ps| > 0 {
      BucketFromAgain(1, |p.ps|);
    } else {
      IntsLaw(p.ps, k, f);
    }
  }

  lemma {:induction false} PredLaw(p: Pred, k: int, f: int -> int, k': int, g: int -> int)
    ensures PredSlots(FillPred(p, k, f)) == Renamed(PredSlots(p), k, f)
    ensures FillPred(FillPred(p, k, f), k', g) == FillPred(p, k', g)
    decreases p, 1
  {
    hide Renamed, OptSlots, PsSlots, FnSlots, SubSlots, FillOpt, FillFn, FillSub, Fresh;
    var s1, s2, s3, s4, s5 := OptSlots(p.p), PsSlots(p), FnSlots(p.fn), FnSlots(p.value), SubSlots(p.sub);
    var k1, k2 := k + |s1|, k + |s1| + |s2|;
    var k3, k4 := k2 + |s3|, k2 + |s3| + |s4|;
    var k1', k2' := k' + |s1|, k' + |s1| + |s2|;
    var k3', k4' := k2' + |s3|, k2' + |s3| + |s4|;
    OptLaw(p.p, k, f, k', g);
    PsLaw(p, FillPred(p, k, f), k1, f);
    FnLaw(p.fn, k2, f, k2', g);
    FnLaw(p.value, k3, f, k3', g);
    SubLaw(p.sub, k4, f, k4', g);
    RenamedConcatFive(s1, s2, s3, s4, s5, k, f);
  }

  lemma {:induction false} SubLaw(s: Option<Sub>, k: int, f: int -> int, k': int, g: int -> int)
    ensures SubSlots(FillSub(s, k, f)) == Renamed(SubSlots(s), k, f)
    ensures FillSub(FillSub(s, k, f), k', g) == FillSub(s, k', g)
    decreases s, 0
  {
    hide Renamed, QuerySlots, FillQuery;
    if s.Some? && s.value.query.Some? { QueryLaw(s.value.query.value, false, k, f, k', g); }
  }

  lemma {:induction false} ItemLaw(it: Item, k: int, f: int -> int, k': int, g: int -> int)
    ensures ItemSlots(FillItem(it, k, f)) == Renamed(ItemSlots(it), k, f)
    ensures FillItem(FillItem(it, k, f), k', g) == FillItem(it, k', g)
    decreases it, 0
  {
    hide Renamed, PredSlots, GroupSlots, FillPred, FillGroup;
    var s1 := if it.pred.None? then [] else PredSlots(it.pred.value);
    if it.pred.Some? { PredLaw(it.pred.value, k, f, k', g); }
    GroupLaw(it.group, k + |s1|, f, k' + |s1|, g);
    RenamedConcat(s1, GroupSlots(it.group), k, f);
  }

  lemma {:induction false} GroupLaw(g0: Option<Group>, k: int, f: int -> int, k': int, g: int -> int)
    ensures GroupSlots(FillGroup(g0, k, f)) == Renamed(GroupSlots(g0), k, f)
    ensures FillGroup(FillGroup(g0, k, f), k', g) == FillGroup(g0, k', g)
    decreases g0, 0
  {
    hide Renamed, ItemsSlots, FillItems;
    if g0.Some? { ItemsLaw(g0.value.items, k, f, k', g); }
  }

  lemma {:induction false} ItemsLaw(items: seq<Item>, k: int, f: int -> int, k': int, g: int -> int)
    ensures ItemsSlots(FillItems(items, k, f)) == Renamed(ItemsSlots(items), k, f)
    ensures FillItems(FillItems(items, k, f), k', g) == FillItems(items, k', g)
    decreases items, 0
  {
    hide Renamed, ItemSlots, FillItem;
    if items != [] {
      var n := |ItemSlots(items[0])|;
      ItemLaw(items[0], k, f, k', g);
      ItemsLaw(items[1..], k + n, f, k' + n, g);
      RenamedConcat(ItemSlots(items[0]), ItemsSlots(items[1..]), k, f);
      var filled := FillItems(items, k, f);
      assert filled[0] == FillItem(items[0], k, f) && filled[1..] == FillItems(items[1..], k + n, f);
    }
  }

  lemma {:induction false} ColFnsLaw(fs: seq<ColFunc>, k: int, f: int -> int, k': int, g: int -> int)
    ensures ColFnsSlots(FillColFns(fs, k, f)) == Renamed(ColFnsSlots(fs), k, f)
    ensures FillColFns(FillColFns(fs, k, f), k', g) == FillColFns(fs, k', g)
    decreases |fs|
  {
    hide Renamed, IntsSlots;
    if fs != [] {
      var n := |fs[0].fn.ps|;
      IntsLaw(fs[0].fn.ps, k, f);
      ColFnsLaw(fs[1..], k + n, f, k' + n, g);
      RenamedConcat(IntsSlots(fs[0].fn.ps), ColFnsSlots(fs[1..]), k, f);
      var filled := FillColFns(fs, k, f);
      assert filled[1..] == FillColFns(fs[1..], k + n, f);
    }
  }

  lemma {:induction false} ColSubsLaw(ss: seq<ColSub>, k: int, f: int -> int, k': int, g: int -> int)
    ensures ColSubsSlots(FillColSubs(ss, k, f)) == Renamed(ColSubsSlots(ss), k, f)
    ensures FillColSubs(FillColSubs(ss, k, f), k', g) == FillColSubs(ss, k', g)
    decreases ss, 0
  {
    hide Renamed, SubSlots, FillSub;
    if ss != [] {
      var n := |SubSlots(ss[0].sub)|;
      SubLaw(ss[0].sub, k, f, k', g);
      ColSubsLaw(ss[1..], k + n, f, k' + n, g);
      RenamedConcat(SubSlots(ss[0].sub), ColSubsSlots(ss[1..]), k, f);
      var filled := FillColSubs(ss, k, f);
      assert filled[1..] == FillColSubs(ss[1..], k + n, f);
    }
  }

  lemma {:induction false} ColumnsLaw(c: Option<Columns>, k: int, f: int -> int, k': int, g: int -> int)
    ensures ColumnsSlots(FillColumns(c, k, f)) == Renamed(ColumnsSlots(c), k, f)
    ensures FillColumns(FillColumns(c, k, f), k', g) == FillColumns(c, k', g)
    decreases c, 0
  {
    hide Renamed, ColFnsSlots, ColSubsSlots, FillColFns, FillColSubs;
    if c.Some? {
      var n := |ColFnsSlots(c.value.fn)|;
      ColFnsLaw(c.value.fn, k, f, k', g);
      ColSubsLaw(c.value.sub, k + n, f, k' + n, g);
      RenamedConcat(ColFnsSlots(c.value.fn), ColSubsSlots(c.value.sub), k, f);
    }
  }

  lemma {:induction false} JoinLaw(j: Option<Join>, k: int, f: int -> int, k': int, g: int -> int)
    ensures JoinSlots(FillJoin(j, k, f)) == Renamed(JoinSlots(j), k, f)
    ensures FillJoin(FillJoin(j, k, f), k', g) == FillJoin(j, k', g)
    decreases j, 0
  {
    hide Renamed, QuerySlots, FillQuery;
    if j.Some? && j.value.query.Some? { QueryLaw(j.value.query.value, false, k, f, k', g); }
  }

  lemma {:induction false} JoinsLaw(js: seq<Option<Join>>, k: int, f: int -> int, k': int, g: int -> int)
    ensures JoinsSlots(FillJoins(js, k, f)) == Renamed(JoinsSlots(js), k, f)
    ensures FillJoins(FillJoins(js, k, f), k', g) == FillJoins(js, k', g)
    decreases js, 0
  {
    hide Renamed, JoinSlots, FillJoin;
    if js != [] {
      var n := |JoinSlots(js[0])|;
      JoinLaw(js[0], k, f, k', g);
      JoinsLaw(js[1..], k + n, f, k' + n, g);
      RenamedConcat(JoinSlots(js[0]), JoinsSlots(js[1..]), k, f);
      var filled := FillJoins(js, k, f);
      assert filled[1..] == FillJoins(js[1..], k + n, f);
    }
  }

  lemma {:induction false} RelationLaw(r: Option<Relation>, k: int, f: int -> int, k': int, g: int -> int)
    ensures RelationSlots(FillRelation(r, k, f)) == Renamed(RelationSlots(r), k, f)
    ensures FillRelation(FillRelation(r, k, f), k', g) == FillRelation(r, k', g)
    decreases r, 0
  {
    hide Renamed, QuerySlots, FillQuery;
    if r.Some? && r.value.query.Some? { QueryLaw(r.value.query.value, false, k, f, k', g); }
  }

  lemma {:induction false} RelationsLaw(rs: seq<Option<Relation>>, k: int, f: int -> int, k': int, g: int -> int)
    ensures RelationsSlots(FillRelations(rs, k, f)) == Renamed(RelationsSlots(rs), k, f)
    ensures FillRelations(FillRelations(rs, k, f), k', g) == FillRelations(rs, k', g)
    decreases rs, 0
  {
    hide Renamed, RelationSlots, FillRelation;
    if rs != [] {
      var n := |RelationSlots(rs[0])|;
      RelationLaw(rs[0], k, f, k', g);
      RelationsLaw(rs[1..], k + n, f, k' + n, g);
      RenamedConcat(RelationSlots(rs[0]), RelationsSlots(rs[1..]), k, f);
      var filled := FillRelations(rs, k, f);
      assert filled[1..] == FillRelations(rs[1..], k + n, f);
    }
  }

  lemma {:induction false} OrdersLaw(os: seq<Order>, k: int, f: int -> int, k': int, g: int -> int)
    ensures OrdersSlots(FillOrders(os, k, f)) == Renamed(OrdersSlots(os), k, f)
    ensures FillOrders(FillOrders(os, k, f), k', g) == FillOrders(os, k', g)
    decreases |os|
  {
    hide Renamed, FnSlots, FillFn;
    if os != [] {
      var n := |FnSlots(os[0].fn)|;
      FnLaw(os[0].fn, k, f, k', g);
      OrdersLaw(os[1..], k + n, f, k' + n, g);
      RenamedConcat(FnSlots(os[0].fn), OrdersSlots(os[1..]), k, f);
      var filled := FillOrders(os, k, f);
      assert filled[1..] == FillOrders(os[1..], k + n, f);
    }
  }

  lemma LimitLaw(l: Option<Limit>, root: bool, k: int, f: int -> int, k': int, g: int -> int)
    ensures LimitSlots(FillLimit(l, root, k, f), root) == Renamed(LimitSlots(l, root), k, f)
    ensures FillLimit(FillLimit(l, root, k, f), root, k', g) == FillLimit(l, root, k', g)
  {
  }

  lemma IfParentLaw(i: Option<IfParent>, k: int, f: int -> int, k': int, g: int -> int)
    ensures IfParentSlots(FillIfParent(i, k, f)) == Renamed(IfParentSlots(i), k, f)
    ensures FillIfParent(FillIfParent(i, k, f), k', g) == FillIfParent(i, k', g)
  {
  }

  lemma {:induction false} QueryLaw(q: Query, root: bool, k: int, f: int -> int, k': int, g: int -> int)
    ensures QuerySlots(FillQuery(q, root, k, f), root) == Renamed(QuerySlots(q, root), k, f)
    ensures FillQuery(FillQuery(q, root, k, f), root, k', g) == FillQuery(q, root, k', g)
    decreases q, 0
  {
    hide Renamed, ColumnsSlots, GroupSlots, JoinsSlots, RelationsSlots, OrdersSlots, LimitSlots, IfParentSlots,
      FillColumns, FillGroup, FillJoins, FillRelations, FillOrders, FillLimit, FillIfParent;
    var s1, s2, s3, s4 := ColumnsSlots(q.columns), GroupSlots(q.on), GroupSlots(q.where), JoinsSlots(q.joins);
    var s5, s6, s7, s8 := RelationsSlots(q.relations), OrdersSlots(q.order), LimitSlots(q.limit, root),
      IfParentSlots(q.ifParent);
    var k1, k1' := k + |s1|, k' + |s1|;
    var k2, k2' := k1 + |s2|, k1' + |s2|;
    var k3, k3' := k2 + |s3|, k2' + |s3|;
    var k4, k4' := k3 + |s4|, k3' + |s4|;
    var k5, k5' := k4 + |s5|, k4' + |s5|;
    var k6, k6' := k5 + |s6|, k5' + |s6|;
    var k7, k7' := k6 + |s7|, k6' + |s7|;
    ColumnsLaw(q.columns, k, f, k', g);
    GroupLaw(q.on, k1, f, k1', g);
    GroupLaw(q.where, k2, f, k2', g);
    JoinsLaw(q.joins, k3, f, k3', g);
    RelationsLaw(q.relations, k4, f, k4', g);
    OrdersLaw(q.order, k5, f, k5', g);
    LimitLaw(q.limit, root, k6, f, k6', g);
    IfParentLaw(q.ifParent, k7, f, k7', g);
    var t7 := s7 + s8;
    var t6 := s6 + t7;
    var t5 := s5 + t6;
    var t4 := s4 + t5;
    var t3 := s3 + t4;
    var t2 := s2 + t3;
    RenamedConcat(s7, s8, k6, f);
    RenamedConcat(s6, t7, k5, f);
    RenamedConcat(s5, t6, k4, f);
    RenamedConcat(s4, t5, k3, f);
    RenamedConcat(s3, t4, k2, f);
    RenamedConcat(s2, t3, k1, f);
    RenamedConcat(s1, t2, k, f);
  }

  lemma AssignLaw(a: Assign, k: int, f: int -> int, k': int, g: int -> int)
    ensures AssignSlots(FillAssign(a, k, f)) == Renamed(AssignSlots(a), k, f)
    ensures FillAssign(FillAssign(a, k, f), k', g) == FillAssign(a, k', g)
  {
    hide Renamed, OptSlots, FillOpt;
    var s1, s2, s3 := OptSlots(a.p), OptSlots(a.plusP), OptSlots(a.minusP);
    var k1, k2 := k + |s1|, k + |s1| + |s2|;
    OptLaw(a.p, k, f, k', g);
    OptLaw(a.plusP, k1, f, k' + |s1|, g);
    OptLaw(a.minusP, k2, f, k' + |s1| + |s2|, g);
    RenamedConcat(s2, s3, k1, f);
    RenamedConcat(s1, s2 + s3, k, f);
  }

  lemma {:induction false} AssignsLaw(s: seq<Assign>, k: int, f: int -> int, k': int, g: int -> int)
    ensures AssignsSlots(FillAssigns(s, k, f)) == Renamed(AssignsSlots(s), k, f)
    ensures FillAssigns(FillAssigns(s, k, f), k', g) == FillAssigns(s, k', g)
    decreases |s|
  {
    hide Renamed, AssignSlots, FillAssign;
    if s == [] {
      RenamedNothing(k, f);
    } else {
      var one := AssignSlots(s[0]);
      AssignLaw(s[0], k, f, k', g);
      AssignsLaw(s[1..], k + |one|, f, k' + |one|, g);
      RenamedConcat(one, AssignsSlots(s[1..]), k, f);
      RenamedLength(one, k, f);
      var filled := FillAssigns(s, k, f);
      assert filled[1..] == FillAssigns(s[1..], k + |one|, f);
    }
  }

  lemma RenamedNothing(k: int, f: int -> int)
    ensures Renamed([], k, f) == []
  {
  }

  lemma RenamedLength(ss: seq<Slot>, k: int, f: int -> int)
    ensures |Renamed(ss, k, f)| == |ss|
  {
  }

  lemma {:induction false} RowsLaw(rows: seq<seq<int>>, k: int, f: int -> int, k': int, g: int -> int)
    ensures RowsSlots(FillRows(rows, k, f)) == Renamed(RowsSlots(rows), k, f)
    ensures FillRows(FillRows(rows, k, f), k', g) == FillRows(rows, k', g)
    decreases |rows|
  {
    hide Renamed, IntsSlots, Fresh;
    if rows != [] {
      var n := |rows[0]|;
      IntsLaw(rows[0], k, f);
      RowsLaw(rows[1..], k + n, f, k' + n, g);
      RenamedConcat(IntsSlots(rows[0]), RowsSlots(rows[1..]), k, f);
      var filled := FillRows(rows, k, f);
      assert filled[1..] == FillRows(rows[1..], k + n, f);
    }
  }

  lemma OptimistLaw(o: Option<Optimist>, k: int, f: int -> int, k': int, g: int -> int)
    ensures OptimistSlots(FillOptimist(o, k, f)) == Renamed(OptimistSlots(o), k, f)
    ensures FillOptimist(FillOptimist(o, k, f), k', g) == FillOptimist(o, k', g)
  {
  }

  /** What is put into the places of a request is what they then hold, and a second filling forgets the first. */
  lemma {:induction false} RequestLaw(r: Request, k: int, f: int -> int, k': int, g: int -> int)
    ensures Slots(Fill(r, k, f)) == Renamed(Slots(r), k, f)
    ensures Fill(Fill(r, k, f), k', g) == Fill(r, k', g)
  {
    hide Renamed, QuerySlots, AssignsSlots, RowsSlots, OptimistSlots, FillQuery, FillAssigns, FillRows, FillOptimist;
    var s1, s2, s3 := QuerySlots(r.query, true), AssignsSlots(r.sets), AssignsSlots(r.onDuplicate);
    var s4, s5 := RowsSlots(r.rows), OptimistSlots(r.optimistic);
    var k1, k2, k3, k4 := k + |s1|, k + |s1| + |s2|, k + |s1| + |s2| + |s3|, k + |s1| + |s2| + |s3| + |s4|;
    var k1', k2', k3' := k' + |s1|, k' + |s1| + |s2|, k' + |s1| + |s2| + |s3|;
    QueryLaw(r.query, true, k, f, k', g);
    AssignsLaw(r.sets, k1, f, k1', g);
    AssignsLaw(r.onDuplicate, k2, f, k2', g);
    RowsLaw(r.rows, k3, f, k3', g);
    OptimistLaw(r.optimistic, k4, f, k3' + |s4|, g);
    RenamedConcatFive(s1, s2, s3, s4, s5, k, f);
  }
}
