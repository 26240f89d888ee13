/**
  Canonicalization preserves meaning: a tree whose places are filled anew means with the new parameters what the tree
  meant with the old ones, on every database and every row.
 */
module CanonicalMeaning {
  import opened Common
  import opened Ir
  import opened IrMeaning
  import opened Canonical

  /** A renumbering: place n is filled with f(n), and parameter f(n) of `to` is what the place read from `from`. */
  datatype Swap = Swap(f: int -> int, from: seq<Value>, to: seq<Value>)

  ghost predicate Agree(ss: seq<Slot>, k: int, e: Swap) {
    forall n :: 0 <= n < |ss| ==> AgreeAt(ss, k, e, n)
  }

  ghost predicate AgreeAt(ss: seq<Slot>, k: int, e: Swap, n: nat)
    requires n < |ss|
  {
    Fault(ss[n], e.from).None? && V(e.to, e.f(k + n)) == Bound(ss[n], e.from)
  }

  lemma Split(a: seq<Slot>, b: seq<Slot>, k: int, e: Swap)
    requires Agree(a + b, k, e)
    ensures Agree(a, k, e) && Agree(b, k + |a|, e)
  {
    forall n | 0 <= n < |a|
      ensures AgreeAt(a, k, e, n)
    {
      assert AgreeAt(a + b, k, e, n);
    }
    var k' := k + |a|;
    forall n | 0 <= n < |b|
      ensures AgreeAt(b, k', e, n)
    {
      assert AgreeAt(a + b, k, e, |a| + n);
      assert k' + n == k + (|a| + n);
    }
  }

  lemma IntsMean(ps: seq<int>, k: int, e: Swap)
    requires Agree(IntsSlots(ps), k, e)
    ensures Vs(e.to, Fresh(|ps|, k, e.f)) == Vs(e.from, ps)
  {
    forall n | 0 <= n < |ps|
      ensures V(e.to, e.f(k + n)) == V(e.from, ps[n])
    {
      assert AgreeAt(IntsSlots(ps), k, e, n);
    }
  }

  lemma OptMean(p: Option<int>, k: int, e: Swap)
    requires Agree(OptSlots(p), k, e)
    ensures VOpt(e.to, FillOpt(p, k, e.f)) == VOpt(e.from, p)
  {
    if p.Some? { assert AgreeAt(OptSlots(p), k, e, 0); }
  }

  /** A padded list holds the same values as the list. */
  lemma ListMean(ps: seq<int>, k: int, e: Swap, x: Value)
    requires Agree(ListSlots(ps), k, e)
    ensures InList(x, Vs(e.to, Fresh(|ListSlots(ps)|, k, e.f))) == InList(x, Vs(e.from, ps))
  {
    var ss := ListSlots(ps);
    var padded, plain := Vs(e.to, Fresh(|ss|, k, e.f)), Vs(e.from, ps);
    forall n | 0 <= n < |ss|
      ensures padded[n] == plain[if n < |ps| then n else |ps| - 1]
    {
      assert AgreeAt(ss, k, e, n);
    }
    forall v
      ensures v in padded <==> v in plain
    {
      if v in padded { var n :| 0 <= n < |padded| && padded[n] == v; }
      if v in plain { var n :| 0 <= n < |plain| && plain[n] == v; assert padded[n] == v; }
    }
    InListBySet(x, padded, plain);
  }

  lemma FnMean(fn: Option<Func>, k: int, e: Swap)
    requires Agree(FnSlots(fn), k, e)
    ensures fn.Some? ==> Vs(e.to, FillFn(fn, k, e.f).value.ps) == Vs(e.from, fn.value.ps)
  {
    if fn.Some? { IntsMean(fn.value.ps, k, e); }
  }

  lemma PredSplit(p: Pred, k: int, e: Swap)
    requires Agree(PredSlots(p), k, e)
    ensures Agree(OptSlots(p.p), k, e)
    ensures Agree(PsSlots(p), k + |OptSlots(p.p)|, e)
    ensures Agree(FnSlots(p.fn), k + |OptSlots(p.p)| + |PsSlots(p)|, e)
    ensures Agree(FnSlots(p.value), k + |OptSlots(p.p)| + |PsSlots(p)| + |FnSlots(p.fn)|, e)
    ensures Agree(SubSlots(p.sub), k + |OptSlots(p.p)| + |PsSlots(p)| + |FnSlots(p.fn)| + |FnSlots(p.value)|, e)
  {
    hide Agree, OptSlots, PsSlots, FnSlots, SubSlots;
    var s1, s2, s3, s4, s5 := OptSlots(p.p), PsSlots(p), FnSlots(p.fn), FnSlots(p.value), SubSlots(p.sub);
    Split(s1, s2 + (s3 + (s4 + s5)), k, e);
    Split(s2, s3 + (s4 + s5), k + |s1|, e);
    Split(s3, s4 + s5, k + |s1| + |s2|, e);
    Split(s4, s5, k + |s1| + |s2| + |s3|, e);
  }

  lemma {:induction false} PredMean(i: Interp, path: string, p: Pred, k: int, e: Swap, row: Row)
    requires Agree(PredSlots(p), k, e)
    ensures EvalPred(i, path, FillPred(p, k, e.f), e.to, row) == EvalPred(i, path, p, e.from, row)
    ensures FillPred(p, k, e.f).conn == p.conn
    decreases p, 0, 0
  {
    hide Agree, OptSlots, PsSlots, FnSlots, SubSlots, PredSlots, Fresh, FillOpt, FillFn, FillSub, InList, EvalSub, Vs,
         VOpt;
    PredSplit(p, k, e);
    var p' := FillPred(p, k, e.f);
    var k1 := k + |OptSlots(p.p)|;
    var k2 := k1 + |PsSlots(p)|;
    var k3 := k2 + |FnSlots(p.fn)|;
    PredLeft(i, path, p, p', k2, e, row);
    if p.op == "in" || p.op == "not_in" {
      if p.sub.None? {
        assert PsSlots(p) == ListSlots(p.ps) by { PsOfList(p); }
        ListMean(p.ps, k1, e, Left(i, path, p, e.from, row));
      } else {
        FilledSub(p.sub, k3 + |FnSlots(p.value)|, e.f);
        SubMean(i, p.sub.value, k3 + |FnSlots(p.value)|, e, row);
      }
    } else {
      assert PsSlots(p) == IntsSlots(p.ps) by { PsOfInts(p); }
      IntsMean(p.ps, k1, e);
      OptMean(p.p, k, e);
      PredValue(p, p', k3, e);
    }
  }

  lemma PsOfList(p: Pred)
    requires IsValueList(p)
    ensures PsSlots(p) == ListSlots(p.ps)
  {
  }

  lemma PsOfInts(p: Pred)
    requires !IsValueList(p)
    ensures PsSlots(p) == IntsSlots(p.ps)
  {
  }

  lemma PredLeft(i: Interp, path: string, p: Pred, p': Pred, k: int, e: Swap, row: Row)
    requires Agree(FnSlots(p.fn), k, e) && p'.fn == FillFn(p.fn, k, e.f) && p'.column == p.column
    ensures Left(i, path, p', e.to, row) == Left(i, path, p, e.from, row)
  {
    FnMean(p.fn, k, e);
  }

  lemma PredValue(p: Pred, p': Pred, k: int, e: Swap)
    requires Agree(FnSlots(p.value), k, e) && p'.value == FillFn(p.value, k, e.f)
    ensures p'.value.Some? <==> p.value.Some?
    ensures p.value.Some? ==>
              p'.value.value.name == p.value.value.name && Vs(e.to, p'.value.value.ps) == Vs(e.from, p.value.value.ps)
  {
    FnMean(p.value, k, e);
  }

  lemma FilledSub(s: Option<Sub>, k: int, f: int -> int)
    requires s.Some?
    ensures FillSub(s, k, f).Some?
    ensures FillSub(s, k, f).value ==
              if s.value.query.None? then s.value
              else s.value.(query := Some(FillQuery(s.value.query.value, false, k, f)))
    ensures SubSlots(s) == if s.value.query.None? then [] else QuerySlots(s.value.query.value, false)
  {
  }

  lemma {:induction false} SubMean(i: Interp, s: Sub, k: int, e: Swap, row: Row)
    requires Agree(SubSlots(Some(s)), k, e)
    ensures EvalSub(i, FillSub(Some(s), k, e.f).value, e.to, row) == EvalSub(i, s, e.from, row)
    decreases s, 0, 0
  {
    hide Agree, QuerySlots, FillQuery, EvalQuery;
    if s.query.Some? { QueryMean(i, s.query.value, false, false, k, e, row); }
  }

  lemma {:induction false} ItemMean(
    i: Interp, path: string, it: Item, k: int, e: Swap, row: Row, joined: map<string, Truth>)
    requires Agree(ItemSlots(it), k, e)
    ensures EvalItem(i, path, FillItem(it, k, e.f), e.to, row, joined) == EvalItem(i, path, it, e.from, row, joined)
    decreases it, 0, 0
  {
    hide Agree, PredSlots, GroupSlots, FillPred, EvalPred, EvalGroup;
    var s1 := if it.pred.None? then [] else PredSlots(it.pred.value);
    Split(s1, GroupSlots(it.group), k, e);
    if it.pred.Some? {
      PredMean(i, path, it.pred.value, k, e, row);
    } else if it.group.Some? {
      GroupMean(i, path, it.group, k, e, row, joined);
    }
  }

  lemma {:induction false} ItemsMean(
    i: Interp, path: string, items: seq<Item>, k: int, e: Swap, row: Row, joined: map<string, Truth>)
    requires Agree(ItemsSlots(items), k, e)
    ensures EvalItems(i, path, FillItems(items, k, e.f), e.to, row, joined) ==
              EvalItems(i, path, items, e.from, row, joined)
    decreases items, 0, 0
  {
    hide Agree, ItemSlots, FillItem, EvalItem;
    if items != [] {
      Split(ItemSlots(items[0]), ItemsSlots(items[1..]), k, e);
      ItemMean(i, path, items[0], k, e, row, joined);
      ItemsMean(i, path, items[1..], k + |ItemSlots(items[0])|, e, row, joined);
      assert FillItems(items, k, e.f)[1..] == FillItems(items[1..], k + |ItemSlots(items[0])|, e.f);
    }
  }

  lemma {:induction false} GroupMean(
    i: Interp, path: string, g: Option<Group>, k: int, e: Swap, row: Row, joined: map<string, Truth>)
    requires Agree(GroupSlots(g), k, e)
    ensures EvalGroup(i, path, FillGroup(g, k, e.f), e.to, row, joined) == EvalGroup(i, path, g, e.from, row, joined)
    decreases g, 0, 0
  {
    hide Agree, ItemsSlots, FillItems, EvalItems, Connect;
    if g.Some? { ItemsMean(i, path, g.value.items, k, e, row, joined); }
  }

  /** A group as a term, and its items as terms. */
  lemma {:induction false} TermsMean(
    i: Interp, path: string, g: Option<Group>, k: int, e: Swap, row: Row, joined: map<string, Truth>)
    requires Agree(GroupSlots(g), k, e)
    ensures Bracketed(i, path, FillGroup(g, k, e.f), e.to, row, joined) == Bracketed(i, path, g, e.from, row, joined)
    ensures Flat(i, path, FillGroup(g, k, e.f), e.to, row, joined) == Flat(i, path, g, e.from, row, joined)
    decreases g, 1, 0
  {
    hide Agree, ItemsSlots, FillItems, EvalItems, EvalGroup;
    GroupMean(i, path, g, k, e, row, joined);
    if g.Some? {
      ItemsMean(i, path, g.value.items, k, e, row, joined);
      FilledLength(g.value.items, k, e.f);
    }
  }

  lemma FilledLength(items: seq<Item>, k: int, f: int -> int)
    ensures FillItems(items, k, f) == [] <==> items == []
  {
  }

  /** A filled group places the same joins. */
  lemma {:induction false} PlacedSame(g: Option<Group>, k: int, f: int -> int)
    ensures Placed(FillGroup(g, k, f)) == Placed(g)
    decreases g
  {
    hide FillItems, PlacedBy;
    if g.Some? { PlacedBySame(g.value.items, k, f); }
  }

  lemma {:induction false} PlacedBySame(items: seq<Item>, k: int, f: int -> int)
    ensures PlacedBy(FillItems(items, k, f)) == PlacedBy(items)
    decreases items
  {
    hide FillItem, PlacedByItem, ItemSlots;
    if items != [] {
      PlacedByItemSame(items[0], k, f);
      PlacedBySame(items[1..], k + |ItemSlots(items[0])|, f);
      assert FillItems(items, k, f)[1..] == FillItems(items[1..], k + |ItemSlots(items[0])|, f);
    }
  }

  lemma {:induction false} PlacedByItemSame(it: Item, k: int, f: int -> int)
    ensures PlacedByItem(FillItem(it, k, f)) == PlacedByItem(it)
    decreases it
  {
    hide FillGroup, Placed, FillPred;
    PlacedSame(it.group, k + if it.pred.None? then 0 else |PredSlots(it.pred.value)|, f);
  }

  // --------------------------------------------------------------------------------------- joins

  lemma QuerySplit(q: Query, root: bool, k: int, e: Swap)
    requires Agree(QuerySlots(q, root), k, e)
    ensures var k1 := k + |ColumnsSlots(q.columns)|;
            var k2 := k1 + |GroupSlots(q.on)|;
            var k3 := k2 + |GroupSlots(q.where)|;
            var k4 := k3 + |JoinsSlots(q.joins)|;
            var k5 := k4 + |RelationsSlots(q.relations)|;
            var k6 := k5 + |OrdersSlots(q.order)|;
            var k7 := k6 + |LimitSlots(q.limit, root)|;
            && Agree(ColumnsSlots(q.columns), k, e) && Agree(GroupSlots(q.on), k1, e) &&
              Agree(GroupSlots(q.where), k2, e)
            && Agree(JoinsSlots(q.joins), k3, e) && Agree(RelationsSlots(q.relations), k4, e) &&
              Agree(OrdersSlots(q.order), k5, e)
            && Agree(LimitSlots(q.limit, root), k6, e) && Agree(IfParentSlots(q.ifParent), k7, e)
  {
    hide Agree, ColumnsSlots, GroupSlots, JoinsSlots, RelationsSlots, OrdersSlots, LimitSlots, IfParentSlots;
    var s1, s2, s3, s4 := ColumnsSlots(q.columns), GroupSlots(q.on), GroupSlots(q.where), JoinsSlots(q.joins);
    var s5, s6, s7, s8 := RelationsSlots(q.relations), OrdersSlots(q.order), LimitSlots(q.limit, root),
      IfParentSlots(q.ifParent);
    var t7 := s7 + s8;
    var t6 := s6 + t7;
    var t5 := s5 + t6;
    var t4 := s4 + t5;
    var t3 := s3 + t4;
    var k1 := k + |s1|;
    var k2 := k1 + |s2|;
    var k3 := k2 + |s3|;
    var k4 := k3 + |s4|;
    var k5 := k4 + |s5|;
    var k6 := k5 + |s6|;
    Split(s1, s2 + t3, k, e);
    Split(s2, t3, k1, e);
    Split(s3, t4, k2, e);
    Split(s4, t5, k3, e);
    Split(s5, t6, k4, e);
    Split(s6, t7, k5, e);
    Split(s7, s8, k6, e);
  }

  lemma {:induction false} JoinedMean(i: Interp, path: string, js: seq<Option<Join>>, k: int, e: Swap, row: Row)
    requires Agree(JoinsSlots(js), k, e)
    ensures JoinedTruths(i, path, FillJoins(js, k, e.f), e.to, row) == JoinedTruths(i, path, js, e.from, row)
    decreases js, 0, 0
  {
    hide Agree, JoinSlots, FillJoin, JoinTruth;
    if js != [] {
      Split(JoinSlots(js[0]), JoinsSlots(js[1..]), k, e);
      JoinTruthMean(i, path, js[0], k, e, row);
      JoinedMean(i, path, js[1..], k + |JoinSlots(js[0])|, e, row);
      assert FillJoins(js, k, e.f)[1..] == FillJoins(js[1..], k + |JoinSlots(js[0])|, e.f);
    }
  }

  lemma {:induction false} JoinTruthMean(i: Interp, path: string, j: Option<Join>, k: int, e: Swap, row: Row)
    requires Agree(JoinSlots(j), k, e)
    ensures JoinTruth(i, path, FillJoin(j, k, e.f), e.to, row) == JoinTruth(i, path, j, e.from, row)
    decreases j, 0, 0
  {
    hide Agree, ColumnsSlots, GroupSlots, JoinsSlots, QuerySlots, FillColumns, FillGroup, FillJoins, FillRelations,
         FillOrders, FillLimit, FillIfParent, EvalGroup, JoinedTruths, Under;
    if j.Some? && j.value.query.Some? {
      var q := j.value.query.value;
      var at := Under(path, j.value.rel);
      QuerySplit(q, false, k, e);
      var k2 := k + |ColumnsSlots(q.columns)| + |GroupSlots(q.on)|;
      JoinedMean(i, at, q.joins, k2 + |GroupSlots(q.where)|, e, row);
      GroupMean(i, at, q.where, k2, e, row, JoinedTruths(i, at, q.joins, e.from, row));
    }
  }

  lemma {:induction false} UnplacedMean(
    i: Interp, path: string, placed: set<string>, js: seq<Option<Join>>, k: int, e: Swap, row: Row)
    requires Agree(JoinsSlots(js), k, e)
    ensures Unplaced(i, path, placed, FillJoins(js, k, e.f), e.to, row) == Unplaced(i, path, placed, js, e.from, row)
    decreases js, 1, 0
  {
    hide Agree, JoinSlots, FillJoin, UnplacedOf;
    if js != [] {
      Split(JoinSlots(js[0]), JoinsSlots(js[1..]), k, e);
      UnplacedOfMean(i, path, placed, js[0], k, e, row);
      UnplacedMean(i, path, placed, js[1..], k + |JoinSlots(js[0])|, e, row);
      assert FillJoins(js, k, e.f)[1..] == FillJoins(js[1..], k + |JoinSlots(js[0])|, e.f);
    }
  }

  lemma {:induction false} UnplacedOfMean(
    i: Interp, path: string, placed: set<string>, j: Option<Join>, k: int, e: Swap, row: Row)
    requires Agree(JoinSlots(j), k, e)
    ensures UnplacedOf(i, path, placed, FillJoin(j, k, e.f), e.to, row) == UnplacedOf(i, path, placed, j, e.from, row)
    decreases j, 1, 0
  {
    hide Agree, ColumnsSlots, GroupSlots, JoinsSlots, QuerySlots, FillColumns, FillGroup, FillJoins, FillRelations,
         FillOrders, FillLimit, FillIfParent, Bracketed, Unplaced, Placed, JoinedTruths, Under;
    if j.Some? && j.value.query.Some? {
      var q := j.value.query.value;
      var at := Under(path, j.value.rel);
      QuerySplit(q, false, k, e);
      var k2 := k + |ColumnsSlots(q.columns)| + |GroupSlots(q.on)|;
      var k3 := k2 + |GroupSlots(q.where)|;
      JoinedMean(i, at, q.joins, k3, e, row);
      TermsMean(i, at, q.where, k2, e, row, JoinedTruths(i, at, q.joins, e.from, row));
      PlacedSame(q.where, k2, e.f);
      UnplacedMean(i, at, Placed(q.where), q.joins, k3, e, row);
    }
  }

  lemma {:induction false} MatchesMean(
    i: Interp, path: string, j: Join, j': Join, entity: string, on: Option<Group>, k: int, e: Swap, row: Row,
    table: seq<Row>)
    requires Agree(GroupSlots(on), k, e) && j'.rel == j.rel && j'.left == j.left && j'.right == j.right
    ensures Matches(i, path, j', entity, FillGroup(on, k, e.f), e.to, row, table)
              == Matches(i, path, j, entity, on, e.from, row, table)
    decreases on, 2, |table|
  {
    hide Agree, GroupSlots, FillGroup, Flat, Under, Connect;
    if table != [] {
      var at := Under(path, j.rel);
      TermsMean(i, at, on, k, e, i.merge(row, at, table[0]), map[]);
      MatchesMean(i, path, j, j', entity, on, k, e, row, table[1..]);
    }
  }

  lemma {:induction false} JoinsMean(i: Interp, path: string, js: seq<Option<Join>>, k: int, e: Swap, rows: seq<Row>)
    requires Agree(JoinsSlots(js), k, e)
    ensures EvalJoins(i, path, FillJoins(js, k, e.f), e.to, rows) == EvalJoins(i, path, js, e.from, rows)
    decreases js, 0, 0
  {
    hide Agree, JoinSlots, FillJoin, EvalJoin;
    if js != [] {
      Split(JoinSlots(js[0]), JoinsSlots(js[1..]), k, e);
      JoinMean(i, path, js[0], k, e, rows);
      JoinsMean(i, path, js[1..], k + |JoinSlots(js[0])|, e, EvalJoin(i, path, js[0], e.from, rows));
      assert FillJoins(js, k, e.f)[1..] == FillJoins(js[1..], k + |JoinSlots(js[0])|, e.f);
    }
  }

  lemma {:induction false} JoinMean(i: Interp, path: string, j: Option<Join>, k: int, e: Swap, rows: seq<Row>)
    requires Agree(JoinSlots(j), k, e)
    ensures EvalJoin(i, path, FillJoin(j, k, e.f), e.to, rows) == EvalJoin(i, path, j, e.from, rows)
    decreases j, 1, |rows|
  {
    hide Agree, ColumnsSlots, GroupSlots, JoinsSlots, QuerySlots, FillColumns, FillGroup, FillJoins, FillRelations,
         FillOrders, FillLimit, FillIfParent, EvalJoins, Matches, Under;
    if j.Some? && j.value.query.Some? && rows != [] {
      var q := j.value.query.value;
      var at := Under(path, j.value.rel);
      QuerySplit(q, false, k, e);
      var k1 := k + |ColumnsSlots(q.columns)|;
      var k3 := k1 + |GroupSlots(q.on)| + |GroupSlots(q.where)|;
      MatchesMean(i, path, j.value, FillJoin(j, k, e.f).value, q.entity, q.on, k1, e, rows[0], i.table(q.entity));
      var matches := Matches(i, path, j.value, q.entity, q.on, e.from, rows[0], i.table(q.entity));
      JoinsMean(i, at, q.joins, k3, e, if matches == [] && j.value.kind == "left" then [rows[0]] else matches);
      JoinMean(i, path, j, k, e, rows[1..]);
    }
  }

  // --------------------------------------------------------------------------------------- query

  lemma {:induction false} SelectsMean(
    i: Interp, q: Query, q': Query, related: bool, k2: int, k3: int, e: Swap, row: Row)
    requires Agree(GroupSlots(q.where), k2, e) && Agree(JoinsSlots(q.joins), k3, e) && q'.entity == q.entity
    requires q'.where == FillGroup(q.where, k2, e.f) && q'.joins == FillJoins(q.joins, k3, e.f)
    ensures Selects(i, q', related, e.to, row) == Selects(i, q, related, e.from, row)
    decreases q, 1, 0
  {
    hide Agree, GroupSlots, JoinsSlots, FillGroup, FillJoins, Flat, Bracketed, Unplaced, Placed, JoinedTruths, Connect;
    JoinedMean(i, "", q.joins, k3, e, row);
    TermsMean(i, "", q.where, k2, e, row, JoinedTruths(i, "", q.joins, e.from, row));
    PlacedSame(q.where, k2, e.f);
    UnplacedMean(i, "", Placed(q.where), q.joins, k3, e, row);
  }

  lemma {:induction false} FilterMean(
    i: Interp, q: Query, q': Query, related: bool, k2: int, k3: int, e: Swap, rows: seq<Row>)
    requires Agree(GroupSlots(q.where), k2, e) && Agree(JoinsSlots(q.joins), k3, e) && q'.entity == q.entity
    requires q'.where == FillGroup(q.where, k2, e.f) && q'.joins == FillJoins(q.joins, k3, e.f)
    ensures Filter(i, q', related, e.to, rows) == Filter(i, q, related, e.from, rows)
    decreases q, 2, |rows|
  {
    hide Agree, GroupSlots, JoinsSlots, FillGroup, FillJoins, Selects;
    if rows != [] {
      SelectsMean(i, q, q', related, k2, k3, e, rows[0]);
      FilterMean(i, q, q', related, k2, k3, e, rows[1..]);
    }
  }

  lemma {:induction false} KeysMean(os: seq<Order>, k: int, e: Swap)
    requires Agree(OrdersSlots(os), k, e)
    ensures Keys(FillOrders(os, k, e.f), e.to) == Keys(os, e.from)
    decreases |os|
  {
    hide Agree, FnSlots;
    if os != [] {
      Split(FnSlots(os[0].fn), OrdersSlots(os[1..]), k, e);
      FnMean(os[0].fn, k, e);
      KeysMean(os[1..], k + |FnSlots(os[0].fn)|, e);
      assert FillOrders(os, k, e.f)[1..] == FillOrders(os[1..], k + |FnSlots(os[0].fn)|, e.f);
    }
  }

  lemma LimitMean(l: Option<Limit>, root: bool, k: int, e: Swap, rows: seq<Row>)
    requires Agree(LimitSlots(l, root), k, e)
    ensures EvalLimit(FillLimit(l, root, k, e.f), e.to, rows) == EvalLimit(l, e.from, rows)
  {
    var ss := LimitSlots(l, root);
    if |ss| > 0 { assert AgreeAt(ss, k, e, 0); }
    if |ss| > 1 { assert AgreeAt(ss, k, e, 1); }
  }

  lemma {:induction false} ColFnsMean(i: Interp, fs: seq<ColFunc>, k: int, e: Swap, row: Row)
    requires Agree(ColFnsSlots(fs), k, e)
    ensures ColFns(i, FillColFns(fs, k, e.f), e.to, row) == ColFns(i, fs, e.from, row)
    decreases |fs|
  {
    hide Agree, IntsSlots, Fresh, Vs;
    if fs != [] {
      var n := |fs[0].fn.ps|;
      Split(IntsSlots(fs[0].fn.ps), ColFnsSlots(fs[1..]), k, e);
      IntsMean(fs[0].fn.ps, k, e);
      ColFnsMean(i, fs[1..], k + n, e,
        row[fs[0].name := i.call(fs[0].fn.name, i.cell(row, "", fs[0].column), Vs(e.from, fs[0].fn.ps))]);
      assert FillColFns(fs, k, e.f)[1..] == FillColFns(fs[1..], k + n, e.f);
    }
  }

  lemma {:induction false} ColSubsMean(i: Interp, ss: seq<ColSub>, k: int, e: Swap, row: Row)
    requires Agree(ColSubsSlots(ss), k, e)
    ensures ColSubs(i, FillColSubs(ss, k, e.f), e.to, row) == ColSubs(i, ss, e.from, row)
    decreases ss, 0, 0
  {
    hide Agree, SubSlots, FillSub, EvalSub;
    if ss != [] {
      var n := |SubSlots(ss[0].sub)|;
      Split(SubSlots(ss[0].sub), ColSubsSlots(ss[1..]), k, e);
      var filled := FillColSubs(ss, k, e.f);
      assert filled[0] == ss[0].(sub := FillSub(ss[0].sub, k, e.f));
      assert filled[1..] == FillColSubs(ss[1..], k + n, e.f);
      if ss[0].sub.Some? {
        assert ss[0].sub == Some(ss[0].sub.value);
        SubMean(i, ss[0].sub.value, k, e, row);
      }
      assert ColSubOf(i, filled[0], e.to, row) == ColSubOf(i, ss[0], e.from, row);
      ColSubsMean(i, ss[1..], k + n, e, ColSubOf(i, ss[0], e.from, row));
    }
  }

  lemma {:induction false} ColumnsMean(i: Interp, c: Option<Columns>, k: int, e: Swap, rows: seq<Row>)
    requires Agree(ColumnsSlots(c), k, e)
    ensures EvalColumns(i, FillColumns(c, k, e.f), e.to, rows) == EvalColumns(i, c, e.from, rows)
    decreases c, 1, |rows|
  {
    hide Agree, ColFnsSlots, ColSubsSlots, FillColFns, FillColSubs, ColFns, ColSubs;
    if c.Some? && rows != [] {
      Split(ColFnsSlots(c.value.fn), ColSubsSlots(c.value.sub), k, e);
      ColFnsMean(i, c.value.fn, k, e, rows[0]);
      ColSubsMean(i, c.value.sub, k + |ColFnsSlots(c.value.fn)|, e, ColFns(i, c.value.fn, e.from, rows[0]));
      ColumnsMean(i, c, k, e, rows[1..]);
    }
  }

  lemma {:induction false} QueryMean(i: Interp, q: Query, root: bool, related: bool, k: int, e: Swap, outer: Row)
    requires Agree(QuerySlots(q, root), k, e)
    ensures EvalQuery(i, FillQuery(q, root, k, e.f), related, e.to, outer) == EvalQuery(i, q, related, e.from, outer)
    decreases q, 3, 0
  {
    hide Agree, ColumnsSlots, GroupSlots, JoinsSlots, RelationsSlots, OrdersSlots, LimitSlots, IfParentSlots,
         QuerySlots, FillColumns, FillGroup, FillJoins, FillRelations, FillOrders, FillLimit, FillIfParent, EvalJoins,
         Filter, EvalColumns, EvalLimit, Keys;
    QuerySplit(q, root, k, e);
    var k2 := k + |ColumnsSlots(q.columns)| + |GroupSlots(q.on)|;
    var k3 := k2 + |GroupSlots(q.where)|;
    var k5 := k3 + |JoinsSlots(q.joins)| + |RelationsSlots(q.relations)|;
    var k6 := k5 + |OrdersSlots(q.order)|;
    var table := i.table(q.entity);
    var from := seq(|table|, n requires 0 <= n < |table| => i.merge(table[n], "^", outer));
    var read := EvalJoins(i, "", q.joins, e.from, from);
    JoinsMean(i, "", q.joins, k3, e, from);
    FilterMean(i, q, FillQuery(q, root, k, e.f), related, k2, k3, e, read);
    KeysMean(q.order, k5, e);
    var sorted := i.sort(Keys(q.order, e.from), i.group(q.groupBy, Filter(i, q, related, e.from, read)));
    LimitMean(q.limit, root, k6, e, sorted);
    ColumnsMean(i, q.columns, k, e, EvalLimit(q.limit, e.from, sorted));
  }

  // ----------------------------------------------------------------------------- relations, writes

  lemma {:induction false} ReadMean(i: Interp, q: Query, root: bool, related: bool, k: int, e: Swap)
    requires Agree(QuerySlots(q, root), k, e)
    ensures Read(i, FillQuery(q, root, k, e.f), related, e.to) == Read(i, q, related, e.from)
    decreases q, 4, 0
  {
    hide Agree, ColumnsSlots, GroupSlots, JoinsSlots, RelationsSlots, OrdersSlots, LimitSlots, QuerySlots,
         FillColumns, FillGroup, FillJoins, FillRelations, FillOrders, FillLimit, EvalQuery, ReadRelations;
    QueryMean(i, q, root, related, k, e, map[]);
    QuerySplit(q, root, k, e);
    var k4 := k + |ColumnsSlots(q.columns)| + |GroupSlots(q.on)| + |GroupSlots(q.where)| + |JoinsSlots(q.joins)|;
    var k7 := k4 + |RelationsSlots(q.relations)| + |OrdersSlots(q.order)| + |LimitSlots(q.limit, root)|;
    RelationsMean(i, q.relations, k4, e);
    if q.ifParent.Some? { AgreeFirst(q.ifParent.value.p, k7, e); }
  }

  lemma AgreeFirst(p: int, k: int, e: Swap)
    requires Agree([Of(p)], k, e)
    ensures V(e.to, e.f(k)) == V(e.from, p)
  {
    assert AgreeAt([Of(p)], k, e, 0);
  }

  lemma {:induction false} RelationsMean(i: Interp, rs: seq<Option<Relation>>, k: int, e: Swap)
    requires Agree(RelationsSlots(rs), k, e)
    ensures ReadRelations(i, FillRelations(rs, k, e.f), e.to) == ReadRelations(i, rs, e.from)
    decreases rs, 0, 0
  {
    hide Agree, RelationSlots, FillRelation, ReadRelation;
    if rs != [] {
      var n := |RelationSlots(rs[0])|;
      Split(RelationSlots(rs[0]), RelationsSlots(rs[1..]), k, e);
      RelationMean(i, rs[0], k, e);
      RelationsMean(i, rs[1..], k + n, e);
      assert FillRelations(rs, k, e.f)[1..] == FillRelations(rs[1..], k + n, e.f);
    }
  }

  lemma {:induction false} RelationMean(i: Interp, r: Option<Relation>, k: int, e: Swap)
    requires Agree(RelationSlots(r), k, e)
    ensures ReadRelation(i, FillRelation(r, k, e.f), e.to) == ReadRelation(i, r, e.from)
    decreases r, 0, 0
  {
    hide Agree, QuerySlots, FillQuery, Read;
    if r.Some? && r.value.query.Some? { ReadMean(i, r.value.query.value, false, true, k, e); }
  }

  lemma {:induction false} AssignsMean(s: seq<Assign>, k: int, e: Swap)
    requires Agree(AssignsSlots(s), k, e)
    ensures Assigns(FillAssigns(s, k, e.f), e.to) == Assigns(s, e.from)
    decreases |s|
  {
    hide Agree, OptSlots, FillOpt, VOpt;
    if s != [] {
      var s1, s2, s3 := OptSlots(s[0].p), OptSlots(s[0].plusP), OptSlots(s[0].minusP);
      var k1, k2, k3 := k + |s1|, k + |s1| + |s2|, k + |s1| + |s2| + |s3|;
      Split(s1 + (s2 + s3), AssignsSlots(s[1..]), k, e);
      Split(s1, s2 + s3, k, e);
      Split(s2, s3, k1, e);
      OptMean(s[0].p, k, e);
      OptMean(s[0].plusP, k1, e);
      OptMean(s[0].minusP, k2, e);
      AssignsMean(s[1..], k3, e);
      assert FillAssigns(s, k, e.f)[1..] == FillAssigns(s[1..], k3, e.f);
    }
  }

  lemma {:induction false} RowsMean(rows: seq<seq<int>>, k: int, e: Swap)
    requires Agree(RowsSlots(rows), k, e)
    ensures InsertRows(FillRows(rows, k, e.f), e.to) == InsertRows(rows, e.from)
    decreases |rows|
  {
    hide Agree, IntsSlots, Fresh, Vs;
    if rows != [] {
      Split(IntsSlots(rows[0]), RowsSlots(rows[1..]), k, e);
      IntsMean(rows[0], k, e);
      RowsMean(rows[1..], k + |rows[0]|, e);
      assert FillRows(rows, k, e.f)[1..] == FillRows(rows[1..], k + |rows[0]|, e.f);
    }
  }

  lemma {:induction false} ChangedMean(
    i: Interp, q: Query, q': Query, o: Option<Optimist>, k2: int, k4: int, e: Swap, rows: seq<Row>)
    requires Agree(GroupSlots(q.where), k2, e) && (o.Some? ==> Agree(OptimistSlots(o), k4, e))
    requires q'.where == FillGroup(q.where, k2, e.f) && q'.entity == q.entity
    ensures Changed(i, q', FillOptimist(o, k4, e.f), e.to, rows) == Changed(i, q, o, e.from, rows)
    decreases |rows|
  {
    hide Agree, GroupSlots, FillGroup, Flat, Connect;
    if rows != [] {
      TermsMean(i, "", q.where, k2, e, rows[0], map[]);
      if o.Some? { OptimistMean(o.value, k4, e); }
      ChangedMean(i, q, q', o, k2, k4, e, rows[1..]);
    }
  }

  lemma OptimistMean(o: Optimist, k: int, e: Swap)
    requires Agree(OptimistSlots(Some(o)), k, e)
    ensures FillOptimist(Some(o), k, e.f).Some? && FillOptimist(Some(o), k, e.f).value.column == o.column
    ensures V(e.to, FillOptimist(Some(o), k, e.f).value.p) == V(e.from, o.p)
  {
    AgreeFirst(o.p, k, e);
  }

  /** A request whose places are filled anew means what it meant. */
  lemma RequestMean(i: Interp, r: Request, k: int, e: Swap)
    requires Agree(Slots(r), k, e)
    ensures Mean(i, Fill(r, k, e.f), e.to) == Mean(i, r, e.from)
  {
    hide Agree, QuerySlots, AssignsSlots, RowsSlots, FillQuery, FillAssigns, FillRows, Read, Assigns, InsertRows,
         OptimistSlots, Changed;
    var s1, s2, s3 := QuerySlots(r.query, true), AssignsSlots(r.sets), AssignsSlots(r.onDuplicate);
    var s4, s5 := RowsSlots(r.rows), OptimistSlots(r.optimistic);
    var k1, k2, k3, k4 := k + |s1|, k + |s1| + |s2|, k + |s1| + |s2| + |s3|, k + |s1| + |s2| + |s3| + |s4|;
    Split(s1, s2 + (s3 + (s4 + s5)), k, e);
    Split(s2, s3 + (s4 + s5), k1, e);
    Split(s3, s4 + s5, k2, e);
    Split(s4, s5, k3, e);
    ReadMean(i, r.query, true, false, k, e);
    AssignsMean(r.sets, k1, e);
    AssignsMean(r.onDuplicate, k2, e);
    RowsMean(r.rows, k3, e);
    QuerySplit(r.query, true, k, e);
    var k0 := k + |ColumnsSlots(r.query.columns)| + |GroupSlots(r.query.on)|;
    FilledWhere(r.query, k, e.f);
    var r' := Fill(r, k, e.f);
    if r.optimistic.Some? { OptimistMean(r.optimistic.value, k4, e); }
    if r.kind == "update" { ChangedMean(i, r.query, r'.query, r.optimistic, k0, k4, e, i.table(r.query.entity)); }
    ChangedMean(i, r.query, r'.query, None, k0, k4, e, i.table(r.query.entity));
  }

  lemma FilledWhere(q: Query, k: int, f: int -> int)
    ensures var q' := FillQuery(q, true, k, f);
            && q'.entity == q.entity
            && q'.where == FillGroup(q.where, k + |ColumnsSlots(q.columns)| + |GroupSlots(q.on)|, f)
  {
  }
}
