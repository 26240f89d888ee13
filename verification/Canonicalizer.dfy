/**
  The canonicalizer at work: one walk over the request that appends a value to `out` at every place, marks the
  parameters it reads and keeps the first error.  The walk is proved to produce the canonical form.
 */
module Canonicalizer {
  import opened Common
  import opened Ir
  import opened Canonical
  import CanonicalTree
  import CanonicalRefusals

  /** What the walk has done so far. */
  datatype State = State(out: seq<Value>, used: seq<bool>, err: Option<Error>)

  /** One place. */
  function Step(st: State, s: Slot, params: seq<Value>): State
    requires |st.used| == |params|
  {
    var err := if st.err.Some? then st.err else Fault(s, params);
    if s.Literal? then State(st.out + [Int(s.n)], st.used, err)
    else if Fault(s, params).Some? then st.(err := err)
    else State(st.out + [Bound(s, params)], st.used[s.p := true], err)
  }

  /** The places in order. */
  function Walk(st: State, ss: seq<Slot>, params: seq<Value>): (r: State)
    requires |st.used| == |params|
    ensures |r.used| == |params|
    ensures r.err.None? ==> st.err.None? && |r.out| == |st.out| + |ss|
    decreases |ss|
  {
    if ss == [] then st else Walk(Step(st, ss[0], params), ss[1..], params)
  }

  lemma {:induction false} WalkConcat(st: State, a: seq<Slot>, b: seq<Slot>, params: seq<Value>)
    requires |st.used| == |params|
    ensures Walk(st, a + b, params) == Walk(Walk(st, a, params), b, params)
    decreases |a|
  {
    if a == [] {
      assert a + b == b;
    } else {
      assert (a + b)[0] == a[0] && (a + b)[1..] == a[1..] + b;
      WalkConcat(Step(st, a[0], params), a[1..], b, params);
    }
  }

  lemma WalkOne(st: State, s: Slot, params: seq<Value>)
    requires |st.used| == |params|
    ensures Walk(st, [s], params) == Step(st, s, params)
  {
    var r := Step(st, s, params);
    assert [s][1..] == [];
    assert Walk(r, [], params) == r;
  }

  /** The walk keeps the first error. */
  lemma {:induction false} WalkFault(st: State, ss: seq<Slot>, params: seq<Value>)
    requires |st.used| == |params|
    ensures Walk(st, ss, params).err == FirstFault(st.err, ss, params)
    decreases |ss|
  {
    if ss != [] {
      WalkFault(Step(st, ss[0], params), ss[1..], params);
    }
  }

  /** Without an error it has appended one value per place. */
  lemma {:induction false} WalkAppends(st: State, ss: seq<Slot>, params: seq<Value>)
    requires |st.used| == |params|
    ensures Walk(st, ss, params).err.None? ==> Walk(st, ss, params).out == st.out + Values(ss, params)
    decreases |ss|
  {
    if ss == [] {
      assert st.out + Values(ss, params) == st.out;
    } else if Walk(st, ss, params).err.None? {
      WalkAppends(Step(st, ss[0], params), ss[1..], params);
      ValuesSplit(st.out, ss, params);
    }
  }

  lemma ValuesSplit(out: seq<Value>, ss: seq<Slot>, params: seq<Value>)
    requires ss != []
    ensures out + Values(ss, params) == out + [Bound(ss[0], params)] + Values(ss[1..], params)
  {
    hide Bound;
    assert Values(ss, params) == [Bound(ss[0], params)] + Values(ss[1..], params);
  }

  /** ... and has marked exactly the parameters that the places name. */
  lemma {:induction false} WalkMarks(st: State, ss: seq<Slot>, params: seq<Value>, p: nat)
    requires |st.used| == |params| && p < |params|
    ensures Walk(st, ss, params).err.None? ==> (Walk(st, ss, params).used[p] <==> st.used[p] || p in Named(ss))
    decreases |ss|
  {
    hide Named;
    if ss == [] {
      NamedNothing();
    } else if Walk(st, ss, params).err.None? {
      WalkMarks(Step(st, ss[0], params), ss[1..], params, p);
      NamedSplit(ss, p);
    }
  }

  lemma NamedNothing()
    ensures Named([]) == {}
  {
  }

  lemma NamedSplit(ss: seq<Slot>, p: int)
    requires ss != []
    ensures p in Named(ss) <==> ((ss[0].Of? || ss[0].Page?) && ss[0].p == p) || p in Named(ss[1..])
  {
    assert [ss[0]] + ss[1..] == ss;
    if p in Named(ss) {
      var s :| s in ss && (s.Of? || s.Page?) && s.p == p;
      assert s == ss[0] || s in ss[1..];
    }
  }

  lemma ItemsStep(items: seq<Item>, i: nat, k: int)
    requires i < |items|
    ensures ItemsSlots(items[i..]) == ItemSlots(items[i]) + ItemsSlots(items[i + 1..])
    ensures FillItems(items[i..], k, Same) ==
              [FillItem(items[i], k, Same)] + FillItems(items[i + 1..], k + |ItemSlots(items[i])|, Same)
  {
    hide ItemSlots, FillItem;
    assert items[i..][0] == items[i] && items[i..][1..] == items[i + 1..];
  }

  lemma WalkNothing(st: State, params: seq<Value>)
    requires |st.used| == |params|
    ensures Walk(st, [], params) == st
  {
  }

  lemma ItemsEnd(items: seq<Item>, k: int)
    ensures items[|items|..] == [] && ItemsSlots(items[|items|..]) == [] && FillItems(items[|items|..], k, Same) == []
  {
  }

  class Walker {
    const params: seq<Value>
    var out: seq<Value>
    var used: seq<bool>
    var err: Option<Error>

    constructor (params: seq<Value>)
      ensures this.params == params && Now() == State([], seq(|params|, i => false), None)
    {
      this.params, this.out, this.used, this.err := params, [], seq(|params|, i => false), None;
    }

    ghost function Now(): State
      reads this
    {
      State(out, used, err)
    }

    ghost predicate Valid()
      reads this
    {
      |used| == |params|
    }

    /** The walk has visited exactly the places ss since the old state. */
    twostate predicate Visited(ss: seq<Slot>)
      requires old(Valid())
      reads this
    {
      Now() == Walk(old(Now()), ss, params)
    }

    method Fail(e: Error)
      requires Valid()
      modifies this
      ensures Visited([Bad(e)])
    {
      if err.None? { err := Some(e); }
    }

    method Index(p: int) returns (r: int)
      requires Valid()
      modifies this
      ensures Visited([Of(p)])
      ensures err.None? ==> r == |old(out)|
    {
      if p < 0 || p >= |params| {
        if err.None? { err := Some(IrInvalid); }
        return p;
      }
      used := used[p := true];
      out := out + [params[p]];
      return |out| - 1;
    }

    method PageValue(n: int, isCount: bool) returns (r: int)
      requires Valid() && n >= if isCount then 1 else 0
      modifies this
      ensures Visited([Literal(n, isCount)])
      ensures err.None? ==> r == |old(out)|
    {
      if n > SAFE || n < -SAFE {
        if err.None? { err := Some(CodecEncode); }
      }
      out := out + [Int(n)];
      return |out| - 1;
    }

    method PageIndex(p: int, isCount: bool) returns (r: int)
      requires Valid()
      modifies this
      ensures Visited([Page(p, isCount)])
      ensures err.None? ==> r == |old(out)|
    {
      WalkOne(Now(), Page(p, isCount), params);
      WalkOne(Now(), Of(p), params);
      if p < 0 || p >= |params| {
        r := Index(p);
        return;
      }
      var value := params[p];
      if !value.Int? || value.i > SAFE || value.i < -SAFE {
        if err.None? { err := Some(CodecEncode); }
        return p;
      }
      if value.i < (if isCount then 1 else 0) {
        if err.None? { err := Some(IrInvalid); }
        return p;
      }
      r := Index(p);
    }

    method Ptr(p: Option<int>) returns (r: Option<int>)
      requires Valid()
      modifies this
      ensures Visited(OptSlots(p))
      ensures err.None? ==> r == FillOpt(p, |old(out)|, Same)
    {
      if p.None? { return None; }
      var v := Index(p.value);
      return Some(v);
    }

    method Ints(ps: seq<int>) returns (r: seq<int>)
      requires Valid()
      modifies this
      ensures Visited(IntsSlots(ps))
      ensures err.None? ==> r == Fresh(|ps|, |old(out)|, Same)
    {
      r := [];
      ghost var ss := IntsSlots(ps);
      for i := 0 to |ps|
        invariant Valid() && Walk(old(Now()), ss, params) == Walk(Now(), ss[i..], params)
        invariant |r| == i
        invariant err.None? ==> |out| == |old(out)| + i && forall n :: 0 <= n < i ==> r[n] == |old(out)| + n
      {
        WalkOne(Now(), Of(ps[i]), params);
        assert ss[i..][0] == Of(ps[i]) && ss[i..][1..] == ss[i + 1..];
        var v := Index(ps[i]);
        r := r + [v];
      }
    }

    /** Pads an IN list to its bucket: the places past the last value repeat it. */
    method List(ps: seq<int>) returns (r: seq<int>)
      requires Valid()
      modifies this
      ensures Visited(ListSlots(ps))
      ensures err.None? ==> r == Fresh(|ListSlots(ps)|, |old(out)|, Same)
    {
      var n := |ps|;
      if n == 0 {
        r := Ints(ps);
        return;
      }
      var bucket := 1;
      while bucket < n
        invariant bucket >= 1 && BucketFrom(bucket, n) == Bucket(n)
        decreases n - bucket
      {
        bucket := 2 * bucket;
      }
      r := Repeated(ps, bucket);
    }

    /** The first places take the values, and those past the last value repeat it. */
    method Repeated(ps: seq<int>, bucket: nat) returns (r: seq<int>)
      requires Valid() && ps != [] && bucket == Bucket(|ps|)
      modifies this
      ensures Visited(ListSlots(ps))
      ensures err.None? ==> r == Fresh(bucket, |old(out)|, Same)
    {
      hide Step, Bucket;
      r := [];
      ghost var ss := ListSlots(ps);
      assert ss[0..] == ss;
      for j := 0 to bucket
        invariant Valid() && Walk(old(Now()), ss, params) == Walk(Now(), ss[j..], params)
        invariant |r| == j
        invariant err.None? ==> |out| == |old(out)| + j && forall m :: 0 <= m < j ==> r[m] == |old(out)| + m
      {
        var p := ps[if j < |ps| then j else |ps| - 1];
        WalkOne(Now(), Of(p), params);
        assert ss[j..][0] == Of(p) && ss[j..][1..] == ss[j + 1..];
        var v := Index(p);
        r := r + [v];
      }
      assert ss[bucket..] == [];
    }

    method Fn(f: Option<Func>) returns (r: Option<Func>)
      requires Valid()
      modifies this
      ensures Visited(FnSlots(f))
      ensures err.None? ==> r == FillFn(f, |old(out)|, Same)
    {
      if f.None? { return None; }
      var ps := Ints(f.value.ps);
      return Some(f.value.(ps := ps));
    }

    method WalkSub(s: Option<Sub>) returns (r: Option<Sub>)
      requires Valid()
      modifies this
      ensures Visited(SubSlots(s))
      ensures err.None? ==> r == FillSub(s, |old(out)|, Same)
      decreases s
    {
      hide QuerySlots, FillQuery;
      if s.None? { return None; }
      var query := WalkQueryPtr(s.value.query);
      return Some(s.value.(query := query));
    }

    method WalkQueryPtr(q: Option<Query>) returns (r: Option<Query>)
      requires Valid()
      modifies this
      ensures Visited(if q.None? then [] else QuerySlots(q.value, false))
      ensures err.None? ==> r == if q.None? then None else Some(FillQuery(q.value, false, |old(out)|, Same))
      decreases q
    {
      hide QuerySlots, FillQuery;
      if q.None? { return None; }
      var v := WalkQuery(q.value, false);
      return Some(v);
    }

    method WalkGroup(g: Option<Group>) returns (r: Option<Group>)
      requires Valid()
      modifies this
      ensures Visited(GroupSlots(g))
      ensures err.None? ==> r == FillGroup(g, |old(out)|, Same)
      decreases g
    {
      hide ItemsSlots, FillItems;
      if g.None? { return None; }
      var items := WalkItems(g.value.items);
      return Some(g.value.(items := items));
    }

    method WalkItem(it: Item) returns (r: Item)
      requires Valid()
      modifies this
      ensures Visited(ItemSlots(it))
      ensures err.None? ==> r == FillItem(it, |old(out)|, Same)
      decreases it
    {
      hide Step, PredSlots, FillPred, GroupSlots, FillGroup;
      ghost var first := if it.pred.None? then [] else PredSlots(it.pred.value);
      WalkConcat(Now(), first, GroupSlots(it.group), params);
      var pred: Option<Pred> := None;
      if it.pred.Some? {
        var p := WalkPred(it.pred.value);
        pred := Some(p);
      }
      var group := WalkGroup(it.group);
      return it.(pred := pred, group := group);
    }

    method WalkPred(p: Pred) returns (r: Pred)
      requires Valid()
      modifies this
      ensures Visited(PredSlots(p))
      ensures err.None? ==> r == FillPred(p, |old(out)|, Same)
      decreases p
    {
      hide Walk, OptSlots, ListSlots, IntsSlots, FnSlots, SubSlots, FillOpt, FillFn, FillSub, Fresh;
      ghost var d := SubSlots(p.sub);
      ghost var c := FnSlots(p.value) + d;
      ghost var b := FnSlots(p.fn) + c;
      ghost var a := PsSlots(p) + b;
      WalkConcat(Now(), OptSlots(p.p), a, params);
      var one := Ptr(p.p);
      WalkConcat(Now(), PsSlots(p), b, params);
      var ps: seq<int>;
      if (p.op == "in" || p.op == "not_in") && p.sub.None? {
        ps := List(p.ps);
      } else {
        ps := Ints(p.ps);
      }
      WalkConcat(Now(), FnSlots(p.fn), c, params);
      var fn := Fn(p.fn);
      WalkConcat(Now(), FnSlots(p.value), d, params);
      var value := Fn(p.value);
      var sub := WalkSub(p.sub);
      return p.(p := one, ps := ps, fn := fn, value := value, sub := sub);
    }

    method WalkColumns(c: Option<Columns>) returns (r: Option<Columns>)
      requires Valid()
      modifies this
      ensures Visited(ColumnsSlots(c))
      ensures err.None? ==> r == FillColumns(c, |old(out)|, Same)
      decreases c
    {
      hide Step, ColFnsSlots, FillColFns, ColSubsSlots, FillColSubs;
      if c.None? { return None; }
      WalkConcat(Now(), ColFnsSlots(c.value.fn), ColSubsSlots(c.value.sub), params);
      var fn := WalkColFns(c.value.fn);
      var sub := WalkColSubs(c.value.sub);
      return Some(c.value.(fn := fn, sub := sub));
    }

    method WalkJoin(j: Option<Join>) returns (r: Option<Join>)
      requires Valid()
      modifies this
      ensures Visited(JoinSlots(j))
      ensures err.None? ==> r == FillJoin(j, |old(out)|, Same)
      decreases j
    {
      hide QuerySlots, FillQuery;
      if j.None? { return None; }
      var query := WalkQueryPtr(j.value.query);
      return Some(j.value.(query := query));
    }

    method WalkRelation(l: Option<Relation>) returns (r: Option<Relation>)
      requires Valid()
      modifies this
      ensures Visited(RelationSlots(l))
      ensures err.None? ==> r == FillRelation(l, |old(out)|, Same)
      decreases l
    {
      hide QuerySlots, FillQuery;
      if l.None? { return None; }
      var query := WalkQueryPtr(l.value.query);
      return Some(l.value.(query := query));
    }

    method WalkLimit(limit: Option<Limit>, root: bool) returns (r: Option<Limit>)
      requires Valid()
      modifies this
      ensures Visited(LimitSlots(limit, root))
      ensures err.None? ==> r == FillLimit(limit, root, |old(out)|, Same)
    {
      if limit.None? { return None; }
      var l := limit.value;
      if l.offsetP.Some? || l.countP.Some? {
        if !root || l.offsetP.None? || l.countP.None? || l.offset != 0 || l.count != 0 {
          Fail(IrInvalid);
        } else {
          WalkConcat(Now(), [Page(l.offsetP.value, false)], [Page(l.countP.value, true)], params);
          var offset := PageIndex(l.offsetP.value, false);
          var count := PageIndex(l.countP.value, true);
          l := Limit(0, 0, Some(offset), Some(count));
        }
      } else if root {
        if l.offset < 0 || l.count <= 0 {
          Fail(IrInvalid);
        } else {
          WalkConcat(Now(), [Literal(l.offset, false)], [Literal(l.count, true)], params);
          var offset := PageValue(l.offset, false);
          var count := PageValue(l.count, true);
          l := Limit(0, 0, Some(offset), Some(count));
        }
      } else if l.offset < 0 || l.count <= 0 {
        Fail(IrInvalid);
      }
      return Some(l);
    }

    method WalkIfParent(i: Option<IfParent>) returns (r: Option<IfParent>)
      requires Valid()
      modifies this
      ensures Visited(IfParentSlots(i))
      ensures err.None? ==> r == FillIfParent(i, |old(out)|, Same)
    {
      if i.None? { return None; }
      var p := Index(i.value.p);
      return Some(i.value.(p := p));
    }

    method WalkQuery(q: Query, root: bool) returns (r: Query)
      requires Valid()
      modifies this
      ensures Visited(QuerySlots(q, root))
      ensures err.None? ==> r == FillQuery(q, root, |old(out)|, Same)
      decreases q
    {
      hide Walk, ColumnsSlots, GroupSlots, JoinsSlots, RelationsSlots, OrdersSlots, LimitSlots, IfParentSlots;
      hide FillColumns, FillGroup, FillJoins, FillRelations, FillOrders, FillLimit, FillIfParent;
      ghost var g := IfParentSlots(q.ifParent);
      ghost var f := LimitSlots(q.limit, root) + g;
      ghost var e := OrdersSlots(q.order) + f;
      ghost var d := RelationsSlots(q.relations) + e;
      ghost var c := JoinsSlots(q.joins) + d;
      ghost var b := GroupSlots(q.where) + c;
      ghost var a := GroupSlots(q.on) + b;
      WalkConcat(Now(), ColumnsSlots(q.columns), a, params);
      var columns := WalkColumns(q.columns);
      ghost var k1 := |out|;
      WalkConcat(Now(), GroupSlots(q.on), b, params);
      var on := WalkGroup(q.on);
      ghost var k2 := |out|;
      WalkConcat(Now(), GroupSlots(q.where), c, params);
      var where := WalkGroup(q.where);
      ghost var k3 := |out|;
      WalkConcat(Now(), JoinsSlots(q.joins), d, params);
      var joins := WalkJoins(q.joins);
      ghost var k4 := |out|;
      WalkConcat(Now(), RelationsSlots(q.relations), e, params);
      var relations := WalkRelations(q.relations);
      ghost var k5 := |out|;
      WalkConcat(Now(), OrdersSlots(q.order), f, params);
      var order := WalkOrders(q.order);
      ghost var k6 := |out|;
      WalkConcat(Now(), LimitSlots(q.limit, root), g, params);
      var limit := WalkLimit(q.limit, root);
      ghost var k7 := |out|;
      var ifParent := WalkIfParent(q.ifParent);
      assert err.None? ==> k7 == k6 + |LimitSlots(q.limit, root)| && limit == FillLimit(q.limit, root, k6, Same);
      assert err.None? ==> k6 == k5 + |OrdersSlots(q.order)| && order == FillOrders(q.order, k5, Same);
      assert err.None? ==>
             k5 == k4 + |RelationsSlots(q.relations)| && relations == FillRelations(q.relations, k4, Same);
      assert err.None? ==> k4 == k3 + |JoinsSlots(q.joins)| && joins == FillJoins(q.joins, k3, Same);
      assert err.None? ==> k3 == k2 + |GroupSlots(q.where)| && where == FillGroup(q.where, k2, Same);
      assert err.None? ==> k2 == k1 + |GroupSlots(q.on)| && on == FillGroup(q.on, k1, Same);
      assert err.None? ==>
             k1 == |old(out)| + |ColumnsSlots(q.columns)| && columns == FillColumns(q.columns, |old(out)|, Same);
      return q.(columns := columns, on := on, where := where, joins := joins, relations := relations, order := order,
                limit := limit, ifParent := ifParent);
    }

    method WalkItems(items: seq<Item>) returns (r: seq<Item>)
      requires Valid()
      modifies this
      ensures Visited(ItemsSlots(items))
      ensures err.None? ==> r == FillItems(items, |old(out)|, Same)
      decreases items
    {
      hide Step, ItemSlots, FillItem, ItemsSlots, FillItems, Walk;
      r := [];
      assert items[0..] == items;
      assert [] + FillItems(items, |out|, Same) == FillItems(items, |out|, Same);
      for i := 0 to |items|
        invariant Valid() && |r| == i
        invariant Walk(old(Now()), ItemsSlots(items), params) == Walk(Now(), ItemsSlots(items[i..]), params)
        invariant err.None? ==> FillItems(items, |old(out)|, Same) == r + FillItems(items[i..], |out|, Same)
      {
        ghost var rest := items[i + 1..];
        ItemsStep(items, i, |out|);
        WalkConcat(Now(), ItemSlots(items[i]), ItemsSlots(rest), params);
        var v := WalkItem(items[i]);
        Regroup(r, [v], FillItems(rest, |out|, Same));
        r := r + [v];
      }
      ItemsEnd(items, |out|);
      WalkNothing(Now(), params);
      assert r + [] == r;
    }

    method WalkColFns(fs: seq<ColFunc>) returns (r: seq<ColFunc>)
      requires Valid()
      modifies this
      ensures Visited(ColFnsSlots(fs))
      ensures err.None? ==> r == FillColFns(fs, |old(out)|, Same)
      decreases fs
    {
      hide Step, IntsSlots, Fresh;
      r := [];
      for i := 0 to |fs|
        invariant Valid() && |r| == i
        invariant Walk(old(Now()), ColFnsSlots(fs), params) == Walk(Now(), ColFnsSlots(fs[i..]), params)
        invariant err.None? ==> FillColFns(fs, |old(out)|, Same) == r + FillColFns(fs[i..], |out|, Same)
      {
        ghost var rest := fs[i + 1..];
        assert fs[i..][0] == fs[i] && fs[i..][1..] == rest;
        WalkConcat(Now(), IntsSlots(fs[i].fn.ps), ColFnsSlots(rest), params);
        var ps := Ints(fs[i].fn.ps);
        var v := fs[i].(fn := fs[i].fn.(ps := ps));
        Regroup(r, [v], FillColFns(rest, |out|, Same));
        r := r + [v];
      }
      assert fs[|fs|..] == [];
    }

    method WalkColSubs(ss: seq<ColSub>) returns (r: seq<ColSub>)
      requires Valid()
      modifies this
      ensures Visited(ColSubsSlots(ss))
      ensures err.None? ==> r == FillColSubs(ss, |old(out)|, Same)
      decreases ss
    {
      hide Step, SubSlots, FillSub;
      r := [];
      for i := 0 to |ss|
        invariant Valid() && |r| == i
        invariant Walk(old(Now()), ColSubsSlots(ss), params) == Walk(Now(), ColSubsSlots(ss[i..]), params)
        invariant err.None? ==> FillColSubs(ss, |old(out)|, Same) == r + FillColSubs(ss[i..], |out|, Same)
      {
        ghost var rest := ss[i + 1..];
        assert ss[i..][0] == ss[i] && ss[i..][1..] == rest;
        WalkConcat(Now(), SubSlots(ss[i].sub), ColSubsSlots(rest), params);
        var sub := WalkSub(ss[i].sub);
        var v := ss[i].(sub := sub);
        Regroup(r, [v], FillColSubs(rest, |out|, Same));
        r := r + [v];
      }
      assert ss[|ss|..] == [];
    }

    method WalkJoins(js: seq<Option<Join>>) returns (r: seq<Option<Join>>)
      requires Valid()
      modifies this
      ensures Visited(JoinsSlots(js))
      ensures err.None? ==> r == FillJoins(js, |old(out)|, Same)
      decreases js
    {
      hide Step, JoinSlots, FillJoin;
      r := [];
      for i := 0 to |js|
        invariant Valid() && |r| == i
        invariant Walk(old(Now()), JoinsSlots(js), params) == Walk(Now(), JoinsSlots(js[i..]), params)
        invariant err.None? ==> FillJoins(js, |old(out)|, Same) == r + FillJoins(js[i..], |out|, Same)
      {
        ghost var rest := js[i + 1..];
        assert js[i..][0] == js[i] && js[i..][1..] == rest;
        WalkConcat(Now(), JoinSlots(js[i]), JoinsSlots(rest), params);
        var v := WalkJoin(js[i]);
        Regroup(r, [v], FillJoins(rest, |out|, Same));
        r := r + [v];
      }
      assert js[|js|..] == [];
    }

    method WalkRelations(rs: seq<Option<Relation>>) returns (r: seq<Option<Relation>>)
      requires Valid()
      modifies this
      ensures Visited(RelationsSlots(rs))
      ensures err.None? ==> r == FillRelations(rs, |old(out)|, Same)
      decreases rs
    {
      hide Step, RelationSlots, FillRelation;
      r := [];
      for i := 0 to |rs|
        invariant Valid() && |r| == i
        invariant Walk(old(Now()), RelationsSlots(rs), params) == Walk(Now(), RelationsSlots(rs[i..]), params)
        invariant err.None? ==> FillRelations(rs, |old(out)|, Same) == r + FillRelations(rs[i..], |out|, Same)
      {
        ghost var rest := rs[i + 1..];
        assert rs[i..][0] == rs[i] && rs[i..][1..] == rest;
        WalkConcat(Now(), RelationSlots(rs[i]), RelationsSlots(rest), params);
        var v := WalkRelation(rs[i]);
        Regroup(r, [v], FillRelations(rest, |out|, Same));
        r := r + [v];
      }
      assert rs[|rs|..] == [];
    }

    method WalkOrders(os: seq<Order>) returns (r: seq<Order>)
      requires Valid()
      modifies this
      ensures Visited(OrdersSlots(os))
      ensures err.None? ==> r == FillOrders(os, |old(out)|, Same)
      decreases os
    {
      hide Step, FnSlots, FillFn;
      r := [];
      for i := 0 to |os|
        invariant Valid() && |r| == i
        invariant Walk(old(Now()), OrdersSlots(os), params) == Walk(Now(), OrdersSlots(os[i..]), params)
        invariant err.None? ==> FillOrders(os, |old(out)|, Same) == r + FillOrders(os[i..], |out|, Same)
      {
        ghost var rest := os[i + 1..];
        assert os[i..][0] == os[i] && os[i..][1..] == rest;
        WalkConcat(Now(), FnSlots(os[i].fn), OrdersSlots(rest), params);
        var fn := Fn(os[i].fn);
        var v := os[i].(fn := fn);
        Regroup(r, [v], FillOrders(rest, |out|, Same));
        r := r + [v];
      }
      assert os[|os|..] == [];
    }

    method WalkRows(rows: seq<seq<int>>) returns (r: seq<seq<int>>)
      requires Valid()
      modifies this
      ensures Visited(RowsSlots(rows))
      ensures err.None? ==> r == FillRows(rows, |old(out)|, Same)
      decreases rows
    {
      hide Step, IntsSlots, Fresh;
      r := [];
      for i := 0 to |rows|
        invariant Valid() && |r| == i
        invariant Walk(old(Now()), RowsSlots(rows), params) == Walk(Now(), RowsSlots(rows[i..]), params)
        invariant err.None? ==> FillRows(rows, |old(out)|, Same) == r + FillRows(rows[i..], |out|, Same)
      {
        ghost var rest := rows[i + 1..];
        assert rows[i..][0] == rows[i] && rows[i..][1..] == rest;
        WalkConcat(Now(), IntsSlots(rows[i]), RowsSlots(rest), params);
        var v := Ints(rows[i]);
        Regroup(r, [v], FillRows(rest, |out|, Same));
        r := r + [v];
      }
      assert rows[|rows|..] == [];
    }

    method WalkAssign(a: Assign) returns (r: Assign)
      requires Valid()
      modifies this
      ensures Visited(AssignSlots(a))
      ensures err.None? ==> r == FillAssign(a, |old(out)|, Same)
    {
      hide Walk, OptSlots, FillOpt;
      WalkConcat(Now(), OptSlots(a.p), OptSlots(a.plusP) + OptSlots(a.minusP), params);
      var p := Ptr(a.p);
      WalkConcat(Now(), OptSlots(a.plusP), OptSlots(a.minusP), params);
      var plusP := Ptr(a.plusP);
      var minusP := Ptr(a.minusP);
      return a.(p := p, plusP := plusP, minusP := minusP);
    }

    method WalkAssigns(assigns: seq<Assign>) returns (r: seq<Assign>)
      requires Valid()
      modifies this
      ensures Visited(AssignsSlots(assigns))
      ensures err.None? ==> r == FillAssigns(assigns, |old(out)|, Same)
      decreases assigns
    {
      hide Step, AssignSlots, FillAssign;
      r := [];
      for i := 0 to |assigns|
        invariant Valid() && |r| == i
        invariant Walk(old(Now()), AssignsSlots(assigns), params) == Walk(Now(), AssignsSlots(assigns[i..]), params)
        invariant err.None? ==> FillAssigns(assigns, |old(out)|, Same) == r + FillAssigns(assigns[i..], |out|, Same)
      {
        ghost var rest := assigns[i + 1..];
        assert assigns[i..][0] == assigns[i] && assigns[i..][1..] == rest;
        WalkConcat(Now(), AssignSlots(assigns[i]), AssignsSlots(rest), params);
        var v := WalkAssign(assigns[i]);
        Regroup(r, [v], FillAssigns(rest, |out|, Same));
        r := r + [v];
      }
      assert assigns[|assigns|..] == [];
    }

    method WalkOptimist(o: Option<Optimist>) returns (r: Option<Optimist>)
      requires Valid()
      modifies this
      ensures Visited(OptimistSlots(o))
      ensures err.None? ==> r == FillOptimist(o, |old(out)|, Same)
    {
      if o.None? { return None; }
      var p := Index(o.value.p);
      return Some(o.value.(p := p));
    }

    method WalkRequest(q: Request) returns (r: Request)
      requires Valid()
      modifies this
      ensures Visited(Slots(q))
      ensures err.None? ==> r == Fill(q, |old(out)|, Same)
    {
      hide Walk, QuerySlots, AssignsSlots, RowsSlots, OptimistSlots, FillQuery, FillAssigns, FillRows, FillOptimist;
      ghost var d := OptimistSlots(q.optimistic);
      ghost var c := RowsSlots(q.rows) + d;
      ghost var b := AssignsSlots(q.onDuplicate) + c;
      ghost var a := AssignsSlots(q.sets) + b;
      WalkConcat(Now(), QuerySlots(q.query, true), a, params);
      var query := WalkQuery(q.query, true);
      WalkConcat(Now(), AssignsSlots(q.sets), b, params);
      var sets := WalkAssigns(q.sets);
      WalkConcat(Now(), AssignsSlots(q.onDuplicate), c, params);
      var onDuplicate := WalkAssigns(q.onDuplicate);
      WalkConcat(Now(), RowsSlots(q.rows), d, params);
      var rows := WalkRows(q.rows);
      var optimistic := WalkOptimist(q.optimistic);
      return q.(query := query, sets := sets, onDuplicate := onDuplicate, rows := rows, optimistic := optimistic);
    }

    /** A parameter that no place names keeps its value after the places. */
    method Keep(ghost named: set<int>)
      requires Valid() && forall p :: 0 <= p < |params| ==> (used[p] <==> p in named)
      modifies this`out
      ensures out == old(out) + Leftover(params, named, 0)
    {
      for i := 0 to |params|
        invariant old(out) + Leftover(params, named, 0) == out + Leftover(params, named, i)
      {
        if !used[i] {
          out := out + [params[i]];
        }
      }
    }
  }

  /** A request on its way to the executor. */
  class Call {
    var ir: Request
    var params: seq<Value>
    var canonical: bool

    constructor (ir: Request, params: seq<Value>)
      ensures this.ir == ir && this.params == params && !canonical
    {
      this.ir, this.params, this.canonical := ir, params, false;
    }

    /** Rewrites the request into its canonical form, or reports the first error and leaves the request as it was. */
    method Canonicalize() returns (err: Option<Error>)
      modifies this
      ensures err == Refused(old(ir), old(params))
      ensures err.None? ==> canonical && Canon(ir, params) == CanonOf(old(ir), old(params))
      ensures err.Some? ==> ir == old(ir) && params == old(params) && canonical == old(canonical)
      ensures err.None? <==> CanonicalRefusals.Bindable(old(ir), old(params))
      ensures err.None? ==> CanonicalTree.SameRequest(old(ir), ir)
    {
      hide CanonicalTree.SameRequest, CanonicalRefusals.Bindable;
      CanonicalRefusals.RefusedExactly(ir, params);
      CanonicalTree.CanonicalKeepsShape(ir, params);
      hide Walk, QuerySlots, AssignsSlots, RowsSlots, OptimistSlots, FillQuery, FillAssigns, FillRows, FillOptimist;
      hide Values, Leftover, Named, FirstFault;
      var c := new Walker(params);
      ghost var none := c.Now();
      var req := c.WalkRequest(ir);
      WalkFault(none, Slots(ir), params);
      if c.err.Some? { return c.err; }
      WalkAppends(none, Slots(ir), params);
      forall p | 0 <= p < |params| ensures c.used[p] <==> p in Named(Slots(ir)) {
        WalkMarks(none, Slots(ir), params, p);
      }
      c.Keep(Named(Slots(ir)));
      assert none.out + Values(Slots(ir), params) == Values(Slots(ir), params);
      ir := req.(nParams := |c.out|);
      params := c.out;
      canonical := true;
      return None;
    }
  }
}
