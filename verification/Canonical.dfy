/**
  What canonicalization computes, as a pair of functions on the request tree.  `Slots` lists the parameter references in
  walk order, an IN list lengthened to its power-of-two bucket; `Fill` puts new references into those places.
  The canonical tree is the one whose places are numbered 0, 1, 2, ...
 */
module Canonical {
  import opened Common
  import opened Ir

  datatype Error = IrInvalid | CodecEncode

  /** One place that takes a parameter of its own. */
  datatype Slot =
    | Of(p: int)                      // the value of parameter p
    | Page(p: int, isCount: bool)     // parameter p as the offset or the count of a page
    | Literal(n: int, isCount: bool)  // an offset or a count written in the tree
    | Bad(error: Error)               // a limit in a form that is refused

  const SAFE := 9007199254740991

  /** The error of one slot, if its value cannot be bound. */
  function Fault(s: Slot, params: seq<Value>): Option<Error> {
    match s
    case Of(p) => if 0 <= p < |params| then None else Some(IrInvalid)
    case Page(p, isCount) =>
      if !(0 <= p < |params|) then Some(IrInvalid)
      else if !params[p].Int? then Some(CodecEncode)
      else if params[p].i > SAFE || params[p].i < -SAFE then Some(CodecEncode)
      else if params[p].i < (if isCount then 1 else 0) then Some(IrInvalid)
      else None
    case Literal(n, isCount) =>
      if n > SAFE || n < -SAFE then Some(CodecEncode)
      else if n < (if isCount then 1 else 0) then Some(IrInvalid)
      else None
    case Bad(e) => Some(e)
  }

  function Bound(s: Slot, params: seq<Value>): Value {
    match s
    case Of(p) => if 0 <= p < |params| then params[p] else Null
    case Page(p, _) => if 0 <= p < |params| then params[p] else Null
    case Literal(n, _) => Int(n)
    case Bad(_) => Null
  }

  /** The first error of the slots in walk order, after an earlier one. */
  function FirstFault(err: Option<Error>, ss: seq<Slot>, params: seq<Value>): (r: Option<Error>)
    ensures r.None? <==> err.None? && forall i :: 0 <= i < |ss| ==> Fault(ss[i], params).None?
    decreases |ss|
  {
    if ss == [] then err
    else FirstFault(if err.Some? then err else Fault(ss[0], params), ss[1..], params)
  }

  function Values(ss: seq<Slot>, params: seq<Value>): (r: seq<Value>)
    ensures |r| == |ss|
    ensures forall i :: 0 <= i < |ss| ==> r[i] == Bound(ss[i], params)
  {
    seq(|ss|, i requires 0 <= i < |ss| => Bound(ss[i], params))
  }

  /** The smallest power of two that is not below n. */
  function Bucket(n: nat): (b: nat)
    ensures b >= n && b >= 1
  {
    BucketFrom(1, n)
  }

  function BucketFrom(b: nat, n: nat): (r: nat)
    requires b >= 1
    ensures r >= n && r >= b
    ensures b >= n ==> r == b
    decreases n - b
  {
    if b < n then BucketFrom(2 * b, n) else b
  }

  // ------------------------------------------------------------------------------------- places

  function OptSlots(p: Option<int>): seq<Slot> { if p.None? then [] else [Of(p.value)] }

  function IntsSlots(ps: seq<int>): (r: seq<Slot>)
    ensures |r| == |ps|
  {
    seq(|ps|, i requires 0 <= i < |ps| => Of(ps[i]))
  }

  /** The places of an IN list: those past its last value repeat it. */
  function ListSlots(ps: seq<int>): (r: seq<Slot>)
    ensures |r| == if |ps| == 0 then 0 else Bucket(|ps|)
  {
    if |ps| == 0 then []
    else seq(Bucket(|ps|), i requires 0 <= i => Of(ps[if i < |ps| then i else |ps| - 1]))
  }

  function FnSlots(f: Option<Func>): seq<Slot> { if f.None? then [] else IntsSlots(f.value.ps) }

  function PsSlots(p: Pred): seq<Slot> { if IsValueList(p) then ListSlots(p.ps) else IntsSlots(p.ps) }

  function PredSlots(p: Pred): seq<Slot> {
    OptSlots(p.p) + (PsSlots(p) + (FnSlots(p.fn) + (FnSlots(p.value) + SubSlots(p.sub))))
  }

  function SubSlots(s: Option<Sub>): seq<Slot> {
    if s.None? || s.value.query.None? then [] else QuerySlots(s.value.query.value, false)
  }

  function ItemSlots(it: Item): seq<Slot> {
    (if it.pred.None? then [] else PredSlots(it.pred.value)) + GroupSlots(it.group)
  }

  function GroupSlots(g: Option<Group>): seq<Slot> { if g.None? then [] else ItemsSlots(g.value.items) }

  function ItemsSlots(items: seq<Item>): seq<Slot> {
    if items == [] then [] else ItemSlots(items[0]) + ItemsSlots(items[1..])
  }

  function ColFnsSlots(fs: seq<ColFunc>): seq<Slot> {
    if fs == [] then [] else IntsSlots(fs[0].fn.ps) + ColFnsSlots(fs[1..])
  }

  function ColSubsSlots(ss: seq<ColSub>): seq<Slot> {
    if ss == [] then [] else SubSlots(ss[0].sub) + ColSubsSlots(ss[1..])
  }

  function ColumnsSlots(c: Option<Columns>): seq<Slot> {
    if c.None? then [] else ColFnsSlots(c.value.fn) + ColSubsSlots(c.value.sub)
  }

  function JoinSlots(j: Option<Join>): seq<Slot> {
    if j.None? || j.value.query.None? then [] else QuerySlots(j.value.query.value, false)
  }

  function JoinsSlots(js: seq<Option<Join>>): seq<Slot> {
    if js == [] then [] else JoinSlots(js[0]) + JoinsSlots(js[1..])
  }

  function RelationSlots(r: Option<Relation>): seq<Slot> {
    if r.None? || r.value.query.None? then [] else QuerySlots(r.value.query.value, false)
  }

  function RelationsSlots(rs: seq<Option<Relation>>): seq<Slot> {
    if rs == [] then [] else RelationSlots(rs[0]) + RelationsSlots(rs[1..])
  }

  function OrdersSlots(os: seq<Order>): seq<Slot> {
    if os == [] then [] else FnSlots(os[0].fn) + OrdersSlots(os[1..])
  }

  /**
    A limit of the root query takes two places, whether it holds numbers or parameters; elsewhere it holds only numbers.
   */
  function LimitSlots(l: Option<Limit>, root: bool): seq<Slot> {
    if l.None? then [] else
    var l := l.value;
    if l.offsetP.Some? || l.countP.Some? then
      if !root || l.offsetP.None? || l.countP.None? || l.offset != 0 || l.count != 0 then [Bad(IrInvalid)]
      else [Page(l.offsetP.value, false), Page(l.countP.value, true)]
    else if l.offset < 0 || l.count <= 0 then [Bad(IrInvalid)]
    else if root then [Literal(l.offset, false), Literal(l.count, true)]
    else []
  }

  function IfParentSlots(i: Option<IfParent>): seq<Slot> { if i.None? then [] else [Of(i.value.p)] }

  function QuerySlots(q: Query, root: bool): seq<Slot> {
    ColumnsSlots(q.columns) + (GroupSlots(q.on) + (GroupSlots(q.where) + (JoinsSlots(q.joins)
      + (RelationsSlots(q.relations) +
        (OrdersSlots(q.order) + (LimitSlots(q.limit, root) + IfParentSlots(q.ifParent)))))))
  }

  function AssignSlots(a: Assign): seq<Slot> { OptSlots(a.p) + (OptSlots(a.plusP) + OptSlots(a.minusP)) }

  function AssignsSlots(s: seq<Assign>): seq<Slot> {
    if s == [] then [] else AssignSlots(s[0]) + AssignsSlots(s[1..])
  }

  function RowsSlots(rows: seq<seq<int>>): seq<Slot> {
    if rows == [] then [] else IntsSlots(rows[0]) + RowsSlots(rows[1..])
  }

  function OptimistSlots(o: Option<Optimist>): seq<Slot> { if o.None? then [] else [Of(o.value.p)] }

  function Slots(r: Request): seq<Slot> {
    QuerySlots(r.query, true) + (AssignsSlots(r.sets) +
      (AssignsSlots(r.onDuplicate) + (RowsSlots(r.rows) + OptimistSlots(r.optimistic))))
  }

  // ------------------------------------------------------------------------------ filled places

  /** Place k, k + 1, ... of a list of n places. */
  function Fresh(n: nat, k: int, f: int -> int): (r: seq<int>)
    ensures |r| == n
  {
    seq(n, i => f(k + i))
  }

  function FillOpt(p: Option<int>, k: int, f: int -> int): Option<int> { if p.None? then None else Some(f(k)) }

  function FillFn(fn: Option<Func>, k: int, f: int -> int): Option<Func> {
    if fn.None? then None else Some(fn.value.(ps := Fresh(|fn.value.ps|, k, f)))
  }

  function FillPred(p: Pred, k: int, f: int -> int): Pred {
    var k1 := k + |OptSlots(p.p)|;
    var k2 := k1 + |PsSlots(p)|;
    var k3 := k2 + |FnSlots(p.fn)|;
    var k4 := k3 + |FnSlots(p.value)|;
    p.(p := FillOpt(p.p, k, f), ps := Fresh(|PsSlots(p)|, k1, f), fn := FillFn(p.fn, k2, f),
       value := FillFn(p.value, k3, f), sub := FillSub(p.sub, k4, f))
  }

  function FillSub(s: Option<Sub>, k: int, f: int -> int): (r: Option<Sub>)
    ensures r.Some? <==> s.Some?
  {
    if s.None? then None
    else if s.value.query.None? then s
    else Some(s.value.(query := Some(FillQuery(s.value.query.value, false, k, f))))
  }

  function FillItem(it: Item, k: int, f: int -> int): Item {
    var pred := if it.pred.None? then None else Some(FillPred(it.pred.value, k, f));
    var k1 := k + if it.pred.None? then 0 else |PredSlots(it.pred.value)|;
    it.(pred := pred, group := FillGroup(it.group, k1, f))
  }

  function FillGroup(g: Option<Group>, k: int, f: int -> int): Option<Group> {
    if g.None? then None else Some(g.value.(items := FillItems(g.value.items, k, f)))
  }

  function FillItems(items: seq<Item>, k: int, f: int -> int): (r: seq<Item>)
    ensures |r| == |items|
  {
    if items == [] then [] else [FillItem(items[0], k, f)] + FillItems(items[1..], k + |ItemSlots(items[0])|, f)
  }

  function FillColFns(fs: seq<ColFunc>, k: int, f: int -> int): seq<ColFunc> {
    if fs == [] then []
    else [fs[0].(fn := fs[0].fn.(ps := Fresh(|fs[0].fn.ps|, k, f)))] + FillColFns(fs[1..], k + |fs[0].fn.ps|, f)
  }

  function FillColSubs(ss: seq<ColSub>, k: int, f: int -> int): seq<ColSub> {
    if ss == [] then []
    else [ss[0].(sub := FillSub(ss[0].sub, k, f))] + FillColSubs(ss[1..], k + |SubSlots(ss[0].sub)|, f)
  }

  function FillColumns(c: Option<Columns>, k: int, f: int -> int): Option<Columns> {
    if c.None? then None
    else Some(c.value.(fn := FillColFns(c.value.fn, k, f),
      sub := FillColSubs(c.value.sub, k + |ColFnsSlots(c.value.fn)|, f)))
  }

  function FillJoin(j: Option<Join>, k: int, f: int -> int): Option<Join> {
    if j.None? || j.value.query.None? then j
    else Some(j.value.(query := Some(FillQuery(j.value.query.value, false, k, f))))
  }

  function FillJoins(js: seq<Option<Join>>, k: int, f: int -> int): seq<Option<Join>> {
    if js == [] then [] else [FillJoin(js[0], k, f)] + FillJoins(js[1..], k + |JoinSlots(js[0])|, f)
  }

  function FillRelation(r: Option<Relation>, k: int, f: int -> int): Option<Relation> {
    if r.None? || r.value.query.None? then r
    else Some(r.value.(query := Some(FillQuery(r.value.query.value, false, k, f))))
  }

  function FillRelations(rs: seq<Option<Relation>>, k: int, f: int -> int): seq<Option<Relation>> {
    if rs == [] then [] else [FillRelation(rs[0], k, f)] + FillRelations(rs[1..], k + |RelationSlots(rs[0])|, f)
  }

  function FillOrders(os: seq<Order>, k: int, f: int -> int): seq<Order> {
    if os == [] then []
    else [os[0].(fn := FillFn(os[0].fn, k, f))] + FillOrders(os[1..], k + |FnSlots(os[0].fn)|, f)
  }

  function FillLimit(l: Option<Limit>, root: bool, k: int, f: int -> int): Option<Limit> {
    if |LimitSlots(l, root)| == 2 then Some(Limit(0, 0, Some(f(k)), Some(f(k + 1)))) else l
  }

  function FillIfParent(i: Option<IfParent>, k: int, f: int -> int): Option<IfParent> {
    if i.None? then None else Some(i.value.(p := f(k)))
  }

  function FillQuery(q: Query, root: bool, k: int, f: int -> int): Query {
    var k1 := k + |ColumnsSlots(q.columns)|;
    var k2 := k1 + |GroupSlots(q.on)|;
    var k3 := k2 + |GroupSlots(q.where)|;
    var k4 := k3 + |JoinsSlots(q.joins)|;
    var k5 := k4 + |RelationsSlots(q.relations)|;
    var k6 := k5 + |OrdersSlots(q.order)|;
    var k7 := k6 + |LimitSlots(q.limit, root)|;
    q.(columns := FillColumns(q.columns, k, f), on := FillGroup(q.on, k1, f), where := FillGroup(q.where, k2, f),
       joins := FillJoins(q.joins, k3, f), relations := FillRelations(q.relations, k4, f),
       order := FillOrders(q.order, k5, f), limit := FillLimit(q.limit, root, k6, f),
       ifParent := FillIfParent(q.ifParent, k7, f))
  }

  function FillAssign(a: Assign, k: int, f: int -> int): Assign {
    var k1 := k + |OptSlots(a.p)|;
    var k2 := k1 + |OptSlots(a.plusP)|;
    a.(p := FillOpt(a.p, k, f), plusP := FillOpt(a.plusP, k1, f), minusP := FillOpt(a.minusP, k2, f))
  }

  function FillAssigns(s: seq<Assign>, k: int, f: int -> int): seq<Assign> {
    if s == [] then [] else [FillAssign(s[0], k, f)] + FillAssigns(s[1..], k + |AssignSlots(s[0])|, f)
  }

  function FillRows(rows: seq<seq<int>>, k: int, f: int -> int): seq<seq<int>> {
    if rows == [] then [] else [Fresh(|rows[0]|, k, f)] + FillRows(rows[1..], k + |rows[0]|, f)
  }

  function FillOptimist(o: Option<Optimist>, k: int, f: int -> int): Option<Optimist> {
    if o.None? then None else Some(o.value.(p := f(k)))
  }

  function Fill(r: Request, k: int, f: int -> int): Request {
    var k1 := k + |QuerySlots(r.query, true)|;
    var k2 := k1 + |AssignsSlots(r.sets)|;
    var k3 := k2 + |AssignsSlots(r.onDuplicate)|;
    var k4 := k3 + |RowsSlots(r.rows)|;
    r.(query := FillQuery(r.query, true, k, f), sets := FillAssigns(r.sets, k1, f),
       onDuplicate := FillAssigns(r.onDuplicate, k2, f), rows := FillRows(r.rows, k3, f),
       optimistic := FillOptimist(r.optimistic, k4, f))
  }

  // ------------------------------------------------------------------------------ the canonical form

  /** The parameters that the places name. */
  function Named(ss: seq<Slot>): set<int> {
    set s | s in ss && (s.Of? || s.Page?) :: s.p
  }

  /** The values of the parameters i and on that are not in `named`, in order. */
  function Leftover(params: seq<Value>, named: set<int>, i: nat): seq<Value>
    decreases |params| - i
  {
    if i >= |params| then []
    else (if i in named then [] else [params[i]]) + Leftover(params, named, i + 1)
  }

  /** Place n is numbered n. */
  const Same: int -> int := (x: int) => x

  datatype Canon = Canon(ir: Request, params: seq<Value>)

  /** The canonical request of r, unless one of its places has no value that can be bound. */
  function CanonOf(r: Request, params: seq<Value>): Canon {
    var out := Values(Slots(r), params) + Leftover(params, Named(Slots(r)), 0);
    Canon(Fill(r, 0, Same).(nParams := |out|), out)
  }

  function Refused(r: Request, params: seq<Value>): Option<Error> {
    FirstFault(None, Slots(r), params)
  }
}
