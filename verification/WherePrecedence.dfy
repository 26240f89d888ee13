/**
  What the parts of a condition mean together.  A where group that stands without parentheses between other parts, the
  test for a live row in front of it or the conditions of joins behind it, is meant as a conjunction with them; AND
  binds tighter than OR, so it is one only when the group holds no OR.
 */
module WherePrecedence {
  import opened Common
  import opened Ir
  import opened IrMeaning
  import R = RootIn

  predicate AllTrue(ts: seq<Term>) {
    forall n :: 0 <= n < |ts| ==> ts[n].1.True?
  }

  lemma AllTrueConcat(a: seq<Term>, b: seq<Term>)
    ensures AllTrue(a + b) <==> AllTrue(a) && AllTrue(b)
  {
    if AllTrue(a + b) {
      forall n | 0 <= n < |a| ensures a[n].1.True? { assert (a + b)[n] == a[n]; }
      forall n | 0 <= n < |b| ensures b[n].1.True? { assert (a + b)[|a| + n] == b[n]; }
    }
  }

  // ------------------------------------------------------------------------------------- runs of terms

  /** Terms without OR are a conjunction. */
  lemma {:induction false} AndRun(run: Truth, ts: seq<Term>)
    requires R.NoOr(ts)
    ensures Connect(run, ts).True? <==> run.True? && AllTrue(ts)
    decreases |ts|
  {
    if ts != [] {
      AndRun(And3(run, ts[0].1), ts[1..]);
      assert ts == [ts[0]] + ts[1..];
      AllTrueConcat([ts[0]], ts[1..]);
    }
  }

  /** True terms without OR in front change nothing. */
  lemma {:induction false} TrueFront(a: seq<Term>, ts: seq<Term>)
    requires R.NoOr(a) && AllTrue(a)
    ensures Connect(True, a + ts) == Connect(True, ts)
    decreases |a|
  {
    if a == [] {
      assert a + ts == ts;
    } else {
      assert (a + ts)[1..] == a[1..] + ts;
      TrueFront(a[1..], ts);
    }
  }

  /** True terms without OR behind change nothing. */
  lemma {:induction false} TrueBehind(run: Truth, ts: seq<Term>, b: seq<Term>)
    requires R.NoOr(b) && AllTrue(b)
    ensures Connect(run, ts + b).True? <==> Connect(run, ts).True?
    decreases |ts|
  {
    if ts == [] {
      assert ts + b == b;
      AndRun(run, b);
    } else {
      assert (ts + b)[1..] == ts[1..] + b;
      TrueBehind(if ts[0].0 == "or" then ts[0].1 else And3(run, ts[0].1), ts[1..], b);
    }
  }

  /** An OR behind true terms makes the condition true. */
  lemma {:induction false} OrBehindTrue(ts: seq<Term>, k: nat)
    requires k < |ts| && ts[k].0 == "or" && forall n :: 0 <= n < k ==> ts[n].1.True?
    ensures Connect(True, ts).True?
    decreases k
  {
    if ts[0].0 != "or" { OrBehindTrue(ts[1..], k - 1); }
  }

  lemma {:induction false} TrueTail(ts: seq<Term>)
    requires AllTrue(ts)
    ensures Connect(True, ts).True?
    decreases |ts|
  {
    if ts != [] { TrueTail(ts[1..]); }
  }

  /** An OR in front of true terms makes the condition true. */
  lemma {:induction false} OrBeforeTrue(run: Truth, ts: seq<Term>, k: nat)
    requires k < |ts| && ts[k].0 == "or" && forall n :: k <= n < |ts| ==> ts[n].1.True?
    ensures Connect(run, ts).True?
    decreases k
  {
    if k == 0 {
      TrueTail(ts[1..]);
    } else {
      OrBeforeTrue(if ts[0].0 == "or" then ts[0].1 else And3(run, ts[0].1), ts[1..], k - 1);
    }
  }

  // ------------------------------------------------------------------------------------- a group between other terms

  /** The terms in front, the group and the terms behind mean their conjunction. */
  predicate Conjunction(front: seq<Term>, group: seq<Term>, behind: seq<Term>) {
    Connect(True, front + (group + behind)).True? <==>
      AllTrue(front) && Connect(True, group).True? && AllTrue(behind)
  }

  /** The group has these connectors. */
  predicate Connected(group: seq<Term>, cs: seq<string>) {
    |group| == |cs| && forall n :: 0 <= n < |cs| ==> group[n].0 == cs[n]
  }

  /** Whatever its terms are, a group with these connectors means a conjunction with the terms around it. */
  ghost predicate AlwaysConjunction(cs: seq<string>, front: nat, behind: nat) {
    forall f, g, b :: |f| == front && Connected(g, cs) && |b| == behind && R.NoOr(f) && R.NoOr(b) ==>
      Conjunction(f, g, b)
  }

  lemma WithoutOr(f: seq<Term>, g: seq<Term>, b: seq<Term>)
    requires R.NoOr(f) && R.NoOr(g) && R.NoOr(b)
    ensures Conjunction(f, g, b)
  {
    hide R.NoOr, AllTrue;
    R.NoOrConcat(g, b);
    R.NoOrConcat(f, g + b);
    AllTrueConcat(g, b);
    AllTrueConcat(f, g + b);
    AndRun(True, f + (g + b));
    AndRun(True, g);
  }

  lemma WithNothing(g: seq<Term>)
    ensures Conjunction([], g, [])
  {
    assert [] + (g + []) == g;
  }

  /** What is meant is always selected. */
  lemma ConjunctionSelects(f: seq<Term>, g: seq<Term>, b: seq<Term>)
    requires R.NoOr(f) && R.NoOr(b) && AllTrue(f) && Connect(True, g).True? && AllTrue(b)
    ensures Connect(True, f + (g + b)).True?
  {
    TrueFront(f, g + b);
    TrueBehind(True, g, b);
  }

  function Terms(cs: seq<string>, t: Truth): (ts: seq<Term>)
    ensures Connected(ts, cs) && forall n :: 0 <= n < |ts| ==> ts[n].1 == t
  {
    seq(|cs|, n requires 0 <= n < |cs| => (cs[n], t))
  }

  function Ands(n: nat, t: Truth): (ts: seq<Term>)
    ensures |ts| == n && R.NoOr(ts) && forall k :: 0 <= k < n ==> ts[k].1 == t
  {
    seq(n, k => ("and", t))
  }

  /** With an OR in the group, true terms in it outweigh a false term in front of it or behind it. */
  lemma WithOr(cs: seq<string>, k: nat, front: nat, behind: nat)
    requires k < |cs| && cs[k] == "or" && front + behind > 0
    ensures !AlwaysConjunction(cs, front, behind)
  {
    hide Connect;
    var g := Terms(cs, True);
    var f := Ands(front, if behind > 0 then True else False);
    var b := Ands(behind, False);
    var all := f + (g + b);
    assert all[front + k] == g[k];
    if behind > 0 {
      forall n | 0 <= n < front + k ensures all[n].1.True? {
        if n < front { assert all[n] == f[n]; } else { assert all[n] == g[n - front]; }
      }
      OrBehindTrue(all, front + k);
      assert !b[0].1.True?;
    } else {
      forall n | front + k <= n < |all| ensures all[n].1.True? { assert all[n] == g[n - front]; }
      OrBeforeTrue(True, all, front + k);
      assert !f[0].1.True?;
    }
    assert !Conjunction(f, g, b);
  }

  /** A group without parentheses means a conjunction with the terms around it exactly when there are none, or no OR. */
  lemma ConjunctionExact(cs: seq<string>, front: nat, behind: nat)
    ensures AlwaysConjunction(cs, front, behind) <==>
              front + behind == 0 || forall k :: 0 <= k < |cs| ==> cs[k] != "or"
  {
    hide Conjunction;
    if k :| 0 <= k < |cs| && cs[k] == "or" && front + behind > 0 {
      WithOr(cs, k, front, behind);
    } else {
      forall f, g, b | |f| == front && Connected(g, cs) && |b| == behind && R.NoOr(f) && R.NoOr(b)
        ensures Conjunction(f, g, b)
      {
        if front + behind == 0 {
          assert f == [] && b == [];
          WithNothing(g);
        } else {
          assert R.NoOr(g);
          WithoutOr(f, g, b);
        }
      }
    }
  }

  // ------------------------------------------------------------------------------------- queries

  /** A live row that meets the where group and the conditions of the joins that the group does not place. */
  predicate Meant(i: Interp, q: Query, params: seq<Value>, row: Row) {
    && AllTrue(Live(i, q.entity, "", row))
    && (Empty(q.where) || EvalGroup(i, "", q.where, params, row, JoinedTruths(i, "", q.joins, params, row)).True?)
    && AllTrue(Unplaced(i, "", Placed(q.where), q.joins, params, row))
  }

  predicate NotNegated(g: Option<Group>) { g.None? || !g.value.not }

  lemma FlatIsGroup(i: Interp, path: string, g: Option<Group>, params: seq<Value>, row: Row, joined: map<string, Truth>)
    requires NotNegated(g)
    ensures Connect(True, Flat(i, path, g, params, row, joined)).True? <==>
              Empty(g) || EvalGroup(i, path, g, params, row, joined).True?
  {
    hide EvalItem;
    if g.Some? {
      var ts := EvalItems(i, path, g.value.items, params, row, joined);
      if ts != [] { assert Flat(i, path, g, params, row, joined)[1..] == ts[1..]; }
    }
  }

  /** The query of a relation selects what is meant. */
  lemma RelatedIsMeant(i: Interp, q: Query, params: seq<Value>, row: Row)
    ensures Selects(i, q, true, params, row) <==> Meant(i, q, params, row)
  {
    hide EvalGroup, Unplaced, JoinedTruths, Placed, AllTrue, R.NoOr, Live;
    var joined := JoinedTruths(i, "", q.joins, params, row);
    var f, g := Live(i, q.entity, "", row), Bracketed(i, "", q.where, params, row, joined);
    var b := Unplaced(i, "", Placed(q.where), q.joins, params, row);
    R.UnplacedAnd(i, "", Placed(q.where), q.joins, params, row);
    LiveAnd(i, q.entity, "", row);
    BracketedAnd(i, "", q.where, params, row, joined);
    WithoutOr(f, g, b);
    AndRun(True, g);
  }

  lemma LiveAnd(i: Interp, entity: string, path: string, row: Row)
    ensures R.NoOr(Live(i, entity, path, row))
  {
  }

  lemma BracketedAnd(
    i: Interp, path: string, g: Option<Group>, params: seq<Value>, row: Row, joined: map<string, Truth>)
    ensures var ts := Bracketed(i, path, g, params, row, joined);
            && R.NoOr(ts)
            && (AllTrue(ts) <==> Empty(g) || EvalGroup(i, path, g, params, row, joined).True?)
  {
    var ts := Bracketed(i, path, g, params, row, joined);
    if ts != [] { assert ts[0].1.True? ==> AllTrue(ts); }
  }

  /** Any other query selects every row that is meant. */
  lemma MeantIsSelected(i: Interp, q: Query, params: seq<Value>, row: Row)
    requires NotNegated(q.where) && Meant(i, q, params, row)
    ensures Selects(i, q, false, params, row)
  {
    hide EvalGroup, Unplaced, JoinedTruths, Placed, AllTrue, R.NoOr, Live, Connect, Flat;
    var joined := JoinedTruths(i, "", q.joins, params, row);
    R.UnplacedAnd(i, "", Placed(q.where), q.joins, params, row);
    LiveAnd(i, q.entity, "", row);
    FlatIsGroup(i, "", q.where, params, row, joined);
    ConjunctionSelects(Live(i, q.entity, "", row), Flat(i, "", q.where, params, row, joined),
                       Unplaced(i, "", Placed(q.where), q.joins, params, row));
  }

  /** It selects no other row, on any database, when no OR connects the items of its where group. */
  lemma AllAndIsMeant(i: Interp, q: Query, params: seq<Value>, row: Row)
    requires NotNegated(q.where) && (q.where.Some? ==> R.AllAnd(q))
    ensures Selects(i, q, false, params, row) <==> Meant(i, q, params, row)
  {
    hide EvalGroup, Unplaced, JoinedTruths, Placed, AllTrue, Live, Connect, Flat, R.AllAnd;
    var joined := JoinedTruths(i, "", q.joins, params, row);
    var f, g := Live(i, q.entity, "", row), Flat(i, "", q.where, params, row, joined);
    var b := Unplaced(i, "", Placed(q.where), q.joins, params, row);
    R.UnplacedAnd(i, "", Placed(q.where), q.joins, params, row);
    LiveAnd(i, q.entity, "", row);
    FlatIsGroup(i, "", q.where, params, row, joined);
    if q.where.Some? {
      R.FlatAnd(i, q, params, row, joined);
    } else {
      assert g == [] by { NoFlat(i, q, params, row, joined); }
    }
    WithoutOr(f, g, b);
  }

  lemma NoFlat(i: Interp, q: Query, params: seq<Value>, row: Row, joined: map<string, Truth>)
    requires q.where.None?
    ensures Flat(i, "", q.where, params, row, joined) == []
  {
  }

  // ------------------------------------------------------------------------------------- updates and deletes

  function Expected(i: Interp, o: Option<Optimist>, params: seq<Value>, row: Row): seq<Term> {
    if o.None? then [] else [("and", i.test("eq", i.cell(row, "", o.value.column), [V(params, o.value.p)]))]
  }

  /** A live row of the expected revision that meets the where group. */
  predicate MeantWrite(i: Interp, q: Query, o: Option<Optimist>, params: seq<Value>, row: Row) {
    && (Empty(q.where) || EvalGroup(i, "", q.where, params, row, map[]).True?)
    && AllTrue(Expected(i, o, params, row))
    && AllTrue(Live(i, q.entity, "", row))
  }

  /** A write changes every row that is meant, and no other when no OR connects the items of its where group. */
  lemma WriteIsMeant(i: Interp, q: Query, o: Option<Optimist>, params: seq<Value>, row: Row)
    requires NotNegated(q.where)
    ensures MeantWrite(i, q, o, params, row) ==> Connect(True, WriteTerms(i, q, o, params, row)).True?
    ensures R.AllAnd(q) && Connect(True, WriteTerms(i, q, o, params, row)).True? ==> MeantWrite(i, q, o, params, row)
  {
    hide EvalGroup, AllTrue, Live, Connect, Flat, R.AllAnd, R.NoOr;
    var g := Flat(i, "", q.where, params, row, map[]);
    var e, l := Expected(i, o, params, row), Live(i, q.entity, "", row);
    FlatIsGroup(i, "", q.where, params, row, map[]);
    LiveAnd(i, q.entity, "", row);
    ExpectedAnd(i, o, params, row);
    R.NoOrConcat(e, l);
    AllTrueConcat(e, l);
    NothingInFront(g + (e + l));
    if MeantWrite(i, q, o, params, row) { ConjunctionSelects([], g, e + l); }
    if R.AllAnd(q) {
      R.FlatAnd(i, q, params, row, map[]);
      WithoutOr([], g, e + l);
    }
  }

  lemma ExpectedAnd(i: Interp, o: Option<Optimist>, params: seq<Value>, row: Row)
    ensures R.NoOr(Expected(i, o, params, row))
  {
  }

  lemma NothingInFront(ts: seq<Term>)
    ensures [] + ts == ts && R.NoOr([]) && AllTrue([])
  {
  }

  // ------------------------------------------------------------------------------------- a deleted row that is read

  function Equals(conn: string, column: string, p: int): Item {
    Item(Some(Pred(conn, column, "eq", Some(p), [], None, None, None, [], None)), None, None)
  }

  /** `a = p0 OR b = p1` on a table with soft delete. */
  const EITHER: Query :=
    Query("t", None, None, Some(Group("", false, [Equals("", "a", 0), Equals("or", "b", 1)])),
          [], [], [], [], None, Options("", "", "", false, 0, false), None)

  /** A database with every condition true, where no row is live. */
  const DELETED: Interp :=
    Interp((e: string) => [], (e: string) => "deleted_at", (r: Row, p: string, c: string) => Int(7),
           (r: Row, p: string, s: Row) => r, (op: string, v: Value, vs: seq<Value>) => True,
           (n: string, v: Value, vs: seq<Value>) => v, (n: string, vs: seq<Value>) => Null,
           (ks: seq<OrderKey>, rs: seq<Row>) => rs, (cs: seq<string>, rs: seq<Row>) => rs)

  /** A read selects a soft-deleted row, and a write changes it: `live AND a OR b`, and `a OR b AND live`. */
  lemma OrSelectsDeleted(params: seq<Value>, row: Row)
    ensures Selects(DELETED, EITHER, false, params, row) && !Meant(DELETED, EITHER, params, row)
    ensures Connect(True, WriteTerms(DELETED, EITHER, None, params, row)).True?
    ensures !MeantWrite(DELETED, EITHER, None, params, row)
  {
    hide EvalPred;
    var a, b := Equals("", "a", 0), Equals("or", "b", 1);
    var joined: map<string, Truth> := map[];
    assert JoinedTruths(DELETED, "", [], params, row) == joined;
    SampleItem("", "a", 0, params, row, joined);
    SampleItem("or", "b", 1, params, row, joined);
    assert [a, b][1..] == [b] && [b][1..] == [];
    assert EvalItems(DELETED, "", [b], params, row, joined) == [("or", True)];
    assert EvalItems(DELETED, "", [a, b], params, row, joined) == [("", True), ("or", True)];
    var live: Term := ("and", False);
    var ts := IrMeaning.Terms(DELETED, EITHER, false, params, row);
    assert Live(DELETED, "t", "", row) == [live];
    assert Flat(DELETED, "", EITHER.where, params, row, joined) == [("and", True), ("or", True)];
    assert ts == [live, ("and", True), ("or", True)];
    OrBeforeTrue(True, ts, 2);
    var us := WriteTerms(DELETED, EITHER, None, params, row);
    assert us == [("and", True), ("or", True), live];
    OrBehindTrue(us, 1);
    assert !live.1.True? && Live(DELETED, "t", "", row)[0] == live;
  }

  lemma SampleItem(
    conn: string, column: string, p: int, params: seq<Value>, row: Row, joined: map<string, Truth>)
    ensures EvalItem(DELETED, "", Equals(conn, column, p), params, row, joined) == (conn, True)
  {
  }
}
