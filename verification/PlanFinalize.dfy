/**
  When a finalize that nothing interrupts ends.  It drops the hidden objects of every applied plan, in the order of the
  plans, while all later plans are applied.  A later plan can have renamed or hidden the table of a hidden column, so an
  object may no longer be where the step looks for it.
 */
module PlanFinalize {
  import opened Common
  import opened PlanApply
  import opened PlanRuns

  /** The hidden object that finalize step i of plan j is to drop is there. */
  ghost predicate Held<DB>(c: Chain<DB>, j: nat, i: nat, db: DB) {
    && j < |c.plans| && c.plans[j].End() <= i < |c.plans[j].steps|
    && c.plans[j].steps[i].effect.Some? && !c.plans[j].steps[i].effect.value(db)
  }

  /** The database after finalize step i of plan j. */
  ghost function Dropped<DB>(c: Chain<DB>, j: nat, i: nat, db: DB): Option<DB> {
    if j < |c.plans| && i < |c.plans[j].steps| then c.plans[j].steps[i].statement(db) else None
  }

  /** A finalize step succeeds exactly when its object is there, and every object is the object of one step. */
  ghost predicate DropsHeld<DB(!new)>(c: Chain<DB>) {
    && (forall j: nat, i: nat, db {:trigger Dropped(c, j, i, db)} ::
          j < |c.plans| && c.plans[j].End() <= i < |c.plans[j].steps| ==>
            (Dropped(c, j, i, db).Some? <==> Held(c, j, i, db)))
    && (forall j: nat, i: nat, k: nat, l: nat, db {:trigger Dropped(c, j, i, db), Held(c, k, l, db)} ::
          Held(c, j, i, db) && Dropped(c, j, i, db).Some? && (j, i) != (k, l) ==>
            (Held(c, k, l, Dropped(c, j, i, db).value) <==> Held(c, k, l, db)))
  }

  /** The objects of the finalize steps of plan j from i on are there. */
  ghost predicate HeldFrom<DB(!new)>(c: Chain<DB>, j: nat, i: nat, db: DB) {
    j < |c.plans| && forall l: nat :: i <= l < |c.plans[j].steps| ==> Held(c, j, l, db)
  }

  /** Only the state and the step of plan j's row change. */
  ghost predicate OnlyRow<DB>(c: Chain<DB>, w: World<DB>, w': World<DB>, j: nat) {
    && j < |c.plans| && c.plans[j].name in w.history && w'.history.Keys == w.history.Keys
    && RowAt(c, w', j) == RowAt(c, w, j).(state := RowAt(c, w', j).state, step := RowAt(c, w', j).step)
    && forall n :: n in w.history && n != c.plans[j].name ==> w'.history[n] == w.history[n]
  }

  ghost predicate OthersHeld<DB(!new)>(c: Chain<DB>, j: nat, db: DB, db': DB) {
    forall k: nat, l: nat {:trigger Held(c, k, l, db')} :: k != j ==> (Held(c, k, l, db') <==> Held(c, k, l, db))
  }

  /** What one step does to the objects that the steps behind it and the other plans look for. */
  lemma DropOne<DB(!new)>(c: Chain<DB>, j: nat, i: nat, db: DB)
    requires DropsHeld(c) && Held(c, j, i, db)
    ensures Dropped(c, j, i, db).Some?
    ensures OthersHeld(c, j, db, Dropped(c, j, i, db).value)
    ensures HeldFrom(c, j, i + 1, Dropped(c, j, i, db).value) <==> HeldFrom(c, j, i, db)
  {
    HeldIs(c, j, i, db);
    hide Held;
    var db' := Dropped(c, j, i, db).value;
    forall k: nat, l: nat | (k, l) != (j, i) ensures Held(c, k, l, db') <==> Held(c, k, l, db) {
      assert Held(c, k, l, db) || !Held(c, k, l, db);
    }
  }

  lemma HeldIs<DB(!new)>(c: Chain<DB>, j: nat, i: nat, db: DB)
    requires DropsHeld(c) && j < |c.plans| && c.plans[j].End() <= i < |c.plans[j].steps|
    ensures Dropped(c, j, i, db) == c.plans[j].steps[i].statement(db)
    ensures Dropped(c, j, i, db).Some? <==> Held(c, j, i, db)
  {
    assert Dropped(c, j, i, db) == c.plans[j].steps[i].statement(db);
  }

  /** Finalizing one plan ends exactly when its objects are there. */
  lemma {:induction false} PlanEnds<DB(!new)>(c: Chain<DB>, j: nat, i: nat, w: World<DB>, fuel: nat)
    requires DropsHeld(c) && j < |c.plans| && c.plans[j].End() <= i <= |c.plans[j].steps|
    requires c.plans[j].name in w.history && fuel >= 2 * (|c.plans[j].steps| - i) + 1
    ensures var o := FinalizeFrom(c, j, i, w, fuel);
            && (o.ok <==> HeldFrom(c, j, i, w.db)) && OnlyRow(c, w, o.world, j)
            && (o.ok ==> o.fuel == fuel - 2 * (|c.plans[j].steps| - i) - 1)
            && (o.ok ==> RowState(c, o.world, j, Done) && OthersHeld(c, j, w.db, o.world.db))
            && (!o.ok ==> RowAt(c, o.world, j).state == RowAt(c, w, j).state)
    decreases |c.plans[j].steps| - i
  {
    hide DropsHeld, Held, OthersHeld;
    var p := c.plans[j];
    if i < |p.steps| {
      HeldIs(c, j, i, w.db);
      if Held(c, j, i, w.db) {
        DropOne(c, j, i, w.db);
        var db := p.steps[i].statement(w.db).value;
        var w2 := SetStep(c, RunStatement(w, j, i, false, db), j, i + 1);
        PlanEnds(c, j, i + 1, w2, fuel - 2);
        if HeldFrom(c, j, i + 1, db) {
          OthersHeldTrans(c, j, w.db, db, FinalizeFrom(c, j, i + 1, w2, fuel - 2).world.db);
        }
      }
    } else {
      OthersHeldRefl(c, j, w.db);
    }
  }

  lemma OthersHeldTrans<DB(!new)>(c: Chain<DB>, j: nat, a: DB, b: DB, d: DB)
    requires OthersHeld(c, j, a, b) && OthersHeld(c, j, b, d)
    ensures OthersHeld(c, j, a, d)
  {
    hide Held;
  }

  lemma OthersHeldRefl<DB(!new)>(c: Chain<DB>, j: nat, db: DB)
    ensures OthersHeld(c, j, db, db)
  {
  }

  // ------------------------------------------------------------------------------------- all plans

  /** The writes of an uninterrupted finalize of the plans i .. m. */
  function FinalizeCost<DB>(c: Chain<DB>, i: nat, m: nat): nat
    requires m <= |c.plans|
    decreases m - i
  {
    if i >= m then 0 else 2 * (|c.plans[i].steps| - c.plans[i].End()) + 2 + FinalizeCost(c, i + 1, m)
  }

  ghost predicate Due<DB>(c: Chain<DB>, rows: map<string, Row>, j: nat) {
    j < |c.plans| && c.plans[j].name in rows && rows[c.plans[j].name].state.Applied?
  }

  /** What an uninterrupted finalize of the plans i .. m leaves: it stops at plan l, or at none when l is m. */
  ghost predicate StopsAt<DB(!new)>(
    c: Chain<DB>, rows: map<string, Row>, i: nat, m: nat, w: World<DB>, o: Outcome<DB>, l: nat) {
    && i <= l <= m <= |c.plans| && (o.ok <==> l == m) && o.world.history.Keys == w.history.Keys
    && (forall j: nat :: j < m ==> SameHashes(c, w, o.world, j))
    && (forall j: nat :: j < m && !(i <= j <= l && Due(c, rows, j)) ==> SameRow(c, w, o.world, j))
    && (forall j: nat :: i <= j < l && Due(c, rows, j) ==>
          HeldFrom(c, j, c.plans[j].End(), w.db) && RowState(c, o.world, j, Done))
    && (l < m ==> Due(c, rows, l) && !HeldFrom(c, l, c.plans[l].End(), w.db) && RowState(c, o.world, l, Finalizing))
  }

  /** The row of plan j keeps its hashes. */
  ghost predicate SameHashes<DB>(c: Chain<DB>, w: World<DB>, w': World<DB>, j: nat) {
    && j < |c.plans| && c.plans[j].name in w.history && c.plans[j].name in w'.history
    && RowAt(c, w', j).from == RowAt(c, w, j).from && RowAt(c, w', j).to == RowAt(c, w, j).to
  }

  lemma {:induction false} AllEnd<DB(!new)>(
    c: Chain<DB>, rows: map<string, Row>, i: nat, m: nat, w: World<DB>, fuel: nat) returns (l: nat)
    requires Distinct(c) && DropsHeld(c) && i <= m <= |c.plans|
    requires forall j :: 0 <= j < m ==> c.plans[j].name in rows && c.plans[j].name in w.history
    requires fuel >= FinalizeCost(c, i, m)
    ensures StopsAt(c, rows, i, m, w, FinalizeAll(c, rows, i, m, w, fuel), l)
    decreases m - i
  {
    hide DropsHeld, HeldFrom, OthersHeld, StopsAt, Distinct, FinalizeFrom;
    l := i;
    if i == m {
      NothingLeft(c, rows, m, w, fuel);
    } else if !Due(c, rows, i) {
      l := AllEnd(c, rows, i + 1, m, w, fuel);
      Skipped(c, rows, i, m, w, FinalizeAll(c, rows, i + 1, m, w, fuel), l);
    } else {
      var end := c.plans[i].End();
      var w1 := Record(c, w, i, Finalizing, end);
      var o1 := FinalizeFrom(c, i, end, w1, fuel - 1);
      PlanEnds(c, i, end, w1, fuel - 1);
      Visited(c, w, o1.world, i, m);
      if o1.ok {
        l := AllEnd(c, rows, i + 1, m, o1.world, o1.fuel);
        Onward(c, rows, i, m, w, o1.world, FinalizeAll(c, rows, i + 1, m, o1.world, o1.fuel), l);
      } else {
        Fails(c, rows, i, m, w, o1);
      }
    }
  }

  lemma NothingLeft<DB(!new)>(c: Chain<DB>, rows: map<string, Row>, m: nat, w: World<DB>, fuel: nat)
    requires m <= |c.plans| && forall j :: 0 <= j < m ==> c.plans[j].name in rows && c.plans[j].name in w.history
    ensures StopsAt(c, rows, m, m, w, FinalizeAll(c, rows, m, m, w, fuel), m)
  {
  }

  lemma Skipped<DB(!new)>(
    c: Chain<DB>, rows: map<string, Row>, i: nat, m: nat, w: World<DB>, o: Outcome<DB>, l: nat)
    requires i < m && !Due(c, rows, i) && StopsAt(c, rows, i + 1, m, w, o, l)
    ensures StopsAt(c, rows, i, m, w, o, l)
  {
    hide HeldFrom;
  }

  lemma Fails<DB(!new)>(c: Chain<DB>, rows: map<string, Row>, i: nat, m: nat, w: World<DB>, o: Outcome<DB>)
    requires i < m <= |c.plans| && Due(c, rows, i) && !o.ok && !HeldFrom(c, i, c.plans[i].End(), w.db)
    requires o.world.history.Keys == w.history.Keys && RowState(c, o.world, i, Finalizing)
    requires forall j: nat :: j < m ==> SameHashes(c, w, o.world, j)
    requires forall j: nat :: j < m && j != i ==> SameRow(c, w, o.world, j)
    ensures StopsAt(c, rows, i, m, w, o, i)
  {
    hide HeldFrom;
  }

  lemma Visited<DB(!new)>(c: Chain<DB>, w: World<DB>, w': World<DB>, i: nat, m: nat)
    requires Distinct(c) && i < m <= |c.plans| && OnlyRow(c, Record(c, w, i, Finalizing, c.plans[i].End()), w', i)
    requires forall j :: 0 <= j < m ==> c.plans[j].name in w.history
    ensures w'.history.Keys == w.history.Keys
    ensures forall j: nat :: j < m ==> SameHashes(c, w, w', j)
    ensures forall j: nat :: j < m && j != i ==> SameRow(c, w, w', j)
  {
    forall j: nat | j < m && j != i ensures c.plans[j].name != c.plans[i].name && SameRow(c, w, w', j) {
      if j < i { assert c.plans[j].name != c.plans[i].name; } else { assert c.plans[i].name != c.plans[j].name; }
    }
  }

  lemma Onward<DB(!new)>(
    c: Chain<DB>, rows: map<string, Row>, i: nat, m: nat, w: World<DB>, w1: World<DB>, o: Outcome<DB>, l: nat)
    requires i < m <= |c.plans| && Due(c, rows, i) && HeldFrom(c, i, c.plans[i].End(), w.db)
    requires w1.history.Keys == w.history.Keys && forall j: nat :: j < m ==> SameHashes(c, w, w1, j)
    requires forall j: nat :: j < m && j != i ==> SameRow(c, w, w1, j)
    requires RowState(c, w1, i, Done) && OthersHeld(c, i, w.db, w1.db)
    requires StopsAt(c, rows, i + 1, m, w1, o, l)
    ensures StopsAt(c, rows, i, m, w, o, l)
  {
    hide HeldFrom, OthersHeld;
    forall j: nat | j < m ensures SameHashes(c, w, o.world, j) {
      assert SameHashes(c, w, w1, j) && SameHashes(c, w1, o.world, j);
    }
    forall j: nat | j < m && !(i <= j <= l && Due(c, rows, j)) ensures SameRow(c, w, o.world, j) {
      assert SameRow(c, w, w1, j) && SameRow(c, w1, o.world, j);
    }
    forall j: nat | i + 1 <= j <= l && j < m
      ensures HeldFrom(c, j, c.plans[j].End(), w1.db) <==> HeldFrom(c, j, c.plans[j].End(), w.db)
    {
      SameHeld(c, i, j, w.db, w1.db);
    }
    assert SameRow(c, w1, o.world, i);
  }

  lemma SameHeld<DB(!new)>(c: Chain<DB>, i: nat, j: nat, db: DB, db': DB)
    requires OthersHeld(c, i, db, db') && j != i && j < |c.plans|
    ensures HeldFrom(c, j, c.plans[j].End(), db') <==> HeldFrom(c, j, c.plans[j].End(), db)
  {
    hide Held;
    forall l: nat ensures Held(c, j, l, db') <==> Held(c, j, l, db) {
      assert Held(c, j, l, db') || !Held(c, j, l, db');
    }
  }

  /** The hidden objects of the applied plans among the first m are there. */
  ghost predicate AllHeld<DB(!new)>(c: Chain<DB>, w: World<DB>, m: int) {
    forall j: nat :: j < m && RowState(c, w, j, Applied) ==> HeldFrom(c, j, c.plans[j].End(), w.db)
  }

  /**
    An uninterrupted finalize ends, with all plans done, if and only if every hidden object that it is to drop is there
    when it begins.  The history that it leaves is accepted if and only if no plan but the last misses one.
   */
  lemma FinalizeEnds<DB(!new)>(c: Chain<DB>, w: World<DB>, m: nat, fuel: nat)
    requires WellFormed(c) && DropsHeld(c) && Settled(c, w) == Some(m) && fuel >= FinalizeCost(c, 0, m)
    ensures Finalize(c, w, fuel).ok <==> AllHeld(c, w, m)
    ensures AllHeld(c, w, m) ==> forall j: nat :: j < m ==> RowState(c, Finalize(c, w, fuel).world, j, Done)
    ensures Position(c, Finalize(c, w, fuel).world.history).Some? <==> AllHeld(c, w, m - 1)
  {
    hide WellFormed, DropsHeld, HeldFrom, FinalizeAll, IsPrefix, StopsAt, Distinct;
    SettledRows(c, w, m);
    assert Distinct(c) by { PlanOfDistinct(c); }
    var o := Finalize(c, w, fuel);
    assert o == FinalizeAll(c, w.history, 0, m, w, fuel);
    var l := AllEnd(c, w.history, 0, m, w, fuel);
    Stopped(c, w, m, o, l);
  }

  lemma SettledRows<DB(!new)>(c: Chain<DB>, w: World<DB>, m: nat)
    requires Settled(c, w) == Some(m)
    ensures m <= |c.plans| && IsPrefix(c, w.history, m) && Position(c, w.history) == Some(m)
    ensures forall j :: 0 <= j < m ==> c.plans[j].name in w.history && RowAt(c, w, j).state.Settled()
  {
  }

  lemma Stopped<DB(!new)>(c: Chain<DB>, w: World<DB>, m: nat, o: Outcome<DB>, l: nat)
    requires Distinct(c) && IsPrefix(c, w.history, m) && StopsAt(c, w.history, 0, m, w, o, l)
    requires forall j :: 0 <= j < m ==> c.plans[j].name in w.history && RowAt(c, w, j).state.Settled()
    ensures o.ok <==> AllHeld(c, w, m)
    ensures AllHeld(c, w, m) ==> forall j: nat :: j < m ==> RowState(c, o.world, j, Done)
    ensures Position(c, o.world.history).Some? <==> AllHeld(c, w, m - 1)
  {
    hide HeldFrom, Distinct, IsPrefix;
    forall j: nat | j < m && j != l ensures RowState(c, o.world, j, Done) || SameRow(c, w, o.world, j) {
      assert Due(c, w.history, j) || !Due(c, w.history, j);
    }
    forall j: nat | j < l && RowState(c, w, j, Applied)
      ensures HeldFrom(c, j, c.plans[j].End(), w.db) && RowState(c, o.world, j, Done)
    {
      assert Due(c, w.history, j);
    }
    if l < m { assert RowState(c, w, l, Applied); }
    forall j: nat | j < m && j < l ensures RowState(c, o.world, j, Done) {
      assert RowState(c, w, j, Applied) || RowState(c, w, j, Done);
    }
    if l < m - 1 {
      KeysAre(c, w, o.world, m);
      UnsettledRefused(c, o.world.history, l, m);
    } else {
      Accepted(c, w, o.world, m);
    }
  }

  lemma KeysAre<DB(!new)>(c: Chain<DB>, w: World<DB>, w': World<DB>, m: nat)
    requires IsPrefix(c, w.history, m) && w'.history.Keys == w.history.Keys
    ensures w'.history.Keys == Names(c, m)
  {
  }

  lemma Accepted<DB(!new)>(c: Chain<DB>, w: World<DB>, w': World<DB>, m: nat)
    requires Distinct(c) && IsPrefix(c, w.history, m) && w'.history.Keys == w.history.Keys
    requires forall j: nat :: j < m ==> SameHashes(c, w, w', j)
    requires forall j: nat :: j < m ==> !RowAt(c, w', j).state.Unknown?
    requires forall j: nat :: j < m - 1 ==> RowState(c, w', j, Done)
    ensures Position(c, w'.history) == Some(m)
  {
    hide Distinct;
    forall j | 0 <= j < m ensures c.plans[j].name in w'.history && RowOf(c, w'.history, j) {
      assert SameHashes(c, w, w', j) && RowOf(c, w.history, j);
    }
    forall j | 0 <= j < m - 1 ensures w'.history[c.plans[j].name].state.Settled() {
      assert RowState(c, w', j, Done);
    }
    assert IsPrefix(c, w'.history, m);
    PositionUnique(c, w'.history, m);
  }
}
