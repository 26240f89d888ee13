/**
  Where the plan operations do not keep their promise: a cut finalize of a plan that is not the last, and a cut recover
  of a finalizing plan, can leave a database that no command accepts any more.  Each is shown by a run, and the exact
  condition before the command is proved.
 */
module PlanLimits {
  import opened Common
  import opened PlanApply
  import opened PlanRuns

  // ------------------------------------------------- finalize: only the last plan may be open

  lemma {:induction false} FirstApplied<DB(!new)>(c: Chain<DB>, w: World<DB>, i: nat, l: nat, m: nat)
    requires i <= l < m <= |c.plans| && forall j :: 0 <= j < m ==> c.plans[j].name in w.history
    requires forall x :: i <= x < l ==> !w.history[c.plans[x].name].state.Applied?
    requires w.history[c.plans[l].name].state.Applied?
    ensures FinalizeAll(c, w.history, i, m, w, 1).world == Record(c, w, l, Finalizing, c.plans[l].End())
    decreases l - i
  {
    if i < l { FirstApplied(c, w, i + 1, l, m); }
  }

  /**
    Wherever an accepted finalize is cut, the history it leaves is accepted, if and only if every plan but the last is
    already done when it begins.
   */
  lemma FinalizeExact<DB(!new)>(c: Chain<DB>, at: (seq<nat>, DB) -> bool, w: World<DB>, v: seq<nat>, m: nat)
    requires WellFormed(c) && Sound(c, at) && Inv(c, at, w, v, m) && Settled(c, w) == Some(m)
    ensures (forall fuel: nat :: Position(c, Finalize(c, w, fuel).world.history).Some?) <==> DoneBelow(c, w, m)
  {
    if DoneBelow(c, w, m) {
      forall fuel: nat
        ensures Position(c, Finalize(c, w, fuel).world.history).Some?
      {
        FinalizeAccepted(c, at, w, v, m, fuel);
      }
    } else {
      FinalizeRefused(c, at, w, v, m);
    }
  }

  lemma FinalizeAccepted<DB(!new)>(
    c: Chain<DB>, at: (seq<nat>, DB) -> bool, w: World<DB>, v: seq<nat>, m: nat, fuel: nat)
    requires WellFormed(c) && Sound(c, at) && Inv(c, at, w, v, m) && Settled(c, w) == Some(m) && DoneBelow(c, w, m)
    ensures Position(c, Finalize(c, w, fuel).world.history).Some?
  {
    hide Sound, LogProper, Rows, SettledFrom, WellFormed, Distinct, Finalize;
    SettledAll(c, at, w, v, m);
    FromSettled(c, w, m);
    NotFinalizingTight(c, at, w, v, m);
    var v' := FinalizeOpSafe(c, at, w, v, m, fuel);
    InvRows(c, at, Finalize(c, w, fuel).world, v', m);
    OpenPosition(c, Finalize(c, w, fuel).world, v', m);
  }

  lemma SettledAll<DB(!new)>(c: Chain<DB>, at: (seq<nat>, DB) -> bool, w: World<DB>, v: seq<nat>, m: nat)
    requires WellFormed(c) && Inv(c, at, w, v, m) && Settled(c, w) == Some(m)
    ensures Distinct(c) && SettledFrom(c, w.history, 0, m, m)
  {
    PositionOpen(c, w, v, m);
    if m > 0 { AllSettled(c, w.history, m); }
  }

  lemma FinalizeRefused<DB(!new)>(c: Chain<DB>, at: (seq<nat>, DB) -> bool, w: World<DB>, v: seq<nat>, m: nat)
    requires WellFormed(c) && Inv(c, at, w, v, m) && Settled(c, w) == Some(m) && !DoneBelow(c, w, m)
    ensures Position(c, Finalize(c, w, 1).world.history).None?
  {
    hide LogProper, SettledFrom, WellFormed, Distinct, Rows, FinalizeAll, Position, DoneBelow;
    SettledAll(c, at, w, v, m);
    InvRows(c, at, w, v, m);
    var l := FirstNotDone(c, w, v, m);
    FirstApplied(c, w, 0, l, m);
    RefusedRow(c, w, v, l, m);
  }

  lemma RefusedRow<DB(!new)>(c: Chain<DB>, w: World<DB>, v: seq<nat>, l: nat, m: nat)
    requires Distinct(c) && Rows(c, w.history, v, m) && l < m - 1 && c.plans[l].name in w.history
    ensures Position(c, Record(c, w, l, Finalizing, c.plans[l].End()).history).None?
  {
    hide Distinct, Position;
    var w1 := Record(c, w, l, Finalizing, c.plans[l].End());
    assert w1.history.Keys == w.history.Keys;
    UnsettledRefused(c, w1.history, l, m);
  }

  lemma FirstNotDone<DB(!new)>(c: Chain<DB>, w: World<DB>, v: seq<nat>, m: nat) returns (l: nat)
    requires Rows(c, w.history, v, m) && SettledFrom(c, w.history, 0, m, m) && !DoneBelow(c, w, m)
    ensures l < m - 1 && forall j :: 0 <= j < m ==> c.plans[j].name in w.history
    ensures w.history[c.plans[l].name].state.Applied?
    ensures forall x :: 0 <= x < l ==> !w.history[c.plans[x].name].state.Applied?
  {
    forall j | 0 <= j < m
      ensures c.plans[j].name in w.history
    {
      RowBoundsAt(c, w.history, v, m, j);
    }
    l := 0;
    while l < m - 1 && RowState(c, w, l, Done)
      invariant 0 <= l <= m - 1
      invariant forall x :: 0 <= x < l ==> RowState(c, w, x, Done)
    {
      l := l + 1;
    }
    assert SettledRow(c, w.history, l);
    forall x | 0 <= x < l
      ensures !w.history[c.plans[x].name].state.Applied?
    {
      assert RowState(c, w, x, Done);
    }
  }

  // --------------------------------------------------- recover: a lagging finalizing row

  lemma FrontierMoved<DB(!new)>(c: Chain<DB>, v: seq<nat>, j: nat, x: nat)
    requires Frontier(c, v, j, x)
    ensures Frontier(c, v[j := x], j, v[j := x][j])
  {
  }

  /** The effect of a finalize step tells whether its plan is past it. */
  lemma FinalizePosition<DB(!new)>(c: Chain<DB>, at: (seq<nat>, DB) -> bool, v: seq<nat>, j: nat, k: nat, db: DB)
    requires Sound(c, at) && at(v, db) && j < |v| && Frontier(c, v, j, v[j]) && v[j] >= c.plans[j].End()
    requires c.plans[j].End() <= k < |c.plans[j].steps| && c.plans[j].steps[k].effect.Some?
    ensures v[j] > k <==> c.plans[j].steps[k].effect.value(db)
  {
    assert UseOn(v, j, db);
    assert FinalReads(c.plans[j], v[j], db);
  }

  ghost predicate KeptSome<DB(!new)>(c: Chain<DB>, at: (seq<nat>, DB) -> bool, w: World<DB>, m: nat) {
    exists v: seq<nat> :: Kept(c, at, w, v, m)
  }

  /** A recover of a lagging row that is cut after its first statement: the row is two steps behind. */
  lemma LaggingOverruns<DB(!new)>(
    c: Chain<DB>, at: (seq<nat>, DB) -> bool, w: World<DB>, v: seq<nat>, m: nat) returns (v': seq<nat>)
    requires WellFormed(c) && Sound(c, at) && Works(c, at) && Kept(c, at, w, v, m) && Lagging(c, w, m)
    ensures Recover(c, w, 1).world.history == w.history
    ensures |v'| == |c.plans| && v'[m - 1] == RowAt(c, w, m - 1).step + 2
    ensures at(v', Recover(c, w, 1).world.db) && Frontier(c, v', m - 1, v'[m - 1])
  {
    hide Sound, Works, Rows, LogProper, SettledFrom, Distinct, Resolve, WellFormed, IsPrefix;
    var j := m - 1;
    var p := c.plans[j];
    PlanOf(c, j);
    InvRows(c, at, w, v, m);
    OpenPosition(c, w, v, m);
    LastSettled(c, w.history, m);
    var k := RestartFinalize(c, at, w, v, m, true);
    assert StepWellFormed(p.steps[k]) && p.steps[k].finalize;
    assert Recover(c, w, 1) == FinalizeFrom(c, j, k, w, 1);
    RowsMovable(c, w.history, v, m, j, k);
    DueWorks(c, at, w.db, v, j, k, false);
    var db := p.steps[k].Attempt(w.db, false).value;
    RunOneAt(c, at, w.db, v, j, k, false, db);
    v' := v[j := k + 1];
    RowsMovable(c, w.history, v, m, j, k + 1);
    FrontierMoved(c, v, j, k + 1);
  }

  /**
    Wherever a recover is cut, every row stays at most one step behind its statement, if and only if the last row is not
    a finalizing one that lags with another finalize step to come.
   */
  lemma RecoverExact<DB(!new)>(c: Chain<DB>, at: (seq<nat>, DB) -> bool, w: World<DB>, v: seq<nat>, m: nat)
    requires WellFormed(c) && Sound(c, at) && Works(c, at) && Kept(c, at, w, v, m)
    ensures (forall fuel: nat :: KeptSome(c, at, Recover(c, w, fuel).world, m)) <==> !Lagging(c, w, m)
  {
    hide Sound, Works, Rows, LogProper, SettledFrom, Distinct, Resolve, WellFormed, IsPrefix, Recover;
    if !Lagging(c, w, m) {
      forall fuel: nat
        ensures KeptSome(c, at, Recover(c, w, fuel).world, m)
      {
        var v' := RecoverSafe(c, at, w, v, m, fuel);
      }
    } else {
      var w1 := Recover(c, w, 1).world;
      var j := m - 1;
      var k := RowAt(c, w, j).step + 1;
      var v1 := LaggingOverruns(c, at, w, v, m);
      assert PlanWellFormed(c.plans[j]) by { PlanOf(c, j); }
      assert StepWellFormed(c.plans[j].steps[k]) && c.plans[j].steps[k].finalize by {
        var k' := RestartFinalize(c, at, w, v, m, true);
      }
      FinalizePosition(c, at, v1, j, k, w1.db);
      forall v': seq<nat>
        ensures !Kept(c, at, w1, v', m)
      {
        if Kept(c, at, w1, v', m) {
          InvRows(c, at, w1, v', m);
          LastSettled(c, w1.history, m);
          LastBounds(c, w1.history, v', m);
          RowsMovable(c, w1.history, v', m, j, v'[j]);
          FinalizePosition(c, at, v', j, k, w1.db);
          assert false;
        }
      }
      assert !KeptSome(c, at, w1, m);
    }
  }

  // ------------------------------------------------------------------------ stranded for good

  /** The last row is finalizing and two steps behind its database. */
  ghost predicate Overrun<DB(!new)>(c: Chain<DB>, w: World<DB>, v: seq<nat>, m: nat) {
    0 < m <= |v| && RowState(c, w, m - 1, Finalizing) && v[m - 1] == RowAt(c, w, m - 1).step + 2
  }

  /** An overrun database or a refused history: every command, however it is cut, fails and changes nothing. */
  lemma Stranded<DB(!new)>(
    c: Chain<DB>, at: (seq<nat>, DB) -> bool, w: World<DB>, v: seq<nat>, m: nat, op: Op, fuel: nat)
    requires WellFormed(c) && Sound(c, at) && Inv(c, at, w, v, m)
    requires Position(c, w.history).None? || Overrun(c, w, v, m)
    ensures Do(c, w, op, fuel).world == w && !Do(c, w, op, fuel).ok
  {
    hide Sound, Rows, LogProper, SettledFrom, Distinct, Resolve, WellFormed, IsPrefix, FinalizeAll, ApplyFrom, Forward,
         Backward;
    if Position(c, w.history).Some? {
      var j := m - 1;
      var p := c.plans[j];
      PlanOf(c, j);
      InvRows(c, at, w, v, m);
      PositionOpen(c, w, v, m);
      var k := RestartFinalize(c, at, w, v, m, op.OpRecover?);
      assert StepWellFormed(p.steps[k - 1]) && p.steps[k - 1].finalize;
      assert StepWellFormed(p.steps[k]) && p.steps[k].finalize;
    }
  }

  /** Nothing but a repair by hand ends this: no run of commands and row writes changes the history again. */
  lemma {:induction false} StrandedForever<DB(!new)>(
    c: Chain<DB>, at: (seq<nat>, DB) -> bool, w: World<DB>, v: seq<nat>, m: nat, events: seq<Event<DB>>)
    requires WellFormed(c) && Sound(c, at) && Inv(c, at, w, v, m)
    requires Position(c, w.history).None? || Overrun(c, w, v, m)
    requires forall e :: e in events ==> Harmless(at, e)
    ensures Run(c, w, events).history == w.history
    decreases |events|
  {
    hide Sound, Rows, LogProper, WellFormed, Do;
    if events != [] {
      var e := events[0];
      assert Harmless(at, e);
      if e.Command? {
        Stranded(c, at, w, v, m, e.op, e.fuel);
      } else {
        assert at(v, e.rows(w.db));
      }
      StrandedForever(c, at, After(c, w, e), v, m, events[1..]);
    }
  }
}
