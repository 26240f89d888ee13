/**
  Whole runs of the plan operations: any sequence of apply, recover, rollback and finalize, each cut after any
  database write, with rows written by the application in between.
 */
module PlanRuns {
  import opened Common
  import opened PlanApply

  // ------------------------------------------------------------------------------- recover

  /** A finalizing row whose recorded step has already run, with another finalize step after it. */
  ghost predicate Lagging<DB(!new)>(c: Chain<DB>, w: World<DB>, m: nat) {
    && 0 < m && RowState(c, w, m - 1, Finalizing)
    && var p, k := c.plans[m - 1], RowAt(c, w, m - 1).step;
       && 0 <= k < |p.steps| - 1 && p.steps[k].effect.Some? && p.steps[k].effect.value(w.db)
  }

  lemma RecoverForwardSafe<DB(!new)>(
    c: Chain<DB>, at: (seq<nat>, DB) -> bool, w: World<DB>, v: seq<nat>, m: nat, fuel: nat)
    returns (v': seq<nat>)
    requires WellFormed(c) && Sound(c, at) && Inv(c, at, w, v, m) && Open(c, w, m) && 0 < m
    requires !SettledRow(c, w.history, m - 1) && LastNotFinalizing(c, w, m)
    requires Position(c, w.history) == Some(m)
    ensures Kept(c, at, Recover(c, w, fuel).world, v', m)
  {
    hide Sound, WellFormed, Distinct, PlanWellFormed, Rows, SameRows, LogProper, SettledFrom, IsPrefix;
    var j := m - 1;
    PlanOf(c, j);
    var o := Recover(c, w, fuel);
    var k;
    v', k := Restart(c, at, w, v, m, true);
    if fuel == 0 {
      assert o == Stop(w);
    } else {
      RecordRow(c, at, w, v', m, j, Applying, k);
      var w1 := Record(c, w, j, Applying, k);
      assert o == Forward(c, j, k, w1, fuel - 1);
      v' := ForwardSafe(c, at, w1, v', m, k, fuel - 1);
      SameRowsTrans(c, w, w1, o.world, m, j);
      KeepSettled(c, w, o.world, 0, m, j);
    }
    NotFinalizingTight(c, at, o.world, v', m);
  }

  lemma RecoverFinalizeSafe<DB(!new)>(
    c: Chain<DB>, at: (seq<nat>, DB) -> bool, w: World<DB>, v: seq<nat>, m: nat, fuel: nat)
    returns (v': seq<nat>)
    requires WellFormed(c) && Sound(c, at) && Inv(c, at, w, v, m) && Open(c, w, m) && 0 < m
    requires RowState(c, w, m - 1, Finalizing) && Position(c, w.history) == Some(m)
    ensures Inv(c, at, Recover(c, w, fuel).world, v', m) && Open(c, Recover(c, w, fuel).world, m)
    ensures Kept(c, at, w, v, m) && (!Lagging(c, w, m) || fuel != 1) ==> Kept(c, at, Recover(c, w, fuel).world, v', m)
  {
    hide Sound, WellFormed, Distinct, Rows, SameRows, LogProper, SettledFrom, Recover, Resolve, FinalizeFrom, Lagging,
         FinalReads, PlanWellFormed;
    var j := m - 1;
    PlanOf(c, j);
    PlanOfDistinct(c);
    var o := Recover(c, w, fuel);
    var k := RestartFinalize(c, at, w, v, m, true);
    RecoverFinalizes(c, w, m, k, fuel);
    v' := v;
    if v[j] == RowAt(c, w, j).step + 2 {
      OverrunStops(c, j, k, w, v, fuel);
    } else {
      LastSettled(c, w.history, m);
      v' := FinalizeSafe(c, at, w, v, m, j, k, fuel);
      KeepSettled(c, w, o.world, 0, m, j);
      if k < |c.plans[j].steps| && RowAt(c, w, j).step < k { Lags(c, w, v, m, k); }
    }
  }

  lemma RecoverFinalizes<DB(!new)>(c: Chain<DB>, w: World<DB>, m: nat, k: nat, fuel: nat)
    requires 0 < m <= |c.plans| && RowState(c, w, m - 1, Finalizing) && Position(c, w.history) == Some(m)
    requires Resolve(c.plans[m - 1], RowAt(c, w, m - 1), w.db, true) == Some(k)
    ensures Recover(c, w, fuel) == FinalizeFrom(c, m - 1, k, w, fuel)
  {
    hide Resolve, FinalizeFrom, IsPrefix;
  }

  /** Two steps behind, the statement that is tried has run already and fails. */
  lemma OverrunStops<DB(!new)>(c: Chain<DB>, j: nat, k: nat, w: World<DB>, v: seq<nat>, fuel: nat)
    requires j < |c.plans| && j < |v| && PlanWellFormed(c.plans[j]) && FinalReads(c.plans[j], v[j], w.db)
    requires c.plans[j].End() <= k < v[j] <= |c.plans[j].steps|
    ensures FinalizeFrom(c, j, k, w, fuel) == Stop(w)
  {
    assert StepWellFormed(c.plans[j].steps[k]) && c.plans[j].steps[k].finalize;
  }

  lemma Lags<DB(!new)>(c: Chain<DB>, w: World<DB>, v: seq<nat>, m: nat, k: nat)
    requires 0 < m <= |c.plans| && m <= |v| && RowState(c, w, m - 1, Finalizing) && PlanWellFormed(c.plans[m - 1])
    requires c.plans[m - 1].End() <= RowAt(c, w, m - 1).step == k - 1 && k < |c.plans[m - 1].steps| && v[m - 1] >= k
    requires FinalReads(c.plans[m - 1], v[m - 1], w.db)
    ensures Lagging(c, w, m)
  {
    var s := c.plans[m - 1].steps[k - 1];
    assert StepWellFormed(s) && s.finalize;
  }

  lemma RecoverSafe<DB(!new)>(c: Chain<DB>, at: (seq<nat>, DB) -> bool, w: World<DB>, v: seq<nat>, m: nat, fuel: nat)
    returns (v': seq<nat>)
    requires WellFormed(c) && Sound(c, at) && Inv(c, at, w, v, m)
    ensures Inv(c, at, Recover(c, w, fuel).world, v', m)
    ensures Kept(c, at, w, v, m) && (!Lagging(c, w, m) || fuel != 1) ==> Kept(c, at, Recover(c, w, fuel).world, v', m)
  {
    hide Sound, Rows, LogProper, WellFormed, Distinct, SettledFrom, IsPrefix, Inv, Lagging, Resolve, Forward,
         FinalizeFrom;
    v' := v;
    PlanOfDistinct(c);
    InvRows(c, at, w, v, m);
    if Position(c, w.history).Some? {
      PositionOpen(c, w, v, m);
      if m > 0 {
        LastBounds(c, w.history, v, m);
        if RowState(c, w, m - 1, Finalizing) {
          v' := RecoverFinalizeSafe(c, at, w, v, m, fuel);
        } else if !SettledRow(c, w.history, m - 1) {
          v' := RecoverForwardSafe(c, at, w, v, m, fuel);
        }
      }
    }
  }

  // ------------------------------------------------------------------------------ rollback

  /** The position a rollback starts from, and the world it starts in. */
  lemma RollbackStart<DB(!new)>(
    c: Chain<DB>, at: (seq<nat>, DB) -> bool, w: World<DB>, v: seq<nat>, m: nat) returns (v1: seq<nat>)
    requires WellFormed(c) && Sound(c, at) && Inv(c, at, w, v, m) && 0 < m && IsPrefix(c, w.history, m)
    ensures Inv(c, at, w, v1, m) && c.plans[m - 1].name in w.history
    ensures var p, k := c.plans[m - 1], RollbackPoint(c, w, m);
            && (k.Some? && k.value <= p.End() ==> Ready(p, k.value, v1[m - 1], true))
            && (k.Some? && k.value > p.End() ==> p.steps[k.value - 1].rollback.None?)
            && (k.None? ==> SettledRow(c, w.history, m - 1) && c.hash(w.db) != p.to)
  {
    hide Sound, WellFormed, Distinct, Rows, LogProper;
    var j := m - 1;
    var p := c.plans[j];
    PlanOf(c, j);
    LastBounds(c, w.history, v, m);
    v1 := v;
    if RowState(c, w, j, Finalizing) {
      var k := RestartFinalize(c, at, w, v, m, false);
    } else if !SettledRow(c, w.history, j) {
      var k;
      v1, k := Restart(c, at, w, v, m, false);
    }
    var k := RollbackPoint(c, w, m);
    if k.Some? && k.value > p.End() {
      assert StepWellFormed(p.steps[k.value - 1]);
    }
  }

  lemma InvRows<DB(!new)>(c: Chain<DB>, at: (seq<nat>, DB) -> bool, w: World<DB>, v: seq<nat>, m: nat)
    requires Inv(c, at, w, v, m)
    ensures Rows(c, w.history, v, m) && |v| == |c.plans| && m <= |c.plans|
  {
  }

  lemma LastBounds<DB(!new)>(c: Chain<DB>, h: map<string, Row>, v: seq<nat>, m: nat)
    requires Rows(c, h, v, m) && 0 < m
    ensures c.plans[m - 1].name in h && Bounds(c.plans[m - 1], h[c.plans[m - 1].name], v[m - 1])
  {
    assert RowBounds(c, h, m - 1, v[m - 1], true);
  }

  lemma RollbackSafe<DB(!new)>(c: Chain<DB>, at: (seq<nat>, DB) -> bool, w: World<DB>, v: seq<nat>, m: nat, fuel: nat)
    returns (v': seq<nat>, m': nat)
    requires WellFormed(c) && Sound(c, at) && Inv(c, at, w, v, m)
    ensures Inv(c, at, Rollback(c, w, fuel).world, v', m')
    ensures Kept(c, at, w, v, m) ==> Kept(c, at, Rollback(c, w, fuel).world, v', m')
  {
    hide Sound, Rows, SameRows, LogProper, SettledFrom, Distinct, WellFormed, PlanWellFormed, IsPrefix, Resolve;
    v', m' := v, m;
    var o := Rollback(c, w, fuel);
    if m > 0 && Position(c, w.history).Some? {
      PlanOf(c, m - 1);
      PositionOpen(c, w, v, m);
      var j := m - 1;
      var k := RollbackPoint(c, w, m);
      var v1 := RollbackStart(c, at, w, v, m);
      if k.None? || fuel == 0 || (k.value > 0 && c.plans[j].steps[k.value - 1].rollback.None?) {
        assert o == Stop(w);
      } else {
        RecordRow(c, at, w, v1, m, j, RollingBack, k.value);
        var w1 := Record(c, w, j, RollingBack, k.value);
        assert o == Backward(c, j, k.value, w1, fuel - 1);
        KeepSettled(c, w, w1, 0, m, j);
        v' := BackwardSafe(c, at, w1, v1, m, k.value, fuel - 1);
        m' := if o.ok then m - 1 else m;
        SameRowsTrans(c, w, w1, o.world, m, j);
        AfterRollback(c, at, w, o, v', m);
      }
    } else if Position(c, w.history).Some? {
      PlanOfDistinct(c);
      PositionOpen(c, w, v, m);
    }
  }

  lemma PlanOfDistinct<DB(!new)>(c: Chain<DB>)
    requires WellFormed(c)
    ensures Distinct(c)
  {
  }

  lemma AfterRollback<DB(!new)>(
    c: Chain<DB>, at: (seq<nat>, DB) -> bool, w: World<DB>, o: Outcome<DB>, v': seq<nat>, m: nat)
    requires 0 < m && Open(c, w, m) && BackwardPost(c, at, w, o, v', m)
    ensures Kept(c, at, o.world, v', if o.ok then m - 1 else m)
  {
    var m' := if o.ok then m - 1 else m;
    KeepSettled(c, w, o.world, 0, m, m - 1);
    if o.ok && m' > 0 { assert SettledRow(c, o.world.history, m' - 1); }
    NotFinalizingTight(c, at, o.world, v', m');
  }

  // ------------------------------------------------------------------------------ finalize

  /** Every plan but the last of the m recorded ones is done. */
  ghost predicate DoneBelow<DB(!new)>(c: Chain<DB>, w: World<DB>, m: nat) {
    forall l :: 0 <= l < m - 1 ==> RowState(c, w, l, Done)
  }

  /** The rows of the plans i .. m are those read when finalize began. */
  ghost predicate Unvisited<DB(!new)>(c: Chain<DB>, w0: World<DB>, w: World<DB>, i: nat, m: nat) {
    forall l :: i <= l < m ==> SameRow(c, w0, w, l)
  }

  lemma FinalizeOneSafe<DB(!new)>(
    c: Chain<DB>, at: (seq<nat>, DB) -> bool, w: World<DB>, v: seq<nat>, m: nat, j: nat, fuel: nat)
    returns (v': seq<nat>)
    requires WellFormed(c) && Sound(c, at) && Inv(c, at, w, v, m) && SettledFrom(c, w.history, 0, m, m)
    requires j < m && RowState(c, w, j, Applied)
    ensures var end := c.plans[j].End();
            var o := FinalizeFrom(c, j, end, Record(c, w, j, Finalizing, end), fuel);
            && FinalizePost(c, at, w, o, v', m, j) && Tight(c, o.world, v', j)
            && SettledFrom(c, o.world.history, 0, m, j)
  {
    hide Sound, WellFormed, Distinct, Rows, SameRows, LogProper;
    PlanOf(c, j);
    var end := c.plans[j].End();
    InvRows(c, at, w, v, m);
    RowBoundsAt(c, w.history, v, m, j);
    RecordRow(c, at, w, v, m, j, Finalizing, end);
    var w1 := Record(c, w, j, Finalizing, end);
    var o := FinalizeFrom(c, j, end, w1, fuel);
    assert SettledFrom(c, w.history, 0, m, j);
    KeepSettled(c, w, w1, 0, m, j);
    v' := FinalizeSafe(c, at, w1, v, m, j, end, fuel);
    SameRowsTrans(c, w, w1, o.world, m, j);
    KeepSettled(c, w, o.world, 0, m, j);
  }

  lemma RowBoundsAt<DB(!new)>(c: Chain<DB>, h: map<string, Row>, v: seq<nat>, m: nat, j: nat)
    requires Rows(c, h, v, m) && j < m
    ensures c.plans[j].name in h && Bounds(c.plans[j], h[c.plans[j].name], v[j])
  {
    assert RowBounds(c, h, j, v[j], j == m - 1);
  }

  lemma VisitedNext<DB(!new)>(c: Chain<DB>, w0: World<DB>, w: World<DB>, w': World<DB>, i: nat, m: nat)
    requires Unvisited(c, w0, w, i, m) && SameRows(c, w, w', m, i)
    ensures Unvisited(c, w0, w', i + 1, m)
  {
    forall l | i + 1 <= l < m
      ensures SameRow(c, w0, w', l)
    {
      assert SameRow(c, w0, w, l) && SameRow(c, w, w', l);
    }
  }

  lemma NextSettled<DB(!new)>(c: Chain<DB>, w: World<DB>, m: nat, j: nat)
    requires SettledFrom(c, w.history, 0, m, j) && j < m && RowState(c, w, j, Done)
    ensures SettledFrom(c, w.history, 0, m, m)
  {
    forall l | 0 <= l < m && l != m
      ensures SettledRow(c, w.history, l)
    {
      assert l == j || SettledRow(c, w.history, l);
    }
  }

  lemma {:induction false} FinalizeAllSafe<DB(!new)>(
    c: Chain<DB>, at: (seq<nat>, DB) -> bool, w0: World<DB>, i: nat, m: nat, w: World<DB>, v: seq<nat>, fuel: nat)
    returns (v': seq<nat>)
    requires WellFormed(c) && Sound(c, at) && Inv(c, at, w, v, m) && SettledFrom(c, w.history, 0, m, m)
    requires m <= |c.plans| && forall j :: 0 <= j < m ==> c.plans[j].name in w0.history
    requires Unvisited(c, w0, w, i, m)
    ensures Inv(c, at, FinalizeAll(c, w0.history, i, m, w, fuel).world, v', m)
    ensures DoneBelow(c, w0, m) ==> Kept(c, at, FinalizeAll(c, w0.history, i, m, w, fuel).world, v', m)
    ensures FinalizeAll(c, w0.history, i, m, w, fuel).ok ==>
              SettledFrom(c, FinalizeAll(c, w0.history, i, m, w, fuel).world.history, 0, m, m)
    decreases m - i
  {
    hide Sound, WellFormed, Rows, SameRows, LogProper, SettledFrom, Tight, Inv;
    var o := FinalizeAll(c, w0.history, i, m, w, fuel);
    v' := v;
    FromSettled(c, w, m);
    NotFinalizingTight(c, at, w, v, m);
    if i < m {
      assert SameRow(c, w0, w, i);
      if !w0.history[c.plans[i].name].state.Applied? {
        assert o == FinalizeAll(c, w0.history, i + 1, m, w, fuel);
        v' := FinalizeAllSafe(c, at, w0, i + 1, m, w, v, fuel);
      } else if fuel == 0 {
        assert o == Stop(w);
      } else {
        var end := c.plans[i].End();
        var o1 := FinalizeFrom(c, i, end, Record(c, w, i, Finalizing, end), fuel - 1);
        v' := FinalizeOneSafe(c, at, w, v, m, i, fuel - 1);
        if o1.ok {
          assert o == FinalizeAll(c, w0.history, i + 1, m, o1.world, o1.fuel);
          VisitedNext(c, w0, w, o1.world, i, m);
          NextSettled(c, o1.world, m, i);
          v' := FinalizeAllSafe(c, at, w0, i + 1, m, o1.world, v', o1.fuel);
        } else {
          assert o == o1;
          if DoneBelow(c, w0, m) { assert i < m - 1 ==> RowState(c, w0, i, Done); }
        }
      }
    }
  }

  lemma FinalizeOpSafe<DB(!new)>(c: Chain<DB>, at: (seq<nat>, DB) -> bool, w: World<DB>, v: seq<nat>, m: nat, fuel: nat)
    returns (v': seq<nat>)
    requires WellFormed(c) && Sound(c, at) && Inv(c, at, w, v, m)
    ensures Inv(c, at, Finalize(c, w, fuel).world, v', m)
    ensures Kept(c, at, w, v, m) && DoneBelow(c, w, m) ==> Kept(c, at, Finalize(c, w, fuel).world, v', m)
  {
    hide Sound, Rows, LogProper, WellFormed, Distinct, FinalizeAll;
    v' := v;
    if Settled(c, w).Some? {
      PlanOfDistinct(c);
      InvRows(c, at, w, v, m);
      PositionOpen(c, w, v, m);
      if m > 0 { AllSettled(c, w.history, m); }
      forall l | 0 <= l < m
        ensures SameRow(c, w, w, l)
      {
        RowBoundsAt(c, w.history, v, m, l);
      }
      v' := FinalizeAllSafe(c, at, w, 0, m, w, v, fuel);
    }
  }

  // ------------------------------------------------------------------------------ whole runs

  datatype Op = OpApply | OpRecover | OpRollback | OpFinalize

  /** One event of a run: a command cut after `fuel` writes, or rows written by the application. */
  datatype Event<!DB> = Command(op: Op, fuel: nat) | Write(rows: DB -> DB)

  ghost function Do<DB>(c: Chain<DB>, w: World<DB>, op: Op, fuel: nat): Outcome<DB> {
    match op
    case OpApply => Apply(c, w, fuel)
    case OpRecover => Recover(c, w, fuel)
    case OpRollback => Rollback(c, w, fuel)
    case OpFinalize => Finalize(c, w, fuel)
  }

  ghost function After<DB>(c: Chain<DB>, w: World<DB>, e: Event<DB>): World<DB> {
    match e
    case Command(op, fuel) => Do(c, w, op, fuel).world
    case Write(rows) => w.(db := rows(w.db))
  }

  ghost function Run<DB>(c: Chain<DB>, w: World<DB>, events: seq<Event<DB>>): World<DB>
    decreases |events|
  {
    if events == [] then w else Run(c, After(c, w, events[0]), events[1..])
  }

  /** Writing rows changes no step of any plan. */
  ghost predicate Harmless<DB(!new)>(at: (seq<nat>, DB) -> bool, e: Event<DB>) {
    e.Write? ==> forall v: seq<nat>, db :: at(v, db) ==> at(v, e.rows(db))
  }

  /**
    Finalize only with every earlier plan done, and recover is not cut right after its first statement on a lagging row.
   */
  ghost predicate Careful<DB(!new)>(c: Chain<DB>, w: World<DB>, e: Event<DB>, m: nat) {
    e.Command? ==> match e.op
                   case OpFinalize => DoneBelow(c, w, m)
                   case OpRecover => !Lagging(c, w, m) || e.fuel != 1
                   case _ => true
  }

  ghost predicate CarefulRun<DB(!new)>(c: Chain<DB>, w: World<DB>, events: seq<Event<DB>>)
    decreases |events|
  {
    events == [] || ((forall m: nat :: Position(c, w.history) == Some(m) ==> Careful(c, w, events[0], m))
                     && CarefulRun(c, After(c, w, events[0]), events[1..]))
  }

  lemma EventSafe<DB(!new)>(c: Chain<DB>, at: (seq<nat>, DB) -> bool, w: World<DB>, v: seq<nat>, m: nat, e: Event<DB>)
    returns (v': seq<nat>, m': nat)
    requires WellFormed(c) && Sound(c, at) && Inv(c, at, w, v, m) && Harmless(at, e)
    ensures Inv(c, at, After(c, w, e), v', m')
    ensures Kept(c, at, w, v, m) && Careful(c, w, e, m) ==> Kept(c, at, After(c, w, e), v', m')
  {
    hide Sound, WellFormed, Apply, Recover, Rollback, Finalize, Lagging, DoneBelow, Rows, LogProper;
    v', m' := v, m;
    match e
    case Write(rows) =>
    case Command(op, fuel) =>
      match op
      case OpApply => v', m' := ApplySafe(c, at, w, v, m, fuel);
      case OpRecover => v' := RecoverSafe(c, at, w, v, m, fuel);
      case OpRollback => v', m' := RollbackSafe(c, at, w, v, m, fuel);
      case OpFinalize => v' := FinalizeOpSafe(c, at, w, v, m, fuel);
  }

  lemma {:induction false} RunSafe<DB(!new)>(
    c: Chain<DB>, at: (seq<nat>, DB) -> bool, w: World<DB>, v: seq<nat>, m: nat, events: seq<Event<DB>>)
    returns (v': seq<nat>, m': nat)
    requires WellFormed(c) && Sound(c, at) && Inv(c, at, w, v, m)
    requires forall e :: e in events ==> Harmless(at, e)
    ensures Inv(c, at, Run(c, w, events), v', m')
    ensures Kept(c, at, w, v, m) && CarefulRun(c, w, events) ==> Kept(c, at, Run(c, w, events), v', m')
    decreases |events|
  {
    hide Sound, WellFormed, Rows, LogProper, SettledFrom, After, Careful, Harmless;
    v', m' := v, m;
    if events != [] {
      if Kept(c, at, w, v, m) {
        PlanOfDistinct(c);
        InvRows(c, at, w, v, m);
        OpenPosition(c, w, v, m);
      }
      v', m' := EventSafe(c, at, w, v, m, events[0]);
      v', m' := RunSafe(c, at, After(c, w, events[0]), v', m', events[1..]);
    }
  }

  ghost function Fresh<DB>(db: DB): World<DB> { World(db, map[], []) }

  ghost function Zeros(n: nat): seq<nat> { seq(n, i => 0) }

  /**
    Every run from an empty history, whatever is cut where: the rows are those of a prefix of the chain, each row bounds
    its plan's position, and no statement ran where its step had already taken effect unless it is a repeat step.
   */
  lemma EveryRunIsSafe<DB(!new)>(c: Chain<DB>, at: (seq<nat>, DB) -> bool, db: DB, events: seq<Event<DB>>)
    requires WellFormed(c) && Sound(c, at) && at(Zeros(|c.plans|), db)
    requires forall e :: e in events ==> Harmless(at, e)
    ensures exists v: seq<nat>, m: nat :: Inv(c, at, Run(c, Fresh(db), events), v, m)
  {
    var v := Zeros(|c.plans|);
    FreshInv(c, at, db);
    var v', m' := RunSafe(c, at, Fresh(db), v, 0, events);
  }

  /**
    A careful run from an empty history, cut anywhere: moreover every row is at most one step behind its statement and
    only the last row is unsettled, so that every command still accepts the history.
   */
  lemma CarefulRunIsKept<DB(!new)>(c: Chain<DB>, at: (seq<nat>, DB) -> bool, db: DB, events: seq<Event<DB>>)
    requires WellFormed(c) && Sound(c, at) && at(Zeros(|c.plans|), db)
    requires forall e :: e in events ==> Harmless(at, e)
    requires CarefulRun(c, Fresh(db), events)
    ensures exists v: seq<nat>, m: nat :: Kept(c, at, Run(c, Fresh(db), events), v, m)
    ensures Position(c, Run(c, Fresh(db), events).history).Some?
  {
    hide Sound, CarefulRun;
    var v := Zeros(|c.plans|);
    FreshInv(c, at, db);
    var v', m' := RunSafe(c, at, Fresh(db), v, 0, events);
    InvRows(c, at, Run(c, Fresh(db), events), v', m');
    OpenPosition(c, Run(c, Fresh(db), events), v', m');
  }

  lemma FreshInv<DB(!new)>(c: Chain<DB>, at: (seq<nat>, DB) -> bool, db: DB)
    requires at(Zeros(|c.plans|), db)
    ensures Kept(c, at, Fresh(db), Zeros(|c.plans|), 0)
  {
    assert Names(c, 0) == {};
  }

  // ---------------------------------------------------------------------- one uninterrupted command

  /** The writes an uninterrupted command needs at most for one plan. */
  ghost function Enough<DB>(c: Chain<DB>, m: nat): nat
    requires 0 < m <= |c.plans|
  {
    2 * |c.plans[m - 1].steps| + 2
  }

  /**
    From any kept state, one uninterrupted recover ends at applied with the schema of the plan's end, or at done with
    all its steps.
   */
  lemma RecoverCompletes<DB(!new)>(
    c: Chain<DB>, at: (seq<nat>, DB) -> bool, w: World<DB>, v: seq<nat>, m: nat, fuel: nat)
    returns (v': seq<nat>)
    requires WellFormed(c) && Sound(c, at) && Works(c, at) && Kept(c, at, w, v, m) && 0 < m && fuel >= Enough(c, m)
    ensures var o := Recover(c, w, fuel);
            && o.ok && Inv(c, at, o.world, v', m)
            && (SettledRow(c, w.history, m - 1) ==> o.world == w)
            && (RowState(c, w, m - 1, Finalizing) ==>
              RowIs(c, o.world, m - 1, Done, |c.plans[m - 1].steps|) && v'[m - 1] == |c.plans[m - 1].steps|)
            && (!SettledRow(c, w.history, m - 1) && !RowState(c, w, m - 1, Finalizing) ==>
                  RowIs(c, o.world, m - 1, Applied, c.plans[m - 1].End()) && v'[m - 1] == c.plans[m - 1].End())
  {
    hide Sound, Works, Rows, LogProper, WellFormed, Distinct, SettledFrom, IsPrefix, Resolve, Forward, FinalizeFrom,
         PlanWellFormed, SameRows;
    PlanOf(c, m - 1);
    InvRows(c, at, w, v, m);
    OpenPosition(c, w, v, m);
    LastBounds(c, w.history, v, m);
    v' := RecoverSafe(c, at, w, v, m, fuel);
    var o := Recover(c, w, fuel);
    var j := m - 1;
    LastSettled(c, w.history, m);
    if RowState(c, w, j, Finalizing) {
      var k := RestartFinalize(c, at, w, v, m, true);
      assert o == FinalizeFrom(c, j, k, w, fuel);
      FinalizeCompletes(c, at, w, v, m, j, k, fuel);
      v' := FinalizeSafe(c, at, w, v, m, j, k, fuel);
      LastBounds(c, o.world.history, v', m);
    } else if !SettledRow(c, w.history, j) {
      var v1, k := Restart(c, at, w, v, m, true);
      RecordRow(c, at, w, v1, m, j, Applying, k);
      var w1 := Record(c, w, j, Applying, k);
      assert o == Forward(c, j, k, w1, fuel - 1);
      ForwardCompletes(c, at, w1, v1, m, k, fuel - 1);
      v' := ForwardSafe(c, at, w1, v1, m, k, fuel - 1);
      LastBounds(c, o.world.history, v', m);
    }
  }

  /**
    From any state a run leaves with an accepted history, one uninterrupted rollback ends with the plan's row deleted
    and its position 0 if and only if every step below the position it resolves has a rollback.
   */
  lemma RollbackCompletes<DB(!new)>(
    c: Chain<DB>, at: (seq<nat>, DB) -> bool, w: World<DB>, v: seq<nat>, m: nat, fuel: nat)
    returns (v': seq<nat>)
    requires WellFormed(c) && Sound(c, at) && Works(c, at) && Inv(c, at, w, v, m) && Open(c, w, m) && 0 < m
    requires fuel >= Enough(c, m)
    ensures IsPrefix(c, w.history, m) && RollbackPoint(c, w, m).Some?
    ensures Rollback(c, w, fuel).ok <==> Reversible(c.plans[m - 1], RollbackPoint(c, w, m).value)
    ensures Rollback(c, w, fuel).ok ==> Inv(c, at, Rollback(c, w, fuel).world, v', m - 1) && v'[m - 1] == 0
  {
    hide Sound, Works, Rows, LogProper, WellFormed, Distinct, SettledFrom, Resolve, Backward, PlanWellFormed, SameRows,
         IsPrefix;
    var j := m - 1;
    PlanOf(c, j);
    InvRows(c, at, w, v, m);
    OpenPosition(c, w, v, m);
    SettledHash(c, at, w, v, m);
    var v1 := RollbackStart(c, at, w, v, m);
    var k := RollbackPoint(c, w, m).value;
    var p := c.plans[j];
    var o := Rollback(c, w, fuel);
    v' := v1;
    if k > 0 && p.steps[k - 1].rollback.None? {
      assert o == Stop(w);
      assert !Reversible(p, k);
    } else {
      RecordRow(c, at, w, v1, m, j, RollingBack, k);
      var w1 := Record(c, w, j, RollingBack, k);
      assert o == Backward(c, j, k, w1, fuel - 1);
      KeepSettled(c, w, w1, 0, m, j);
      v' := BackwardSafe(c, at, w1, v1, m, k, fuel - 1);
      if o.ok { BackwardNeedsRollbacks(c, j, k, w1, fuel - 1); }
      if Reversible(p, k) { BackwardCompletes(c, at, w1, v1, m, k, fuel - 1); }
    }
  }

  lemma SettledHash<DB(!new)>(c: Chain<DB>, at: (seq<nat>, DB) -> bool, w: World<DB>, v: seq<nat>, m: nat)
    requires Works(c, at) && Inv(c, at, w, v, m) && 0 < m
    ensures SettledRow(c, w.history, m - 1) ==> c.hash(w.db) == HashAt(c, m) == c.plans[m - 1].to
  {
    if SettledRow(c, w.history, m - 1) {
      LastBounds(c, w.history, v, m);
      RowsBoundary(c, w.history, v, m);
      BoundaryReads(c, at, v, m, w.db);
    }
  }

  /** The writes an uninterrupted apply needs for the plans i and on. */
  ghost function ApplyCost<DB>(c: Chain<DB>, i: nat): nat
    decreases |c.plans| - i
  {
    if i >= |c.plans| then 0 else 2 * c.plans[i].End() + 2 + ApplyCost(c, i + 1)
  }

  /** The rows of the plans i .. m are applied. */
  ghost predicate AppliedFrom<DB(!new)>(c: Chain<DB>, w: World<DB>, i: nat, m: nat) {
    forall l :: i <= l < m ==> RowState(c, w, l, Applied)
  }

  lemma {:induction false} ApplyFromCompletes<DB(!new)>(
    c: Chain<DB>, at: (seq<nat>, DB) -> bool, w: World<DB>, v: seq<nat>, m: nat, fuel: nat)
    returns (v': seq<nat>)
    requires WellFormed(c) && Sound(c, at) && Works(c, at) && Inv(c, at, w, v, m) && SettledFrom(c, w.history, 0, m, m)
    requires fuel >= ApplyCost(c, m)
    ensures ApplyFrom(c, m, w, fuel).ok && Inv(c, at, ApplyFrom(c, m, w, fuel).world, v', |c.plans|)
    ensures SameRows(c, w, ApplyFrom(c, m, w, fuel).world, m, m)
    ensures AppliedFrom(c, ApplyFrom(c, m, w, fuel).world, m, |c.plans|)
    decreases |c.plans| - m
  {
    hide Sound, Works, WellFormed, Distinct, PlanWellFormed, Rows, SameRows, LogProper, SettledFrom, Forward;
    var o := ApplyFrom(c, m, w, fuel);
    v' := v;
    SameRowsRefl(c, w, v, m, m);
    if m < |c.plans| {
      PlanOf(c, m);
      var w1 := StartPlan(c, at, w, v, m);
      StartSame(c, at, w, v, m);
      var o1 := Forward(c, m, 0, w1, fuel - 1);
      ForwardCompletes(c, at, w1, v, m + 1, 0, fuel - 1);
      v' := ForwardSafe(c, at, w1, v, m + 1, 0, fuel - 1);
      KeepSettled(c, w1, o1.world, 0, m + 1, m);
      AllSettled(c, o1.world.history, m + 1);
      assert o == ApplyFrom(c, m + 1, o1.world, o1.fuel);
      v' := ApplyFromCompletes(c, at, o1.world, v', m + 1, o1.fuel);
      AppliedChain(c, w, w1, o1.world, o.world, m);
    }
  }

  lemma StartSame<DB(!new)>(c: Chain<DB>, at: (seq<nat>, DB) -> bool, w: World<DB>, v: seq<nat>, m: nat)
    requires Distinct(c) && Inv(c, at, w, v, m) && m < |c.plans|
    ensures SameRows(c, w, Record(c, w, m, Applying, 0), m, m)
  {
    forall l | 0 <= l < m
      ensures SameRow(c, w, Record(c, w, m, Applying, 0), l)
    {
      RowBoundsAt(c, w.history, v, m, l);
    }
  }

  lemma AppliedChain<DB(!new)>(c: Chain<DB>, w: World<DB>, w1: World<DB>, w2: World<DB>, w3: World<DB>, m: nat)
    requires SameRows(c, w, w1, m, m) && SameRows(c, w1, w2, m + 1, m) && SameRows(c, w2, w3, m + 1, m + 1)
    requires RowState(c, w2, m, Applied) && AppliedFrom(c, w3, m + 1, |c.plans|)
    ensures SameRows(c, w, w3, m, m) && AppliedFrom(c, w3, m, |c.plans|)
  {
    forall l | 0 <= l < m
      ensures SameRow(c, w, w3, l)
    {
      assert SameRow(c, w, w1, l) && SameRow(c, w1, w2, l) && SameRow(c, w2, w3, l);
    }
    assert SameRow(c, w2, w3, m);
  }

  /** One uninterrupted apply on a fresh database records every plan of the chain as applied. */
  lemma ApplyCompletes<DB(!new)>(c: Chain<DB>, at: (seq<nat>, DB) -> bool, db: DB, fuel: nat)
    returns (v: seq<nat>)
    requires WellFormed(c) && Sound(c, at) && Works(c, at) && at(Zeros(|c.plans|), db) && fuel >= ApplyCost(c, 0)
    ensures var o := Apply(c, Fresh(db), fuel);
            && o.ok && Kept(c, at, o.world, v, |c.plans|) && AppliedFrom(c, o.world, 0, |c.plans|)
            && Settled(c, o.world) == Some(|c.plans|)
  {
    hide Sound, Works, WellFormed, Distinct, Rows, LogProper, SettledFrom, ApplyFrom, SameRows;
    var n := |c.plans|;
    var w := Fresh(db);
    FreshInv(c, at, db);
    FreshSettled(c, at, db);
    v := ApplyFromCompletes(c, at, w, Zeros(n), 0, fuel);
    AppliedSettled(c, at, ApplyFrom(c, 0, w, fuel).world, v);
  }

  lemma FreshSettled<DB(!new)>(c: Chain<DB>, at: (seq<nat>, DB) -> bool, db: DB)
    requires WellFormed(c) && Works(c, at) && at(Zeros(|c.plans|), db)
    ensures Settled(c, Fresh(db)) == Some(0) && SettledFrom(c, Fresh(db).history, 0, 0, 0)
  {
    FreshInv(c, at, db);
    OpenPosition(c, Fresh(db), Zeros(|c.plans|), 0);
    assert Boundary(c, Zeros(|c.plans|), 0);
    BoundaryReads(c, at, Zeros(|c.plans|), 0, db);
  }

  lemma AppliedSettled<DB(!new)>(c: Chain<DB>, at: (seq<nat>, DB) -> bool, w: World<DB>, v: seq<nat>)
    requires WellFormed(c) && Works(c, at) && Inv(c, at, w, v, |c.plans|) && AppliedFrom(c, w, 0, |c.plans|)
    ensures Kept(c, at, w, v, |c.plans|) && Settled(c, w) == Some(|c.plans|)
  {
    hide Works, Rows, LogProper, IsPrefix;
    var n := |c.plans|;
    forall l | 0 <= l < n
      ensures SettledRow(c, w.history, l)
    {
      assert RowState(c, w, l, Applied);
    }
    assert SettledFrom(c, w.history, 0, n, n);
    FromSettled(c, w, n);
    NotFinalizingTight(c, at, w, v, n);
    InvRows(c, at, w, v, n);
    OpenPosition(c, w, v, n);
    if n > 0 {
      SettledHash(c, at, w, v, n);
    } else {
      assert Boundary(c, v, 0);
      BoundaryReads(c, at, v, 0, w.db);
    }
  }
}
