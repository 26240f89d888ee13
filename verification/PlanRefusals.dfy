/** What the plan operations refuse, and what they have verified when they end. */
module PlanRefusals {
  import opened Common
  import opened PlanApply
  import opened PlanRuns

  // ------------------------------------------------------------------------------------- histories

  /** A history with the names of the first m plans is accepted as m plans or not at all. */
  lemma OnlyPosition<DB>(c: Chain<DB>, h: map<string, Row>, m: nat)
    requires Distinct(c) && m <= |c.plans| && h.Keys == Names(c, m)
    ensures Position(c, h).Some? ==> Position(c, h) == Some(m) && IsPrefix(c, h, m)
  {
    if Position(c, h).Some? {
      NamesSize(c, m);
      NamesSize(c, Position(c, h).value);
    }
  }

  /** A row with another plan's hashes, or in a state that is not known, is refused. */
  lemma ForeignRowRefused<DB>(c: Chain<DB>, h: map<string, Row>, m: nat, j: nat)
    requires Distinct(c) && j < m <= |c.plans| && h.Keys == Names(c, m) && c.plans[j].name in h
    requires var row, p := h[c.plans[j].name], c.plans[j];
             || row.to != p.to || row.state.Unknown?
             || row.from != (if p.from.None? then "empty" else p.from.value)
    ensures Position(c, h).None?
  {
    OnlyPosition(c, h, m);
  }

  /** A plan without a row before a plan with one is refused. */
  lemma GapRefused<DB>(c: Chain<DB>, h: map<string, Row>, j: nat, k: nat)
    requires Distinct(c) && j < k < |c.plans| && c.plans[j].name !in h && c.plans[k].name in h
    ensures Position(c, h).None?
  {
  }

  // ------------------------------------------------------------------------------------- schemas

  ghost predicate Refuses<DB>(w: World<DB>, o: Outcome<DB>) { o.world == w && !o.ok }

  /** The last row, if there is one, is settled. */
  ghost predicate LastSettled<DB>(c: Chain<DB>, w: World<DB>, m: nat) {
    0 < m <= |c.plans| && c.plans[m - 1].name in w.history ==> RowAt(c, w, m - 1).state.Settled()
  }

  /** A schema that is not that of the last plan: apply, finalize and a rollback of a settled plan change nothing. */
  lemma DriftRefused<DB>(c: Chain<DB>, w: World<DB>, m: nat, fuel: nat)
    requires Position(c, w.history) == Some(m) && c.hash(w.db) != HashAt(c, m)
    ensures Refuses(w, Apply(c, w, fuel)) && Refuses(w, Finalize(c, w, fuel))
    ensures m > 0 && LastSettled(c, w, m) ==> Refuses(w, Rollback(c, w, fuel))
  {
    hide ApplyFrom, FinalizeAll, Backward;
  }

  /** An interrupted plan: apply and finalize change nothing. */
  lemma InterruptedRefused<DB>(c: Chain<DB>, w: World<DB>, m: nat, fuel: nat)
    requires Position(c, w.history) == Some(m) && m > 0 && !LastSettled(c, w, m)
    ensures Refuses(w, Apply(c, w, fuel)) && Refuses(w, Finalize(c, w, fuel))
  {
    hide ApplyFrom, FinalizeAll;
  }

  /** Without an interrupted plan there is nothing to recover. */
  lemma NothingToRecover<DB>(c: Chain<DB>, w: World<DB>, m: nat, fuel: nat)
    requires Position(c, w.history) == Some(m) && LastSettled(c, w, m)
    ensures Recover(c, w, fuel) == Outcome(w, true, fuel)
  {
    hide FinalizeFrom, Forward;
  }

  /** Without a recorded plan a rollback changes nothing, and where all plans are settled an apply changes nothing. */
  lemma NothingToDo<DB>(c: Chain<DB>, w: World<DB>, m: nat, fuel: nat)
    requires Position(c, w.history) == Some(m)
    ensures m == 0 ==> Rollback(c, w, fuel) == Outcome(w, true, fuel)
    ensures m == |c.plans| && LastSettled(c, w, m) && c.hash(w.db) == HashAt(c, m) ==>
              Apply(c, w, fuel) == Outcome(w, true, fuel)
  {
    hide Backward, Forward;
  }

  /** A step that cannot be undone at the top stops a rollback before it changes anything. */
  lemma IrreversibleRefused<DB>(c: Chain<DB>, w: World<DB>, m: nat, k: nat, fuel: nat)
    requires Position(c, w.history) == Some(m) && m > 0 && RollbackPoint(c, w, m) == Some(k) && k > 0
    requires c.plans[m - 1].steps[k - 1].rollback.None?
    ensures Refuses(w, Rollback(c, w, fuel))
  {
    hide Backward, RollbackPoint;
  }

  // ------------------------------------------------------------------------------------- what is verified

  /** A plan becomes applied only on the schema that it declares, with no row that breaks a foreign key. */
  lemma {:induction false} ForwardVerifies<DB>(c: Chain<DB>, j: nat, i: nat, w: World<DB>, fuel: nat)
    requires j < |c.plans| && Forward(c, j, i, w, fuel).ok
    ensures var o := Forward(c, j, i, w, fuel);
            c.hash(o.world.db) == c.plans[j].to && c.rowsOk(o.world.db) && RowState(c, o.world, j, Applied)
    decreases |c.plans[j].steps| - i
  {
    var p := c.plans[j];
    if i < p.End() {
      var d := p.steps[i].Attempt(w.db, false);
      ForwardVerifies(c, j, i + 1, SetStep(c, RunStatement(w, j, i, false, d.value), j, i + 1), fuel - 2);
    }
  }

  /** The row of a plan is deleted only on the schema before it. */
  lemma {:induction false} BackwardVerifies<DB>(c: Chain<DB>, j: nat, i: nat, w: World<DB>, fuel: nat)
    requires j < |c.plans| && i <= |c.plans[j].steps| && Backward(c, j, i, w, fuel).ok
    ensures var o := Backward(c, j, i, w, fuel);
            c.hash(o.world.db) == c.plans[j].FromHash() && c.rowsOk(o.world.db) && c.plans[j].name !in o.world.history
    decreases i
  {
    var p := c.plans[j];
    if i > 0 {
      var d := p.steps[i - 1].Attempt(w.db, true);
      BackwardVerifies(c, j, i - 1, SetStep(c, RunStatement(w, j, i - 1, true, d.value), j, i - 1), fuel - 2);
    }
  }

  lemma {:induction false} ApplyFromVerifies<DB>(c: Chain<DB>, i: nat, w: World<DB>, fuel: nat)
    requires i <= |c.plans| && c.hash(w.db) == HashAt(c, i) && ApplyFrom(c, i, w, fuel).ok
    ensures c.hash(ApplyFrom(c, i, w, fuel).world.db) == HashAt(c, |c.plans|)
    decreases |c.plans| - i
  {
    hide Forward;
    if i < |c.plans| {
      var o := Forward(c, i, 0, Record(c, w, i, Applying, 0), fuel - 1);
      ForwardVerifies(c, i, 0, Record(c, w, i, Applying, 0), fuel - 1);
      ApplyFromVerifies(c, i + 1, o.world, o.fuel);
    }
  }

  /** Every apply that ends, whatever the steps mean, leaves the schema of the last plan. */
  lemma ApplyVerifies<DB>(c: Chain<DB>, w: World<DB>, fuel: nat)
    requires Apply(c, w, fuel).ok
    ensures c.hash(Apply(c, w, fuel).world.db) == HashAt(c, |c.plans|)
  {
    hide ApplyFrom;
    ApplyFromVerifies(c, Settled(c, w).value, w, fuel);
  }

  /** Every rollback that ends leaves the schema before the last plan, and its row is gone. */
  lemma RollbackVerifies<DB>(c: Chain<DB>, w: World<DB>, m: nat, fuel: nat)
    requires Position(c, w.history) == Some(m) && m > 0 && Rollback(c, w, fuel).ok
    ensures var o := Rollback(c, w, fuel);
            c.hash(o.world.db) == c.plans[m - 1].FromHash() && c.plans[m - 1].name !in o.world.history
  {
    hide Backward, RollbackPoint;
    var k := RollbackPoint(c, w, m).value;
    BackwardVerifies(c, m - 1, k, Record(c, w, m - 1, RollingBack, k), fuel - 1);
  }
}
