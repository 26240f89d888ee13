/**
  A finalize that nothing interrupts and that strands the database all the same: the first plan creates a table, the
  second drops a column of it, and the third renames the table.  The column was hidden, and the step that is to drop it
  names the table as it was called then.
 */
module PlanRenames {
  import opened Common
  import opened PlanApply
  import opened PlanRuns
  import opened PlanLimits
  import opened PlanFinalize

  /** The column under its own name, under its hidden name, or under neither. */
  datatype Column = Absent | Plain | Hidden

  datatype Schema = Empty | Table(renamed: bool, column: Column)

  function Create(): Schema -> Option<Schema> { (db: Schema) => if db.Empty? then Some(Table(false, Plain)) else None }

  function Remove(): Schema -> Option<Schema> {
    (db: Schema) => if db == Table(false, Plain) then Some(Empty) else None
  }

  /** Renames or drops the column of the table under its first name. */
  function Turn(from: Column, to: Column): Schema -> Option<Schema> {
    (db: Schema) => if db == Table(false, from) then Some(Table(false, to)) else None
  }

  function Rename(back: bool): Schema -> Option<Schema> {
    (db: Schema) => if db.Table? && db.renamed == back then Some(Table(!back, db.column)) else None
  }

  const CREATE: Step<Schema> := Step(Create(), None, Some(Remove()), None, None, Some((db: Schema) => db.Table?), false)

  const HIDE: Step<Schema> :=
    Step(Turn(Plain, Hidden), None, Some(Turn(Hidden, Plain)), None, None,
         Some((db: Schema) => db == Table(false, Hidden)), false)

  const DROP: Step<Schema> :=
    Step(Turn(Hidden, Absent), None, None, None, None, Some((db: Schema) => db != Table(false, Hidden)), true)

  const RENAME: Step<Schema> :=
    Step(Rename(false), None, Some(Rename(true)), None, None, Some((db: Schema) => db.Table? && db.renamed), false)

  const FIRST := Plan("a", None, "1", [CREATE])

  const SECOND := Plan("b", Some("1"), "2", [HIDE, DROP])

  const THIRD := Plan("c", Some("2"), "3", [RENAME])

  /** The schema that is read back does not show hidden columns. */
  const CHAIN: Chain<Schema> :=
    Chain([FIRST, SECOND, THIRD],
          (db: Schema) => if db.Empty? then "" else if db.column.Plain? then "1" else if !db.renamed then "2" else "3",
          (db: Schema) => true)

  ghost predicate Bounded(v: seq<nat>) { |v| == 3 && v[0] <= 1 && v[1] <= 2 && v[2] <= 1 }

  function Place(v: seq<nat>): Schema
    requires |v| == 3
  {
    if v[0] == 0 then Empty else Table(v[2] > 0, if v[1] == 0 then Plain else if v[1] == 1 then Hidden else Absent)
  }

  ghost function At(): (seq<nat>, Schema) -> bool { (v: seq<nat>, db: Schema) => Bounded(v) && db == Place(v) }

  lemma Ends()
    ensures FIRST.End() == 1 && SECOND.End() == 1 && THIRD.End() == 1
    ensures |FIRST.steps| == 1 && |SECOND.steps| == 2 && |THIRD.steps| == 1
    ensures PlanWellFormed(FIRST) && PlanWellFormed(SECOND) && PlanWellFormed(THIRD)
  {
    var s := SECOND.steps;
    assert !FIRST.steps[0].finalize && !s[0].finalize && s[1].finalize && !THIRD.steps[0].finalize;
  }

  // ------------------------------------------------------------------------------------- the hypotheses hold

  lemma FirstSteps(v: seq<nat>)
    requires |v| == 3 && v[1] == v[2] == 0
    ensures StepMoves(CREATE, At(), v[0 := 0], v[0 := 1]) && StepReads(CREATE, At(), v[0 := 0], v[0 := 1])
    ensures StepWorks(CREATE, At(), v[0 := 0], v[0 := 1])
  {
    assert forall db: Schema :: CREATE.Attempt(db, false) == Create()(db) && CREATE.Attempt(db, true) == Remove()(db);
  }

  lemma HideSteps(v: seq<nat>)
    requires |v| == 3 && v[0] >= 1 && v[2] == 0
    ensures StepMoves(HIDE, At(), v[1 := 0], v[1 := 1]) && StepReads(HIDE, At(), v[1 := 0], v[1 := 1])
    ensures StepWorks(HIDE, At(), v[1 := 0], v[1 := 1])
  {
    assert forall db: Schema ::
        HIDE.Attempt(db, false) == Turn(Plain, Hidden)(db) && HIDE.Attempt(db, true) == Turn(Hidden, Plain)(db);
  }

  lemma DropSteps(v: seq<nat>)
    requires |v| == 3 && v[0] >= 1
    ensures StepMoves(DROP, At(), v[1 := 1], v[1 := 2])
    ensures v[2] == 0 ==> StepReads(DROP, At(), v[1 := 1], v[1 := 2]) && StepWorks(DROP, At(), v[1 := 1], v[1 := 2])
  {
    assert forall db: Schema :: DROP.Attempt(db, false) == Turn(Hidden, Absent)(db) && DROP.Attempt(db, true) == None;
  }

  lemma RenameSteps(v: seq<nat>)
    requires |v| == 3 && v[0] >= 1
    ensures StepMoves(RENAME, At(), v[2 := 0], v[2 := 1]) && StepReads(RENAME, At(), v[2 := 0], v[2 := 1])
    ensures StepWorks(RENAME, At(), v[2 := 0], v[2 := 1])
  {
    var a, b := v[2 := 0], v[2 := 1];
    assert a[0] == b[0] == v[0] && a[1] == b[1] == v[1] && (Bounded(a) <==> Bounded(b));
    assert Place(b) == Table(true, Place(a).column) && Place(a) == Table(false, Place(b).column);
    assert forall db: Schema ::
        RENAME.Attempt(db, false) == Rename(false)(db) && RENAME.Attempt(db, true) == Rename(true)(db);
  }

  lemma AllSteps(v: seq<nat>, j: nat, i: nat)
    requires Movable(CHAIN, v, j, i) && i < |CHAIN.plans[j].steps|
    ensures StepMoves(CHAIN.plans[j].steps[i], At(), v[j := i], v[j := i + 1])
    ensures Frontier(CHAIN, v, j, i) ==>
              StepReads(CHAIN.plans[j].steps[i], At(), v[j := i], v[j := i + 1])
              && StepWorks(CHAIN.plans[j].steps[i], At(), v[j := i], v[j := i + 1])
  {
    hide StepMoves, StepReads, StepWorks;
    Ends();
    assert CHAIN.plans[0] == FIRST && CHAIN.plans[1] == SECOND && CHAIN.plans[2] == THIRD;
    if j == 0 {
      FirstSteps(v);
    } else if j == 2 {
      RenameSteps(v);
    } else if i == 0 {
      HideSteps(v);
    } else {
      DropSteps(v);
    }
  }

  lemma Reads(v: seq<nat>, j: nat)
    requires j < |v| && Frontier(CHAIN, v, j, v[j]) && v[j] >= CHAIN.plans[j].End() && Bounded(v)
    ensures FinalReads(CHAIN.plans[j], v[j], Place(v))
  {
    Ends();
    assert CHAIN.plans[0] == FIRST && CHAIN.plans[1] == SECOND && CHAIN.plans[2] == THIRD;
  }

  lemma Hashes(v: seq<nat>, m: nat)
    requires Boundary(CHAIN, v, m) && Bounded(v)
    ensures CHAIN.hash(Place(v)) == HashAt(CHAIN, m)
  {
    Ends();
    assert CHAIN.plans[0] == FIRST && CHAIN.plans[1] == SECOND && CHAIN.plans[2] == THIRD;
  }

  lemma IsSound()
    ensures Sound(CHAIN, At())
  {
    hide StepMoves, StepReads, StepWorks, FinalReads;
    forall v: seq<nat>, j: nat, i: nat | Movable(CHAIN, v, j, i) && i < |CHAIN.plans[j].steps|
      ensures StepMoves(CHAIN.plans[j].steps[i], At(), v[j := i], v[j := i + 1])
    {
      AllSteps(v, j, i);
    }
    forall v: seq<nat>, j: nat, i: nat | Frontier(CHAIN, v, j, i) && i < |CHAIN.plans[j].steps|
      ensures StepReads(CHAIN.plans[j].steps[i], At(), v[j := i], v[j := i + 1])
    {
      AllSteps(v, j, i);
    }
    forall v: seq<nat>, j: nat, db
      | j < |v| && Frontier(CHAIN, v, j, v[j]) && v[j] >= CHAIN.plans[j].End() && At()(v, db)
      ensures FinalReads(CHAIN.plans[j], v[j], db)
    {
      Reads(v, j);
    }
  }

  lemma DoesWork()
    ensures Works(CHAIN, At())
  {
    hide StepMoves, StepReads, StepWorks;
    forall v: seq<nat>, j: nat, i: nat | Frontier(CHAIN, v, j, i) && i < |CHAIN.plans[j].steps|
      ensures StepWorks(CHAIN.plans[j].steps[i], At(), v[j := i], v[j := i + 1])
    {
      AllSteps(v, j, i);
    }
    forall v: seq<nat>, m: nat, db | Boundary(CHAIN, v, m) && At()(v, db)
      ensures CHAIN.hash(db) == HashAt(CHAIN, m) && CHAIN.rowsOk(db)
    {
      Hashes(v, m);
    }
  }

  lemma IsWellFormed()
    ensures WellFormed(CHAIN)
  {
    Ends();
    assert CHAIN.plans[0] == FIRST && CHAIN.plans[1] == SECOND && CHAIN.plans[2] == THIRD;
  }

  lemma Drops()
    ensures DropsHeld(CHAIN)
  {
    hide CHAIN;
    forall j: nat, i: nat, db: Schema
      | j < |CHAIN.plans| && CHAIN.plans[j].End() <= i < |CHAIN.plans[j].steps|
      ensures Dropped(CHAIN, j, i, db).Some? <==> Held(CHAIN, j, i, db)
    {
      OneDrop(j, i, db);
    }
    forall j: nat, i: nat, k: nat, l: nat, db: Schema
      | Held(CHAIN, j, i, db) && (j, i) != (k, l)
      ensures !Held(CHAIN, k, l, db) && (Dropped(CHAIN, j, i, db).Some? ==>
                                           !Held(CHAIN, k, l, Dropped(CHAIN, j, i, db).value))
    {
      OneDrop(j, i, db);
      if k < |CHAIN.plans| && CHAIN.plans[k].End() <= l < |CHAIN.plans[k].steps| { OneDrop(k, l, db); }
    }
  }

  lemma OneDrop(j: nat, i: nat, db: Schema)
    requires j < |CHAIN.plans| && CHAIN.plans[j].End() <= i < |CHAIN.plans[j].steps|
    ensures j == 1 && i == 1
    ensures Dropped(CHAIN, j, i, db) == Turn(Hidden, Absent)(db)
    ensures Held(CHAIN, j, i, db) <==> db == Table(false, Hidden)
  {
    Ends();
    assert CHAIN.plans[0] == FIRST && CHAIN.plans[1] == SECOND && CHAIN.plans[2] == THIRD;
  }

  // ------------------------------------------------------------------------------------- the run

  ghost function Applied(): World<Schema> { Apply(CHAIN, Fresh(Empty), ApplyCost(CHAIN, 0)).world }

  lemma AppliedKept() returns (v: seq<nat>)
    ensures Inv(CHAIN, At(), Applied(), v, 3) && AppliedFrom(CHAIN, Applied(), 0, 3)
    ensures Settled(CHAIN, Applied()) == Some(3)
    ensures Applied().db == Table(true, Hidden)
  {
    hide Sound, Works, WellFormed, Apply, Settled, CHAIN;
    IsWellFormed();
    IsSound();
    DoesWork();
    ChainPlans();
    assert At()(Zeros(3), Empty);
    v := ApplyCompletes(CHAIN, At(), Empty, ApplyCost(CHAIN, 0));
    AppliedPlaces(Applied(), v);
  }

  lemma ChainPlans()
    ensures |CHAIN.plans| == 3 && CHAIN.plans[0].End() == CHAIN.plans[1].End() == CHAIN.plans[2].End() == 1
  {
    Ends();
    assert CHAIN.plans[0] == FIRST && CHAIN.plans[1] == SECOND && CHAIN.plans[2] == THIRD;
  }

  lemma AppliedPlaces(w: World<Schema>, v: seq<nat>)
    requires Inv(CHAIN, At(), w, v, 3) && AppliedFrom(CHAIN, w, 0, 3)
    ensures w.db == Table(true, Hidden)
  {
    hide CHAIN, LogProper;
    ChainPlans();
    forall l: nat | l < 3 ensures v[l] == 1 {
      assert RowState(CHAIN, w, l, State.Applied);
      RowBoundsAt(CHAIN, w.history, v, 3, l);
    }
  }

  /**
    All three plans are applied, and a finalize runs to its end: it fails at the hidden column, and every command,
    however it is cut, then fails and changes nothing.
   */
  lemma UncutFinalizeStrands(fuel: nat, op: Op, cut: nat)
    requires fuel >= FinalizeCost(CHAIN, 0, 3)
    ensures var w := Finalize(CHAIN, Applied(), fuel).world;
            !Finalize(CHAIN, Applied(), fuel).ok && Do(CHAIN, w, op, cut).world == w && !Do(CHAIN, w, op, cut).ok
  {
    hide Sound, Works, WellFormed, Apply, Settled, CHAIN, Finalize, DropsHeld, Inv, Applied, Position;
    IsWellFormed();
    IsSound();
    Drops();
    var v := AppliedKept();
    var w := Applied();
    assert !AllHeld(CHAIN, w, 2) && !AllHeld(CHAIN, w, 3) by {
      assert RowState(CHAIN, w, 1, State.Applied);
      NotHeld(w.db);
    }
    FinalizeEnds(CHAIN, w, 3, fuel);
    var v' := FinalizeOpSafe(CHAIN, At(), w, v, 3, fuel);
    Stranded(CHAIN, At(), Finalize(CHAIN, w, fuel).world, v', 3, op, cut);
  }

  lemma NotHeld(db: Schema)
    requires db == Table(true, Hidden)
    ensures |CHAIN.plans| == 3 && !HeldFrom(CHAIN, 1, CHAIN.plans[1].End(), db)
  {
    Ends();
    assert CHAIN.plans[1] == SECOND;
    OneDrop(1, 1, db);
  }
}
