/**
  Which text of a step runs, and what the restore texts are for: a plan that adds a column hides it when it is rolled
  back, and an apply after that gives the column back with its values.
 */
module PlanRestores {
  import opened Common
  import opened PlanApply
  import opened PlanRuns

  // ------------------------------------------------------------------------------------- texts

  /** The four texts of a step. */
  datatype Text = Statement | Restore | Undo | UndoRestore

  /** The text that is due: a restore text where the step has one and its condition holds, the plain one elsewhere. */
  ghost predicate Due<DB(!new)>(s: Step<DB>, t: Text, db: DB, back: bool) {
    match t
    case Statement => !back && (s.restore.None? || Kept(s, db, false))
    case Restore => !back && s.restore.Some? && Kept(s, db, true)
    case Undo => back && s.rollback.Some? && (s.rollbackRestore.None? || Kept(s, db, false))
    case UndoRestore => back && s.rollback.Some? && s.rollbackRestore.Some? && Kept(s, db, true)
  }

  /** The condition of the restore texts can be read, and reads like this. */
  ghost predicate Kept<DB(!new)>(s: Step<DB>, db: DB, held: bool) {
    s.restoreIf.Some? && s.restoreIf.value(db) == held
  }

  ghost function Runs<DB>(s: Step<DB>, t: Text, db: DB): Option<DB> {
    match t
    case Statement => s.statement(db)
    case Restore => if s.restore.Some? then s.restore.value(db) else None
    case Undo => if s.rollback.Some? then s.rollback.value(db) else None
    case UndoRestore => if s.rollbackRestore.Some? then s.rollbackRestore.value(db) else None
  }

  /** In each direction at most one text is due; it is the one that runs, and without one the step fails. */
  lemma AttemptRuns<DB(!new)>(s: Step<DB>, db: DB, back: bool)
    ensures forall t, u :: Due(s, t, db, back) && Due(s, u, db, back) ==> t == u
    ensures forall t :: Due(s, t, db, back) ==> s.Attempt(db, back) == Runs(s, t, db)
    ensures (forall t :: !Due(s, t, db, back)) ==> s.Attempt(db, back) == None
  {
    if s.Attempt(db, back).Some? {
      assert Due(s, Statement, db, back) || Due(s, Restore, db, back) || Due(s, Undo, db, back)
             || Due(s, UndoRestore, db, back);
    }
  }

  // ------------------------------------------------------------------------------------- a column that comes back

  /** A table with the values of the added column and of its hidden form, where they exist. */
  datatype Schema = Empty | Table(column: Option<int>, hidden: Option<int>)

  function Create(): Schema -> Option<Schema> { (db: Schema) => if db.Empty? then Some(Table(None, None)) else None }

  function Remove(): Schema -> Option<Schema> { (db: Schema) => if db.Table? then Some(Empty) else None }

  /** Adds the column with its default; a hidden column stays hidden. */
  function Add(): Schema -> Option<Schema> {
    (db: Schema) => if db.Table? && db.column.None? then Some(db.(column := Some(0))) else None
  }

  function Unhide(): Schema -> Option<Schema> {
    (db: Schema) => if db.Table? && db.column.None? && db.hidden.Some? then Some(Table(db.hidden, None)) else None
  }

  function Hide(): Schema -> Option<Schema> {
    (db: Schema) => if db.Table? && db.column.Some? && db.hidden.None? then Some(Table(None, db.column)) else None
  }

  const CREATE: Step<Schema> := Step(Create(), None, Some(Remove()), None, None, Some((db: Schema) => db.Table?), false)

  const ADD: Step<Schema> :=
    Step(Add(), Some(Unhide()), Some(Hide()), None, Some((db: Schema) => db.Table? && db.hidden.Some?),
         Some((db: Schema) => db.Table? && db.column.Some?), false)

  const FIRST := Plan("a", None, "1", [CREATE])

  const SECOND := Plan("b", Some("1"), "2", [ADD])

  const CHAIN: Chain<Schema> :=
    Chain([FIRST, SECOND], (db: Schema) => if db.Empty? then "" else if db.column.None? then "1" else "2",
          (db: Schema) => true)

  function Place(v: seq<nat>, db: Schema): bool {
    |v| == 2 && v[0] <= 1 && v[1] <= 1
    && (if v[0] == 0 then db.Empty?
        else db.Table? && (if v[1] == 0 then db.column.None? else db.column.Some? && db.hidden.None?))
  }

  ghost function At(): (seq<nat>, Schema) -> bool { (v: seq<nat>, db: Schema) => Place(v, db) }

  lemma Plans()
    ensures |CHAIN.plans| == 2 && CHAIN.plans[0] == FIRST && CHAIN.plans[1] == SECOND
    ensures FIRST.End() == 1 && SECOND.End() == 1 && |FIRST.steps| == 1 && |SECOND.steps| == 1
    ensures FIRST.steps[0] == CREATE && SECOND.steps[0] == ADD && PlanWellFormed(FIRST) && PlanWellFormed(SECOND)
  {
    assert !FIRST.steps[0].finalize && !SECOND.steps[0].finalize;
  }

  lemma CreateSteps(v: seq<nat>)
    requires |v| == 2 && v[1] == 0
    ensures StepMoves(CREATE, At(), v[0 := 0], v[0 := 1]) && StepReads(CREATE, At(), v[0 := 0], v[0 := 1])
    ensures StepWorks(CREATE, At(), v[0 := 0], v[0 := 1])
  {
    assert forall db: Schema :: CREATE.Attempt(db, false) == Create()(db) && CREATE.Attempt(db, true) == Remove()(db);
  }

  lemma AddSteps(v: seq<nat>)
    requires |v| == 2 && v[0] >= 1
    ensures StepMoves(ADD, At(), v[1 := 0], v[1 := 1]) && StepReads(ADD, At(), v[1 := 0], v[1 := 1])
    ensures StepWorks(ADD, At(), v[1 := 0], v[1 := 1])
  {
    forall db: Schema
      ensures ADD.Attempt(db, false) == if db.Table? && db.hidden.Some? then Unhide()(db) else Add()(db)
      ensures ADD.Attempt(db, true) == Hide()(db)
    {
    }
  }

  lemma AllSteps(v: seq<nat>, j: nat, i: nat)
    requires Movable(CHAIN, v, j, i) && i < |CHAIN.plans[j].steps|
    ensures StepMoves(CHAIN.plans[j].steps[i], At(), v[j := i], v[j := i + 1])
    ensures StepReads(CHAIN.plans[j].steps[i], At(), v[j := i], v[j := i + 1])
    ensures StepWorks(CHAIN.plans[j].steps[i], At(), v[j := i], v[j := i + 1])
  {
    hide StepMoves, StepReads, StepWorks;
    Plans();
    if j == 0 { CreateSteps(v); } else { AddSteps(v); }
  }

  /** The hypotheses of the theorems on runs hold of this chain. */
  lemma IsSound()
    ensures WellFormed(CHAIN) && Sound(CHAIN, At()) && Works(CHAIN, At())
  {
    hide StepMoves, StepReads, StepWorks;
    Plans();
    forall v: seq<nat>, j: nat, i: nat | Movable(CHAIN, v, j, i) && i < |CHAIN.plans[j].steps|
      ensures StepMoves(CHAIN.plans[j].steps[i], At(), v[j := i], v[j := i + 1])
    {
      AllSteps(v, j, i);
    }
    forall v: seq<nat>, j: nat, i: nat | Frontier(CHAIN, v, j, i) && i < |CHAIN.plans[j].steps|
      ensures StepReads(CHAIN.plans[j].steps[i], At(), v[j := i], v[j := i + 1])
      ensures StepWorks(CHAIN.plans[j].steps[i], At(), v[j := i], v[j := i + 1])
    {
      AllSteps(v, j, i);
    }
    forall v: seq<nat>, j: nat, db
      | j < |v| && Frontier(CHAIN, v, j, v[j]) && v[j] >= CHAIN.plans[j].End() && At()(v, db)
      ensures FinalReads(CHAIN.plans[j], v[j], db)
    {
    }
    forall v: seq<nat>, m: nat, db | Boundary(CHAIN, v, m) && At()(v, db)
      ensures CHAIN.hash(db) == HashAt(CHAIN, m) && CHAIN.rowsOk(db)
    {
    }
  }

  // ------------------------------------------------------------------------------------- the runs

  /** The rows of the two plans, applied. */
  function Rows(m: nat): map<string, Row>
    requires m <= 2
  {
    if m == 0 then map[]
    else if m == 1 then map["a" := Row("empty", "1", Applied, 1)]
    else map["a" := Row("empty", "1", Applied, 1), "b" := Row("1", "2", Applied, 1)]
  }

  lemma RowsArePrefix(m: nat)
    requires m <= 2
    ensures Position(CHAIN, Rows(m)) == Some(m)
  {
    Plans();
    assert Rows(m).Keys == Names(CHAIN, m);
    assert IsPrefix(CHAIN, Rows(m), m);
    PositionUnique(CHAIN, Rows(m), m);
  }

  /** One step forward, on rows of the plans before. */
  lemma ForwardOne(j: nat, w: World<Schema>, fuel: nat)
    requires j < 2 && w.history == Rows(j) && fuel >= 3
    requires CHAIN.plans[j].steps[0].Attempt(w.db, false).Some?
    requires CHAIN.hash(CHAIN.plans[j].steps[0].Attempt(w.db, false).value) == CHAIN.plans[j].to
    ensures var o := Forward(CHAIN, j, 0, Record(CHAIN, w, j, Applying, 0), fuel);
            && o.ok && o.world.history == Rows(j + 1) && o.fuel == fuel - 3
            && o.world.db == CHAIN.plans[j].steps[0].Attempt(w.db, false).value
  {
    Plans();
    var p := CHAIN.plans[j];
    var w0 := Record(CHAIN, w, j, Applying, 0);
    var d := p.steps[0].Attempt(w.db, false).value;
    var w1 := SetStep(CHAIN, RunStatement(w0, j, 0, false, d), j, 1);
    assert Forward(CHAIN, j, 0, w0, fuel) == Forward(CHAIN, j, 1, w1, fuel - 2);
    var w2 := Record(CHAIN, w1, j, Applied, 1);
    assert Forward(CHAIN, j, 1, w1, fuel - 2) == Outcome(w2, true, fuel - 3);
    assert w2.history == Rows(j + 1);
  }

  /** An apply of the plans that are left, from an empty database or from the table without the column. */
  lemma ApplyRuns(m: nat, w: World<Schema>, fuel: nat)
    requires m <= 1 && w.history == Rows(m) && fuel >= 4 * (2 - m)
    requires if m == 0 then w.db.Empty? else w.db.Table? && w.db.column.None?
    ensures var o := Apply(CHAIN, w, fuel);
            && o.ok && o.world.history == Rows(2) && o.world.db.Table?
            && o.world.db == Table(if m == 1 && w.db.hidden.Some? then w.db.hidden else Some(0), None)
  {
    hide Forward, Position;
    Plans();
    RowsArePrefix(m);
    var o := if m == 1 then Outcome(w, true, fuel)
             else Forward(CHAIN, 0, 0, Record(CHAIN, w, 0, Applying, 0), fuel - 1);
    if m == 0 {
      AttemptRuns(CREATE, w.db, false);
      assert Due(CREATE, Statement, w.db, false);
      ForwardOne(0, w, fuel - 1);
    }
    var u := o.world;
    AttemptRuns(ADD, u.db, false);
    assert Due(ADD, if u.db.hidden.Some? then Restore else Statement, u.db, false);
    ForwardOne(1, u, o.fuel - 1);
    var o2 := Forward(CHAIN, 1, 0, Record(CHAIN, u, 1, Applying, 0), o.fuel - 1);
    assert ApplyFrom(CHAIN, 2, o2.world, o2.fuel) == Outcome(o2.world, true, o2.fuel);
    assert ApplyFrom(CHAIN, 1, u, o.fuel) == Outcome(o2.world, true, o2.fuel);
  }

  /** A rollback of the second plan hides the column with its values. */
  lemma RollbackRuns(w: World<Schema>, fuel: nat)
    requires w.history == Rows(2) && w.db.Table? && w.db.column.Some? && w.db.hidden.None? && fuel >= 4
    ensures var o := Rollback(CHAIN, w, fuel);
            o.ok && o.world.history == Rows(1) && o.world.db == Table(None, w.db.column)
  {
    hide Position;
    Plans();
    RowsArePrefix(2);
    AttemptRuns(ADD, w.db, true);
    assert Due(ADD, Undo, w.db, true);
    var w0 := Record(CHAIN, w, 1, RollingBack, 1);
    var w1 := SetStep(CHAIN, RunStatement(w0, 1, 0, true, Table(None, w.db.column)), 1, 0);
    assert Backward(CHAIN, 1, 1, w0, fuel - 1) == Backward(CHAIN, 1, 0, w1, fuel - 3);
    assert w1.history - {"b"} == Rows(1);
  }

  /**
    A first apply adds the column with its default.  Whatever values it is given then, a rollback hides them and a
    second apply gives them back.
   */
  lemma ColumnComesBack(x: int, fuel: nat)
    requires fuel >= 8
    ensures var first := Apply(CHAIN, Fresh(Empty), fuel);
            var written := first.world.(db := Table(Some(x), None));
            var back := Rollback(CHAIN, written, fuel);
            var again := Apply(CHAIN, back.world, fuel);
            && first.ok && first.world.db == Table(Some(0), None)
            && back.ok && back.world.db == Table(None, Some(x))
            && again.ok && again.world.db == Table(Some(x), None)
  {
    hide Apply, Rollback, CHAIN;
    ApplyRuns(0, Fresh(Empty), fuel);
    var written := Apply(CHAIN, Fresh(Empty), fuel).world.(db := Table(Some(x), None));
    RollbackRuns(written, fuel);
    ApplyRuns(1, Rollback(CHAIN, written, fuel).world, fuel);
  }
}
