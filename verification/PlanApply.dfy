/**
  Crash-safe schema migration: the operations apply, recover, rollback and finalize of a plan chain.

  A database of the abstract type `DB` holds the schema, and a history table holds one row per plan.
  A step's statement and the history row that records it are written by separate database actions, so an
  interruption can fall between them.  Every operation here takes a `fuel`: the number of database writes
  that complete before the operation is cut, by a crash or by an error of the database.  A read changes
  nothing, so a cut at a read is the cut after the write before it.
 */
module PlanApply {

  import opened Common

  // -------------------------------------------------------------------------------------- data

  datatype State = Applying | Applied | Finalizing | Done | RollingBack | Unknown(text: string) {
    predicate Settled() { Applied? || Done? }
  }

  datatype Row = Row(from: string, to: string, state: State, step: int)

  /**
    One step of a plan.  A statement maps the database, or is refused by it (None).  A step without `effect` is a
    `repeat` step; a step without `rollback` cannot be undone.
   */
  datatype Step<!DB> = Step(
    statement: DB -> Option<DB>,
    restore: Option<DB -> Option<DB>>,
    rollback: Option<DB -> Option<DB>>,
    rollbackRestore: Option<DB -> Option<DB>>,
    restoreIf: Option<DB -> bool>,
    effect: Option<DB -> bool>,
    finalize: bool)
  {
    predicate Repeat() { effect.None? }

    /** Runs the step in one direction, in its restore form when it has one and `restoreIf` holds; None is an error. */
    function Attempt(db: DB, back: bool): Option<DB> {
      var restoring := if back then rollbackRestore else restore;
      var plain := if back then rollback else Some(statement);
      if plain.None? || (restoring.Some? && restoreIf.None?) then None
      else if restoring.Some? && restoreIf.value(db) then restoring.value(db)
      else plain.value(db)
    }
  }

  datatype Plan<!DB> = Plan(name: string, from: Option<string>, to: string, steps: seq<Step<DB>>) {
    function From(): string { if from.None? then "empty" else from.value }
    function FromHash(): string { if from.None? then "" else from.value }
    function End(): (r: nat) ensures r <= |steps| { FinalizeStart(steps, 0) }
  }

  datatype Chain<!DB> = Chain(plans: seq<Plan<DB>>, hash: DB -> string, rowsOk: DB -> bool)

  /** The index of the first finalize step at or after i, or the number of steps. */
  function FinalizeStart<DB>(steps: seq<Step<DB>>, i: nat): (r: nat)
    requires i <= |steps|
    ensures i <= r <= |steps|
    ensures forall k :: i <= k < r ==> !steps[k].finalize
    ensures r < |steps| ==> steps[r].finalize
    decreases |steps| - i
  {
    if i == |steps| || steps[i].finalize then i else FinalizeStart(steps, i + 1)
  }

  /** One executed statement: the step, its direction and the database it ran on. */
  datatype Exec<!DB> = Exec(plan: nat, step: nat, back: bool, db: DB)

  datatype World<!DB> = World(db: DB, history: map<string, Row>, log: seq<Exec<DB>>)

  datatype Outcome<!DB> = Outcome(world: World<DB>, ok: bool, fuel: nat)

  function Stop<DB>(w: World<DB>): Outcome<DB> { Outcome(w, false, 0) }

  /** What the planner guarantees of a chain's texts; the meaning of the statements is `Sound` below. */
  ghost predicate WellFormed<DB(!new)>(c: Chain<DB>) {
    && Distinct(c)
    && (forall j :: 0 <= j < |c.plans| ==> c.plans[j].FromHash() == HashAt(c, j))
    && (forall j :: 0 <= j < |c.plans| ==> PlanWellFormed(c.plans[j]))
  }

  ghost predicate Distinct<DB>(c: Chain<DB>) {
    forall i, j :: 0 <= i < j < |c.plans| ==> c.plans[i].name != c.plans[j].name
  }

  ghost predicate PlanWellFormed<DB(!new)>(p: Plan<DB>) {
    forall i :: 0 <= i < |p.steps| ==> StepWellFormed(p.steps[i]) && (p.steps[i].finalize <==> i >= p.End())
  }

  ghost predicate StepWellFormed<DB(!new)>(s: Step<DB>) {
    && (s.finalize ==> s.rollback.None? && s.restore.None? && s.effect.Some?)
    && (s.restore.Some? || s.rollbackRestore.Some? ==> s.restoreIf.Some?)
  }

  // ----------------------------------------------------------------------------------- history

  function HashAt<DB>(c: Chain<DB>, m: nat): string
    requires m <= |c.plans|
  {
    if m == 0 then "" else c.plans[m - 1].to
  }

  ghost function Names<DB>(c: Chain<DB>, m: nat): set<string>
    requires m <= |c.plans|
  {
    set j | 0 <= j < m :: c.plans[j].name
  }

  /**
    The rows are those of the first m plans, with the plans' hashes and known states, and only the last may be
    unsettled.
   */
  ghost predicate IsPrefix<DB>(c: Chain<DB>, h: map<string, Row>, m: nat) {
    && m <= |c.plans|
    && h.Keys == Names(c, m)
    && (forall j :: 0 <= j < m ==> c.plans[j].name in h && RowOf(c, h, j))
    && (forall j :: 0 <= j < m - 1 ==> h[c.plans[j].name].state.Settled())
  }

  ghost predicate RowOf<DB>(c: Chain<DB>, h: map<string, Row>, j: nat)
    requires j < |c.plans| && c.plans[j].name in h
  {
    var row := h[c.plans[j].name];
    row.to == c.plans[j].to && row.from == c.plans[j].From() && !row.state.Unknown?
  }

  /** The number of recorded plans, or None when the history is refused. */
  ghost function Position<DB>(c: Chain<DB>, h: map<string, Row>): (r: Option<nat>)
    ensures r.Some? ==> IsPrefix(c, h, r.value)
    ensures r.None? ==> forall m: nat :: !IsPrefix(c, h, m)
  {
    if m: nat :| IsPrefix(c, h, m) then Some(m) else None
  }

  lemma NamesSize<DB>(c: Chain<DB>, m: nat)
    requires m <= |c.plans|
    requires Distinct(c)
    ensures |Names(c, m)| == m
  {
    if m > 0 {
      NamesSize(c, m - 1);
      assert Names(c, m) == Names(c, m - 1) + {c.plans[m - 1].name};
      assert c.plans[m - 1].name !in Names(c, m - 1);
    } else {
      assert Names(c, m) == {};
    }
  }

  lemma PositionUnique<DB(!new)>(c: Chain<DB>, h: map<string, Row>, m: nat)
    requires Distinct(c) && IsPrefix(c, h, m)
    ensures Position(c, h) == Some(m)
  {
    var r := Position(c, h);
    NamesSize(c, m);
    NamesSize(c, r.value);
  }

  lemma UnsettledRefused<DB>(c: Chain<DB>, h: map<string, Row>, l: nat, m: nat)
    requires Distinct(c) && l < m - 1 < |c.plans| && h.Keys == Names(c, m)
    requires c.plans[l].name in h && !h[c.plans[l].name].state.Settled()
    ensures Position(c, h).None?
  {
    forall x: nat
      ensures !IsPrefix(c, h, x)
    {
      if IsPrefix(c, h, x) {
        NamesSize(c, m);
        NamesSize(c, x);
      }
    }
  }

  ghost function Settled<DB>(c: Chain<DB>, w: World<DB>): Option<nat> {
    var pos := Position(c, w.history);
    if pos.None? then None
    else if pos.value > 0 && !w.history[c.plans[pos.value - 1].name].state.Settled() then None
    else if c.hash(w.db) != HashAt(c, pos.value) then None
    else pos
  }

  // -------------------------------------------------------------------------------- operations

  function Record<DB>(c: Chain<DB>, w: World<DB>, j: nat, state: State, step: int): World<DB>
    requires j < |c.plans|
  {
    var p := c.plans[j];
    var row := if p.name in w.history then w.history[p.name].(state := state, step := step)
               else Row(p.From(), p.to, state, step);
    w.(history := w.history[p.name := row])
  }

  function SetStep<DB>(c: Chain<DB>, w: World<DB>, j: nat, step: int): World<DB>
    requires j < |c.plans|
  {
    var name := c.plans[j].name;
    if name in w.history then w.(history := w.history[name := w.history[name].(step := step)]) else w
  }

  function RunStatement<DB>(w: World<DB>, j: nat, i: nat, back: bool, db: DB): World<DB> {
    w.(db := db, log := w.log + [Exec(j, i, back, w.db)])
  }

  function Resolve<DB>(p: Plan<DB>, row: Row, db: DB, forward: bool): (r: Option<nat>)
    ensures r.Some? ==> r.value <= |p.steps|
  {
    var k, n := row.step, |p.steps|;
    if k < 0 || k > n then None else
    var rolling := row.state.RollingBack?;
    var uncertain := if rolling then k - 1 else k;
    if uncertain < 0 || uncertain >= n then Some(k) else
    var s := p.steps[uncertain];
    var held := s.effect.Some? && s.effect.value(db);
    var took := held || (!forward && s.Repeat());
    if rolling then Some(if took then k else k - 1) else Some(if took then k + 1 else k)
  }

  /** Runs from step i up to the finalize steps, verifies, then sets the row to applied. */
  function Forward<DB>(c: Chain<DB>, j: nat, i: nat, w: World<DB>, fuel: nat): Outcome<DB>
    requires j < |c.plans|
    decreases |c.plans[j].steps| - i
  {
    var p := c.plans[j];
    if i < p.End() then
      var d := p.steps[i].Attempt(w.db, false);
      if d.None? || fuel == 0 then Stop(w) else
      var w1 := RunStatement(w, j, i, false, d.value);
      if fuel == 1 then Stop(w1) else Forward(c, j, i + 1, SetStep(c, w1, j, i + 1), fuel - 2)
    else if !c.rowsOk(w.db) || c.hash(w.db) != p.to || fuel == 0 then Stop(w)
    else Outcome(Record(c, w, j, Applied, p.End()), true, fuel - 1)
  }

  /** Runs the finalize steps from i and sets the row to done. */
  function FinalizeFrom<DB>(c: Chain<DB>, j: nat, i: nat, w: World<DB>, fuel: nat): Outcome<DB>
    requires j < |c.plans|
    decreases |c.plans[j].steps| - i
  {
    var p := c.plans[j];
    if fuel == 0 then Stop(w)
    else if i < |p.steps| then
      var d := p.steps[i].statement(w.db);
      if d.None? then Stop(w) else
      var w1 := RunStatement(w, j, i, false, d.value);
      if fuel == 1 then Stop(w1) else FinalizeFrom(c, j, i + 1, SetStep(c, w1, j, i + 1), fuel - 2)
    else Outcome(Record(c, w, j, Done, |p.steps|), true, fuel - 1)
  }

  /** Undoes the steps below i, verifies, then deletes the row. */
  function Backward<DB>(c: Chain<DB>, j: nat, i: nat, w: World<DB>, fuel: nat): Outcome<DB>
    requires j < |c.plans| && i <= |c.plans[j].steps|
    decreases i
  {
    var p := c.plans[j];
    if i == 0 then
      if !c.rowsOk(w.db) || c.hash(w.db) != p.FromHash() || fuel == 0 then Stop(w)
      else Outcome(w.(history := w.history - {p.name}), true, fuel - 1)
    else
      var s := p.steps[i - 1];
      if s.rollback.None? then Stop(w) else
      var d := s.Attempt(w.db, true);
      if d.None? || fuel == 0 then Stop(w) else
      var w1 := RunStatement(w, j, i - 1, true, d.value);
      if fuel == 1 then Stop(w1) else Backward(c, j, i - 1, SetStep(c, w1, j, i - 1), fuel - 2)
  }

  function ApplyFrom<DB>(c: Chain<DB>, i: nat, w: World<DB>, fuel: nat): Outcome<DB>
    decreases |c.plans| - i
  {
    if i >= |c.plans| then Outcome(w, true, fuel)
    else if fuel == 0 then Stop(w) else
    var o := Forward(c, i, 0, Record(c, w, i, Applying, 0), fuel - 1);
    if o.ok then ApplyFrom(c, i + 1, o.world, o.fuel) else o
  }

  ghost function Apply<DB>(c: Chain<DB>, w: World<DB>, fuel: nat): Outcome<DB> {
    var pos := Settled(c, w);
    if pos.None? then Stop(w) else ApplyFrom(c, pos.value, w, fuel)
  }

  ghost function Recover<DB>(c: Chain<DB>, w: World<DB>, fuel: nat): Outcome<DB> {
    var pos := Position(c, w.history);
    if pos.None? then Stop(w)
    else if pos.value == 0 then Outcome(w, true, fuel) else
    var j := pos.value - 1;
    var p := c.plans[j];
    var row := w.history[p.name];
    if row.state.Settled() then Outcome(w, true, fuel) else
    var k := Resolve(p, row, w.db, true);
    if k.None? then Stop(w)
    else if row.state.Finalizing? then FinalizeFrom(c, j, k.value, w, fuel)
    else if fuel == 0 then Stop(w)
    else Forward(c, j, k.value, Record(c, w, j, Applying, k.value), fuel - 1)
  }

  /**
    The position a rollback starts from: the recorded step of a settled row, the resolved step of an interrupted one.
   */
  ghost function RollbackPoint<DB>(c: Chain<DB>, w: World<DB>, m: nat): (k: Option<nat>)
    requires 0 < m && IsPrefix(c, w.history, m)
    ensures k.Some? ==> k.value <= |c.plans[m - 1].steps|
  {
    var p := c.plans[m - 1];
    var row := w.history[p.name];
    if row.state.Settled() then
      if 0 <= row.step <= |p.steps| && c.hash(w.db) == p.to then Some(row.step) else None
    else Resolve(p, row, w.db, false)
  }

  ghost function Rollback<DB>(c: Chain<DB>, w: World<DB>, fuel: nat): Outcome<DB> {
    var pos := Position(c, w.history);
    if pos.None? then Stop(w)
    else if pos.value == 0 then Outcome(w, true, fuel) else
    var j := pos.value - 1;
    var k := RollbackPoint(c, w, pos.value);
    if k.None? then Stop(w)
    else if k.value > 0 && c.plans[j].steps[k.value - 1].rollback.None? then Stop(w)
    else if fuel == 0 then Stop(w)
    else Backward(c, j, k.value, Record(c, w, j, RollingBack, k.value), fuel - 1)
  }

  /** Finalizes the plans i.. of the first m that `rows`, the history read at the start, has as applied. */
  ghost function FinalizeAll<DB>(
    c: Chain<DB>, rows: map<string, Row>, i: nat, m: nat, w: World<DB>, fuel: nat): Outcome<DB>
    requires m <= |c.plans| && forall j :: 0 <= j < m ==> c.plans[j].name in rows
    decreases m - i
  {
    if i >= m then Outcome(w, true, fuel)
    else if !rows[c.plans[i].name].state.Applied? then FinalizeAll(c, rows, i + 1, m, w, fuel)
    else if fuel == 0 then Stop(w) else
    var end := c.plans[i].End();
    var o := FinalizeFrom(c, i, end, Record(c, w, i, Finalizing, end), fuel - 1);
    if o.ok then FinalizeAll(c, rows, i + 1, m, o.world, o.fuel) else o
  }

  ghost function Finalize<DB>(c: Chain<DB>, w: World<DB>, fuel: nat): Outcome<DB> {
    var pos := Settled(c, w);
    if pos.None? then Stop(w) else FinalizeAll(c, w.history, 0, pos.value, w, fuel)
  }

  // ------------------------------------------------------------- what the statements must mean

  /**
    `at(v, db)`: plan j of the database db has its first v[j] steps in effect, for every j.  The statements of a step
    move between neighbouring positions, and a repeat step and its rollback may run again.
   */
  ghost predicate StepMoves<DB(!new)>(s: Step<DB>, at: (seq<nat>, DB) -> bool, before: seq<nat>, after: seq<nat>) {
    && (forall db {:trigger s.Attempt(db, false)} :: at(before, db) && s.Attempt(db, false).Some? ==>
      at(after, s.Attempt(db, false).value))
    && (forall db {:trigger s.Attempt(db, true)} :: at(after, db) && s.Attempt(db, true).Some? ==>
      at(before, s.Attempt(db, true).value))
    && (s.Repeat() ==> forall db {:trigger s.Attempt(db, false)} :: at(after, db) && s.Attempt(db, false).Some? ==>
      at(after, s.Attempt(db, false).value))
    && (s.Repeat() ==> forall db {:trigger s.Attempt(db, true)} :: at(before, db) && s.Attempt(db, true).Some? ==>
      at(before, s.Attempt(db, true).value))
  }

  /** An effect that reads the wrong way does so only where both positions are the same (a copy of no rows, say). */
  ghost predicate StepReads<DB(!new)>(s: Step<DB>, at: (seq<nat>, DB) -> bool, before: seq<nat>, after: seq<nat>) {
    && (s.effect.Some? ==> forall db {:trigger s.effect.value(db)} :: at(before, db) && s.effect.value(db) ==>
      at(after, db))
    && (s.effect.Some? ==> forall db {:trigger s.effect.value(db)} :: at(after, db) && !s.effect.value(db) ==>
      at(before, db))
  }

  /**
    Plan j may be at step i: the plans before it are applied, and those after it have not begun, or are applied while
    plan j finalizes.
   */
  ghost predicate Movable<DB(!new)>(c: Chain<DB>, v: seq<nat>, j: nat, i: nat) {
    && |v| == |c.plans| && j < |c.plans| && i <= |c.plans[j].steps|
    && (forall l :: 0 <= l < j ==> v[l] >= c.plans[l].End())
    && (forall l :: j < l < |v| ==> v[l] == 0 || (i >= c.plans[j].End() && v[l] >= c.plans[l].End()))
  }

  /** Plan j is the last that has begun.  Only there does an operation read an effect. */
  ghost predicate Frontier<DB(!new)>(c: Chain<DB>, v: seq<nat>, j: nat, i: nat) {
    Movable(c, v, j, i) && forall l :: j < l < |v| ==> v[l] == 0
  }

  // The marks below name the instances of the quantifiers over all positions that a proof uses.
  ghost predicate Use(v: seq<nat>, j: nat, i: nat) { true }

  ghost predicate UseOn<DB>(v: seq<nat>, j: nat, db: DB) { true }

  ghost predicate Sound<DB(!new)>(c: Chain<DB>, at: (seq<nat>, DB) -> bool) {
    && (forall v: seq<nat>, j: nat, i: nat {:trigger Use(v, j, i)} :: Movable(c, v, j, i) && i < |c.plans[j].steps| ==>
          StepMoves(c.plans[j].steps[i], at, v[j := i], v[j := i + 1]))
    && (forall v: seq<nat>, j: nat, i: nat {:trigger Use(v, j, i)} :: Frontier(c, v, j, i) && i < |c.plans[j].steps| ==>
          StepReads(c.plans[j].steps[i], at, v[j := i], v[j := i + 1]))
    && (forall v: seq<nat>, j: nat, db {:trigger UseOn(v, j, db)} ::
          j < |v| && Frontier(c, v, j, v[j]) && v[j] >= c.plans[j].End() && at(v, db) ==>
            FinalReads(c.plans[j], v[j], db))
  }

  /**
    A finalize step drops a hidden object.  Once the plan is applied, the object is there until the step has run; then
    the effect, that the object is absent, reads true, and the statement fails.
   */
  ghost predicate FinalReads<DB(!new)>(p: Plan<DB>, x: nat, db: DB) {
    forall i :: p.End() <= i < |p.steps| && p.steps[i].effect.Some? ==>
      (p.steps[i].effect.value(db) <==> x > i) && (x > i ==> p.steps[i].statement(db).None?)
  }

  /** Exactly the first m plans are applied, finalized or in between. */
  ghost predicate Boundary<DB(!new)>(c: Chain<DB>, v: seq<nat>, m: nat) {
    && |v| == |c.plans| && m <= |c.plans|
    && (forall l :: 0 <= l < m ==> v[l] >= c.plans[l].End())
    && (forall l :: m <= l < |v| ==> v[l] == 0)
  }

  /** The statement of a step succeeds where it is due. */
  ghost predicate StepWorks<DB(!new)>(s: Step<DB>, at: (seq<nat>, DB) -> bool, before: seq<nat>, after: seq<nat>) {
    && (forall db {:trigger s.Attempt(db, false)} :: at(before, db) || (s.Repeat() && at(after, db)) ==>
      s.Attempt(db, false).Some?)
    && (s.rollback.Some? ==>
          forall db {:trigger s.Attempt(db, true)} :: at(after, db) || (s.Repeat() && at(before, db)) ==>
            s.Attempt(db, true).Some?)
  }

  /**
    The database cooperates: a statement of the last plan that has begun succeeds where it is due, the schema read back
    between two plans is the one the chain declares, and no row breaks a foreign key.  Only the theorems that an
    operation completes assume this.
   */
  ghost predicate Works<DB(!new)>(c: Chain<DB>, at: (seq<nat>, DB) -> bool) {
    && (forall v: seq<nat>, j: nat, i: nat {:trigger Use(v, j, i)} :: Frontier(c, v, j, i) && i < |c.plans[j].steps| ==>
          StepWorks(c.plans[j].steps[i], at, v[j := i], v[j := i + 1]))
    && (forall v: seq<nat>, m: nat, db {:trigger UseOn(v, m, db)} :: Boundary(c, v, m) && at(v, db) ==>
      c.hash(db) == HashAt(c, m) && c.rowsOk(db))
  }

  // -------------------------------------------------------------------------------- invariant

  /**
    The positions that a history row leaves possible.  The row is at most one step behind its statement, but for a
    finalizing row that a cut recover overran (see `Overrun`).
   */
  ghost predicate Bounds<DB(!new)>(p: Plan<DB>, row: Row, x: nat) {
    var k := row.step;
    match row.state
    case Applying => 0 <= k <= p.End() && (x == k || (k < p.End() && x == k + 1))
    case Applied => k == p.End() && x == k
    case Finalizing => p.End() <= k <= x <= |p.steps| && x <= k + 2
    case Done => k == |p.steps| && x == k
    case RollingBack => 0 <= k <= p.End() && (x == k || (k > 0 && x == k - 1))
    case Unknown(_) => false
  }

  /** A statement ran where its step had not happened; only a repeat step may also run where it had. */
  ghost predicate Proper<DB(!new)>(c: Chain<DB>, at: (seq<nat>, DB) -> bool, e: Exec<DB>) {
    && e.plan < |c.plans| && e.step < |c.plans[e.plan].steps|
    && exists v: seq<nat> :: |v| == |c.plans| && at(v, e.db) && InPlace(c, v, e)
  }

  ghost predicate InPlace<DB(!new)>(c: Chain<DB>, v: seq<nat>, e: Exec<DB>)
    requires |v| == |c.plans| && e.plan < |v| && e.step < |c.plans[e.plan].steps|
  {
    var from, to := if e.back then e.step + 1 else e.step, if e.back then e.step else e.step + 1;
    v[e.plan] == from || (c.plans[e.plan].steps[e.step].Repeat() && v[e.plan] == to)
  }

  /** Plan j has a row of its own hashes that bounds the position x, unsettled only if it finalizes or is the last. */
  ghost predicate RowBounds<DB(!new)>(c: Chain<DB>, h: map<string, Row>, j: nat, x: nat, last: bool)
    requires j < |c.plans|
  {
    && c.plans[j].name in h && RowOf(c, h, j)
    && Bounds(c.plans[j], h[c.plans[j].name], x)
    && (last || h[c.plans[j].name].state.Settled() || h[c.plans[j].name].state.Finalizing?)
  }

  /** The rows are those of the first m plans and each bounds its plan's position; plans without a row are untouched. */
  ghost predicate Rows<DB(!new)>(c: Chain<DB>, h: map<string, Row>, v: seq<nat>, m: nat) {
    && |v| == |c.plans| && m <= |c.plans|
    && h.Keys == Names(c, m)
    && (forall j :: 0 <= j < m ==> RowBounds(c, h, j, v[j], j == m - 1))
    && (forall j :: m <= j < |v| ==> v[j] == 0)
  }

  ghost predicate LogProper<DB(!new)>(c: Chain<DB>, at: (seq<nat>, DB) -> bool, log: seq<Exec<DB>>) {
    forall e :: e in log ==> Proper(c, at, e)
  }

  ghost predicate Inv<DB(!new)>(c: Chain<DB>, at: (seq<nat>, DB) -> bool, w: World<DB>, v: seq<nat>, m: nat) {
    |v| == |c.plans| && m <= |c.plans| && Rows(c, w.history, v, m) && at(v, w.db) && LogProper(c, at, w.log)
  }

  ghost predicate SettledRow<DB>(c: Chain<DB>, h: map<string, Row>, j: nat) {
    j < |c.plans| && c.plans[j].name in h && h[c.plans[j].name].state.Settled()
  }

  ghost predicate SameRow<DB>(c: Chain<DB>, w: World<DB>, w': World<DB>, j: nat) {
    && j < |c.plans| && c.plans[j].name in w.history && c.plans[j].name in w'.history
    && w.history[c.plans[j].name] == w'.history[c.plans[j].name]
  }

  /** The rows of the plans lo .. m are settled, but for that of plan j. */
  ghost predicate SettledFrom<DB>(c: Chain<DB>, h: map<string, Row>, lo: nat, m: nat, j: int) {
    forall l :: lo <= l < m && l != j ==> SettledRow(c, h, l)
  }

  lemma KeepSettled<DB>(c: Chain<DB>, w: World<DB>, w': World<DB>, lo: nat, m: nat, j: int)
    requires SameRows(c, w, w', m, j) && SettledFrom(c, w.history, lo, m, j)
    ensures SettledFrom(c, w'.history, lo, m, j)
  {
    forall l | lo <= l < m && l != j
      ensures SettledRow(c, w'.history, l)
    {
      assert SameRow(c, w, w', l) && SettledRow(c, w.history, l);
    }
  }

  lemma LastSettled<DB>(c: Chain<DB>, h: map<string, Row>, m: nat)
    requires 0 < m
    ensures SettledFrom(c, h, m - 1, m, m - 1)
  {
  }

  lemma SameRowsRefl<DB(!new)>(c: Chain<DB>, w: World<DB>, v: seq<nat>, m: nat, j: int)
    requires Rows(c, w.history, v, m)
    ensures SameRows(c, w, w, m, j)
  {
    forall l | 0 <= l < m
      ensures SameRow(c, w, w, l)
    {
      assert RowBounds(c, w.history, l, v[l], l == m - 1);
    }
  }

  lemma SameRowsTrans<DB>(c: Chain<DB>, w0: World<DB>, w1: World<DB>, w2: World<DB>, m: nat, j: int)
    requires SameRows(c, w0, w1, m, j) && SameRows(c, w1, w2, m, j)
    ensures SameRows(c, w0, w2, m, j)
  {
    forall l | 0 <= l < m && l != j
      ensures SameRow(c, w0, w2, l)
    {
      assert SameRow(c, w0, w1, l) && SameRow(c, w1, w2, l);
    }
  }

  /** The rows of the first m plans are the same, but for that of plan `except`. */
  ghost predicate SameRows<DB>(c: Chain<DB>, w: World<DB>, w': World<DB>, m: nat, except: int) {
    forall l :: 0 <= l < m && l != except ==> SameRow(c, w, w', l)
  }

  ghost function RowAt<DB>(c: Chain<DB>, w: World<DB>, j: nat): Row
    requires j < |c.plans| && c.plans[j].name in w.history
  {
    w.history[c.plans[j].name]
  }

  /** Writing one row keeps the rows when the new row still bounds its plan's position. */
  lemma WriteRow<DB(!new)>(c: Chain<DB>, h: map<string, Row>, v: seq<nat>, m: nat, j: nat, row: Row)
    requires Distinct(c) && Rows(c, h, v, m) && j < m
    requires row.from == h[c.plans[j].name].from && row.to == h[c.plans[j].name].to
    requires Bounds(c.plans[j], row, v[j])
    requires j == m - 1 || row.state.Settled() || row.state.Finalizing?
    ensures Rows(c, h[c.plans[j].name := row], v, m)
  {
    var h' := h[c.plans[j].name := row];
    assert RowBounds(c, h, j, v[j], j == m - 1);
    assert h'.Keys == h.Keys;
    forall l | 0 <= l < m
      ensures RowBounds(c, h', l, v[l], l == m - 1)
    {
      assert RowBounds(c, h, l, v[l], l == m - 1);
    }
  }

  /** Moving plan j to a position its row allows keeps the rows. */
  lemma MovePlan<DB(!new)>(c: Chain<DB>, h: map<string, Row>, v: seq<nat>, m: nat, j: nat, x: nat)
    requires Rows(c, h, v, m) && j < m
    requires Bounds(c.plans[j], h[c.plans[j].name], x)
    ensures Rows(c, h, v[j := x], m)
  {
    var v' := v[j := x];
    forall l | 0 <= l < m
      ensures RowBounds(c, h, l, v'[l], l == m - 1)
    {
      assert RowBounds(c, h, l, v[l], l == m - 1);
    }
  }

  lemma DropRow<DB(!new)>(c: Chain<DB>, h: map<string, Row>, v: seq<nat>, m: nat)
    requires Distinct(c) && Rows(c, h, v, m) && 0 < m && v[m - 1] == 0
    requires SettledFrom(c, h, 0, m, m - 1)
    ensures Rows(c, h - {c.plans[m - 1].name}, v, m - 1)
  {
    var name := c.plans[m - 1].name;
    assert Names(c, m) == Names(c, m - 1) + {name};
    assert name !in Names(c, m - 1);
    forall l | 0 <= l < m - 1
      ensures RowBounds(c, h - {name}, l, v[l], l == m - 2)
    {
      assert RowBounds(c, h, l, v[l], l == m - 1) && SettledRow(c, h, l);
    }
  }

  lemma DropSame<DB(!new)>(c: Chain<DB>, w: World<DB>, v: seq<nat>, m: nat)
    requires Distinct(c) && Rows(c, w.history, v, m) && 0 < m
    ensures SameRows(c, w, w.(history := w.history - {c.plans[m - 1].name}), m, m - 1)
  {
    var w' := w.(history := w.history - {c.plans[m - 1].name});
    forall l | 0 <= l < m - 1
      ensures SameRow(c, w, w', l)
    {
      assert RowBounds(c, w.history, l, v[l], l == m - 1);
    }
  }

  lemma AddRow<DB(!new)>(c: Chain<DB>, h: map<string, Row>, v: seq<nat>, m: nat, row: Row)
    requires Distinct(c) && Rows(c, h, v, m) && m < |c.plans|
    requires row == Row(c.plans[m].From(), c.plans[m].to, Applying, 0)
    requires SettledFrom(c, h, 0, m, m)
    ensures Rows(c, h[c.plans[m].name := row], v, m + 1)
  {
    var name := c.plans[m].name;
    var h' := h[name := row];
    assert Names(c, m + 1) == Names(c, m) + {name};
    forall l | 0 <= l < m + 1
      ensures RowBounds(c, h', l, v[l], l == m)
    {
      if l < m { assert RowBounds(c, h, l, v[l], l == m - 1) && SettledRow(c, h, l); }
    }
  }

  lemma StepAt<DB(!new)>(c: Chain<DB>, at: (seq<nat>, DB) -> bool, v: seq<nat>, j: nat, i: nat)
    requires Sound(c, at) && Movable(c, v, j, i) && i < |c.plans[j].steps|
    ensures v[j] == i ==> v[j := i] == v
    ensures v[j] == i + 1 ==> v[j := i + 1] == v
    ensures StepMoves(c.plans[j].steps[i], at, v[j := i], v[j := i + 1])
    ensures Frontier(c, v, j, i) ==> StepReads(c.plans[j].steps[i], at, v[j := i], v[j := i + 1])
  {
    assert Use(v, j, i);
  }

  lemma RowsMovable<DB(!new)>(c: Chain<DB>, h: map<string, Row>, v: seq<nat>, m: nat, j: nat, i: nat)
    requires Rows(c, h, v, m) && j < m && i <= |c.plans[j].steps|
    requires j < m - 1 ==> i >= c.plans[j].End()
    requires SettledFrom(c, h, j, m, j)
    ensures Movable(c, v, j, i) && (j == m - 1 ==> Frontier(c, v, j, i))
  {
    forall l | 0 <= l < m && l != j
      ensures v[l] >= c.plans[l].End()
    {
      assert RowBounds(c, h, l, v[l], l == m - 1);
      assert l > j ==> SettledRow(c, h, l);
    }
  }

  // --------------------------------------------------------------------------------- one step

  /** The position x is where the next statement of plan j, step i in the given direction, may run. */
  ghost predicate Ready<DB(!new)>(p: Plan<DB>, i: nat, x: nat, back: bool) {
    if back then x == i || (0 < i <= |p.steps| && p.steps[i - 1].Repeat() && x == i - 1)
    else x == i || (i < |p.steps| && p.steps[i].Repeat() && x == i + 1)
  }

  /** One statement of plan j, run where it is ready: it reaches the next position, which the row still allows. */
  lemma RunOne<DB(!new)>(
    c: Chain<DB>, at: (seq<nat>, DB) -> bool, w: World<DB>, v: seq<nat>, m: nat, j: nat, i: nat, back: bool, db: DB)
    requires Sound(c, at) && Inv(c, at, w, v, m) && j < m && Movable(c, v, j, i) && i < |c.plans[j].steps|
    requires Ready(c.plans[j], if back then i + 1 else i, v[j], back)
    requires c.plans[j].steps[i].Attempt(w.db, back) == Some(db)
    requires Bounds(c.plans[j], RowAt(c, w, j), if back then i else i + 1)
    ensures Inv(c, at, RunStatement(w, j, i, back, db), v[j := if back then i else i + 1], m)
  {
    var x := if back then i else i + 1;
    RunOneAt(c, at, w.db, v, j, i, back, db);
    RunOneLogged(c, at, w, v, j, i, back);
    MovePlan(c, w.history, v, m, j, x);
  }

  lemma RunOneAt<DB(!new)>(
    c: Chain<DB>, at: (seq<nat>, DB) -> bool, db: DB, v: seq<nat>, j: nat, i: nat, back: bool, db': DB)
    requires Sound(c, at) && at(v, db) && Movable(c, v, j, i) && i < |c.plans[j].steps|
    requires Ready(c.plans[j], if back then i + 1 else i, v[j], back)
    requires c.plans[j].steps[i].Attempt(db, back) == Some(db')
    ensures at(v[j := if back then i else i + 1], db')
  {
    StepAt(c, at, v, j, i);
  }

  lemma RunOneLogged<DB(!new)>(
    c: Chain<DB>, at: (seq<nat>, DB) -> bool, w: World<DB>, v: seq<nat>, j: nat, i: nat, back: bool)
    requires at(v, w.db) && LogProper(c, at, w.log) && |v| == |c.plans| && j < |c.plans| && i < |c.plans[j].steps|
    requires Ready(c.plans[j], if back then i + 1 else i, v[j], back)
    ensures LogProper(c, at, w.log + [Exec(j, i, back, w.db)])
  {
    assert InPlace(c, v, Exec(j, i, back, w.db));
    assert Proper(c, at, Exec(j, i, back, w.db));
  }

  lemma DueWorks<DB(!new)>(c: Chain<DB>, at: (seq<nat>, DB) -> bool, db: DB, v: seq<nat>, j: nat, i: nat, back: bool)
    requires Works(c, at) && at(v, db) && Frontier(c, v, j, i) && i < |c.plans[j].steps|
    requires Ready(c.plans[j], if back then i + 1 else i, v[j], back)
    requires back ==> c.plans[j].steps[i].rollback.Some?
    ensures c.plans[j].steps[i].Attempt(db, back).Some?
  {
    assert v[j] == i ==> v[j := i] == v;
    assert v[j] == i + 1 ==> v[j := i + 1] == v;
    assert Use(v, j, i);
    assert StepWorks(c.plans[j].steps[i], at, v[j := i], v[j := i + 1]);
  }

  /** The restart position of an interrupted row: the database is ready for the next statement of that direction. */
  lemma ResolveSound<DB(!new)>(
    c: Chain<DB>, at: (seq<nat>, DB) -> bool, p: Plan<DB>, row: Row, db: DB, v: seq<nat>, j: nat, forward: bool)
    returns (x: nat, k: nat)
    requires Sound(c, at) && j < |c.plans| == |v| && p == c.plans[j] && PlanWellFormed(p) && at(v, db)
    requires Bounds(p, row, v[j]) && !row.state.Settled() && !row.state.Finalizing?
    requires forall i: nat :: i <= |p.steps| ==> Frontier(c, v, j, i)
    ensures Resolve(p, row, db, forward) == Some(k)
    ensures Ready(p, k, x, !forward) && at(v[j := x], db) && Bounds(p, row, x)
    ensures k <= p.End() && (k == p.End() && forward ==> x == k)
  {
    k := Resolve(p, row, db, forward).value;
    var uncertain := if row.state.RollingBack? then row.step - 1 else row.step;
    x := v[j];
    assert v[j := x] == v;
    if 0 <= uncertain < |p.steps| {
      assert Frontier(c, v, j, uncertain);
      StepAt(c, at, v, j, uncertain);
      var s := p.steps[uncertain];
      assert StepWellFormed(s);
      if uncertain >= p.End() {
        assert Frontier(c, v, j, v[j]) && UseOn(v, j, db);
        assert s.effect.Some? && FinalReads(p, v[j], db);
      } else if !s.Repeat() {
        x := if s.effect.value(db) then uncertain + 1 else uncertain;
      }
    }
  }

  /** A finalizing row resolves to its recorded step, or to the next one once the recorded step has run. */
  lemma ResolveFinalizing<DB(!new)>(
    c: Chain<DB>, at: (seq<nat>, DB) -> bool, p: Plan<DB>, row: Row, db: DB, v: seq<nat>, j: nat, forward: bool)
    requires Sound(c, at) && j < |c.plans| == |v| && p == c.plans[j] && PlanWellFormed(p) && at(v, db)
    requires Bounds(p, row, v[j]) && row.state.Finalizing? && Frontier(c, v, j, v[j])
    ensures Resolve(p, row, db, forward) == Some(if v[j] > row.step then row.step + 1 else row.step)
  {
    assert UseOn(v, j, db);
    assert FinalReads(p, v[j], db);
    if row.step < |p.steps| {
      assert StepWellFormed(p.steps[row.step]);
    }
  }

  // ------------------------------------------------------------------------ safety of the loops

  ghost predicate RowIs<DB>(c: Chain<DB>, w: World<DB>, j: nat, state: State, step: int) {
    && j < |c.plans| && c.plans[j].name in w.history
    && RowAt(c, w, j).state == state && RowAt(c, w, j).step == step
  }

  ghost predicate RowState<DB>(c: Chain<DB>, w: World<DB>, j: nat, state: State) {
    j < |c.plans| && c.plans[j].name in w.history && RowAt(c, w, j).state == state
  }

  lemma RecordRow<DB(!new)>(
    c: Chain<DB>, at: (seq<nat>, DB) -> bool, w: World<DB>, v: seq<nat>, m: nat, j: nat, state: State, step: int)
    requires Distinct(c) && Inv(c, at, w, v, m) && j < m
    requires Bounds(c.plans[j], RowAt(c, w, j).(state := state, step := step), v[j])
    requires j == m - 1 || state.Settled() || state.Finalizing?
    ensures Inv(c, at, Record(c, w, j, state, step), v, m)
    ensures RowIs(c, Record(c, w, j, state, step), j, state, step)
    ensures SameRows(c, w, Record(c, w, j, state, step), m, j)
    ensures SetStep(c, w, j, step) == Record(c, w, j, RowAt(c, w, j).state, step)
  {
    WriteRow(c, w.history, v, m, j, RowAt(c, w, j).(state := state, step := step));
    forall l | 0 <= l < m && l != j
      ensures SameRow(c, w, Record(c, w, j, state, step), l)
    {
      assert RowBounds(c, w.history, l, v[l], l == m - 1);
    }
  }

  /** The row that a turn of a loop starts from: it records the step to run, or, when finalizing, the one before it. */
  ghost predicate Due<DB(!new)>(p: Plan<DB>, row: Row, i: nat, back: bool) {
    match row.state
    case Applying => !back && row.step == i < p.End()
    case RollingBack => back && row.step == i + 1 <= p.End()
    case Finalizing => !back && p.End() <= row.step <= i <= row.step + 1
    case _ => false
  }

  /** One turn of a loop over the steps: the statement, then the row that records it; both worlds keep the invariant. */
  lemma Advance<DB(!new)>(
    c: Chain<DB>, at: (seq<nat>, DB) -> bool, w: World<DB>, v: seq<nat>, m: nat, j: nat, i: nat, back: bool, db: DB)
    requires Distinct(c) && Sound(c, at) && Inv(c, at, w, v, m) && j < m && i < |c.plans[j].steps|
    requires j < m - 1 ==> i >= c.plans[j].End()
    requires SettledFrom(c, w.history, j, m, j)
    requires Ready(c.plans[j], if back then i + 1 else i, v[j], back)
    requires c.plans[j].steps[i].Attempt(w.db, back) == Some(db)
    requires Due(c.plans[j], RowAt(c, w, j), i, back)
    ensures var x := if back then i else i + 1;
            var w1 := RunStatement(w, j, i, back, db);
            var w2 := SetStep(c, w1, j, x);
            && Inv(c, at, w1, v[j := x], m) && SameRows(c, w, w1, m, j)
            && Inv(c, at, w2, v[j := x], m) && SameRows(c, w, w2, m, j)
            && RowIs(c, w2, j, RowAt(c, w, j).state, x)
  {
    var x := if back then i else i + 1;
    var w1 := RunStatement(w, j, i, back, db);
    RowsMovable(c, w.history, v, m, j, i);
    RunOne(c, at, w, v, m, j, i, back, db);
    RecordRow(c, at, w1, v[j := x], m, j, RowAt(c, w, j).state, x);
    forall l | 0 <= l < m
      ensures SameRow(c, w, w1, l)
    {
      assert RowBounds(c, w.history, l, v[l], l == m - 1);
    }
    forall l | 0 <= l < m && l != j
      ensures SameRow(c, w, SetStep(c, w1, j, x), l)
    {
      assert SameRow(c, w, w1, l);
    }
  }

  /** What a forward run of the last plan leaves, wherever it is cut. */
  ghost predicate ForwardPost<DB(!new)>(
    c: Chain<DB>, at: (seq<nat>, DB) -> bool, w: World<DB>, o: Outcome<DB>, v': seq<nat>, m: nat) {
    && Inv(c, at, o.world, v', m) && 0 < m
    && SameRows(c, w, o.world, m, m - 1)
    && RowState(c, o.world, m - 1, if o.ok then Applied else Applying)
  }

  lemma {:induction false} ForwardSafe<DB(!new)>(
    c: Chain<DB>, at: (seq<nat>, DB) -> bool, w: World<DB>, v: seq<nat>, m: nat, i: nat, fuel: nat)
    returns (v': seq<nat>)
    requires Distinct(c) && Sound(c, at) && Inv(c, at, w, v, m) && 0 < m
    requires PlanWellFormed(c.plans[m - 1]) && RowIs(c, w, m - 1, Applying, i)
    requires i <= c.plans[m - 1].End() && Ready(c.plans[m - 1], i, v[m - 1], false)
    requires i == c.plans[m - 1].End() ==> v[m - 1] == i
    ensures ForwardPost(c, at, w, Forward(c, m - 1, i, w, fuel), v', m)
    decreases |c.plans[m - 1].steps| - i
  {
    hide Sound, Movable, Frontier, SettledFrom, Rows, SameRows, Works, LogProper;
    var j := m - 1;
    LastSettled(c, w.history, m);
    var p := c.plans[j];
    var o := Forward(c, j, i, w, fuel);
    v' := v;
    SameRowsRefl(c, w, v, m, j);
    if i < p.End() {
      var d := p.steps[i].Attempt(w.db, false);
      if d.None? || fuel == 0 {
        assert o == Stop(w);
      } else {
        Advance(c, at, w, v, m, j, i, false, d.value);
        v' := v[j := i + 1];
        var w1 := RunStatement(w, j, i, false, d.value);
        if fuel == 1 {
          assert o == Stop(w1);
        } else {
          var w2 := SetStep(c, w1, j, i + 1);
          assert o == Forward(c, j, i + 1, w2, fuel - 2);
          v' := ForwardSafe(c, at, w2, v', m, i + 1, fuel - 2);
          SameRowsTrans(c, w, w2, o.world, m, j);
        }
      }
    } else {
      RecordRow(c, at, w, v, m, j, Applied, p.End());
    }
  }

  /** Uninterrupted, with a database that cooperates, a forward run reaches applied. */
  lemma {:induction false} ForwardCompletes<DB(!new)>(
    c: Chain<DB>, at: (seq<nat>, DB) -> bool, w: World<DB>, v: seq<nat>, m: nat, i: nat, fuel: nat)
    requires Distinct(c) && Sound(c, at) && Works(c, at) && Inv(c, at, w, v, m) && 0 < m
    requires PlanWellFormed(c.plans[m - 1]) && RowIs(c, w, m - 1, Applying, i)
    requires i <= c.plans[m - 1].End() && Ready(c.plans[m - 1], i, v[m - 1], false)
    requires i == c.plans[m - 1].End() ==> v[m - 1] == i
    requires fuel >= 2 * (c.plans[m - 1].End() - i) + 1
    ensures Forward(c, m - 1, i, w, fuel).ok
    ensures Forward(c, m - 1, i, w, fuel).fuel == fuel - 2 * (c.plans[m - 1].End() - i) - 1
    decreases |c.plans[m - 1].steps| - i
  {
    hide Sound, Works, Movable, Frontier, SettledFrom, Rows, SameRows, LogProper;
    var j := m - 1;
    LastSettled(c, w.history, m);
    var p := c.plans[j];
    if i < p.End() {
      RowsMovable(c, w.history, v, m, j, i);
      DueWorks(c, at, w.db, v, j, i, false);
      var d := p.steps[i].Attempt(w.db, false);
      Advance(c, at, w, v, m, j, i, false, d.value);
      var w1 := RunStatement(w, j, i, false, d.value);
      ForwardCompletes(c, at, SetStep(c, w1, j, i + 1), v[j := i + 1], m, i + 1, fuel - 2);
    } else {
      RowsBoundary(c, w.history, v, m);
      BoundaryReads(c, at, v, m, w.db);
    }
  }

  lemma BoundaryReads<DB(!new)>(c: Chain<DB>, at: (seq<nat>, DB) -> bool, v: seq<nat>, m: nat, db: DB)
    requires Works(c, at) && Boundary(c, v, m) && at(v, db)
    ensures c.hash(db) == HashAt(c, m) && c.rowsOk(db)
  {
    assert UseOn(v, m, db);
  }

  lemma RowsBoundary<DB(!new)>(c: Chain<DB>, h: map<string, Row>, v: seq<nat>, m: nat)
    requires Rows(c, h, v, m)
    requires 0 < m ==> v[m - 1] >= c.plans[m - 1].End()
    ensures Boundary(c, v, m)
  {
    forall l | 0 <= l < m - 1
      ensures v[l] >= c.plans[l].End()
    {
      assert RowBounds(c, h, l, v[l], l == m - 1);
    }
  }

  /** The row of plan j is at most one step behind its statement. */
  ghost predicate Tight<DB(!new)>(c: Chain<DB>, w: World<DB>, v: seq<nat>, j: nat) {
    j < |v| && j < |c.plans| && c.plans[j].name in w.history &&
      (RowAt(c, w, j).state.Finalizing? ==> v[j] <= RowAt(c, w, j).step + 1)
  }

  /** What finalizing plan j leaves, wherever it is cut. */
  ghost predicate FinalizePost<DB(!new)>(
    c: Chain<DB>, at: (seq<nat>, DB) -> bool, w: World<DB>, o: Outcome<DB>, v': seq<nat>, m: nat, j: nat) {
    && Inv(c, at, o.world, v', m) && j < m
    && SameRows(c, w, o.world, m, j)
    && RowState(c, o.world, j, if o.ok then Done else Finalizing)
  }

  lemma {:induction false} FinalizeSafe<DB(!new)>(
    c: Chain<DB>, at: (seq<nat>, DB) -> bool, w: World<DB>, v: seq<nat>, m: nat, j: nat, i: nat, fuel: nat)
    returns (v': seq<nat>)
    requires Distinct(c) && Sound(c, at) && Inv(c, at, w, v, m) && j < m
    requires PlanWellFormed(c.plans[j]) && RowState(c, w, j, Finalizing) && v[j] == i && i <= RowAt(c, w, j).step + 1
    requires SettledFrom(c, w.history, j, m, j)
    ensures FinalizePost(c, at, w, FinalizeFrom(c, j, i, w, fuel), v', m, j)
    ensures RowAt(c, w, j).step == i || fuel != 1 || i == |c.plans[j].steps| ==>
              Tight(c, FinalizeFrom(c, j, i, w, fuel).world, v', j)
    decreases |c.plans[j].steps| - i
  {
    hide Sound, Movable, Frontier, SettledFrom, SameRows, Works, LogProper;
    var p := c.plans[j];
    var o := FinalizeFrom(c, j, i, w, fuel);
    v' := v;
    SameRowsRefl(c, w, v, m, j);
    if fuel > 0 {
      if i < |p.steps| {
        assert StepWellFormed(p.steps[i]) && p.steps[i].finalize;
        var d := p.steps[i].statement(w.db);
        assert p.steps[i].Attempt(w.db, false) == d;
        if d.None? {
          assert o == Stop(w);
        } else {
          Advance(c, at, w, v, m, j, i, false, d.value);
          v' := v[j := i + 1];
          var w1 := RunStatement(w, j, i, false, d.value);
          if fuel == 1 {
            assert o == Stop(w1);
          } else {
            var w2 := SetStep(c, w1, j, i + 1);
            assert o == FinalizeFrom(c, j, i + 1, w2, fuel - 2);
            KeepSettled(c, w, w2, j, m, j);
            v' := FinalizeSafe(c, at, w2, v', m, j, i + 1, fuel - 2);
            SameRowsTrans(c, w, w2, o.world, m, j);
          }
        }
      } else {
        RecordRow(c, at, w, v, m, j, Done, |p.steps|);
      }
    }
  }

  lemma {:induction false} FinalizeCompletes<DB(!new)>(
    c: Chain<DB>, at: (seq<nat>, DB) -> bool, w: World<DB>, v: seq<nat>, m: nat, j: nat, i: nat, fuel: nat)
    requires j == m - 1 < |c.plans| == |v| && i <= |c.plans[j].steps|
    requires Distinct(c) && Sound(c, at) && Works(c, at) && Inv(c, at, w, v, m)
    requires PlanWellFormed(c.plans[j]) && RowState(c, w, j, Finalizing) && v[j] == i
    requires c.plans[j].End() <= RowAt(c, w, j).step <= i <= RowAt(c, w, j).step + 1
    requires SettledFrom(c, w.history, j, m, j)
    requires fuel >= 2 * (|c.plans[j].steps| - i) + 1
    ensures FinalizeFrom(c, j, i, w, fuel).ok
    decreases |c.plans[j].steps| - i
  {
    hide Sound, Works, Movable, Frontier, SettledFrom, Rows, SameRows, LogProper, StepMoves, StepReads, StepWorks;
    var p := c.plans[j];
    if i < |p.steps| {
      assert StepWellFormed(p.steps[i]) && p.steps[i].finalize;
      var d := p.steps[i].statement(w.db);
      assert p.steps[i].Attempt(w.db, false) == d;
      RowsMovable(c, w.history, v, m, j, i);
      DueWorks(c, at, w.db, v, j, i, false);
      Advance(c, at, w, v, m, j, i, false, d.value);
      var w2 := SetStep(c, RunStatement(w, j, i, false, d.value), j, i + 1);
      KeepSettled(c, w, w2, j, m, j);
      FinalizeCompletes(c, at, w2, v[j := i + 1], m, j, i + 1, fuel - 2);
    }
  }

  /** All steps below k can be undone. */
  ghost predicate Reversible<DB(!new)>(p: Plan<DB>, k: nat) {
    forall i :: 0 <= i < k && i < |p.steps| ==> p.steps[i].rollback.Some?
  }

  ghost predicate BackwardPost<DB(!new)>(
    c: Chain<DB>, at: (seq<nat>, DB) -> bool, w: World<DB>, o: Outcome<DB>, v': seq<nat>, m: nat) {
    && 0 < m <= |c.plans| && Inv(c, at, o.world, v', if o.ok then m - 1 else m)
    && SameRows(c, w, o.world, m, m - 1)
    && (o.ok ==> v'[m - 1] == 0)
    && (!o.ok ==> RowState(c, o.world, m - 1, RollingBack))
  }

  lemma BackwardEnd<DB(!new)>(c: Chain<DB>, at: (seq<nat>, DB) -> bool, w: World<DB>, v: seq<nat>, m: nat, fuel: nat)
    requires Distinct(c) && Inv(c, at, w, v, m) && 0 < m && v[m - 1] == 0 && RowState(c, w, m - 1, RollingBack)
    requires SettledFrom(c, w.history, 0, m, m - 1)
    ensures BackwardPost(c, at, w, Backward(c, m - 1, 0, w, fuel), v, m)
  {
    SameRowsRefl(c, w, v, m, m - 1);
    DropRow(c, w.history, v, m);
    DropSame(c, w, v, m);
  }

  lemma {:induction false} BackwardSafe<DB(!new)>(
    c: Chain<DB>, at: (seq<nat>, DB) -> bool, w: World<DB>, v: seq<nat>, m: nat, i: nat, fuel: nat)
    returns (v': seq<nat>)
    requires 0 < m <= |c.plans| && i <= |c.plans[m - 1].steps|
    requires Distinct(c) && Sound(c, at) && Inv(c, at, w, v, m) && 0 < m
    requires PlanWellFormed(c.plans[m - 1]) && RowIs(c, w, m - 1, RollingBack, i)
    requires SettledFrom(c, w.history, 0, m, m - 1)
    requires i <= c.plans[m - 1].End() && Ready(c.plans[m - 1], i, v[m - 1], true)
    ensures BackwardPost(c, at, w, Backward(c, m - 1, i, w, fuel), v', m)
    decreases i
  {
    hide Sound, Movable, Frontier, SettledFrom, Rows, SameRows, Works, LogProper;
    var j := m - 1;
    LastSettled(c, w.history, m);
    var o := Backward(c, j, i, w, fuel);
    v' := v;
    SameRowsRefl(c, w, v, m, j);
    if i == 0 {
      BackwardEnd(c, at, w, v, m, fuel);
    } else {
      var s := c.plans[j].steps[i - 1];
      var d := s.Attempt(w.db, true);
      if s.rollback.None? || d.None? || fuel == 0 {
        assert o == Stop(w);
      } else {
        Advance(c, at, w, v, m, j, i - 1, true, d.value);
        v' := v[j := i - 1];
        var w1 := RunStatement(w, j, i - 1, true, d.value);
        if fuel == 1 {
          assert o == Stop(w1);
        } else {
          var w2 := SetStep(c, w1, j, i - 1);
          assert o == Backward(c, j, i - 1, w2, fuel - 2);
          KeepSettled(c, w, w2, 0, m, j);
          v' := BackwardSafe(c, at, w2, v', m, i - 1, fuel - 2);
          SameRowsTrans(c, w, w2, o.world, m, j);
        }
      }
    }
  }

  /** A rollback that ends has undone every step below its start. */
  lemma {:induction false} BackwardNeedsRollbacks<DB(!new)>(c: Chain<DB>, j: nat, i: nat, w: World<DB>, fuel: nat)
    requires j < |c.plans| && i <= |c.plans[j].steps|
    requires Backward(c, j, i, w, fuel).ok
    ensures Reversible(c.plans[j], i)
    decreases i
  {
    if i > 0 {
      var w1 := RunStatement(w, j, i - 1, true, c.plans[j].steps[i - 1].Attempt(w.db, true).value);
      BackwardNeedsRollbacks(c, j, i - 1, SetStep(c, w1, j, i - 1), fuel - 2);
    }
  }

  lemma {:induction false} BackwardCompletes<DB(!new)>(
    c: Chain<DB>, at: (seq<nat>, DB) -> bool, w: World<DB>, v: seq<nat>, m: nat, i: nat, fuel: nat)
    requires 0 < m <= |c.plans| && i <= |c.plans[m - 1].steps|
    requires Distinct(c) && Sound(c, at) && Works(c, at) && Inv(c, at, w, v, m) && 0 < m
    requires PlanWellFormed(c.plans[m - 1]) && RowIs(c, w, m - 1, RollingBack, i)
    requires c.plans[m - 1].FromHash() == HashAt(c, m - 1)
    requires SettledFrom(c, w.history, 0, m, m - 1)
    requires i <= c.plans[m - 1].End() && Ready(c.plans[m - 1], i, v[m - 1], true)
    requires Reversible(c.plans[m - 1], i) && fuel >= 2 * i + 1
    ensures Backward(c, m - 1, i, w, fuel).ok
    decreases i
  {
    hide Sound, Works, Movable, Frontier, SettledFrom, Rows, SameRows, LogProper;
    var j := m - 1;
    LastSettled(c, w.history, m);
    var p := c.plans[j];
    if i == 0 {
      LastBoundary(c, w.history, v, m);
      BoundaryReads(c, at, v, j, w.db);
    } else {
      assert p.steps[i - 1].rollback.Some?;
      RowsMovable(c, w.history, v, m, j, i - 1);
      DueWorks(c, at, w.db, v, j, i - 1, true);
      var d := p.steps[i - 1].Attempt(w.db, true);
      Advance(c, at, w, v, m, j, i - 1, true, d.value);
      var w2 := SetStep(c, RunStatement(w, j, i - 1, true, d.value), j, i - 1);
      KeepSettled(c, w, w2, 0, m, j);
      BackwardCompletes(c, at, w2, v[j := i - 1], m, i - 1, fuel - 2);
    }
  }

  lemma LastBoundary<DB(!new)>(c: Chain<DB>, h: map<string, Row>, v: seq<nat>, m: nat)
    requires Rows(c, h, v, m) && 0 < m && v[m - 1] == 0
    ensures Boundary(c, v, m - 1)
  {
    forall l | 0 <= l < m - 1
      ensures v[l] >= c.plans[l].End()
    {
      assert RowBounds(c, h, l, v[l], l == m - 1);
    }
  }

  // ---------------------------------------------------------------- operations, cut anywhere

  /** Only the last of the m rows may be unsettled. */
  ghost predicate Open<DB(!new)>(c: Chain<DB>, w: World<DB>, m: nat) {
    SettledFrom(c, w.history, 0, m, m - 1)
  }

  lemma OpenPosition<DB(!new)>(c: Chain<DB>, w: World<DB>, v: seq<nat>, m: nat)
    requires Distinct(c) && Rows(c, w.history, v, m) && Open(c, w, m)
    ensures Position(c, w.history) == Some(m)
  {
    forall j | 0 <= j < m
      ensures c.plans[j].name in w.history && RowOf(c, w.history, j)
      ensures j < m - 1 ==> w.history[c.plans[j].name].state.Settled()
    {
      assert RowBounds(c, w.history, j, v[j], j == m - 1);
      assert j < m - 1 ==> SettledRow(c, w.history, j);
    }
    assert IsPrefix(c, w.history, m);
    PositionUnique(c, w.history, m);
  }

  lemma PositionOpen<DB(!new)>(c: Chain<DB>, w: World<DB>, v: seq<nat>, m: nat)
    requires Distinct(c) && Rows(c, w.history, v, m) && Position(c, w.history).Some?
    ensures Position(c, w.history) == Some(m) && Open(c, w, m)
  {
    NamesSize(c, m);
    NamesSize(c, Position(c, w.history).value);
    forall l | 0 <= l < m - 1
      ensures SettledRow(c, w.history, l)
    {
      assert c.plans[l].name in w.history;
    }
  }

  lemma StartPlan<DB(!new)>(
    c: Chain<DB>, at: (seq<nat>, DB) -> bool, w: World<DB>, v: seq<nat>, m: nat) returns (w1: World<DB>)
    requires Distinct(c) && Inv(c, at, w, v, m) && SettledFrom(c, w.history, 0, m, m) && m < |c.plans|
    ensures w1 == Record(c, w, m, Applying, 0)
    ensures Inv(c, at, w1, v, m + 1) && RowIs(c, w1, m, Applying, 0) && v[m] == 0
    ensures SettledFrom(c, w1.history, 0, m + 1, m)
  {
    w1 := Record(c, w, m, Applying, 0);
    var name := c.plans[m].name;
    assert name !in Names(c, m);
    AddRow(c, w.history, v, m, Row(c.plans[m].From(), c.plans[m].to, Applying, 0));
    forall l | 0 <= l < m + 1 && l != m
      ensures SettledRow(c, w1.history, l)
    {
      assert SettledRow(c, w.history, l);
    }
  }

  lemma AllSettled<DB>(c: Chain<DB>, h: map<string, Row>, m: nat)
    requires 0 < m && SettledFrom(c, h, 0, m, m - 1) && SettledRow(c, h, m - 1)
    ensures SettledFrom(c, h, 0, m, m)
  {
    forall l | 0 <= l < m && l != m
      ensures SettledRow(c, h, l)
    {
    }
  }

  lemma {:induction false} ApplyFromSafe<DB(!new)>(
    c: Chain<DB>, at: (seq<nat>, DB) -> bool, w: World<DB>, v: seq<nat>, m: nat, fuel: nat)
    returns (v': seq<nat>, m': nat)
    requires WellFormed(c) && Sound(c, at) && Inv(c, at, w, v, m) && SettledFrom(c, w.history, 0, m, m)
    ensures Inv(c, at, ApplyFrom(c, m, w, fuel).world, v', m')
    ensures Open(c, ApplyFrom(c, m, w, fuel).world, m') && LastNotFinalizing(c, ApplyFrom(c, m, w, fuel).world, m')
    decreases |c.plans| - m
  {
    hide Sound, WellFormed, Distinct, PlanWellFormed, Rows, SameRows, LogProper, SettledFrom;
    var o := ApplyFrom(c, m, w, fuel);
    v', m' := v, m;
    if m == |c.plans| || fuel == 0 {
      assert o.world == w;
      FromSettled(c, w, m);
    } else {
      PlanOf(c, m);
      var w1 := StartPlan(c, at, w, v, m);
      var o1 := Forward(c, m, 0, w1, fuel - 1);
      m' := m + 1;
      v' := ForwardSafe(c, at, w1, v, m + 1, 0, fuel - 1);
      KeepSettled(c, w1, o1.world, 0, m + 1, m);
      if o1.ok {
        assert o == ApplyFrom(c, m + 1, o1.world, o1.fuel);
        AllSettled(c, o1.world.history, m + 1);
        v', m' := ApplyFromSafe(c, at, o1.world, v', m + 1, o1.fuel);
      } else {
        assert o == o1;
      }
    }
  }

  lemma PlanOf<DB(!new)>(c: Chain<DB>, j: nat)
    requires WellFormed(c) && j < |c.plans|
    ensures Distinct(c) && PlanWellFormed(c.plans[j]) && c.plans[j].FromHash() == HashAt(c, j)
  {
  }

  lemma FromSettled<DB(!new)>(c: Chain<DB>, w: World<DB>, m: nat)
    requires SettledFrom(c, w.history, 0, m, m)
    ensures Open(c, w, m) && LastNotFinalizing(c, w, m)
  {
    if m > 0 { assert SettledRow(c, w.history, m - 1); }
  }

  ghost predicate LastNotFinalizing<DB(!new)>(c: Chain<DB>, w: World<DB>, m: nat) {
    0 < m <= |c.plans| && c.plans[m - 1].name in w.history ==> !RowAt(c, w, m - 1).state.Finalizing?
  }

  /** No row is more than one step behind its statement, and only the last is unsettled. */
  ghost predicate Kept<DB(!new)>(c: Chain<DB>, at: (seq<nat>, DB) -> bool, w: World<DB>, v: seq<nat>, m: nat) {
    Inv(c, at, w, v, m) && Open(c, w, m) && (m > 0 ==> Tight(c, w, v, m - 1))
  }

  lemma NotFinalizingTight<DB(!new)>(c: Chain<DB>, at: (seq<nat>, DB) -> bool, w: World<DB>, v: seq<nat>, m: nat)
    requires Inv(c, at, w, v, m) && Open(c, w, m) && LastNotFinalizing(c, w, m)
    ensures Kept(c, at, w, v, m)
  {
    if m > 0 { assert RowBounds(c, w.history, m - 1, v[m - 1], true); }
  }

  lemma ApplySafe<DB(!new)>(c: Chain<DB>, at: (seq<nat>, DB) -> bool, w: World<DB>, v: seq<nat>, m: nat, fuel: nat)
    returns (v': seq<nat>, m': nat)
    requires WellFormed(c) && Sound(c, at) && Inv(c, at, w, v, m)
    ensures Inv(c, at, Apply(c, w, fuel).world, v', m')
    ensures Kept(c, at, w, v, m) ==> Kept(c, at, Apply(c, w, fuel).world, v', m')
  {
    v', m' := v, m;
    if Settled(c, w).Some? {
      PositionOpen(c, w, v, m);
      if m > 0 { AllSettled(c, w.history, m); }
      v', m' := ApplyFromSafe(c, at, w, v, m, fuel);
      NotFinalizingTight(c, at, Apply(c, w, fuel).world, v', m');
    }
  }

  /** The world as recover and rollback find an interrupted plan: its database can be read at the restart position. */
  lemma Restart<DB(!new)>(c: Chain<DB>, at: (seq<nat>, DB) -> bool, w: World<DB>, v: seq<nat>, m: nat, forward: bool)
    returns (v1: seq<nat>, k: nat)
    requires WellFormed(c) && Sound(c, at) && Inv(c, at, w, v, m) && 0 < m
    requires !SettledRow(c, w.history, m - 1) && LastNotFinalizing(c, w, m)
    ensures Inv(c, at, w, v1, m) && k <= |c.plans[m - 1].steps|
    ensures c.plans[m - 1].name in w.history
    ensures Resolve(c.plans[m - 1], RowAt(c, w, m - 1), w.db, forward) == Some(k)
    ensures Ready(c.plans[m - 1], k, v1[m - 1], !forward)
    ensures k <= c.plans[m - 1].End() && (k == c.plans[m - 1].End() && forward ==> v1[m - 1] == k)
  {
    hide Sound, LogProper;
    var j := m - 1;
    assert RowBounds(c, w.history, j, v[j], true);
    assert PlanWellFormed(c.plans[j]);
    forall i: nat | i <= |c.plans[j].steps|
      ensures Frontier(c, v, j, i)
    {
      RowsMovable(c, w.history, v, m, j, i);
    }
    var x;
    x, k := ResolveSound(c, at, c.plans[j], RowAt(c, w, j), w.db, v, j, forward);
    MovePlan(c, w.history, v, m, j, x);
    v1 := v[j := x];
  }

  /** The last row is finalizing: how it resolves. */
  lemma RestartFinalize<DB(!new)>(
    c: Chain<DB>, at: (seq<nat>, DB) -> bool, w: World<DB>, v: seq<nat>, m: nat, forward: bool)
    returns (k: nat)
    requires WellFormed(c) && Sound(c, at) && Inv(c, at, w, v, m) && 0 < m && RowState(c, w, m - 1, Finalizing)
    ensures c.plans[m - 1].End() <= RowAt(c, w, m - 1).step <= v[m - 1] <= |c.plans[m - 1].steps|
    ensures v[m - 1] <= RowAt(c, w, m - 1).step + 2
    ensures k == if v[m - 1] > RowAt(c, w, m - 1).step then RowAt(c, w, m - 1).step + 1 else RowAt(c, w, m - 1).step
    ensures Resolve(c.plans[m - 1], RowAt(c, w, m - 1), w.db, forward) == Some(k)
    ensures FinalReads(c.plans[m - 1], v[m - 1], w.db)
  {
    var j := m - 1;
    assert RowBounds(c, w.history, j, v[j], true);
    assert PlanWellFormed(c.plans[j]);
    RowsMovable(c, w.history, v, m, j, v[j]);
    assert UseOn(v, j, w.db);
    ResolveFinalizing(c, at, c.plans[j], RowAt(c, w, j), w.db, v, j, forward);
    k := Resolve(c.plans[j], RowAt(c, w, j), w.db, forward).value;
  }
}
