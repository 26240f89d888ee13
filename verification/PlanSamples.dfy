/**
  Chains of plans that hide tables, as the planner writes them: the first plan creates tables, and every other plan
  renames two of them to hidden names and drops the hidden tables when it is finalized.  The effect of such a drop is
  that the hidden table is absent, which also holds before the plan has begun.
 */
module PlanSamples {
  import opened Common
  import opened PlanApply
  import opened PlanRuns
  import opened PlanLimits
  import opened PlanFinalize

  /** A table under its own name, under its hidden name, or under neither. */
  datatype Table = Absent | Plain | Hidden

  /** The two tables of a plan. */
  datatype Tables = Tables(a: Table, b: Table) {
    function Get(second: bool): Table { if second then b else a }
    function Set(second: bool, t: Table): Tables { if second then Tables(a, t) else Tables(t, b) }
  }

  type Catalog = seq<Tables>

  const NONE := Tables(Absent, Absent)

  const BOTH := Tables(Plain, Plain)

  function All(n: nat, t: Tables): Catalog { seq(n, i => t) }

  function Text(k: nat): string { seq(k, i => 'p') }

  // ------------------------------------------------------------------------------------- statements

  /** Creates or removes all tables. */
  function Turns(from: Tables, to: Tables): Catalog -> Option<Catalog> {
    (db: Catalog) => if db == All(|db|, from) then Some(All(|db|, to)) else None
  }

  function Made(): Catalog -> bool { (db: Catalog) => db != [] && db[0] != NONE }

  /** Renames or drops one table of plan j. */
  function Moves(j: nat, second: bool, from: Table, to: Table): Catalog -> Option<Catalog> {
    (db: Catalog) => if j < |db| && db[j].Get(second) == from then Some(db[j := db[j].Set(second, to)]) else None
  }

  function IsHidden(j: nat, second: bool): Catalog -> bool { (db: Catalog) => j < |db| && db[j].Get(second) == Hidden }

  function NotHidden(j: nat, second: bool): Catalog -> bool {
    (db: Catalog) => !(j < |db| && db[j].Get(second) == Hidden)
  }

  function Hide(j: nat, second: bool): Step<Catalog> {
    Step(Moves(j, second, Plain, Hidden), None, Some(Moves(j, second, Hidden, Plain)), None, None,
         Some(IsHidden(j, second)), false)
  }

  function Drop(j: nat, second: bool): Step<Catalog> {
    Step(Moves(j, second, Hidden, Absent), None, None, None, None, Some(NotHidden(j, second)), true)
  }

  const CREATE: Step<Catalog> := Step(Turns(NONE, BOTH), None, Some(Turns(BOTH, NONE)), None, None, Some(Made()), false)

  function Sample(j: nat): Plan<Catalog> {
    Plan(Text(j + 1), if j == 0 then None else Some(Text(j)), Text(j + 1),
         if j == 0 then [CREATE] else [Hide(j, false), Hide(j, true), Drop(j, false), Drop(j, true)])
  }

  /** The number of leading plans whose tables are no longer under their own names. */
  function Lead(db: Catalog): nat {
    if db == [] || db[0].a.Plain? || db[0].b.Plain? then 0 else 1 + Lead(db[1..])
  }

  /** The plan that creates and n plans that hide. */
  function SampleChain(n: nat): Chain<Catalog> {
    Chain(seq(n + 1, j requires 0 <= j => Sample(j)),
          (db: Catalog) => Text(if db == [] || db[0] == NONE then 0 else 1 + Lead(db[1..])), (db: Catalog) => true)
  }

  // ------------------------------------------------------------------------------------- positions

  /** The tables of a plan that has x of its steps in effect. */
  function Stage(x: nat): Tables {
    if x == 0 then BOTH
    else if x == 1 then Tables(Hidden, Plain)
    else if x == 2 then Tables(Hidden, Hidden)
    else if x == 3 then Tables(Absent, Hidden)
    else NONE
  }

  ghost predicate Bounded(v: seq<nat>) {
    v != [] && v[0] <= 1 && forall l :: 1 <= l < |v| ==> v[l] <= 4
  }

  function Places(v: seq<nat>): (db: Catalog)
    requires v != []
    ensures |db| == |v|
  {
    seq(|v|, l requires 0 <= l < |v| => if v[0] == 0 then NONE else if l == 0 then BOTH else Stage(v[l]))
  }

  ghost function SampleAt(): (seq<nat>, Catalog) -> bool {
    (v: seq<nat>, db: Catalog) => Bounded(v) && db == Places(v)
  }

  lemma SampleEnd(j: nat)
    ensures Sample(j).End() == if j == 0 then 1 else 2
    ensures PlanWellFormed(Sample(j)) && |Sample(j).steps| == if j == 0 then 1 else 4
  {
    var s := Sample(j).steps;
    if j > 0 { assert !s[0].finalize && !s[1].finalize && s[2].finalize; } else { assert !s[0].finalize; }
  }

  lemma SamplePlan(n: nat, j: nat)
    requires j <= n
    ensures SampleChain(n).plans[j] == Sample(j)
  {
  }

  /** The step i of plan j, and what it reads and does. */
  lemma SampleStepIs(j: nat, i: nat)
    requires j > 0 && i < 4
    ensures |Sample(j).steps| == 4 && Sample(j).steps[i] == if i < 2 then Hide(j, i == 1) else Drop(j, i == 3)
  {
  }

  // ------------------------------------------------------------------------------------- the hypotheses hold

  lemma CreateSteps(v: seq<nat>)
    requires v != [] && forall l :: 1 <= l < |v| ==> v[l] == 0
    ensures StepMoves(CREATE, SampleAt(), v[0 := 0], v[0 := 1])
    ensures StepReads(CREATE, SampleAt(), v[0 := 0], v[0 := 1])
    ensures StepWorks(CREATE, SampleAt(), v[0 := 0], v[0 := 1])
  {
    var n := |v|;
    assert Places(v[0 := 0]) == All(n, NONE) && Places(v[0 := 1]) == All(n, BOTH);
    forall db: Catalog
      ensures CREATE.Attempt(db, false) == Turns(NONE, BOTH)(db) && CREATE.Attempt(db, true) == Turns(BOTH, NONE)(db)
    {
    }
    assert All(n, NONE) != All(n, BOTH) by { assert All(n, NONE)[0] != All(n, BOTH)[0]; }
  }

  /** One table of plan j moves between neighbouring positions. */
  lemma Moved(v: seq<nat>, j: nat, i: nat)
    requires 0 < j < |v| && v[0] == 1 && i < 4
    ensures Places(v[j := i + 1]) == Places(v[j := i])[j := Stage(i + 1)]
    ensures Places(v[j := i]) == Places(v[j := i + 1])[j := Stage(i)]
    ensures Places(v[j := i])[j] == Stage(i) && Places(v[j := i + 1])[j] == Stage(i + 1)
    ensures Bounded(v[j := i]) <==> Bounded(v[j := i + 1])
  {
    var a, b := v[j := i], v[j := i + 1];
    assert forall l :: 1 <= l < |v| ==> (a[l] <= 4 <==> b[l] <= 4);
  }

  lemma TableSteps(v: seq<nat>, j: nat, i: nat)
    requires 0 < j < |v| && v[0] >= 1 && i < 4
    ensures StepMoves(Sample(j).steps[i], SampleAt(), v[j := i], v[j := i + 1])
    ensures StepReads(Sample(j).steps[i], SampleAt(), v[j := i], v[j := i + 1])
    ensures StepWorks(Sample(j).steps[i], SampleAt(), v[j := i], v[j := i + 1])
  {
    hide Sample;
    SampleStepIs(j, i);
    var s, at, before, after := Sample(j).steps[i], SampleAt(), v[j := i], v[j := i + 1];
    if v[0] == 1 {
      Moved(v, j, i);
      if i < 2 { HideSteps(j, i == 1, before, after, i); } else { DropSteps(j, i == 3, before, after, i); }
    } else {
      assert !Bounded(before) && !Bounded(after);
    }
  }

  lemma HideSteps(j: nat, second: bool, before: seq<nat>, after: seq<nat>, i: nat)
    requires i < 2 && (second <==> i == 1) && 0 < j < |before| == |after|
    requires Places(after) == Places(before)[j := Stage(i + 1)] && Places(before) == Places(after)[j := Stage(i)]
    requires Places(before)[j] == Stage(i) && Places(after)[j] == Stage(i + 1) && (Bounded(before) <==> Bounded(after))
    ensures StepMoves(Hide(j, second), SampleAt(), before, after)
    ensures StepReads(Hide(j, second), SampleAt(), before, after)
    ensures StepWorks(Hide(j, second), SampleAt(), before, after)
  {
    hide Bounded, Places;
    var s := Hide(j, second);
    forall db: Catalog
      ensures s.Attempt(db, false) == Moves(j, second, Plain, Hidden)(db)
      ensures s.Attempt(db, true) == Moves(j, second, Hidden, Plain)(db)
    {
    }
    assert Stage(i).Get(second) == Plain && Stage(i).Set(second, Hidden) == Stage(i + 1);
    assert Stage(i + 1).Get(second) == Hidden && Stage(i + 1).Set(second, Plain) == Stage(i);
  }

  lemma DropSteps(j: nat, second: bool, before: seq<nat>, after: seq<nat>, i: nat)
    requires 2 <= i < 4 && (second <==> i == 3) && 0 < j < |before| == |after|
    requires Places(after) == Places(before)[j := Stage(i + 1)] && Places(before) == Places(after)[j := Stage(i)]
    requires Places(before)[j] == Stage(i) && Places(after)[j] == Stage(i + 1) && (Bounded(before) <==> Bounded(after))
    ensures StepMoves(Drop(j, second), SampleAt(), before, after)
    ensures StepReads(Drop(j, second), SampleAt(), before, after)
    ensures StepWorks(Drop(j, second), SampleAt(), before, after)
  {
    hide Bounded, Places;
    var s := Drop(j, second);
    forall db: Catalog
      ensures s.Attempt(db, false) == Moves(j, second, Hidden, Absent)(db) && s.Attempt(db, true) == None
    {
    }
    assert Stage(i).Get(second) == Hidden && Stage(i).Set(second, Absent) == Stage(i + 1);
    assert Stage(i + 1).Get(second) == Absent;
  }

  lemma SampleSteps(n: nat, v: seq<nat>, j: nat, i: nat)
    requires Movable(SampleChain(n), v, j, i) && i < |SampleChain(n).plans[j].steps|
    ensures StepMoves(SampleChain(n).plans[j].steps[i], SampleAt(), v[j := i], v[j := i + 1])
    ensures StepReads(SampleChain(n).plans[j].steps[i], SampleAt(), v[j := i], v[j := i + 1])
    ensures StepWorks(SampleChain(n).plans[j].steps[i], SampleAt(), v[j := i], v[j := i + 1])
  {
    hide StepMoves, StepReads, StepWorks;
    SamplePlan(n, j);
    SampleEnd(j);
    SamplePlan(n, 0);
    SampleEnd(0);
    if j == 0 { CreateSteps(v); } else { TableSteps(v, j, i); }
  }

  /** Once plan j is applied, its hidden tables are absent exactly when they were dropped. */
  lemma SampleReads(n: nat, v: seq<nat>, j: nat)
    requires j < |v| && Frontier(SampleChain(n), v, j, v[j]) && v[j] >= SampleChain(n).plans[j].End() && Bounded(v)
    ensures FinalReads(SampleChain(n).plans[j], v[j], Places(v))
  {
    SamplePlan(n, j);
    SampleEnd(j);
    SamplePlan(n, 0);
    SampleEnd(0);
    if j > 0 {
      assert v[0] == 1;
      forall i | 2 <= i < 4
        ensures Sample(j).steps[i].effect.value(Places(v)) <==> v[j] > i
        ensures v[j] > i ==> Sample(j).steps[i].statement(Places(v)).None?
      {
        SampleStepIs(j, i);
        assert Places(v)[j] == Stage(v[j]);
      }
    }
  }

  lemma SampleIsSound(n: nat)
    ensures Sound(SampleChain(n), SampleAt())
  {
    hide StepMoves, StepReads, StepWorks, SampleChain, FinalReads;
    var c, at := SampleChain(n), SampleAt();
    forall v: seq<nat>, j: nat, i: nat | Movable(c, v, j, i) && i < |c.plans[j].steps|
      ensures StepMoves(c.plans[j].steps[i], at, v[j := i], v[j := i + 1])
    {
      SampleSteps(n, v, j, i);
    }
    forall v: seq<nat>, j: nat, i: nat | Frontier(c, v, j, i) && i < |c.plans[j].steps|
      ensures StepReads(c.plans[j].steps[i], at, v[j := i], v[j := i + 1])
    {
      SampleSteps(n, v, j, i);
    }
    forall v: seq<nat>, j: nat, db
      | j < |v| && Frontier(c, v, j, v[j]) && v[j] >= c.plans[j].End() && at(v, db)
      ensures FinalReads(c.plans[j], v[j], db)
    {
      SampleReads(n, v, j);
    }
  }

  lemma {:induction false} LeadIs(db: Catalog, m: nat)
    requires m <= |db| && (m < |db| ==> db[m].a.Plain?) && forall l :: 0 <= l < m ==> !db[l].a.Plain? && !db[l].b.Plain?
    ensures Lead(db) == m
    decreases m
  {
    if m > 0 { LeadIs(db[1..], m - 1); }
  }

  lemma SampleLead(n: nat, v: seq<nat>, m: nat)
    requires 0 < m && Boundary(SampleChain(n), v, m) && Bounded(v)
    ensures Places(v)[0] == BOTH && Lead(Places(v)[1..]) == m - 1
  {
    hide Sample, Lead;
    SamplePlan(n, 0);
    SampleEnd(0);
    assert v[0] == 1;
    forall l | 1 <= l < m ensures v[l] >= 2 {
      SamplePlan(n, l);
      SampleEnd(l);
    }
    LeadIs(Places(v)[1..], m - 1);
  }

  lemma SampleHash(n: nat, v: seq<nat>, m: nat)
    requires Boundary(SampleChain(n), v, m) && Bounded(v)
    ensures SampleChain(n).hash(Places(v)) == HashAt(SampleChain(n), m) && SampleChain(n).rowsOk(Places(v))
  {
    hide Sample, Lead;
    if m == 0 {
      assert Places(v)[0] == NONE;
    } else {
      SampleLead(n, v, m);
      SamplePlan(n, m - 1);
      SampleNames(m - 1);
    }
  }

  lemma SampleWorks(n: nat)
    ensures Works(SampleChain(n), SampleAt())
  {
    hide StepMoves, StepReads, StepWorks, Places, SampleChain;
    var c, at := SampleChain(n), SampleAt();
    forall v: seq<nat>, j: nat, i: nat | Frontier(c, v, j, i) && i < |c.plans[j].steps|
      ensures StepWorks(c.plans[j].steps[i], at, v[j := i], v[j := i + 1])
    {
      SampleSteps(n, v, j, i);
    }
    forall v: seq<nat>, m: nat, db | Boundary(c, v, m) && at(v, db)
      ensures c.hash(db) == HashAt(c, m) && c.rowsOk(db)
    {
      SampleHash(n, v, m);
    }
  }

  /** The assumptions of the theorems on runs hold of these chains. */
  lemma SampleSound(n: nat)
    ensures WellFormed(SampleChain(n)) && Sound(SampleChain(n), SampleAt()) && Works(SampleChain(n), SampleAt())
    ensures SampleAt()(Zeros(n + 1), All(n + 1, NONE))
  {
    hide Sound, Works, WellFormed, SampleChain;
    SampleIsSound(n);
    SampleWorks(n);
    SampleWellFormed(n);
    assert Places(Zeros(n + 1)) == All(n + 1, NONE);
  }

  lemma SampleNames(j: nat)
    ensures |Sample(j).name| == j + 1 && Sample(j).to == Text(j + 1)
    ensures Sample(j).FromHash() == if j == 0 then "" else Text(j)
  {
  }

  lemma SampleWellFormed(n: nat)
    ensures WellFormed(SampleChain(n))
  {
    hide PlanWellFormed, Sample;
    var c := SampleChain(n);
    forall j: nat | j <= n ensures PlanWellFormed(c.plans[j]) && c.plans[j].FromHash() == HashAt(c, j) {
      SamplePlan(n, j);
      SampleEnd(j);
      SampleNames(j);
      if j > 0 { SampleNames(j - 1); }
    }
    forall i, j | 0 <= i < j <= n ensures c.plans[i].name != c.plans[j].name {
      SampleNames(i);
      SampleNames(j);
    }
  }

  /** So do those on finalize. */
  lemma SampleDrops(n: nat)
    ensures DropsHeld(SampleChain(n))
  {
    hide SampleChain, Sample;
    var c := SampleChain(n);
    forall j: nat, i: nat, db: Catalog
      | j < |c.plans| && c.plans[j].End() <= i < |c.plans[j].steps|
      ensures Dropped(c, j, i, db).Some? <==> Held(c, j, i, db)
    {
      SampleHeld(n, j, i, db);
    }
    forall j: nat, i: nat, k: nat, l: nat, db: Catalog
      | Held(c, j, i, db) && Dropped(c, j, i, db).Some? && (j, i) != (k, l)
      ensures Held(c, k, l, Dropped(c, j, i, db).value) <==> Held(c, k, l, db)
    {
      SampleHeld(n, j, i, db);
      if k < |c.plans| && c.plans[k].End() <= l < |c.plans[k].steps| {
        SampleHeld(n, k, l, db);
        SampleHeld(n, k, l, Dropped(c, j, i, db).value);
      }
    }
  }

  lemma SampleHeld(n: nat, j: nat, i: nat, db: Catalog)
    requires j < |SampleChain(n).plans|
    requires SampleChain(n).plans[j].End() <= i < |SampleChain(n).plans[j].steps|
    ensures 0 < j && 2 <= i < 4
    ensures Held(SampleChain(n), j, i, db) <==> IsHidden(j, i == 3)(db)
    ensures Dropped(SampleChain(n), j, i, db) == Moves(j, i == 3, Hidden, Absent)(db)
  {
    SamplePlan(n, j);
    SampleEnd(j);
    if j > 0 { SampleStepIs(j, i); }
  }

  // ------------------------------------------------------------------------------------- runs that strand

  /** The world after an uninterrupted apply of the plans. */
  ghost function SampleApplied(n: nat): World<Catalog> {
    Apply(SampleChain(n), Fresh(All(n + 1, NONE)), ApplyCost(SampleChain(n), 0)).world
  }

  lemma SampleAppliedKept(n: nat) returns (v: seq<nat>)
    ensures PlanApply.Kept(SampleChain(n), SampleAt(), SampleApplied(n), v, n + 1)
    ensures AppliedFrom(SampleChain(n), SampleApplied(n), 0, n + 1)
    ensures Settled(SampleChain(n), SampleApplied(n)) == Some(n + 1)
  {
    hide Sound, Works;
    SampleSound(n);
    v := ApplyCompletes(SampleChain(n), SampleAt(), All(n + 1, NONE), ApplyCost(SampleChain(n), 0));
  }

  lemma KeptInv<DB(!new)>(c: Chain<DB>, at: (seq<nat>, DB) -> bool, w: World<DB>, v: seq<nat>, m: nat)
    requires PlanApply.Kept(c, at, w, v, m)
    ensures Inv(c, at, w, v, m) && Open(c, w, m)
  {
  }

  /** Two applied plans: a finalize cut after its first write leaves a history that every command refuses for good. */
  lemma CutFinalizeStrands(op: Op, fuel: nat)
    ensures var c, w := SampleChain(1), Finalize(SampleChain(1), SampleApplied(1), 1).world;
            Do(c, w, op, fuel).world == w && !Do(c, w, op, fuel).ok
  {
    hide Sound, Works, PlanApply.Kept, SettledFrom, Rows, Inv, Finalize, Settled, SampleApplied, SampleChain, Names,
         Distinct, DoneBelow;
    var c, at, w := SampleChain(1), SampleAt(), SampleApplied(1);
    SampleSound(1);
    var v := SampleAppliedKept(1);
    KeptInv(c, at, w, v, 2);
    NotDone(c, w, 2);
    FinalizeRefused(c, at, w, v, 2);
    var v' := FinalizeOpSafe(c, at, w, v, 2, 1);
    Stranded(c, at, Finalize(c, w, 1).world, v', 2, op, fuel);
  }

  lemma NotDone<DB(!new)>(c: Chain<DB>, w: World<DB>, m: nat)
    requires m >= 2 && AppliedFrom(c, w, 0, m)
    ensures !DoneBelow(c, w, m)
  {
    assert RowState(c, w, 0, Applied);
    assert !RowState(c, w, 0, Done);
  }

  /** After two writes of a finalize the plan that creates is done. */
  ghost function FirstDone(w: World<Catalog>): World<Catalog> {
    Record(SampleChain(1), Record(SampleChain(1), w, 0, Finalizing, 1), 0, Done, 1)
  }

  lemma FirstWrites(w: World<Catalog>, fuel: nat)
    requires Settled(SampleChain(1), w) == Some(2) && AppliedFrom(SampleChain(1), w, 0, 2)
    ensures FinalizeAll(SampleChain(1), w.history, 0, 2, w, fuel + 2)
              == FinalizeAll(SampleChain(1), w.history, 1, 2, FirstDone(w), fuel)
    ensures Finalize(SampleChain(1), w, fuel + 2) == FinalizeAll(SampleChain(1), w.history, 1, 2, FirstDone(w), fuel)
  {
    hide SampleChain, Position;
    var c := SampleChain(1);
    SampleRows(w);
    assert RowState(c, w, 0, Applied) && RowState(c, w, 1, Applied);
    var w1 := Record(c, w, 0, Finalizing, 1);
    assert FinalizeFrom(c, 0, 1, w1, fuel + 1) == Outcome(FirstDone(w), true, fuel);
  }

  lemma SampleRows(w: World<Catalog>)
    ensures |SampleChain(1).plans| == 2
    ensures SampleChain(1).plans[0].End() == 1 == |SampleChain(1).plans[0].steps|
    ensures SampleChain(1).plans[1].End() == 2 && |SampleChain(1).plans[1].steps| == 4
    ensures SampleChain(1).plans[0].name != SampleChain(1).plans[1].name
  {
    SamplePlan(1, 0);
    SampleEnd(0);
    SamplePlan(1, 1);
    SampleEnd(1);
    assert |Text(1)| != |Text(2)|;
  }

  /** The hidden tables are there, the plan that creates is done, and the other one is to be finalized. */
  lemma SampleReady() returns (v: seq<nat>)
    ensures var c, w := SampleChain(1), FirstDone(SampleApplied(1));
            && PlanApply.Kept(c, SampleAt(), w, v, 2) && DoneBelow(c, w, 2) && v[1] == 2
            && Settled(c, w) == Some(2) && RowState(c, w, 1, Applied)
            && Finalize(c, SampleApplied(1), 2).world == w
            && Finalize(c, SampleApplied(1), 4).world == Finalize(c, w, 2).world
  {
    hide Sound, Works, PlanApply.Kept, Rows, Inv, Finalize, SampleApplied, SampleChain, Names, LogProper;
    var c, at, w := SampleChain(1), SampleAt(), SampleApplied(1);
    SampleSound(1);
    SampleRows(w);
    var u := SampleAppliedKept(1);
    KeptInv(c, at, w, u, 2);
    FirstWrites(w, 0);
    FirstWrites(w, 2);
    v := FinalizeOpSafe(c, at, w, u, 2, 2);
    ReadyRows(c, at, w, u, v);
  }

  lemma ReadyRows(c: Chain<Catalog>, at: (seq<nat>, Catalog) -> bool, w: World<Catalog>, u: seq<nat>, v: seq<nat>)
    requires c == SampleChain(1) && at == SampleAt() && Inv(c, at, w, u, 2) && Inv(c, at, FirstDone(w), v, 2)
    requires Settled(c, w) == Some(2) && AppliedFrom(c, w, 0, 2) && WellFormed(c)
    ensures var w' := FirstDone(w);
            && PlanApply.Kept(c, at, w', v, 2) && DoneBelow(c, w', 2) && v[1] == 2
            && Settled(c, w') == Some(2) && RowState(c, w', 1, Applied)
            && Finalize(c, w', 2) == FinalizeAll(c, w.history, 1, 2, w', 2)
  {
    hide SampleChain, LogProper, Names, SampleAt, WellFormed, Position, IsPrefix;
    SampleRows(w);
    PlanOfDistinct(c);
    var w' := FirstDone(w);
    assert RowState(c, w, 0, Applied) && RowState(c, w, 1, Applied);
    assert RowState(c, w', 0, Done) && RowState(c, w', 1, Applied);
    assert SettledFrom(c, w'.history, 0, 2, 2) by {
      assert SettledRow(c, w'.history, 0) && SettledRow(c, w'.history, 1);
    }
    FromSettled(c, w', 2);
    NotFinalizingTight(c, at, w', v, 2);
    OpenPosition(c, w', v, 2);
    RowBoundsAt(c, w'.history, v, 2, 1);
    assert w'.db == w.db;
  }

  /** A finalize cut after its first statement: the row lags. */
  lemma SampleLags()
    ensures Lagging(SampleChain(1), Finalize(SampleChain(1), SampleApplied(1), 4).world, 2)
  {
    hide SettledFrom, SampleApplied, Position, LogProper, SampleChain, Places, WellFormed, Sound;
    var c := SampleChain(1);
    var v := SampleReady();
    var w := FirstDone(SampleApplied(1));
    SampleRows(w);
    KeptInv(c, SampleAt(), w, v, 2);
    assert SampleAt()(v, w.db);
    AfterDrop(v, w.db);
    var w1 := Record(c, w, 1, Finalizing, 2);
    var db := c.plans[1].steps[2].statement(w.db).value;
    assert FinalizeFrom(c, 1, 2, w1, 1).world == RunStatement(w1, 1, 2, false, db);
    assert Finalize(c, w, 2).world == FinalizeFrom(c, 1, 2, w1, 1).world;
  }

  lemma AfterDrop(v: seq<nat>, db: Catalog)
    requires |v| == 2 && v[1] == 2 && SampleAt()(v, db) && v[0] == 1
    ensures var s := SampleChain(1).plans[1].steps;
            |s| == 4 && s[2].statement(db).Some? && s[2].effect.Some? && s[2].effect.value(s[2].statement(db).value)
  {
    SamplePlan(1, 1);
    SampleStepIs(1, 2);
    assert Places(v)[1] == Stage(2);
  }

  /** A finalize cut after its first statement, then a recover cut after its own, strand the database for good. */
  lemma TwoCutsStrand(op: Op, fuel: nat)
    ensures var c := SampleChain(1);
            var w := Recover(c, Finalize(c, SampleApplied(1), 4).world, 1).world;
            Do(c, w, op, fuel).world == w && !Do(c, w, op, fuel).ok
  {
    hide Sound, Works, PlanApply.Kept, SettledFrom, Rows, Inv, Finalize, Recover, SampleApplied, SampleChain, Names,
         Distinct, Lagging, Settled;
    var c, at := SampleChain(1), SampleAt();
    SampleSound(1);
    var v := SampleReady();
    SampleLags();
    var w := FirstDone(SampleApplied(1));
    KeptInv(c, at, w, v, 2);
    var w1 := Finalize(c, w, 2).world;
    var v1 := FinalizeOpSafe(c, at, w, v, 2, 2);
    KeptInv(c, at, w1, v1, 2);
    var w2 := Recover(c, w1, 1).world;
    var v2 := RecoverSafe(c, at, w1, v1, 2, 1);
    var x := LaggingOverruns(c, at, w1, v1, 2);
    SampleOverrun(c, w1, w2, v2, x);
    Stranded(c, at, w2, v2, 2, op, fuel);
  }

  lemma SampleOverrun(c: Chain<Catalog>, w1: World<Catalog>, w2: World<Catalog>, v: seq<nat>, x: seq<nat>)
    requires c == SampleChain(1) && Lagging(c, w1, 2) && w2.history == w1.history
    requires Inv(c, SampleAt(), w2, v, 2) && SampleAt()(x, w2.db)
    requires |x| == |c.plans| && x[1] == RowAt(c, w1, 1).step + 2 && Frontier(c, x, 1, x[1])
    ensures Overrun(c, w2, v, 2)
  {
    SampleRows(w2);
    RowBoundsAt(c, w2.history, v, 2, 0);
    RowBoundsAt(c, w2.history, v, 2, 1);
    assert Places(v)[1] == Places(x)[1] && Places(v)[0] == Places(x)[0];
  }
}
