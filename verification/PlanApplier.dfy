/**
  The applier as it works on a connection: loops over the history rows and the plan's steps, with a database that stops
  answering after `fuel` writes.  Every method is tied to the specification functions of PlanApply.
 */
module PlanApplier {
  import opened Common
  import opened PlanApply

  class Applier<DB(!new)> {
    const chain: Chain<DB>
    var db: DB
    var history: map<string, Row>
    ghost var log: seq<Exec<DB>>
    var fuel: nat

    constructor (chain: Chain<DB>, db: DB, history: map<string, Row>, fuel: nat)
      ensures this.chain == chain && Now() == World(db, history, []) && this.fuel == fuel
    {
      this.chain, this.db, this.history, this.log, this.fuel := chain, db, history, [], fuel;
    }

    ghost function Now(): World<DB>
      reads this
    {
      World(db, history, log)
    }

    /**
      The method that ended with `ok` did what the specification says: same world, and same writes left if it goes on.
     */
    ghost predicate Did(ok: bool, o: Outcome<DB>)
      reads this
    {
      Now() == o.world && ok == o.ok && (ok ==> fuel == o.fuel)
    }

    // ------------------------------------------------------------------------- history

    /** Accepts exactly the histories that are a prefix of the chain with only the last row unsettled. */
    method Position() returns (r: Option<nat>)
      requires Distinct(chain)
      ensures r == PlanApply.Position(chain, history)
    {
      var pos := 0;
      for i := 0 to |chain.plans|
        invariant 0 <= pos <= i
        invariant forall j :: 0 <= j < pos ==> chain.plans[j].name in history && RowOf(chain, history, j)
        invariant forall j :: pos <= j < i ==> chain.plans[j].name !in history
      {
        var p := chain.plans[i];
        if p.name in history {
          var row := history[p.name];
          if row.to != p.to || row.from != p.From() || i != pos || row.state.Unknown? {
            RowRefused(chain, history, i, pos);
            return None;
          }
          pos := i + 1;
        }
      }
      if |history| != pos {
        CountRefused(chain, history, pos);
        return None;
      }
      var i := 0;
      while i + 1 < pos
        invariant 0 <= i <= pos
        invariant forall j :: 0 <= j < i ==> history[chain.plans[j].name].state.Settled()
      {
        if !history[chain.plans[i].name].state.Settled() {
          KeysArePrefix(chain, history, pos);
          UnsettledRefused(chain, history, i, pos);
          return None;
        }
        i := i + 1;
      }
      KeysArePrefix(chain, history, pos);
      PositionUnique(chain, history, pos);
      return Some(pos);
    }

    method Settled() returns (r: Option<nat>)
      requires Distinct(chain)
      ensures r == PlanApply.Settled(chain, Now())
    {
      var pos := Position();
      if pos.None? { return None; }
      var want := "";
      if pos.value > 0 {
        var p := chain.plans[pos.value - 1];
        if !history[p.name].state.Settled() { return None; }
        want := p.to;
      }
      if chain.hash(db) != want { return None; }
      return pos;
    }

    // --------------------------------------------------------------------------- writes

    method Record(j: nat, state: State, step: int) returns (ok: bool)
      requires j < |chain.plans|
      modifies this
      ensures ok == (old(fuel) > 0)
      ensures ok ==> Now() == PlanApply.Record(chain, old(Now()), j, state, step) && fuel == old(fuel) - 1
      ensures !ok ==> Now() == old(Now())
    {
      if fuel == 0 { return false; }
      var p := chain.plans[j];
      if p.name in history {
        history := history[p.name := history[p.name].(state := state, step := step)];
      } else {
        history := history[p.name := Row(p.From(), p.to, state, step)];
      }
      fuel := fuel - 1;
      return true;
    }

    /** Runs a statement and records its step: two writes, either of which can be the last. */
    method RunAndSetStep(j: nat, i: nat, back: bool, done: DB, step: int) returns (ok: bool)
      requires j < |chain.plans|
      modifies this
      ensures ok == (old(fuel) > 1)
      ensures ok ==>
                Now() == SetStep(chain, RunStatement(old(Now()), j, i, back, done), j, step) && fuel == old(fuel) - 2
      ensures !ok ==> Now() == if old(fuel) == 0 then old(Now()) else RunStatement(old(Now()), j, i, back, done)
    {
      if fuel == 0 { return false; }
      log := log + [Exec(j, i, back, db)];
      db := done;
      if fuel == 1 { return false; }
      var name := chain.plans[j].name;
      if name in history {
        history := history[name := history[name].(step := step)];
      }
      fuel := fuel - 2;
      return true;
    }

    // ---------------------------------------------------------------------------- loops

    method FinalizeStart(j: nat) returns (end: nat)
      requires j < |chain.plans|
      ensures end == chain.plans[j].End()
    {
      var steps := chain.plans[j].steps;
      end := 0;
      while end < |steps| && !steps[end].finalize
        invariant 0 <= end <= |steps|
        invariant chain.plans[j].End() == PlanApply.FinalizeStart(steps, end)
      {
        end := end + 1;
      }
    }

    method Forward(j: nat, start: nat) returns (ok: bool)
      requires j < |chain.plans|
      modifies this
      ensures Did(ok, PlanApply.Forward(chain, j, start, old(Now()), old(fuel)))
    {
      hide PlanApply.Forward;
      ghost var o := PlanApply.Forward(chain, j, start, Now(), fuel);
      var p := chain.plans[j];
      var end := FinalizeStart(j);
      var i := start;
      while i < end
        invariant start <= i
        invariant o == PlanApply.Forward(chain, j, i, Now(), fuel)
      {
        var done := p.steps[i].Attempt(db, false);
        ForwardTurn(chain, j, i, Now(), fuel);
        if done.None? { return false; }
        var written := RunAndSetStep(j, i, false, done.value, i + 1);
        if !written { return false; }
        i := i + 1;
      }
      ForwardLast(chain, j, i, Now(), fuel);
      if !chain.rowsOk(db) || chain.hash(db) != p.to { return false; }
      ok := Record(j, Applied, end);
    }

    method FinalizeFrom(j: nat, start: nat) returns (ok: bool)
      requires j < |chain.plans|
      modifies this
      ensures Did(ok, PlanApply.FinalizeFrom(chain, j, start, old(Now()), old(fuel)))
    {
      hide PlanApply.FinalizeFrom;
      ghost var o := PlanApply.FinalizeFrom(chain, j, start, Now(), fuel);
      var p := chain.plans[j];
      var i := start;
      while i < |p.steps|
        invariant start <= i
        invariant o == PlanApply.FinalizeFrom(chain, j, i, Now(), fuel)
      {
        var done := p.steps[i].statement(db);
        FinalizeTurn(chain, j, i, Now(), fuel);
        if done.None? { return false; }
        var written := RunAndSetStep(j, i, false, done.value, i + 1);
        if !written { return false; }
        i := i + 1;
      }
      FinalizeLast(chain, j, i, Now(), fuel);
      ok := Record(j, Done, |p.steps|);
    }

    method Backward(j: nat, start: nat) returns (ok: bool)
      requires j < |chain.plans| && start <= |chain.plans[j].steps|
      modifies this
      ensures Did(ok, PlanApply.Backward(chain, j, start, old(Now()), old(fuel)))
    {
      hide PlanApply.Backward;
      ghost var o := PlanApply.Backward(chain, j, start, Now(), fuel);
      var p := chain.plans[j];
      var i := start;
      while i > 0
        invariant 0 <= i <= start
        invariant o == PlanApply.Backward(chain, j, i, Now(), fuel)
      {
        var s := p.steps[i - 1];
        BackwardTurn(chain, j, i, Now(), fuel);
        if s.rollback.None? { return false; }
        var done := s.Attempt(db, true);
        if done.None? { return false; }
        var written := RunAndSetStep(j, i - 1, true, done.value, i - 1);
        if !written { return false; }
        i := i - 1;
      }
      BackwardLast(chain, j, Now(), fuel);
      if !chain.rowsOk(db) || chain.hash(db) != p.FromHash() || fuel == 0 { return false; }
      history := history - {p.name};
      fuel := fuel - 1;
      return true;
    }

    // ----------------------------------------------------------------------- operations

    method Apply() returns (ok: bool)
      requires Distinct(chain)
      modifies this
      ensures Did(ok, PlanApply.Apply(chain, old(Now()), old(fuel)))
    {
      hide PlanApply.Forward, PlanApply.Record, PlanApply.Settled, Distinct;
      var pos := Settled();
      if pos.None? { return false; }
      ghost var o := ApplyFrom(chain, pos.value, Now(), fuel);
      var i := pos.value;
      while i < |chain.plans|
        invariant o == ApplyFrom(chain, i, Now(), fuel)
      {
        var recorded := Record(i, Applying, 0);
        if !recorded { return false; }
        var applied := Forward(i, 0);
        if !applied { return false; }
        i := i + 1;
      }
      return true;
    }

    method Recover() returns (ok: bool)
      requires Distinct(chain)
      modifies this
      ensures Did(ok, PlanApply.Recover(chain, old(Now()), old(fuel)))
    {
      hide PlanApply.Forward, PlanApply.FinalizeFrom, Names;
      var pos := Position();
      if pos.None? { return false; }
      if pos.value == 0 { return true; }
      var j := pos.value - 1;
      var p := chain.plans[j];
      var row := history[p.name];
      if row.state.Settled() { return true; }
      var k := Resolve(p, row, db, true);
      if k.None? { return false; }
      if row.state.Finalizing? {
        ok := FinalizeFrom(j, k.value);
      } else {
        ok := Record(j, Applying, k.value);
        if ok { ok := Forward(j, k.value); }
      }
    }

    method Rollback() returns (ok: bool)
      requires Distinct(chain)
      modifies this
      ensures Did(ok, PlanApply.Rollback(chain, old(Now()), old(fuel)))
    {
      hide PlanApply.Backward, Names;
      var pos := Position();
      if pos.None? { return false; }
      if pos.value == 0 { return true; }
      var j := pos.value - 1;
      var p := chain.plans[j];
      var row := history[p.name];
      var k := 0;
      if row.state.Settled() {
        if row.step < 0 || row.step > |p.steps| || chain.hash(db) != p.to { return false; }
        k := row.step;
      } else {
        var resolved := Resolve(p, row, db, false);
        if resolved.None? { return false; }
        k := resolved.value;
      }
      if k > 0 && p.steps[k - 1].rollback.None? { return false; }
      ok := Record(j, RollingBack, k);
      if ok { ok := Backward(j, k); }
    }

    method Finalize() returns (ok: bool)
      requires Distinct(chain)
      modifies this
      ensures Did(ok, PlanApply.Finalize(chain, old(Now()), old(fuel)))
    {
      var pos := Settled();
      if pos.None? { return false; }
      var rows := history;
      hide FinalizeAll, PlanApply.FinalizeFrom, PlanApply.Record, PlanApply.Settled, IsPrefix;
      ghost var o := FinalizeAll(chain, rows, 0, pos.value, Now(), fuel);
      for i := 0 to pos.value
        invariant o == FinalizeAll(chain, rows, i, pos.value, Now(), fuel)
      {
        FinalizeNext(chain, rows, i, pos.value, Now(), fuel);
        if rows[chain.plans[i].name].state.Applied? {
          var start := FinalizeStart(i);
          var recorded := Record(i, Finalizing, start);
          if !recorded { return false; }
          var finalized := FinalizeFrom(i, start);
          if !finalized { return false; }
        }
      }
      FinalizeNext(chain, rows, pos.value, pos.value, Now(), fuel);
      return true;
    }
  }

  // ------------------------------------------------------------------------- one turn of each loop

  /** The outcome of a turn that cannot finish its two writes. */
  ghost function CutTurn<DB>(w: World<DB>, j: nat, i: nat, back: bool, done: Option<DB>, fuel: nat): Outcome<DB> {
    Stop(if fuel == 0 || done.None? then w else RunStatement(w, j, i, back, done.value))
  }

  lemma ForwardTurn<DB>(c: Chain<DB>, j: nat, i: nat, w: World<DB>, fuel: nat)
    requires j < |c.plans| && i < c.plans[j].End()
    ensures var done := c.plans[j].steps[i].Attempt(w.db, false);
            PlanApply.Forward(c, j, i, w, fuel) ==
            if done.None? || fuel <= 1 then CutTurn(w, j, i, false, done, fuel)
            else PlanApply.Forward(c, j, i + 1, SetStep(c, RunStatement(w, j, i, false, done.value), j, i + 1),
              fuel - 2)
  {
  }

  lemma ForwardLast<DB>(c: Chain<DB>, j: nat, i: nat, w: World<DB>, fuel: nat)
    requires j < |c.plans| && i >= c.plans[j].End()
    ensures PlanApply.Forward(c, j, i, w, fuel) ==
            if !c.rowsOk(w.db) || c.hash(w.db) != c.plans[j].to || fuel == 0 then Stop(w)
            else Outcome(Record(c, w, j, Applied, c.plans[j].End()), true, fuel - 1)
  {
  }

  lemma FinalizeTurn<DB>(c: Chain<DB>, j: nat, i: nat, w: World<DB>, fuel: nat)
    requires j < |c.plans| && i < |c.plans[j].steps|
    ensures var done := c.plans[j].steps[i].statement(w.db);
            PlanApply.FinalizeFrom(c, j, i, w, fuel) ==
            if done.None? || fuel <= 1 then CutTurn(w, j, i, false, done, fuel)
            else PlanApply.FinalizeFrom(c, j, i + 1, SetStep(c, RunStatement(w, j, i, false, done.value), j, i + 1),
              fuel - 2)
  {
  }

  lemma FinalizeLast<DB>(c: Chain<DB>, j: nat, i: nat, w: World<DB>, fuel: nat)
    requires j < |c.plans| && i >= |c.plans[j].steps|
    ensures PlanApply.FinalizeFrom(c, j, i, w, fuel) ==
            if fuel == 0 then Stop(w) else Outcome(Record(c, w, j, Done, |c.plans[j].steps|), true, fuel - 1)
  {
  }

  lemma FinalizeNext<DB>(c: Chain<DB>, rows: map<string, Row>, i: nat, m: nat, w: World<DB>, fuel: nat)
    requires i <= m <= |c.plans| && forall j :: 0 <= j < m ==> c.plans[j].name in rows
    ensures i == m ==> FinalizeAll(c, rows, i, m, w, fuel) == Outcome(w, true, fuel)
    ensures i < m && !rows[c.plans[i].name].state.Applied? ==>
              FinalizeAll(c, rows, i, m, w, fuel) == FinalizeAll(c, rows, i + 1, m, w, fuel)
    ensures i < m && rows[c.plans[i].name].state.Applied? && fuel == 0 ==>
              FinalizeAll(c, rows, i, m, w, fuel) == Stop(w)
    ensures i < m && rows[c.plans[i].name].state.Applied? && fuel > 0 ==>
              var o := PlanApply.FinalizeFrom(c, i, c.plans[i].End(), Record(c, w, i, Finalizing, c.plans[i].End()),
                fuel - 1);
              FinalizeAll(c, rows, i, m, w, fuel) == if o.ok then FinalizeAll(c, rows, i + 1, m, o.world, o.fuel) else o
  {
  }

  lemma BackwardTurn<DB>(c: Chain<DB>, j: nat, i: nat, w: World<DB>, fuel: nat)
    requires j < |c.plans| && 0 < i <= |c.plans[j].steps|
    ensures var s := c.plans[j].steps[i - 1];
            var done := if s.rollback.None? then None else s.Attempt(w.db, true);
            PlanApply.Backward(c, j, i, w, fuel) ==
            if done.None? || fuel <= 1 then CutTurn(w, j, i - 1, true, done, fuel)
            else PlanApply.Backward(c, j, i - 1, SetStep(c, RunStatement(w, j, i - 1, true, done.value), j, i - 1),
              fuel - 2)
  {
  }

  lemma BackwardLast<DB>(c: Chain<DB>, j: nat, w: World<DB>, fuel: nat)
    requires j < |c.plans|
    ensures PlanApply.Backward(c, j, 0, w, fuel) ==
            if !c.rowsOk(w.db) || c.hash(w.db) != c.plans[j].FromHash() || fuel == 0 then Stop(w)
            else Outcome(w.(history := w.history - {c.plans[j].name}), true, fuel - 1)
  {
  }

  // ------------------------------------------------------------------- why a history is refused

  lemma PrefixCovers<DB>(c: Chain<DB>, h: map<string, Row>, m: nat, i: nat)
    requires Distinct(c) && IsPrefix(c, h, m) && i < |c.plans| && c.plans[i].name in h
    ensures i < m
  {
    assert c.plans[i].name in Names(c, m);
    var j :| 0 <= j < m && c.plans[j].name == c.plans[i].name;
  }

  /** A row with other hashes or an unknown state, or one after a plan without a row. */
  lemma RowRefused<DB>(c: Chain<DB>, h: map<string, Row>, i: nat, pos: nat)
    requires Distinct(c) && pos <= i < |c.plans| && c.plans[i].name in h
    requires !RowOf(c, h, i) || (pos < i && c.plans[pos].name !in h)
    ensures Position(c, h).None?
  {
    forall m: nat
      ensures !IsPrefix(c, h, m)
    {
      if IsPrefix(c, h, m) { PrefixCovers(c, h, m, i); }
    }
  }

  lemma CountRefused<DB>(c: Chain<DB>, h: map<string, Row>, pos: nat)
    requires Distinct(c) && pos <= |c.plans| && |h| != pos
    requires forall j :: 0 <= j < pos ==> c.plans[j].name in h
    requires forall j :: pos <= j < |c.plans| ==> c.plans[j].name !in h
    ensures Position(c, h).None?
  {
    assert pos < |c.plans| ==> c.plans[pos].name !in h;
    assert pos > 0 ==> c.plans[pos - 1].name in h;
    forall m: nat
      ensures !IsPrefix(c, h, m)
    {
      if IsPrefix(c, h, m) {
        NamesSize(c, m);
        if pos > 0 { PrefixCovers(c, h, m, pos - 1); }
      }
    }
  }

  lemma KeysArePrefix<DB>(c: Chain<DB>, h: map<string, Row>, pos: nat)
    requires Distinct(c) && pos <= |c.plans| && |h| == pos
    requires forall j :: 0 <= j < pos ==> c.plans[j].name in h
    ensures h.Keys == Names(c, pos)
  {
    NamesSize(c, pos);
    assert Names(c, pos) <= h.Keys;
    SameSize(Names(c, pos), h.Keys);
  }

  lemma SameSize<T>(a: set<T>, b: set<T>)
    requires a <= b && |a| == |b|
    ensures a == b
  {
    assert |b - a| == |b| - |a|;
  }
}
