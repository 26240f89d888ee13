/**
  The transaction connection: counters and caches that it keeps in step with the database through savepoints.  It is
  proved to leave in the database what `Transactions` says, and its caches to be functions of what is there.
 */
module TxConn {
  import opened Common
  import opened Transactions
  import opened TxWrites

  datatype Name = Sp(n: nat) | AuditPoint

  /** An open savepoint of the database: its name and the length of the log when it was set. */
  datatype Mark = Mark(name: Name, at: nat)

  /** The innermost savepoint with a name. */
  function Last(marks: seq<Mark>, name: Name): Option<nat> {
    if marks == [] then None
    else if marks[|marks| - 1].name == name then Some(|marks| - 1)
    else Last(marks[..|marks| - 1], name)
  }

  lemma LastAppended(marks: seq<Mark>, m: Mark)
    ensures Last(marks + [m], m.name) == Some(|marks|)
  {
  }

  class Connection {
    const pending: bool
    var savepoints: nat
    var audit: Option<int>
    var inserted: set<(string, int)>
    var log: seq<Effect>
    var marks: seq<Mark>

    constructor (pending: bool)
      ensures Valid() && log == [] && marks == [] && this.pending == pending
    {
      this.pending, savepoints, audit, inserted, log, marks := pending, 0, None, {}, [], [];
    }

    /** The caches are what the log says, and the open savepoints are numbered by depth. */
    ghost predicate Valid()
      reads this
    {
      && audit == AuditOf(log) && inserted == Inserts(log)
      && |marks| == savepoints && forall i :: 0 <= i < |marks| ==> marks[i].name == Sp(i + 1) && marks[i].at <= |log|
    }

    // The database's side of the savepoint statements.

    method SetSavepoint(name: Name)
      modifies this`marks
      ensures marks == old(marks) + [Mark(name, |log|)]
    {
      marks := marks + [Mark(name, |log|)];
    }

    method RollbackTo(name: Name)
      requires Last(marks, name).Some? && Last(marks, name).value < |marks|
      requires marks[Last(marks, name).value].at <= |log|
      modifies this`log, this`marks
      ensures log == old(log)[..old(marks)[Last(old(marks), name).value].at]
      ensures marks == old(marks)[..Last(old(marks), name).value + 1]
    {
      var i := Last(marks, name).value;
      log := log[..marks[i].at];
      marks := marks[..i + 1];
    }

    method Release(name: Name)
      requires Last(marks, name).Some? && Last(marks, name).value < |marks|
      modifies this`marks
      ensures marks == old(marks)[..Last(old(marks), name).value]
    {
      marks := marks[..Last(marks, name).value];
    }

    // The client.

    method RecordInserted(entity: string, key: int)
      modifies this`inserted
      ensures inserted == old(inserted) + if entity != "" && key > 0 then {(entity, key)} else {}
    {
      if entity == "" || key <= 0 { return; }
      inserted := inserted + {(entity, key)};
    }

    method InsertRecord(key: int)
      modifies this`log, this`audit
      ensures log == old(log) + [Record(key)] && audit == Some(key)
    {
      log := log + [Record(key)];
      audit := Some(key);
    }

    /** The record precedes the first audited write; `guarded` is a record inside a savepoint of its own. */
    method AuditFor(w: Write) returns (ok: bool, guarded: bool)
      requires Valid()
      modifies this`log, this`marks, this`audit
      ensures ok <==> !w.audited || old(audit).Some? || (pending && w.record.Some?)
      ensures guarded <==> ok && w.audited && old(audit).None? && !w.insert
      ensures !ok || !w.audited || old(audit).Some? ==> log == old(log) && marks == old(marks) && audit == old(audit)
      ensures ok && w.audited && old(audit).None? ==> log == old(log) + [Record(w.record.value)] && audit == w.record
      ensures marks == if guarded then old(marks) + [Mark(AuditPoint, |old(log)|)] else old(marks)
    {
      if !w.audited || audit.Some? { return true, false; }
      if !pending { return false, false; }
      if w.insert {
        if w.record.None? { return false, false; }
        InsertRecord(w.record.value);
        return true, false;
      }
      LastAppended(marks, Mark(AuditPoint, |log|));
      SetSavepoint(AuditPoint);
      if w.record.None? {
        RollbackTo(AuditPoint);
        Release(AuditPoint);
        assert marks == old(marks) && log == old(log);
        return false, false;
      }
      InsertRecord(w.record.value);
      return true, true;
    }

    /** A record that no changed row followed is rolled back. */
    method Settle(affected: nat, ok: bool, ghost before: seq<Mark>)
      requires |marks| == |before| + 1 && marks == before + [Mark(AuditPoint, marks[|before|].at)]
      requires marks[|before|].at <= |log|
      modifies this`log, this`marks, this`audit
      ensures marks == before
      ensures ok && affected > 0 ==> log == old(log) && audit == old(audit)
      ensures !(ok && affected > 0) ==> log == old(log)[..old(marks)[|before|].at] && audit == None
    {
      LastAppended(before, marks[|before|]);
      if ok && affected > 0 {
        Release(AuditPoint);
      } else {
        audit := None;
        RollbackTo(AuditPoint);
        assert marks == before + [Mark(AuditPoint, old(marks)[|before|].at)];
        Release(AuditPoint);
      }
    }

    method RunWrite(w: Write) returns (ok: bool)
      requires Valid()
      modifies this
      ensures Valid() && savepoints == old(savepoints) && marks == old(marks)
      ensures Outcome(log, ok) == Transactions.RunWrite(old(log), w, pending)
      ensures ok <==> Succeeds(w, old(audit).Some?, pending)
      ensures old(log) <= log && Shows(Writes(log[|old(log)|..]), if ok && Changes(w) then [w] else [])
    {
      hide AuditOf, Inserts, Shows, Writes;
      WriteSucceeds(log, w, pending);
      WriteShows(log, w, pending);
      var auditBefore := audit;
      var ready, guarded := AuditFor(w);
      if !ready { return false; }
      var carried := if w.audited then audit else None;
      var first := w.audited && auditBefore.None?;
      assert old(audit) == AuditOf(old(log));
      ok := w.result.Some?;
      var affected := if ok then w.result.value.affected else 0;
      if ok {
        var done := w.result.value;
        if w.insert {
          log := log + [Row(w.entity, done.key, done.generated, carried, first)];
        } else if affected > 0 {
          log := log + [Change(w.entity, carried, first)];
        }
      }
      if guarded { Settle(affected, ok, old(marks)); }
      if ok && w.insert && w.result.value.generated { RecordInserted(w.entity, w.result.value.key); }
      Kept(old(log), w, pending);
      assert Outcome(log, ok) == Transactions.RunWrite(old(log), w, pending);
    }

    /** A nested block: what it wrote and cached is undone unless it returns. */
    method Savepoint(body: seq<Op>, fails: bool) returns (ok: bool)
      requires Valid()
      modifies this
      ensures Valid() && savepoints == old(savepoints) && marks == old(marks)
      ensures Outcome(log, ok) == RunOp(old(log), Block(body, fails, false), pending)
      decreases body, 1
    {
      hide AuditOf, Inserts, Transactions.RunOps;
      var insertedBefore, auditBefore := inserted, audit;
      savepoints := savepoints + 1;
      var name := Sp(savepoints);
      SetSavepoint(name);
      ok := RunOps(body);
      OpsExtend(old(log), body, pending);
      LastAppended(old(marks), Mark(name, |old(log)|));
      if !ok || fails {
        ok := false;
        inserted := insertedBefore;
        RollbackTo(name);
        assert marks == old(marks) + [Mark(name, |old(log)|)];
        Release(name);
        audit := auditBefore;
        assert log == old(log);
      } else {
        Release(name);
      }
      assert marks == old(marks);
      savepoints := savepoints - 1;
    }

    /** A callback: the first error that is not caught ends it. */
    method RunOps(ops: seq<Op>) returns (ok: bool)
      requires Valid()
      modifies this
      ensures Valid() && savepoints == old(savepoints) && marks == old(marks)
      ensures Outcome(log, ok) == Transactions.RunOps(old(log), ops, pending)
      ensures old(log) == [] ==> Shows(Writes(log), Surviving(None, ops, pending))
      ensures old(log) == [] ==> (ok <==> AllWork(None, ops, pending))
      ensures old(log) == [] ==> forall entity, key ::
                (entity, key) in inserted <==> GeneratedIn(Surviving(None, ops, pending), entity, key)
      decreases ops, 0
    {
      hide AuditOf, Inserts, Transactions.RunWrite, Shows, Writes, Surviving, AllWork, GeneratedIn;
      if log == [] {
        RunShows(ops, pending);
        RunKeys(ops, pending);
      }
      for i := 0 to |ops|
        invariant Valid() && savepoints == old(savepoints) && marks == old(marks)
        invariant Transactions.RunOps(old(log), ops, pending) == Transactions.RunOps(log, ops[i..], pending)
      {
        assert ops[i..][0] == ops[i] && ops[i..][1..] == ops[i + 1..];
        match ops[i] {
          case Do(w, caught) => ok := RunWrite(w);
          case Block(body, fails, caught) => ok := Savepoint(body, fails);
        }
        if !ok && !ops[i].caught { return false; }
      }
      assert ops[|ops|..] == [];
      return true;
    }
  }

  /** The caches after a write: the record it inserted, and the row it generated. */
  lemma Kept(log: seq<Effect>, w: Write, pending: bool)
    ensures var r := Transactions.RunWrite(log, w, pending);
            && AuditOf(r.log) == (if AuditOf(log).Some? || r.log == log || !w.audited then AuditOf(log) else w.record)
            && Inserts(r.log) == Inserts(log)
                 + if r.ok && w.insert && w.result.value.generated && w.entity != "" && w.result.value.key > 0
                   then {(w.entity, w.result.value.key)} else {}
  {
    hide AuditOf, Inserts;
    var r := Transactions.RunWrite(log, w, pending);
    assert log + [] == log;
    if w.audited && AuditOf(log).None? && pending && w.record.Some? {
      var rec := Record(w.record.value);
      AuditOfAppend(log, rec);
      InsertsAppend(log, rec);
      if w.result.Some? {
        var done := w.result.value;
        var e := EffectsOf(w, Done(1, done.key, done.generated), w.record, true)[0];
        AuditOfAppend(log + [rec], e);
        InsertsAppend(log + [rec], e);
      }
    } else if w.result.Some? {
      var done := w.result.value;
      var a := if w.audited then AuditOf(log) else None;
      var e := EffectsOf(w, Done(1, done.key, done.generated), a, false)[0];
      AuditOfAppend(log, e);
      InsertsAppend(log, e);
    }
  }
}
