/**
  Which writes of a callback a transaction keeps, read off the callback: a write is kept when it succeeds, inserts a row
  or changes one, and lies in no block that fails.
 */
module TxWrites {
  import opened Common
  import opened Transactions

  /** The statement is one that leaves a trace: it inserted a row or changed one. */
  predicate Changes(w: Write) { w.result.Some? && (w.insert || w.result.value.affected > 0) }

  /** An audited write needs a record: one that is there, or one that it inserts itself. */
  predicate Succeeds(w: Write, recorded: bool, pending: bool) {
    w.result.Some? && (w.audited ==> recorded || (pending && w.record.Some?))
  }

  /** A block works when it does not fail by itself and every operation of its body works or is caught. */
  predicate Works(maker: Option<Write>, op: Op, pending: bool)
    decreases op
  {
    match op
    case Do(w, _) => Succeeds(w, maker.Some?, pending)
    case Block(body, fails, _) => !fails && AllWork(maker, body, pending)
  }

  predicate AllWork(maker: Option<Write>, ops: seq<Op>, pending: bool)
    decreases ops
  {
    ops != [] ==>
      && (ops[0].caught || Works(maker, ops[0], pending))
      && AllWork(MadeByOp(maker, ops[0], pending).maker, ops[1..], pending)
  }

  lemma {:induction false} AllWorkExactly(maker: Option<Write>, ops: seq<Op>, pending: bool)
    ensures MadeByOps(maker, ops, pending).ok <==> AllWork(maker, ops, pending)
    decreases ops
  {
    if ops != [] {
      WorksExactly(maker, ops[0], pending);
      AllWorkExactly(MadeByOp(maker, ops[0], pending).maker, ops[1..], pending);
    }
  }

  lemma {:induction false} WorksExactly(maker: Option<Write>, op: Op, pending: bool)
    ensures MadeByOp(maker, op, pending).ok <==> Works(maker, op, pending)
    decreases op
  {
    if op.Block? { AllWorkExactly(maker, op.body, pending); }
  }

  /** The writes that the operations keep, in order, when `maker` inserted the record before them. */
  function Surviving(maker: Option<Write>, ops: seq<Op>, pending: bool): seq<Write>
    decreases ops
  {
    if ops == [] then []
    else
      SurvivingOf(maker, ops[0], pending)
        + if ops[0].caught || Works(maker, ops[0], pending)
          then Surviving(MadeByOp(maker, ops[0], pending).maker, ops[1..], pending) else []
  }

  function SurvivingOf(maker: Option<Write>, op: Op, pending: bool): seq<Write>
    decreases op
  {
    match op
    case Do(w, _) => if Works(maker, op, pending) && Changes(w) then [w] else []
    case Block(body, _, _) => if Works(maker, op, pending) then Surviving(maker, body, pending) else []
  }

  /** The log without the audit record. */
  function Writes(log: seq<Effect>): seq<Effect> {
    if log == [] then [] else (if log[0].Record? then [] else [log[0]]) + Writes(log[1..])
  }

  /** The effect of the write: its kind, its table, the key of its row, and a record exactly when it is audited. */
  predicate IsEffectOf(e: Effect, w: Write) {
    match e
    case Record(_) => false
    case Row(entity, key, generated, audit, _) =>
      && w.insert && entity == w.entity && (audit.Some? <==> w.audited)
      && w.result.Some? && key == w.result.value.key && generated == w.result.value.generated
    case Change(entity, audit, _) => !w.insert && entity == w.entity && (audit.Some? <==> w.audited)
  }

  /** One effect for each write, in order. */
  predicate Shows(es: seq<Effect>, ws: seq<Write>) {
    |es| == |ws| && forall i :: 0 <= i < |es| ==> IsEffectOf(es[i], ws[i])
  }

  lemma ShowsConcat(a: seq<Effect>, b: seq<Effect>, v: seq<Write>, w: seq<Write>)
    requires Shows(a, v) && Shows(b, w)
    ensures Shows(a + b, v + w)
  {
    hide IsEffectOf;
  }

  lemma {:induction false} WritesConcat(a: seq<Effect>, b: seq<Effect>)
    ensures Writes(a + b) == Writes(a) + Writes(b)
    decreases |a|
  {
    if a == [] {
      assert a + b == b;
    } else {
      assert (a + b)[0] == a[0] && (a + b)[1..] == a[1..] + b;
      WritesConcat(a[1..], b);
    }
  }

  lemma WritesOfOne(e: Effect)
    ensures Writes([e]) == if e.Record? then [] else [e]
  {
    assert [e][1..] == [];
  }

  lemma WriteSucceeds(log: seq<Effect>, w: Write, pending: bool)
    ensures RunWrite(log, w, pending).ok <==> Succeeds(w, AuditOf(log).Some?, pending)
  {
    hide AuditOf;
  }

  lemma RecordShows(key: int)
    ensures Shows(Writes([Record(key)]), [])
  {
    WritesOfOne(Record(key));
  }

  lemma OneShows(e: Effect, w: Write)
    requires IsEffectOf(e, w)
    ensures Shows(Writes([e]), [w])
  {
    WritesOfOne(e);
  }

  lemma BothShow(key: int, e: Effect, w: Write)
    requires IsEffectOf(e, w)
    ensures Shows(Writes([Record(key), e]), [w])
  {
    OneShows(e, w);
    assert [Record(key), e][1..] == [e];
  }

  /** What a write that inserts the record adds. */
  lemma RecordDelta(log: seq<Effect>, w: Write, key: int)
    ensures log <= WithRecord(log, w, key).log
    ensures var delta := WithRecord(log, w, key).log[|log|..];
            if Changes(w) then delta == [Record(key), EffectsOf(w, w.result.value, Some(key), true)[0]]
            else delta == [] || delta == [Record(key)]
  {
    var all := WithRecord(log, w, key).log;
    if Changes(w) {
      assert all == log + ([Record(key)] + EffectsOf(w, w.result.value, Some(key), true));
    }
  }

  /** What any other write adds. */
  lemma PlainDelta(log: seq<Effect>, w: Write, audit: Option<int>)
    ensures log <= Plain(log, w, audit).log
    ensures var delta := Plain(log, w, audit).log[|log|..];
            delta == if Changes(w) then [EffectsOf(w, w.result.value, audit, false)[0]] else []
  {
  }

  /** A write adds its effect when it succeeds and changes a row, and no other effect in any case. */
  lemma WriteShows(log: seq<Effect>, w: Write, pending: bool)
    ensures log <= RunWrite(log, w, pending).log
    ensures Shows(Writes(RunWrite(log, w, pending).log[|log|..]),
                  if Succeeds(w, AuditOf(log).Some?, pending) && Changes(w) then [w] else [])
  {
    hide AuditOf, Writes, Shows, Plain, WithRecord;
    NothingShows();
    var audit := AuditOf(log);
    if !w.audited || audit.Some? {
      var a := if w.audited then audit else None;
      PlainDelta(log, w, a);
      if Changes(w) { OneShows(EffectsOf(w, w.result.value, a, false)[0], w); }
    } else if !pending || w.record.None? {
      assert log[|log|..] == [];
    } else {
      var key := w.record.value;
      RecordDelta(log, w, key);
      RecordShows(key);
      if Changes(w) { BothShow(key, EffectsOf(w, w.result.value, Some(key), true)[0], w); }
    }
  }

  lemma {:induction false} OpsShow(log: seq<Effect>, maker: Option<Write>, ops: seq<Op>, pending: bool)
    requires Agrees(log, maker)
    ensures log <= RunOps(log, ops, pending).log
    ensures Shows(Writes(RunOps(log, ops, pending).log[|log|..]), Surviving(maker, ops, pending))
    decreases ops
  {
    hide Agrees, Shows, Writes, SurvivingOf, RunOp, MadeByOp, Works;
    OpsExtend(log, ops, pending);
    if ops == [] {
      NothingShows();
      assert log[|log|..] == [];
    } else {
      var first := RunOp(log, ops[0], pending);
      OpShows(log, maker, ops[0], pending);
      OpAgrees(log, maker, ops[0], pending);
      WorksExactly(maker, ops[0], pending);
      var one := first.log[|log|..];
      if first.ok || ops[0].caught {
        OpsShow(first.log, MadeByOp(maker, ops[0], pending).maker, ops[1..], pending);
        var all := RunOps(first.log, ops[1..], pending).log;
        var more := all[|first.log|..];
        assert all[|log|..] == one + more;
        WritesConcat(one, more);
        ShowsConcat(Writes(one), Writes(more), SurvivingOf(maker, ops[0], pending),
          Surviving(MadeByOp(maker, ops[0], pending).maker, ops[1..], pending));
      } else {
        assert SurvivingOf(maker, ops[0], pending) + [] == SurvivingOf(maker, ops[0], pending);
      }
    }
  }

  lemma NothingShows()
    ensures Shows(Writes([]), [])
  {
  }

  lemma {:induction false} OpShows(log: seq<Effect>, maker: Option<Write>, op: Op, pending: bool)
    requires Agrees(log, maker)
    ensures log <= RunOp(log, op, pending).log
    ensures Shows(Writes(RunOp(log, op, pending).log[|log|..]), SurvivingOf(maker, op, pending))
    decreases op
  {
    match op
    case Do(w, _) =>
      hide Shows, Writes, RunWrite, OneRecord, Followed;
      WriteShows(log, w, pending);
    case Block(body, fails, _) =>
      hide Agrees, Shows, Writes, Surviving, RunOps, MadeByOps, AllWork;
      OpsShow(log, maker, body, pending);
      OpsAgree(log, maker, body, pending);
      AllWorkExactly(maker, body, pending);
      NothingShows();
      assert log[|log|..] == [];
  }

  // ------------------------------------------------------------------------------------- generated keys

  /** An insert that reports a generated key of a named entity. */
  predicate Generates(w: Write, entity: string, key: int) {
    && w.insert && w.entity == entity && entity != ""
    && w.result.Some? && w.result.value.generated && w.result.value.key == key && key > 0
  }

  predicate GeneratedIn(ws: seq<Write>, entity: string, key: int) {
    exists i :: 0 <= i < |ws| && Generates(ws[i], entity, key)
  }

  lemma {:induction false} WritesHold(log: seq<Effect>, e: Effect)
    ensures e in Writes(log) <==> e in log && !e.Record?
    decreases |log|
  {
    if log != [] {
      WritesHold(log[1..], e);
      assert log == [log[0]] + log[1..];
    }
  }

  /** The generated keys of a log are those of the writes that it shows. */
  lemma ShownKeys(log: seq<Effect>, ws: seq<Write>, entity: string, key: int)
    requires Shows(Writes(log), ws)
    ensures (entity, key) in Inserts(log) <==> GeneratedIn(ws, entity, key)
  {
    hide Writes;
    var es := Writes(log);
    if (entity, key) in Inserts(log) {
      var e :| e in log && e.Row? && e.generated && e.entity != "" && e.key > 0 && (e.entity, e.key) == (entity, key);
      WritesHold(log, e);
      var i :| 0 <= i < |es| && es[i] == e;
      assert Generates(ws[i], entity, key);
    }
    if i :| 0 <= i < |ws| && Generates(ws[i], entity, key) {
      WritesHold(log, es[i]);
      assert es[i] in es && es[i] in log;
    }
  }

  /** The writes that a transaction commits; one whose callback fails commits none. */
  function CommittedWrites(ops: seq<Op>, pending: bool): seq<Write> {
    if AllWork(None, ops, pending) then Surviving(None, ops, pending) else []
  }

  lemma RunKeys(ops: seq<Op>, pending: bool)
    ensures forall entity, key ::
              (entity, key) in Inserts(RunOps([], ops, pending).log) <==>
                GeneratedIn(Surviving(None, ops, pending), entity, key)
  {
    hide Shows, Writes, Surviving, RunOps, Inserts, GeneratedIn;
    RunShows(ops, pending);
    forall entity, key
      ensures (entity, key) in Inserts(RunOps([], ops, pending).log) <==>
                GeneratedIn(Surviving(None, ops, pending), entity, key)
    {
      ShownKeys(RunOps([], ops, pending).log, Surviving(None, ops, pending), entity, key);
    }
  }

  lemma RunShows(ops: seq<Op>, pending: bool)
    ensures Shows(Writes(RunOps([], ops, pending).log), Surviving(None, ops, pending))
    ensures RunOps([], ops, pending).ok <==> AllWork(None, ops, pending)
  {
    hide Shows, Writes, Surviving, RunOps, MadeByOps, AllWork;
    AllWorkExactly(None, ops, pending);
    NoRecordYet();
    OpsAgree([], None, ops, pending);
    OpsShow([], None, ops, pending);
    var log := RunOps([], ops, pending).log;
    assert log[0..] == log;
  }

  /** Beside the audit record, a transaction commits the effects of its surviving writes, in order, and no others. */
  lemma CommittedShowsWrites(ops: seq<Op>, pending: bool)
    ensures Shows(Writes(Committed(ops, pending)), CommittedWrites(ops, pending))
  {
    hide Shows, Writes, Surviving, RunOps, AllWork;
    RunShows(ops, pending);
    NothingShows();
  }

  lemma NoRecordYet()
    ensures Agrees([], None)
  {
  }
}
