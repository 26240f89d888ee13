/**
  Callbacks inside a transaction: writes, nested blocks that run in savepoints, and the audit record that the first
  audited write inserts.  This is what a run leaves in the database, written without savepoints: a block that fails
  leaves nothing.
 */
module Transactions {
  import opened Common

  /** What a transaction has written so far, oldest first.  `first` marks the write that inserted the audit record. */
  datatype Effect =
    | Record(key: int)                                                                 // the audit record
    | Row(entity: string, key: int, generated: bool, audit: Option<int>, first: bool)  // an insert
    | Change(entity: string, audit: Option<int>, first: bool)                          // an update, delete or restore

  /** What the database answers to a write. */
  datatype Done = Done(affected: nat, key: int, generated: bool)

  /**
    A write of a callback.  `audited` is a write of an audited table; `record` is the key of the audit record if this
    write is the one to insert it, None when that insert fails; `result` is None when the write itself fails.
   */
  datatype Write = Write(insert: bool, entity: string, audited: bool, record: Option<int>, result: Option<Done>)

  /** A callback: `caught` errors do not end the enclosing block; a block may also fail by itself, after its body. */
  datatype Op =
    | Do(write: Write, caught: bool)
    | Block(body: seq<Op>, fails: bool, caught: bool)

  datatype Outcome = Outcome(log: seq<Effect>, ok: bool)

  /** The key of the audit record, if one is written. */
  function AuditOf(log: seq<Effect>): Option<int> {
    if log == [] then None
    else if AuditOf(log[..|log| - 1]).Some? then AuditOf(log[..|log| - 1])
    else if log[|log| - 1].Record? then Some(log[|log| - 1].key)
    else None
  }

  /** The generated inserts. */
  function Inserts(log: seq<Effect>): set<(string, int)> {
    set e | e in log && e.Row? && e.generated && e.entity != "" && e.key > 0 :: (e.entity, e.key)
  }

  function EffectsOf(w: Write, done: Done, audit: Option<int>, first: bool): seq<Effect> {
    if w.insert then [Row(w.entity, done.key, done.generated, audit, first)]
    else if done.affected > 0 then [Change(w.entity, audit, first)]
    else []
  }

  /** A write that needs no new record. */
  function Plain(log: seq<Effect>, w: Write, audit: Option<int>): Outcome {
    if w.result.None? then Outcome(log, false) else Outcome(log + EffectsOf(w, w.result.value, audit, false), true)
  }

  /** A write that inserts the record first; a record before an insert stays when the insert fails. */
  function WithRecord(log: seq<Effect>, w: Write, key: int): Outcome {
    if w.result.None? then Outcome(if w.insert then log + [Record(key)] else log, false)
    else if !w.insert && w.result.value.affected == 0 then Outcome(log, true)
    else Outcome(log + [Record(key)] + EffectsOf(w, w.result.value, Some(key), true), true)
  }

  function RunWrite(log: seq<Effect>, w: Write, pending: bool): Outcome {
    if !w.audited then Plain(log, w, None)
    else if AuditOf(log).Some? then Plain(log, w, AuditOf(log))
    else if !pending || w.record.None? then Outcome(log, false)
    else WithRecord(log, w, w.record.value)
  }

  function RunOps(log: seq<Effect>, ops: seq<Op>, pending: bool): Outcome
    decreases ops
  {
    if ops == [] then Outcome(log, true)
    else
      var first := RunOp(log, ops[0], pending);
      if !first.ok && !ops[0].caught then first else RunOps(first.log, ops[1..], pending)
  }

  function RunOp(log: seq<Effect>, op: Op, pending: bool): Outcome
    decreases op
  {
    match op
    case Do(w, _) => RunWrite(log, w, pending)
    case Block(body, fails, _) =>
      var r := RunOps(log, body, pending);
      if r.ok && !fails then r else Outcome(log, false)
  }

  // ------------------------------------------------------------------------------------- prefixes

  lemma WriteExtends(log: seq<Effect>, w: Write, pending: bool)
    ensures log <= RunWrite(log, w, pending).log
  {
  }

  lemma {:induction false} OpsExtend(log: seq<Effect>, ops: seq<Op>, pending: bool)
    ensures log <= RunOps(log, ops, pending).log
    decreases ops
  {
    if ops != [] {
      var first := RunOp(log, ops[0], pending);
      OpExtends(log, ops[0], pending);
      if first.ok || ops[0].caught { OpsExtend(first.log, ops[1..], pending); }
    }
  }

  lemma {:induction false} OpExtends(log: seq<Effect>, op: Op, pending: bool)
    ensures log <= RunOp(log, op, pending).log
    decreases op
  {
    match op
    case Do(w, _) => WriteExtends(log, w, pending);
    case Block(body, _, _) => OpsExtend(log, body, pending);
  }

  lemma AuditOfAppend(log: seq<Effect>, e: Effect)
    ensures AuditOf(log + [e]) == if AuditOf(log).Some? then AuditOf(log) else if e.Record? then Some(e.key) else None
  {
    assert (log + [e])[..|log|] == log;
  }

  lemma InsertsAppend(log: seq<Effect>, e: Effect)
    ensures Inserts(log + [e])
              == Inserts(log) + if e.Row? && e.generated && e.entity != "" && e.key > 0 then {(e.entity, e.key)} else {}
  {
    var more := log + [e];
    forall x | x in Inserts(log) ensures x in Inserts(more) {
      var f :| f in log && f.Row? && f.generated && f.entity != "" && f.key > 0 && x == (f.entity, f.key);
      assert f in more;
    }
    assert e in more;
  }

  // ------------------------------------------------------------------------------------- what survives

  /** The key that an effect carries. */
  function Carried(e: Effect): Option<int> {
    match e case Record(_) => None case Row(_, _, _, a, _) => a case Change(_, a, _) => a
  }

  /** At most one audit record, and every audited write carries its key. */
  predicate OneRecord(log: seq<Effect>) {
    && (forall i, j :: 0 <= i < j < |log| && log[i].Record? ==> !log[j].Record?)
    && (forall i :: 0 <= i < |log| && Carried(log[i]).Some? ==> Carried(log[i]) == AuditOf(log))
  }

  /** The effect at i is that of the write that inserted the record with this key. */
  predicate Opens(log: seq<Effect>, i: nat, key: int) {
    i < |log| && !log[i].Record? && log[i].first && Carried(log[i]) == Some(key)
  }

  /** The audit record is followed by the write that inserted it. */
  predicate Followed(log: seq<Effect>) {
    forall i :: 0 <= i < |log| && log[i].Record? ==> Opens(log, i + 1, log[i].key)
  }

  predicate Sound(log: seq<Effect>) { OneRecord(log) && Followed(log) }

  lemma {:induction false} AuditOfWhich(log: seq<Effect>)
    ensures AuditOf(log).None? ==> forall i :: 0 <= i < |log| ==> !log[i].Record?
    ensures AuditOf(log).Some? ==> exists i :: 0 <= i < |log| && log[i] == Record(AuditOf(log).value)
    decreases |log|
  {
    if log != [] {
      var n := |log| - 1;
      AuditOfWhich(log[..n]);
      if AuditOf(log[..n]).Some? {
        var i :| 0 <= i < n && log[..n][i] == Record(AuditOf(log[..n]).value);
        assert log[i] == log[..n][i];
      } else if log[n].Record? {
        assert log[n] == Record(AuditOf(log).value);
      }
      assert forall i :: 0 <= i < n ==> log[i] == log[..n][i];
    }
  }

  /** A write that inserts no record follows none that was not followed. */
  lemma AppendPlain(log: seq<Effect>, e: Effect)
    requires OneRecord(log) && !e.Record? && !e.first && (Carried(e).Some? ==> Carried(e) == AuditOf(log))
    ensures OneRecord(log + [e]) && AuditOf(log + [e]) == AuditOf(log)
    ensures Followed(log + [e]) <==> Followed(log)
  {
    hide AuditOf;
    AuditOfAppend(log, e);
    var more := log + [e];
    assert forall i :: 0 <= i < |log| ==> more[i] == log[i];
    forall i | 0 <= i < |log| && log[i].Record?
      ensures Opens(more, i + 1, log[i].key) <==> Opens(log, i + 1, log[i].key)
    {
    }
    if Followed(more) {
      forall i | 0 <= i < |log| && log[i].Record? ensures Opens(log, i + 1, log[i].key) { assert more[i].Record?; }
    }
  }

  /** The first record, followed by its write. */
  lemma AppendOpened(log: seq<Effect>, key: int, e: Effect)
    requires OneRecord(log) && AuditOf(log).None? && !e.Record? && e.first && Carried(e) == Some(key)
    ensures Sound(log + [Record(key)] + [e]) && AuditOf(log + [Record(key)] + [e]) == Some(key)
  {
    hide AuditOf;
    AuditOfWhich(log);
    AuditOfAppend(log, Record(key));
    AuditOfAppend(log + [Record(key)], e);
    var more := log + [Record(key)] + [e];
    assert forall i :: 0 <= i < |log| ==> more[i] == log[i];
    assert more[|log|] == Record(key) && more[|log| + 1] == e;
  }

  /** The first record, without its write. */
  lemma AppendStranded(log: seq<Effect>, key: int)
    requires OneRecord(log) && AuditOf(log).None?
    ensures OneRecord(log + [Record(key)]) && AuditOf(log + [Record(key)]) == Some(key)
    ensures !Followed(log + [Record(key)])
  {
    hide AuditOf;
    AuditOfWhich(log);
    AuditOfAppend(log, Record(key));
    var more := log + [Record(key)];
    assert forall i :: 0 <= i < |log| ==> more[i] == log[i];
    assert more[|log|].Record?;
  }

  // ------------------------------------------------------------------------------------- who inserted the record

  /**
    A run followed without the database: the write that inserted the surviving record, and whether the run succeeds.
   */
  datatype Made = Made(maker: Option<Write>, ok: bool)

  function MadeByWrite(maker: Option<Write>, w: Write, pending: bool): Made {
    if !w.audited || maker.Some? then Made(maker, w.result.Some?)
    else if !pending || w.record.None? then Made(None, false)
    else if w.result.None? then Made(if w.insert then Some(w) else None, false)
    else if !w.insert && w.result.value.affected == 0 then Made(None, true)
    else Made(Some(w), true)
  }

  function MadeByOps(maker: Option<Write>, ops: seq<Op>, pending: bool): Made
    decreases ops
  {
    if ops == [] then Made(maker, true)
    else
      var first := MadeByOp(maker, ops[0], pending);
      if !first.ok && !ops[0].caught then first else MadeByOps(first.maker, ops[1..], pending)
  }

  function MadeByOp(maker: Option<Write>, op: Op, pending: bool): Made
    decreases op
  {
    match op
    case Do(w, _) => MadeByWrite(maker, w, pending)
    case Block(body, fails, _) =>
      var m := MadeByOps(maker, body, pending);
      if m.ok && !fails then m else Made(maker, false)
  }

  /** The log holds the record of this write with its key, and is sound exactly when the write itself succeeded. */
  predicate Agrees(log: seq<Effect>, maker: Option<Write>) {
    && OneRecord(log) && AuditOf(log) == (if maker.Some? then maker.value.record else None)
    && (maker.Some? ==> maker.value.record.Some?)
    && (Followed(log) <==> (maker.Some? ==> maker.value.result.Some?))
  }

  lemma WriteAgrees(log: seq<Effect>, maker: Option<Write>, w: Write, pending: bool)
    requires Agrees(log, maker)
    ensures var r, m := RunWrite(log, w, pending), MadeByWrite(maker, w, pending);
            r.ok == m.ok && Agrees(r.log, m.maker)
  {
    hide OneRecord, Followed, AuditOf;
    if w.audited && maker.None? && pending && w.record.Some? {
      if w.result.None? && w.insert {
        AppendStranded(log, w.record.value);
      } else if w.result.Some? && (w.insert || w.result.value.affected > 0) {
        AppendOpened(log, w.record.value, EffectsOf(w, w.result.value, w.record, true)[0]);
      }
    } else if w.result.Some? && !(w.audited && maker.None?) {
      var effects := EffectsOf(w, w.result.value, if w.audited then AuditOf(log) else None, false);
      if effects == [] { assert log + [] == log; } else { AppendPlain(log, effects[0]); }
    }
  }

  lemma {:induction false} OpsAgree(log: seq<Effect>, maker: Option<Write>, ops: seq<Op>, pending: bool)
    requires Agrees(log, maker)
    ensures var r, m := RunOps(log, ops, pending), MadeByOps(maker, ops, pending);
            r.ok == m.ok && Agrees(r.log, m.maker)
    decreases ops
  {
    hide Agrees;
    if ops != [] {
      OpAgrees(log, maker, ops[0], pending);
      var first, made := RunOp(log, ops[0], pending), MadeByOp(maker, ops[0], pending);
      if first.ok || ops[0].caught { OpsAgree(first.log, made.maker, ops[1..], pending); }
    }
  }

  lemma {:induction false} OpAgrees(log: seq<Effect>, maker: Option<Write>, op: Op, pending: bool)
    requires Agrees(log, maker)
    ensures var r, m := RunOp(log, op, pending), MadeByOp(maker, op, pending); r.ok == m.ok && Agrees(r.log, m.maker)
    decreases op
  {
    hide Agrees;
    match op
    case Do(w, _) => WriteAgrees(log, maker, w, pending);
    case Block(body, _, _) => OpsAgree(log, maker, body, pending);
  }

  // ------------------------------------------------------------------------------------- what is committed

  /** A transaction commits its log when its callback does not fail, and nothing otherwise. */
  function Committed(ops: seq<Op>, pending: bool): seq<Effect> {
    var r := RunOps([], ops, pending);
    if r.ok then r.log else []
  }

  /** The surviving record is that of an insert that failed. */
  predicate Strands(ops: seq<Op>, pending: bool) {
    var m := MadeByOps(None, ops, pending);
    m.ok && m.maker.Some? && m.maker.value.result.None?
  }

  /** In every transaction at most one record survives, and every audited write that survives carries its key. */
  lemma CommittedHasOneRecord(ops: seq<Op>, pending: bool)
    ensures OneRecord(Committed(ops, pending))
  {
    hide RunOps, MadeByOps;
    OpsAgree([], None, ops, pending);
  }

  /** The record that survives is followed by the write that inserted it, exactly when that write did not fail. */
  lemma CommittedIsSound(ops: seq<Op>, pending: bool)
    ensures Sound(Committed(ops, pending)) <==> !Strands(ops, pending)
  {
    hide RunOps, MadeByOps;
    OpsAgree([], None, ops, pending);
    assert Sound([]);
  }

  /** The write, with its failure caught, is an operation of the callback or of a block in it. */
  predicate CaughtIn(w: Write, ops: seq<Op>)
    decreases ops
  {
    exists i :: 0 <= i < |ops| && CaughtAt(w, ops[i])
  }

  predicate CaughtAt(w: Write, op: Op)
    decreases op
  {
    op == Do(w, true) || (op.Block? && CaughtIn(w, op.body))
  }

  /** Only a callback that catches the failure of an audited insert strands a record. */
  lemma StrandingIsCaught(ops: seq<Op>, pending: bool)
    requires Strands(ops, pending)
    ensures var w := MadeByOps(None, ops, pending).maker.value;
            w.audited && w.insert && w.result.None? && CaughtIn(w, ops)
  {
    OpsCatch(None, ops, pending);
  }

  lemma {:induction false} OpsCatch(maker: Option<Write>, ops: seq<Op>, pending: bool)
    ensures var m := MadeByOps(maker, ops, pending);
            m.ok && m.maker != maker && m.maker.Some? && m.maker.value.result.None? ==>
              m.maker.value.audited && m.maker.value.insert && CaughtIn(m.maker.value, ops)
    decreases ops
  {
    hide CaughtAt;
    if ops != [] {
      var first, m := MadeByOp(maker, ops[0], pending), MadeByOps(maker, ops, pending);
      OpCatches(maker, ops[0], pending);
      if first.ok || ops[0].caught {
        OpsCatch(first.maker, ops[1..], pending);
        if m.maker.Some? && CaughtIn(m.maker.value, ops[1..]) {
          var i :| 0 <= i < |ops| - 1 && CaughtAt(m.maker.value, ops[1..][i]);
          assert CaughtAt(m.maker.value, ops[i + 1]);
        }
      }
    }
  }

  lemma {:induction false} OpCatches(maker: Option<Write>, op: Op, pending: bool)
    ensures var m := MadeByOp(maker, op, pending);
            (m.ok || op.caught) && m.maker != maker && m.maker.Some? && m.maker.value.result.None? ==>
              m.maker.value.audited && m.maker.value.insert && CaughtAt(m.maker.value, op)
    decreases op
  {
    hide CaughtIn;
    match op
    case Do(_, _) =>
    case Block(body, _, _) => OpsCatch(maker, body, pending);
  }

  // ------------------------------------------------------------------------------------- samples

  /** A failed audited insert, and an audited update. */
  const FAILED := Write(true, "t", true, Some(7), None)

  const UPDATE := Write(false, "t", true, Some(7), Some(Done(1, 0, false)))

  /** A callback that catches the failure of an audited insert commits a record that its write does not follow. */
  lemma CaughtInsertStrandsRecord()
    ensures Committed([Do(FAILED, true)], true) == [Record(7)] && !Sound([Record(7)])
    ensures Committed([Do(FAILED, true), Do(UPDATE, false)], true) == [Record(7), Change("t", Some(7), false)]
    ensures !Sound([Record(7), Change("t", Some(7), false)])
  {
    var failed, update := Do(FAILED, true), Do(UPDATE, false);
    assert [failed][1..] == [] && [failed, update][1..] == [update] && [update][1..] == [];
    var log := [Record(7)];
    assert AuditOf([]) == None && log[..0] == [] && AuditOf(log) == Some(7);
    assert [] + log == log;
    var more := [Record(7), Change("t", Some(7), false)];
    assert log + [Change("t", Some(7), false)] == more;
    assert RunOp([], failed, true) == Outcome(log, false);
    assert RunOp(log, update, true) == Outcome(more, true);
    assert RunOps(log, [], true) == Outcome(log, true) && RunOps(more, [], true) == Outcome(more, true);
    assert RunOps(log, [update], true) == Outcome(more, true);
    assert RunOps([], [failed, update], true) == Outcome(more, true);
    assert log[0].Record? && !Opens(log, 1, 7);
    assert more[0].Record? && !Opens(more, 1, 7);
  }

  /** Once a record is there, the same failure strands none. */
  lemma LaterCaughtInsertIsSound()
    ensures Committed([Do(UPDATE, false), Do(FAILED, true)], true) == [Record(7), Change("t", Some(7), true)]
    ensures Sound([Record(7), Change("t", Some(7), true)])
  {
    var failed, update := Do(FAILED, true), Do(UPDATE, false);
    assert [failed][1..] == [] && [update, failed][1..] == [failed];
    var log := [Record(7), Change("t", Some(7), true)];
    assert AuditOf([]) == None;
    assert [] + [Record(7)] + [Change("t", Some(7), true)] == log;
    assert RunOp([], update, true) == Outcome(log, true);
    AppendOpened([], 7, Change("t", Some(7), true));
    assert RunOp(log, failed, true) == Outcome(log, false);
    assert RunOps(log, [], true) == Outcome(log, true) && RunOps(log, [failed], true) == Outcome(log, true);
    assert RunOps([], [update, failed], true) == Outcome(log, true);
  }
}
