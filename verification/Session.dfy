/**
  The session of a transaction: what it leaves on the connection and whether its work is kept, whichever of its
  statements fail.  A connection ends discarded, or handed back to the pool.
 */
module Session {

  datatype Driver = Mysql | Postgres | Sqlite

  /** A statement succeeds, fails without an effect, or takes effect although it is reported as failed. */
  datatype Fate = Fine | Lost | Late

  /** The options of a transaction: `leveled` when an isolation level is given, `uncommitted` when it is the weakest. */
  datatype Options = Options(readOnly: bool, leveled: bool, uncommitted: bool, timeout: bool)

  /** What the server keeps for the session; `nextLevel` is an isolation level set for the next transaction. */
  datatype Server = Server(
    open: bool, held: multiset<string>, vars: set<string>, readsUncommitted: bool, queryOnly: bool, nextLevel: bool)

  /** Where the connection is: in use, closed for good, or back in the pool. */
  datatype Place = InUse | Discarded | Returned

  /**
    What the server makes of the work of the transaction.  Work that it has given up can no longer be kept, although the
    transaction is still open.
   */
  datatype Work = NotBegun | Pending | GivenUp | Kept | Undone

  /**
    What a callback can do to the session.  A failed statement that the callback catches may end a SQLite transaction,
    and makes PostgreSQL give one up.
   */
  datatype Use = TakeLock(key: string) | SetValue(key: string) | Cancel | EndedBySqlite | GivenUpByPostgres

  /**
    What statements left on a MySQL session although they were reported as failed, so that the client does not know of
    it: locks and variables.  `known` are the variables that the client knows of.
   */
  datatype Left = Left(locks: multiset<string>, vars: set<string>, known: set<string>)

  const NOTHING := Left(multiset{}, {}, {})

  function Names(keys: seq<string>): set<string> { set k | k in keys }

  /** The session holds the locks that the client knows of and the stray ones. */
  ghost predicate Holds(held: multiset<string>, locks: seq<string>, stray: multiset<string>) {
    held == multiset(locks) + stray
  }

  /** The session carries the variables that the client knows of and the stray ones. */
  ghost predicate Carries(vars: set<string>, known: seq<string>, stray: set<string>) {
    vars == Names(known) + stray
  }

  lemma OneMore(held: multiset<string>, locks: seq<string>, stray: multiset<string>, key: string)
    requires Holds(held, locks, stray)
    ensures Holds(held + multiset{key}, locks + [key], stray)
    ensures Holds(held + multiset{key}, locks, stray + multiset{key})
  {
    assert multiset(locks + [key]) == multiset(locks) + multiset{key};
  }

  lemma OneLess(held: multiset<string>, locks: seq<string>, stray: multiset<string>)
    requires locks != []
    ensures Holds(held, locks, stray) ==> Holds(held - multiset{locks[0]}, locks[1..], stray)
  {
    assert locks == [locks[0]] + locks[1..];
  }

  lemma NoLocks(held: multiset<string>, stray: multiset<string>)
    ensures Holds(held, [], stray) ==> held == stray
  {
  }

  lemma OneMoreVar(vars: set<string>, known: seq<string>, stray: set<string>, key: string)
    ensures Names(known + [key]) == Names(known) + {key} && (key in known ==> Names(known) == Names(known) + {key})
    ensures Carries(vars, known, stray) ==>
              && Carries(vars + {key}, known + [key], stray) && (key in known ==> Carries(vars + {key}, known, stray))
              && Carries(vars + {key}, known, stray + {key})
  {
    assert Names(known + [key]) == Names(known) + {key};
  }

  class Connection {
    const driver: Driver
    const options: Options
    const script: nat -> Fate       // the fate of each statement in turn
    var at: nat

    // What the client keeps.
    var sqliteMode: bool
    var locks: seq<string>
    var locals: seq<string>
    var unclean: bool
    var finished: bool
    var canceled: bool

    var server: Server
    var work: Work
    var place: Place

    // What the client does not know of.
    ghost var strayLocks: multiset<string>
    ghost var strayVars: set<string>

    constructor (driver: Driver, options: Options, script: nat -> Fate)
      requires options.uncommitted ==> options.leveled
      ensures Valid() && !finished && !sqliteMode && !canceled && work.NotBegun?
      ensures server == Server(false, multiset{}, {}, false, false, false)
      ensures at == 0 && strayLocks == multiset{} && strayVars == {} && locals == []
      ensures this.driver == driver && this.options == options && this.script == script
    {
      this.driver, this.options, this.script := driver, options, script;
      at, sqliteMode, locks, locals, unclean, finished, canceled := 0, false, [], [], false, false, false;
      server, work, place := Server(false, multiset{}, {}, false, false, false), NotBegun, InUse;
      strayLocks, strayVars := multiset{}, {};
    }

    /** Everything that outlives the transaction on the server is known to the client, or stray. */
    ghost predicate Valid()
      reads this
    {
      && Holds(server.held, locks, strayLocks) && Carries(server.vars, Reset(), strayVars)
      && (driver != Mysql ==> locks == [] && strayLocks == multiset{} && strayVars == {})
      && ModeTracked()
      && place.InUse?
    }

    /** The variables that the end of the transaction resets on the server. */
    ghost function Reset(): seq<string>
      reads this
    {
      if driver == Mysql then locals else []
    }

    ghost predicate Idle()
      reads this
    {
      server.held == multiset{} && server.vars == {} && !server.readsUncommitted && !server.queryOnly
    }

    /** Nothing of the transaction is left. */
    ghost predicate Clean()
      reads this
    {
      !server.open && Idle()
    }

    /** The connection is discarded, or handed back with nothing left on it. */
    ghost predicate Ended()
      reads this
    {
      finished && (place.Discarded? || (place.Returned? && Clean()))
    }

    /** The connection is discarded, or handed back with nothing left on it but what is stray. */
    ghost predicate Over()
      reads this
    {
      && finished && !place.InUse?
      && (place.Returned? ==>
            !server.open && server == Server(false, strayLocks, strayVars, false, false, server.nextLevel))
    }

    method Exec() returns (f: Fate)
      modifies this`at
      ensures f == script(old(at)) && at == old(at) + 1
    {
      f := script(at);
      at := at + 1;
    }

    /** All statements from n on succeed. */
    ghost predicate FineFrom(n: nat) {
      forall k :: k >= n ==> script(k).Fine?
    }

    lemma FineLater(n: nat, k: nat)
      requires n <= k
      ensures FineFrom(n) ==> FineFrom(k)
    {
    }

    // ---------------------------------------------------------------------------------- locks and locals

    /** Takes a named lock; a lock whose statement is reported as failed is not one that the client knows. */
    method Lock(key: string) returns (ok: bool)
      requires Valid()
      modifies this`at, this`server, this`locks, this`strayLocks
      ensures Valid() && server == old(server).(held := server.held) && at == old(at) + 1
      ensures ok <==> script(old(at)).Fine?
      ensures strayLocks == if driver == Mysql && script(old(at)).Late? then old(strayLocks) + multiset{key}
                            else old(strayLocks)
    {
      hide Holds, Carries;
      var f := Exec();
      if driver == Mysql && f.Late? { TakeStray(key); }
      if driver == Mysql && f.Fine? { TakeKnown(key); }
      return f.Fine?;
    }

    method TakeKnown(key: string)
      requires Valid() && driver == Mysql
      modifies this`server, this`locks
      ensures Valid() && server == old(server).(held := server.held)
    {
      hide Holds, Carries;
      OneMore(server.held, locks, strayLocks, key);
      server, locks := server.(held := server.held + multiset{key}), locks + [key];
    }

    method TakeStray(key: string)
      requires Valid() && driver == Mysql
      modifies this`server, this`strayLocks
      ensures Valid() && server == old(server).(held := server.held) && strayLocks == old(strayLocks) + multiset{key}
    {
      hide Holds, Carries;
      OneMore(server.held, locks, strayLocks, key);
      server, strayLocks := server.(held := server.held + multiset{key}), strayLocks + multiset{key};
    }

    method SetLocal(key: string) returns (ok: bool)
      requires Valid()
      modifies this`at, this`server, this`locals, this`strayVars
      ensures Valid() && server == old(server).(vars := server.vars) && at >= old(at)
      ensures driver == Mysql ==> at == old(at) + 1 && (ok <==> script(old(at)).Fine?)
      ensures driver == Mysql ==>
                Names(locals) == if script(old(at)).Fine? then Names(old(locals)) + {key} else Names(old(locals))
      ensures strayVars == if driver == Mysql && script(old(at)).Late? then old(strayVars) + {key} else old(strayVars)
    {
      hide Holds, Carries;
      OneMoreVar(server.vars, locals, strayVars, key);
      var f := Fine;
      if driver != Sqlite { f := Exec(); }
      if driver == Mysql && !f.Lost? {
        server := server.(vars := server.vars + {key});
        if f.Late? { strayVars := strayVars + {key}; }
      }
      if f.Fine? && key !in locals { locals := locals + [key]; }
      return f.Fine?;
    }

    /** Releases every lock once; a lock taken twice is released twice. */
    method ReleaseLocks() returns (ok: bool)
      modifies this`locks, this`server, this`at
      ensures locks == []
      ensures server == old(server).(held := server.held)
      ensures ok && old(Holds(server.held, locks, strayLocks)) ==> server.held == strayLocks
      ensures at >= old(at) && (FineFrom(old(at)) ==> ok)
    {
      hide Holds;
      var keys := locks;
      locks := [];
      ok := true;
      assert keys[0..] == keys;
      for i := 0 to |keys|
        invariant locks == []
        invariant server == old(server).(held := server.held)
        invariant ok && old(Holds(server.held, locks, strayLocks)) ==> Holds(server.held, keys[i..], strayLocks)
        invariant at >= old(at) && (FineFrom(old(at)) ==> ok)
      {
        assert keys[i..] == [keys[i]] + keys[i + 1..];
        OneLess(server.held, keys[i..], strayLocks);
        var f := Exec();
        if !f.Fine? { ok := false; }
        if !f.Lost? { server := server.(held := server.held - multiset{keys[i]}); }
      }
      assert keys[|keys|..] == [];
      NoLocks(server.held, strayLocks);
    }

    /** Resets the variables that the client knows of; a stray variable of the same name is reset with them. */
    method ClearLocals() returns (ok: bool)
      modifies this`locals, this`server, this`at, this`strayVars
      ensures server == old(server).(vars := server.vars) && strayVars == old(strayVars) - Names(old(Reset()))
      ensures ok && old(Carries(server.vars, Reset(), strayVars)) ==> server.vars == strayVars
      ensures at >= old(at) && (FineFrom(old(at)) ==> ok)
    {
      var keys := locals;
      locals := [];
      strayVars := strayVars - Names(old(Reset()));
      if driver != Mysql { return true; }
      ok := true;
      for i := 0 to |keys|
        invariant server == old(server).(vars := server.vars)
        invariant strayVars == old(strayVars) - Names(keys)
        invariant ok ==> server.vars == old(server).vars - Names(keys[..i])
        invariant at >= old(at) && (FineFrom(old(at)) ==> ok)
      {
        assert keys[..i + 1] == keys[..i] + [keys[i]];
        var f := Exec();
        if !f.Fine? { ok := false; }
        if !f.Lost? { server := server.(vars := server.vars - {keys[i]}); }
      }
      assert keys[..|keys|] == keys;
    }

    // ---------------------------------------------------------------------------------- SQLite mode

    /** Marks the mode before the first statement, so that a partly applied mode is reverted. */
    method BeginSqliteMode() returns (ok: bool)
      requires Valid() && driver == Sqlite && !sqliteMode
      modifies this`sqliteMode, this`server, this`at
      ensures Valid()
      ensures server == old(server).(readsUncommitted := server.readsUncommitted, queryOnly := server.queryOnly)
      ensures at >= old(at) && (FineFrom(old(at)) ==> ok)
    {
      sqliteMode := options.uncommitted || options.readOnly;
      if options.uncommitted {
        var f := Exec();
        if !f.Lost? { server := server.(readsUncommitted := true); }
        if !f.Fine? { return false; }
      }
      if options.readOnly {
        var f := Exec();
        if !f.Lost? { server := server.(queryOnly := true); }
        if !f.Fine? { return false; }
      }
      return true;
    }

    /** Every mode that is set is one that the client reverts. */
    ghost predicate ModeTracked()
      reads this
    {
      && (server.readsUncommitted ==> sqliteMode && options.uncommitted)
      && (server.queryOnly ==> sqliteMode && options.readOnly)
    }

    /** Reverts the mode; both statements are attempted, and only once. */
    method FinishSqliteMode() returns (ok: bool)
      modifies this`sqliteMode, this`server, this`at
      ensures !sqliteMode
      ensures server == old(server).(readsUncommitted := server.readsUncommitted, queryOnly := server.queryOnly)
      ensures ok && old(ModeTracked()) ==> !server.readsUncommitted && !server.queryOnly
      ensures at >= old(at) && (FineFrom(old(at)) ==> ok)
    {
      if !sqliteMode { return true; }
      sqliteMode := false;
      ok := true;
      if options.readOnly {
        var f := Exec();
        if !f.Lost? { server := server.(queryOnly := false); }
        if !f.Fine? { ok := false; }
      }
      if options.uncommitted {
        var f := Exec();
        if !f.Lost? { server := server.(readsUncommitted := false); }
        if !f.Fine? { ok := false; }
      }
    }

    // ---------------------------------------------------------------------------------- the end

    /** Discards the connection unless it is already handed back; the server undoes work that is not kept. */
    method CloseSession()
      modifies this`place, this`work
      ensures place == if old(place).InUse? then Discarded else old(place)
      ensures work == if old(place).InUse? && !old(work).Kept? then Undone else old(work)
    {
      if place.InUse? {
        place := Discarded;
        if !work.Kept? { work := Undone; }
      }
    }

    /** Hands the connection back unless it is discarded. */
    method Close()
      modifies this`place
      ensures place == if old(place).InUse? then Returned else old(place)
    {
      if place.InUse? { place := Returned; }
    }

    method RollbackNative() returns (ok: bool)
      modifies this`server, this`work, this`at
      ensures server == old(server).(open := server.open) && (ok ==> !server.open)
      ensures work == if old(server).open && !server.open then Undone else old(work)
      ensures FineFrom(old(at)) ==> ok
    {
      // SQLite may have ended the transaction by itself after an error.
      if !server.open { return true; }
      var f := Exec();
      if !f.Lost? { server, work := server.(open := false), Undone; }
      return f.Fine?;
    }

    /** Work is pending while a transaction is open, and undone once it has ended otherwise than by a commit. */
    ghost predicate Tracked()
      reads this
    {
      if server.open then work.Pending? || work.GivenUp? else work.Undone?
    }

    /**
      Reverts the mode, releases the locks, clears the locals and rolls back, attempting all of them.  `closed` tells
      whether the prepared statements closed, and `hook` whether the rollback hook was removed.
     */
    method Rollback(closed: bool, hook: bool)
      requires !finished ==> place.InUse? && (Valid() || unclean)
      modifies this
      ensures !old(finished) ==> Over()
      ensures !old(finished) && old(Tracked()) ==> work.Undone?
      ensures old(finished) ==> finished && place == old(place) && server == old(server)
      ensures !old(finished) && (old(unclean) || (driver != Sqlite && old(canceled))) ==> place.Discarded?
      ensures !old(finished) && !old(unclean) && !(driver != Sqlite && old(canceled)) && closed && hook
              && FineFrom(old(at))
              ==> place.Returned?
      ensures server.nextLevel == old(server).nextLevel
      ensures strayLocks == old(strayLocks)
      ensures place.Returned? && !old(finished) ==> strayVars == old(strayVars) - Names(old(Reset()))
    {
      hide Holds, Carries, FineFrom;
      if finished { return; }
      if canceled {
        if driver != Sqlite {
          finished := true;
          CloseSession();
          return;
        }
        canceled := false;
      }
      RollBackOpen(closed, hook);
    }

    /** Rolls back on a session whose statements still run. */
    method RollBackOpen(closed: bool, hook: bool)
      requires !finished && place.InUse? && (Valid() || unclean)
      modifies this
      ensures Over() && (old(Tracked()) ==> work.Undone?)
      ensures old(unclean) ==> place.Discarded?
      ensures !old(unclean) && closed && hook && FineFrom(old(at)) ==> place.Returned?
      ensures server.nextLevel == old(server).nextLevel && strayLocks == old(strayLocks)
      ensures place.Returned? ==> strayVars == old(strayVars) - Names(old(Reset()))
    {
      hide Holds, Carries, FineFrom;
      var clean := CleanUp();
      FineLater(old(at), at);
      finished := true;
      var native := RollbackNative();
      if unclean || !clean || !closed || !native || !hook { CloseSession(); }
      Close();
    }

    /** Reverts the mode, releases the locks and clears the locals, attempting all of them. */
    method CleanUp() returns (ok: bool)
      modifies this`sqliteMode, this`locks, this`locals, this`server, this`at, this`strayVars
      ensures strayVars == old(strayVars) - Names(old(Reset()))
      ensures server.open == old(server).open && server.nextLevel == old(server).nextLevel
      ensures ok && old(Valid()) ==>
                server == Server(server.open, strayLocks, strayVars, false, false, server.nextLevel)
      ensures at >= old(at) && (FineFrom(old(at)) ==> ok)
    {
      hide Holds, Carries, FineFrom;
      var mode := FinishSqliteMode();
      FineLater(old(at), at);
      var released := ReleaseLocks();
      FineLater(old(at), at);
      var cleared := ClearLocals();
      return mode && released && cleared;
    }

    /** A commit keeps the work unless the server gave it up, and fails when SQLite has ended the transaction. */
    method CommitNative() returns (ok: bool)
      modifies this`server, this`work, this`at
      ensures server == old(server).(open := server.open) && (ok ==> !server.open)
      ensures FineFrom(old(at)) && old(server).open ==> ok
      ensures ok ==> old(server).open
      ensures work == if !old(server).open || server.open then old(work)
                      else if old(work).Pending? then Kept else Undone
    {
      var f := Exec();
      if !server.open { return false; }
      if !f.Lost? { server, work := server.(open := false), if work.Pending? then Kept else Undone; }
      return f.Fine?;
    }

    /** Commits after the cleanup; a cleanup that fails marks the session and rolls back. */
    method Commit(closed: bool, hook: bool) returns (ok: bool)
      requires !finished ==> Valid()
      modifies this
      ensures !old(finished) ==> Over()
      ensures ok ==> !old(finished) && place.Returned?
      ensures !old(finished) && !old(canceled) && closed && hook && FineFrom(old(at)) && old(server).open ==> ok
      ensures !old(finished) && old(Tracked()) ==> work.Kept? || work.Undone?
      ensures !old(finished) && old(Tracked()) && work.Kept? ==> old(work).Pending?
      ensures old(Tracked()) && (ok || (work.Kept? && !old(finished))) ==> !old(canceled) && old(server).open
      ensures ok && old(Tracked()) ==> work == if old(work).Pending? then Kept else Undone
      ensures server.nextLevel == old(server).nextLevel
      ensures strayLocks == old(strayLocks)
      ensures place.Returned? && !old(finished) ==> strayVars == old(strayVars) - Names(old(Reset()))
    {
      hide Holds, Carries, FineFrom;
      if finished { return false; }
      if canceled {
        Rollback(closed, hook);
        return false;
      }
      var clean := CleanUpToFailure();
      if !clean {
        unclean := true;
        Rollback(closed, hook);
        return false;
      }
      FineLater(old(at), at);
      var native := CommitNative();
      if !native { CloseSession(); }
      Close();
      finished := true;
      return native && closed && hook;
    }

    /** Reverts the mode, releases the locks and clears the locals, up to the first that fails. */
    method CleanUpToFailure() returns (ok: bool)
      modifies this`sqliteMode, this`locks, this`locals, this`server, this`at, this`strayVars
      ensures server.nextLevel == old(server).nextLevel && server.open == old(server).open
      ensures ok ==> strayVars == old(strayVars) - Names(old(Reset()))
      ensures ok && old(Valid()) ==>
                server == Server(server.open, strayLocks, strayVars, false, false, server.nextLevel)
      ensures at >= old(at) && (FineFrom(old(at)) ==> ok)
    {
      hide Holds, Carries, FineFrom;
      ok := FinishSqliteMode();
      if !ok { return; }
      FineLater(old(at), at);
      ok := ReleaseLocks();
      if !ok { return; }
      FineLater(old(at), at);
      ok := ClearLocals();
    }

    // ---------------------------------------------------------------------------------- the start

    predicate Leveled() { driver == Mysql && options.leveled }

    /** The number of statements that open a MySQL transaction. */
    function Opening(): nat { if Leveled() then 2 else 1 }

    /** The statements up to the one that begins the transaction succeed. */
    predicate Begins(n: nat) {
      if Leveled() then script(n).Fine? && script(n + 1).Fine? else script(n).Fine?
    }

    /** The transaction begins although its statement is reported as failed. */
    predicate OpensLate(n: nat) {
      if Leveled() then script(n).Fine? && script(n + 1).Late? else script(n).Late?
    }

    /** The isolation level is set, and no transaction takes it. */
    predicate LeavesLevel(n: nat) {
      Leveled() && (script(n).Late? || (script(n).Fine? && script(n + 1).Lost?))
    }

    /**
      Opens the transaction.  Once the transaction has begun, a later failure rolls it back; `watch` tells whether the
      rollback hook was set.  A failure before that hands the connection back before it is to be discarded.
     */
    method Begin(watch: bool, closed: bool, hook: bool) returns (ok: bool, began: bool)
      requires Valid() && Idle() && !server.open && !finished && !server.nextLevel && !sqliteMode
      requires strayLocks == multiset{} && strayVars == {} && locals == [] && work.NotBegun?
      modifies this
      ensures ok ==> strayLocks == multiset{} && strayVars == {} && locals == []
      ensures ok ==> work.Pending? && canceled == old(canceled) && at >= old(at)
      ensures began && !ok ==> work.Undone?
      ensures !began ==> work == if server.open then Pending else NotBegun
      ensures FineFrom(old(at)) && watch ==> ok
      ensures driver == Mysql && Begins(old(at)) ==> ok && at == old(at) + Opening() && canceled == old(canceled)
      ensures ok ==> began && Valid() && server.open && !finished
      ensures !ok && began ==> Ended()
      ensures began <==> Begins(old(at))
      ensures began ==> !server.nextLevel
      ensures !began ==> !ok && finished && place.Returned? && Idle()
      ensures !began ==> server.open == OpensLate(old(at)) && server.nextLevel == LeavesLevel(old(at))
    {
      began := false;
      if driver == Mysql && options.leveled {
        var f := Exec();
        if !f.Lost? { server := server.(nextLevel := true); }
        if !f.Fine? {
          HandBack();
          return false, false;
        }
      }
      var f := Exec();
      if !f.Lost? { server, work := server.(open := true, nextLevel := false), Pending; }
      if !f.Fine? {
        HandBack();
        return false, false;
      }
      began := true;
      if driver == Postgres && options.timeout {
        var g := Exec();
        if !g.Fine? {
          Rollback(closed, hook);
          return false, true;
        }
      }
      if driver == Sqlite {
        if !watch {
          Rollback(closed, hook);
          return false, true;
        }
        var mode := BeginSqliteMode();
        if !mode {
          Rollback(closed, hook);
          return false, true;
        }
      }
      return true, true;
    }

    /** The end of a failed start: the connection is closed first, so there is nothing left to discard. */
    method HandBack()
      requires place.InUse?
      modifies this`finished, this`place, this`work
      ensures finished && place.Returned? && work == old(work)
    {
      finished := true;
      Close();
      CloseSession();
    }

    /** What one use leaves behind on a MySQL session when the statement at n is the next. */
    function FollowOne(n: nat, u: Use, left: Left): Left {
      match u
      case TakeLock(key) => if script(n).Late? then left.(locks := left.locks + multiset{key}) else left
      case SetValue(key) =>
        if script(n).Late? then left.(vars := left.vars + {key})
        else if script(n).Fine? then left.(known := left.known + {key})
        else left
      case _ => left
    }

    /** What the uses leave behind on a MySQL session when the statement at n is the next. */
    function Follow(n: nat, uses: seq<Use>, left: Left): Left
      decreases |uses|
    {
      if uses == [] then left
      else
        var u := uses[0];
        Follow(if u.TakeLock? || u.SetValue? then n + 1 else n, uses[1..], FollowOne(n, u, left))
    }

    /** The locks and variables that a transaction leaves on a connection that it hands back. */
    function Strays(n: nat, uses: seq<Use>): Left {
      if driver != Mysql then NOTHING else
      var left := Follow(n + Opening(), uses, NOTHING);
      Left(left.locks, left.vars - left.known, {})
    }

    /** SQLite has ended the transaction. */
    predicate EndedIn(uses: seq<Use>) { driver == Sqlite && EndedBySqlite in uses }

    /** PostgreSQL has given the transaction up. */
    predicate GivenUpIn(uses: seq<Use>) { driver == Postgres && GivenUpByPostgres in uses }

    /** What the client and the server make of one use. */
    method RunUse(u: Use)
      requires Valid() && !finished
      modifies this`at, this`server, this`work, this`locks, this`locals, this`canceled, this`strayLocks, this`strayVars
      ensures Valid() && server.nextLevel == old(server).nextLevel && at >= old(at)
      ensures server.open == (old(server).open && !(driver == Sqlite && u.EndedBySqlite?))
      ensures canceled == (old(canceled) || u.Cancel?)
      ensures work == if driver == Sqlite && u.EndedBySqlite? then Undone
                      else if driver == Postgres && u.GivenUpByPostgres? then GivenUp
                      else old(work)
      ensures driver == Mysql ==> at == if u.TakeLock? || u.SetValue? then old(at) + 1 else old(at)
      ensures driver == Mysql ==>
                Left(strayLocks, strayVars, Names(locals))
                  == FollowOne(old(at), u, Left(old(strayLocks), old(strayVars), Names(old(locals))))
    {
      hide Holds, Carries, Names;
      match u {
        case TakeLock(key) => var _ := Lock(key);
        case SetValue(key) => var _ := SetLocal(key);
        case Cancel => canceled := true;
        case EndedBySqlite => if driver == Sqlite { server, work := server.(open := false), Undone; }
        case GivenUpByPostgres => if driver == Postgres { work := GivenUp; }
      }
    }

    method RunUses(uses: seq<Use>)
      requires Valid() && !finished
      modifies this`at, this`server, this`work, this`locks, this`locals, this`canceled, this`strayLocks, this`strayVars
      ensures Valid() && server.nextLevel == old(server).nextLevel && at >= old(at)
      ensures server.open == (old(server).open && !EndedIn(uses))
      ensures canceled == (old(canceled) || Cancel in uses)
      ensures work == if EndedIn(uses) then Undone else if GivenUpIn(uses) then GivenUp else old(work)
      ensures driver == Mysql ==>
                Follow(old(at), uses, Left(old(strayLocks), old(strayVars), Names(old(locals))))
                  == Left(strayLocks, strayVars, Names(locals))
    {
      hide Holds, Carries, Valid, FollowOne;
      ghost var all := Follow(at, uses, Left(strayLocks, strayVars, Names(locals)));
      assert uses[0..] == uses;
      for i := 0 to |uses|
        invariant Valid() && server.nextLevel == old(server).nextLevel && at >= old(at)
        invariant server.open == (old(server).open && !EndedIn(uses[..i]))
        invariant canceled == (old(canceled) || Cancel in uses[..i])
        invariant work == if EndedIn(uses[..i]) then Undone else if GivenUpIn(uses[..i]) then GivenUp else old(work)
        invariant driver == Mysql ==> all == Follow(at, uses[i..], Left(strayLocks, strayVars, Names(locals)))
      {
        assert uses[i..][0] == uses[i] && uses[i..][1..] == uses[i + 1..];
        assert uses[..i + 1] == uses[..i] + [uses[i]];
        RunUse(uses[i]);
      }
      assert uses[|uses|..] == [] && uses[..|uses|] == uses;
    }

    /**
      A whole transaction: it opens, its callback does anything that leaves a trace on the session, and it commits or
      rolls back.  Once it has begun, the connection ends discarded, or handed back with exactly the stray locks and
      variables on it, whichever statements fail.
     */
    method RunTransaction(uses: seq<Use>, succeeds: bool, watch: bool, closed: bool, hook: bool) returns (ok: bool)
      requires Valid() && Idle() && !server.open && !finished && !server.nextLevel && !sqliteMode
      requires strayLocks == multiset{} && strayVars == {} && locals == [] && work.NotBegun?
      modifies this
      ensures finished && (ok ==> Begins(old(at)) && place.Returned?)
      ensures Begins(old(at)) ==> work.Kept? || work.Undone?
      ensures ok || work.Kept? ==> succeeds && Begins(old(at)) && !old(canceled) && Cancel !in uses && !EndedIn(uses)
      ensures work.Kept? ==> !GivenUpIn(uses)
      ensures ok && !GivenUpIn(uses) ==> work.Kept?
      ensures FineFrom(old(at)) && watch && closed && hook && succeeds && !old(canceled) && Cancel !in uses
              && !EndedIn(uses)
              ==> ok
      ensures Begins(old(at)) && place.Returned? ==>
                server == Server(false, Strays(old(at), uses).locks, Strays(old(at), uses).vars, false, false, false)
      ensures Begins(old(at)) ==> (Ended() <==> place.Discarded? || Strays(old(at), uses) == NOTHING)
      ensures !Begins(old(at)) ==> place.Returned? && Idle() && (Ended() <==> !OpensLate(old(at)))
      ensures !Begins(old(at)) ==> (server.nextLevel <==> LeavesLevel(old(at)))
    {
      hide Holds, Carries, FineFrom, Follow;
      var started, began := Begin(watch, closed, hook);
      if !started { return false; }
      assert Left(strayLocks, strayVars, Names(locals)) == NOTHING;
      FineLater(old(at), at);
      label started:
      RunUses(uses);
      FineLater(old@started(at), at);
      if !succeeds {
        Rollback(closed, hook);
        return false;
      }
      ok := Commit(closed, hook);
    }
  }

  /**
    A callback that catches a failed statement on PostgreSQL and returns is told that its transaction committed, while
    the server, which had given the transaction up, undid its work.
   */
  method CaughtFailureLosesWork() returns (c: Connection, ok: bool)
    ensures fresh(c) && ok && c.work.Undone?
  {
    c := new Connection(Postgres, Options(false, false, false, false), (n: nat) => Fine);
    ok := c.RunTransaction([GivenUpByPostgres], true, true, true, true);
  }

  /**
    A lock or a variable whose statement takes effect and is reported as failed stays on the connection that a committed
    transaction hands back to the pool.
   */
  method LateLockIsHandedBack(variable: bool) returns (c: Connection)
    ensures fresh(c) && c.finished && c.place.Returned? && !c.server.open
    ensures if variable then c.server.vars == {"k"} else c.server.held == multiset{"k"}
  {
    c := new Connection(Mysql, Options(false, false, false, false), (n: nat) => if n == 1 then Late else Fine);
    var ok, began := c.Begin(true, true, true);
    if variable { var done := c.SetLocal("k"); } else { var done := c.Lock("k"); }
    ok := c.Commit(true, true);
  }

  /**
    A MySQL transaction with an isolation level whose start fails hands the connection back with that level set for
    whatever transaction comes next on it.
   */
  method FailedStartLeavesLevel() returns (c: Connection)
    ensures fresh(c) && c.place.Returned? && c.server.nextLevel
  {
    c := new Connection(Mysql, Options(false, true, false, false), (n: nat) => if n == 0 then Fine else Lost);
    var ok, began := c.Begin(true, true, true);
  }

  /**
    A BEGIN that takes effect and is reported as failed, as when a subscriber to statement events returns an error after
    the statement, hands the connection back to the pool with its transaction open.
   */
  method FailedStartLeavesTransaction() returns (c: Connection)
    ensures fresh(c) && c.finished && c.place.Returned? && c.server.open
  {
    c := new Connection(Postgres, Options(false, false, false, false), (n: nat) => Late);
    var ok, began := c.Begin(true, true, true);
  }
}
