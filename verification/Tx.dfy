/**
The transaction driver and the transactional client, over the database connection.
*/
module Transactions {
  import opened TxModel
  import opened Wrappers

  /** The database behind a client. */
  class Database {
    var committed: seq<nat>
    var begun: nat

    constructor ()
      ensures committed == [] && begun == 0
    {
      committed, begun := [], 0;
    }

    method Begin(answers: Answers) returns (tx: RawTx)
      modifies this`begun
      ensures begun == old(begun) + 1
      ensures fresh(tx) && tx.db == this && tx.answers == answers
      ensures tx.sent == tx.executed == [] && tx.phase == Open
    {
      begun := begun + 1;
      tx := new RawTx(this, answers);
    }
  }

  /** A transaction of the database, which may refuse any statement, the commit and the rollback. */
  class RawTx {
    const db: Database
    const answers: Answers
    var sent: seq<nat>
    var executed: seq<nat>
    var phase: Phase

    constructor (db: Database, answers: Answers)
      ensures this.db == db && this.answers == answers && sent == executed == [] && phase == Open
    {
      this.db, this.answers, sent, executed, phase := db, answers, [], [], Open;
    }

    method Run(stmt: nat) returns (err: Option<Error>)
      modifies this`sent, this`executed
      ensures old(phase) != Open ==> err == Some(TxDone) && sent == old(sent) && executed == old(executed)
      ensures old(phase) == Open ==>
                && err == RefusalError(answers.statement(old(sent), stmt)) && sent == old(sent) + [stmt]
                && executed == if err.None? then old(executed) + [stmt] else old(executed)
    {
      if phase != Open { return Some(TxDone); }
      err := RefusalError(answers.statement(sent, stmt));
      sent := sent + [stmt];
      if err.None? { executed := executed + [stmt]; }
    }

    method End(ending: Ending) returns (err: Option<Error>)
      modifies this`phase, db`committed
      ensures old(phase) != Open ==> err == Some(TxDone) && phase == old(phase) && db.committed == old(db.committed)
      ensures old(phase) == Open ==>
                && err == RefusalError(if ending == Commit then answers.commit(sent) else answers.rollback(sent))
                && (ending == Commit && err.None? ==>
                      phase == Committed && db.committed == old(db.committed) + executed)
                && (ending != Commit || err.Some? ==> phase == RolledBack && db.committed == old(db.committed))
    {
      if phase != Open { return Some(TxDone); }
      if ending == Commit {
        err := RefusalError(answers.commit(sent));
      } else {
        err := RefusalError(answers.rollback(sent));
      }
      if ending == Commit && err.None? {
        db.committed := db.committed + executed;
        phase := Committed;
      } else {
        phase := RolledBack;
      }
    }
  }

  /** The driver that builders of a transactional client use. It hands itself out as the transaction, and its own
      Commit, Rollback and Close do nothing. */
  class TxDriver {
    const drv: Database
    const tx: RawTx
    var onCommit: seq<Hook>
    var onRollback: seq<Hook>

    constructor (drv: Database, tx: RawTx)
      ensures this.drv == drv && this.tx == tx && onCommit == [] && onRollback == []
    {
      this.drv, this.tx, onCommit, onRollback := drv, tx, [], [];
    }

    method BeginTx() returns (tx: TxDriver)
      ensures tx == this
    {
      return this;
    }

    method Commit() returns (err: Option<Error>)
      ensures err == None
    {
      return None;
    }

    method Rollback() returns (err: Option<Error>)
      ensures err == None
    {
      return None;
    }

    method Close() returns (err: Option<Error>)
      ensures err == None
    {
      return None;
    }

    method Exec(stmt: nat) returns (err: Option<Error>)
      modifies tx`sent, tx`executed
      ensures tx.phase != Open ==>
                err == Some(TxDone) && tx.sent == old(tx.sent) && tx.executed == old(tx.executed)
      ensures tx.phase == Open ==>
                && err == RefusalError(tx.answers.statement(old(tx.sent), stmt)) && tx.sent == old(tx.sent) + [stmt]
                && tx.executed == if err.None? then old(tx.executed) + [stmt] else old(tx.executed)
    {
      err := tx.Run(stmt);
    }
  }

  datatype Driver = Plain(db: Database) | Transactional(txDriver: TxDriver)

  class Client {
    const driver: Driver

    constructor (driver: Driver)
      ensures this.driver == driver
    {
      this.driver := driver;
    }

    /** Starts a transaction, unless the client is itself transactional or the database has no transaction to give.
        `memory` is what the program's hooks remember so far. */
    method StartTx(unavailable: bool, answers: Answers, memory: Memory) returns (r: Result<Tx, Error>)
      modifies if driver.Plain? then {driver.db} else {}
      ensures driver.Transactional? ==> r == Failure(TxStarted)
      ensures driver.Plain? && unavailable ==>
                && r == Failure(StartFailed) && driver.db.begun == old(driver.db.begun)
                && driver.db.committed == old(driver.db.committed)
      ensures driver.Plain? && !unavailable ==>
                && r.Success? && fresh(r.value) && r.value.Valid() && r.value.driver.drv == driver.db
                && fresh(r.value.driver) && fresh(r.value.driver.tx)
                && r.value.Snapshot() ==
                   State(answers, old(driver.db.committed), old(driver.db.begun) + 1, [], [], Open, memory, [], [])
    {
      if driver.Transactional? { return Failure(TxStarted); }
      if unavailable { return Failure(StartFailed); }
      var raw := driver.db.Begin(answers);
      var txDriver := new TxDriver(driver.db, raw);
      var tx := new Tx(txDriver, memory);
      return Success(tx);
    }
  }

  /** A committer or a rollbacker, as the closures of the code are: the end of the underlying transaction, or a hook
      that was called with the next one. */
  class Ender {
    const ending: Ending
    const hook: Option<Hook>
    const next: Ender?
    /** The hooks that it runs, the outermost first. */
    ghost const hooks: seq<Hook>

    constructor Base(ending: Ending)
      ensures Valid() && this.ending == ending && hooks == []
    {
      this.ending, hook, next, hooks := ending, None, null, [];
    }

    constructor Wrap(hook: Hook, next: Ender)
      requires next.Valid()
      ensures Valid() && ending == next.ending && hooks == [hook] + next.hooks
    {
      ending, this.hook, this.next, hooks := next.ending, Some(hook), next, [hook] + next.hooks;
    }

    ghost predicate Valid()
      decreases |hooks|
    {
      if hook.None? then next == null && hooks == []
      else next != null && hooks == [hook.value] + next.hooks && next.ending == ending && next.Valid()
    }
  }

  class Tx {
    const driver: TxDriver
    /** The variables of the program that its hooks share. */
    var memory: Memory

    constructor (driver: TxDriver, memory: Memory)
      ensures this.driver == driver && this.memory == memory
    {
      this.driver, this.memory := driver, memory;
    }

    ghost predicate Valid() {
      driver.tx.db == driver.drv
    }

    ghost function Snapshot(): State
      reads this, driver, driver.tx, driver.tx.db
    {
      State(driver.tx.answers, driver.tx.db.committed, driver.tx.db.begun, driver.tx.sent, driver.tx.executed,
            driver.tx.phase, memory, driver.onCommit, driver.onRollback)
    }

    /** A client whose builders run in this transaction. */
    method BoundClient() returns (c: Client)
      ensures c.driver == Transactional(driver)
    {
      c := new Client(Transactional(driver));
    }

    /** One step of a caller or a hook. `depth` is the room left on the stack for ends of the transaction. */
    method Take(step: Step, depth: nat) returns (outcome: Outcome)
      requires Valid()
      modifies this, driver, driver.tx, driver.tx.db`committed
      ensures (Snapshot(), outcome) == Perform(depth, old(Snapshot()), step)
      decreases depth, 0, 0, Return(_ => None)
    {
      var err := None;
      match step {
        case Exec(stmt) => err := driver.Exec(stmt);
        case BuilderTx => var _ := driver.BeginTx();
        case BuilderCommit => err := driver.Commit();
        case BuilderRollback => err := driver.Rollback();
        case BuilderClose => err := driver.Close();
        case StartTx =>
          var c := BoundClient();
          var r := c.StartTx(false, driver.tx.answers, memory);
          err := Some(r.error);
        case OnCommit(hook) => driver.onCommit := driver.onCommit + [hook];
        case OnRollback(hook) => driver.onRollback := driver.onRollback + [hook];
        case End(ending) =>
          if depth == 0 { return Overflow; }
          if ending == TxModel.Commit { outcome := Commit(depth - 1); } else { outcome := Rollback(depth - 1); }
          return;
      }
      return Done(err);
    }

    /** Calls a committer or a rollbacker. */
    method Call(fn: Ender, depth: nat) returns (outcome: Outcome)
      requires Valid() && fn.Valid()
      modifies this, driver, driver.tx, driver.tx.db`committed
      ensures (Snapshot(), outcome) == RunChain(depth, old(Snapshot()), fn.ending, fn.hooks)
      decreases depth, |fn.hooks|, 0, Return(_ => None)
    {
      if fn.hook.None? {
        var err := driver.tx.End(fn.ending);
        outcome := Done(err);
      } else {
        outcome := CallHook(fn.hook.value, fn.next, depth);
      }
    }

    method CallHook(hook: Hook, next: Ender, depth: nat) returns (outcome: Outcome)
      requires Valid() && next.Valid()
      modifies this, driver, driver.tx, driver.tx.db`committed
      ensures (Snapshot(), outcome) == RunHook(depth, old(Snapshot()), next.ending, hook, None, next.hooks)
      decreases depth, |next.hooks|, 1, hook
    {
      var rest, last := hook, None;
      while !rest.Return?
        invariant rest == hook || rest < hook
        invariant RunHook(depth, Snapshot(), next.ending, rest, last, next.hooks) ==
                  RunHook(depth, old(Snapshot()), next.ending, hook, None, next.hooks)
        decreases rest
      {
        match rest {
          case Do(step, more) =>
            outcome := Take(step, depth);
            if outcome.Overflow? { return; }
            rest, last := more, outcome.err;
          case Next(more) =>
            outcome := Call(next, depth);
            if outcome.Overflow? { return; }
            rest, last := more, outcome.err;
          case Choose(test, yes, no) => rest := if test(memory, last) then yes else no;
          case Remember(update, more) =>
            memory := update(memory, last);
            rest := more;
        }
      }
      return Done(rest.verdict(last));
    }

    static lemma {:induction false} CommitOutcome(depth: nat, s: State)
      ensures s.phase.Open? && s.onCommit == [] ==>
                var refusal := s.answers.commit(s.sent);
                RunChain(depth, s, TxModel.Commit, s.onCommit) ==
                if refusal.None?
                then (s.(phase := Committed, committed := s.committed + s.executed), Done(None))
                else (s.(phase := RolledBack), Done(Some(Refused(refusal.value))))
      ensures s.phase.Open? && AllRelay(s.onCommit) ==>
                Relayed(s, TxModel.Commit, RunChain(depth, s, TxModel.Commit, s.onCommit))
    {
      if s.phase.Open? && s.onCommit == [] { EndsWithoutHooks(depth + 1, s, TxModel.Commit); }
      if s.phase.Open? && AllRelay(s.onCommit) { ChainRelays(depth, s, TxModel.Commit, s.onCommit); }
    }

    static lemma {:induction false} RollbackOutcome(depth: nat, s: State)
      ensures s.phase.Open? && s.onRollback == [] ==>
                var refusal := s.answers.rollback(s.sent);
                RunChain(depth, s, TxModel.Rollback, s.onRollback) ==
                (s.(phase := RolledBack), if refusal.None? then Done(None) else Done(Some(Refused(refusal.value))))
      ensures s.phase.Open? && AllRelay(s.onRollback) ==>
                Relayed(s, TxModel.Rollback, RunChain(depth, s, TxModel.Rollback, s.onRollback))
    {
      if s.phase.Open? && s.onRollback == [] { EndsWithoutHooks(depth + 1, s, TxModel.Rollback); }
      if s.phase.Open? && AllRelay(s.onRollback) { ChainRelays(depth, s, TxModel.Rollback, s.onRollback); }
    }

    /** Commits through the hooks that are registered when the call is made. */
    method Commit(depth: nat) returns (outcome: Outcome)
      requires Valid()
      modifies this, driver, driver.tx, driver.tx.db`committed
      ensures (Snapshot(), outcome) ==
              RunChain(depth, old(Snapshot()), TxModel.Commit, HooksFor(old(Snapshot()), TxModel.Commit))
      ensures old(driver.tx.phase) == Open && old(driver.onCommit) == [] ==>
                var refusal := driver.tx.answers.commit(old(driver.tx.sent));
                if refusal.None?
                then && outcome == Done(None) && driver.tx.phase == Committed
                     && driver.tx.db.committed == old(driver.tx.db.committed) + old(driver.tx.executed)
                else && outcome == Done(Some(Refused(refusal.value))) && driver.tx.phase == RolledBack
                     && driver.tx.db.committed == old(driver.tx.db.committed)
      ensures old(driver.tx.phase) == Open && AllRelay(old(driver.onCommit)) ==>
                && outcome.Done? && (outcome == Done(None) <==> driver.tx.phase == Committed)
                && (driver.tx.phase == RolledBack ==>
                      var refusal := driver.tx.answers.commit(driver.tx.sent);
                      refusal.Some? && outcome == Done(Some(Refused(refusal.value))))
      decreases depth, |driver.onCommit| + 1, 0, Return(_ => None)
    {
      CommitOutcome(depth, Snapshot());
      var fn := new Ender.Base(TxModel.Commit);
      var hooks := driver.onCommit;
      var i := |hooks|;
      while i > 0
        invariant 0 <= i <= |hooks|
        invariant fn.Valid() && fn.ending == TxModel.Commit && fn.hooks == hooks[i..]
        invariant Snapshot() == old(Snapshot())
      {
        i := i - 1;
        fn := new Ender.Wrap(hooks[i], fn);
        assert hooks[i..] == [hooks[i]] + hooks[i + 1..];
      }
      assert hooks[0..] == hooks;
      outcome := Call(fn, depth);
    }

    /** Rolls back through the hooks that are registered when the call is made. */
    method Rollback(depth: nat) returns (outcome: Outcome)
      requires Valid()
      modifies this, driver, driver.tx, driver.tx.db`committed
      ensures (Snapshot(), outcome) ==
              RunChain(depth, old(Snapshot()), TxModel.Rollback, HooksFor(old(Snapshot()), TxModel.Rollback))
      ensures old(driver.tx.phase) == Open && old(driver.onRollback) == [] ==>
                && driver.tx.phase == RolledBack && driver.tx.db.committed == old(driver.tx.db.committed)
                && var refusal := driver.tx.answers.rollback(old(driver.tx.sent));
                   outcome == if refusal.None? then Done(None) else Done(Some(Refused(refusal.value)))
      ensures old(driver.tx.phase) == Open && AllRelay(old(driver.onRollback)) ==>
                var refusal := driver.tx.answers.rollback(driver.tx.sent);
                && outcome.Done? && driver.tx.phase != Committed
                && (outcome == Done(None) <==> driver.tx.phase == RolledBack && refusal.None?)
                && (driver.tx.phase == RolledBack && refusal.Some? ==>
                      outcome == Done(Some(Refused(refusal.value))))
      decreases depth, |driver.onRollback| + 1, 0, Return(_ => None)
    {
      RollbackOutcome(depth, Snapshot());
      var fn := new Ender.Base(TxModel.Rollback);
      var hooks := driver.onRollback;
      var i := |hooks|;
      while i > 0
        invariant 0 <= i <= |hooks|
        invariant fn.Valid() && fn.ending == TxModel.Rollback && fn.hooks == hooks[i..]
        invariant Snapshot() == old(Snapshot())
      {
        i := i - 1;
        fn := new Ender.Wrap(hooks[i], fn);
        assert hooks[i..] == [hooks[i]] + hooks[i + 1..];
      }
      assert hooks[0..] == hooks;
      outcome := Call(fn, depth);
    }
  }

  /** A whole life of a transaction, from its start on a plain client: the database ends with what it had, followed by
      all executed statements or by none of them. */
  method Transact(c: Client, answers: Answers, memory: Memory, steps: seq<Step>, depth: nat) returns (tx: Tx)
    requires c.driver.Plain?
    modifies c.driver.db
    ensures tx.Valid() && tx.driver.drv == c.driver.db
    ensures var s :=
              State(answers, old(c.driver.db.committed), old(c.driver.db.begun) + 1, [], [], Open, memory, [], []);
            tx.Snapshot() == Play(depth, s, steps)
    ensures c.driver.db.begun == old(c.driver.db.begun) + 1
    ensures c.driver.db.committed ==
            old(c.driver.db.committed) + if tx.driver.tx.phase == Committed then tx.driver.tx.executed else []
  {
    var r := c.StartTx(false, answers, memory);
    tx := r.value;
    ghost var s := tx.Snapshot();
    Atomicity(depth, s, steps);
    var i := 0;
    while i < |steps|
      invariant 0 <= i <= |steps|
      invariant tx.Valid() && Play(depth, tx.Snapshot(), steps[i..]) == Play(depth, s, steps)
      invariant fresh(tx) && fresh(tx.driver) && fresh(tx.driver.tx) && tx.driver.tx.db == c.driver.db
    {
      var outcome := tx.Take(steps[i], depth);
      assert steps[i..][1..] == steps[i + 1..];
      if outcome.Overflow? { return; }
      i := i + 1;
    }
  }
}
