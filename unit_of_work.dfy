/** UnitOfWork<TResult>.Execute: open one session, begin one transaction,
    run the caller's work, commit if the session's current transaction is
    still active, and on an exception from the work or the commit roll back
    if it is still active, rethrowing the original exception or, when the
    rollback throws too, an AggregateException of both. */
module Executor {
  import opened Collaborators
  import opened Events

  /** One thing the caller's work does with the session it is given. */
  datatype Step =
    | CommitCurrent                 // session.Transaction.Commit()
    | RollbackCurrent               // session.Transaction.Rollback()
    | Begin(level: IsolationLevel)  // session.BeginTransaction(level)

  /** How the caller's work ends once its steps are done. */
  datatype Ending<R> = Return(value: R) | Throw(exc: Exception)

  /** The caller's Func<ISession, TResult>, as a script. */
  datatype Work<R> = Work(steps: seq<Step>, ending: Ending<R>)

  /** How InnerExecute finished. */
  datatype WorkResult<R> = Returned(value: R) | Threw(exc: Exception)

  /** How Execute finishes: the work's result, the original exception
      rethrown, or AggregateException(first, second) whose inner exceptions
      are the original one and the rollback's, in that order. */
  datatype Outcome<R> = Ok(value: R) | Err(exc: Exception) | Combined(first: Exception, second: Exception)

  /** The exception Execute caught from the work or the commit, if any. */
  function Original<R>(outcome: Outcome<R>): Option<Exception> {
    match outcome
    case Ok(_) => None
    case Err(e) => Some(e)
    case Combined(e, _) => Some(e)
  }

  function StepSpec(st: SessionState, faults: Faults, step: Step): (r: (SessionState, Option<Exception>))
    requires st.Begun()
    ensures r.0.Begun() && Extends(st, r.0)
  {
    match step
    case CommitCurrent => CommitTx(st, faults, st.current)
    case RollbackCurrent => RollbackTx(st, faults, st.current)
    case Begin(level) => (BeginTx(st, level), None)
  }

  /** The steps run in order until one throws. */
  function RunSteps(st: SessionState, faults: Faults, steps: seq<Step>): (r: (SessionState, Option<Exception>))
    requires st.Begun()
    ensures r.0.Begun() && Extends(st, r.0)
    decreases |steps|
  {
    if steps == [] then (st, None)
    else
      var (st', thrown) := StepSpec(st, faults, steps[0]);
      if thrown.Some? then (st', thrown)
      else RunSteps(st', faults, steps[1..])
  }

  /** InnerExecute(session), as a function of the session before it. */
  function InnerExecuteSpec<R>(st: SessionState, faults: Faults, work: Work<R>): (r: (SessionState, WorkResult<R>))
    requires st.Begun()
    ensures r.0.Begun() && Extends(st, r.0)
  {
    var (st', thrown) := RunSteps(st, faults, work.steps);
    if thrown.Some? then (st', Threw(thrown.value))
    else match work.ending
      case Return(v) => (st', Returned(v))
      case Throw(e) => (st', Threw(e))
  }

  /** CommitIfActive(t) */
  function CommitIfActiveSpec(st: SessionState, faults: Faults, t: nat): (SessionState, Option<Exception>)
    requires t < |st.txs|
  {
    if st.IsActive(t) then CommitTx(st, faults, t) else (st, None)
  }

  /** RollbackIfActive(t) */
  function RollbackIfActiveSpec(st: SessionState, faults: Faults, t: nat): (SessionState, Option<Exception>)
    requires t < |st.txs|
  {
    if st.IsActive(t) then RollbackTx(st, faults, t) else (st, None)
  }

  /** The catch block: roll back the current transaction if it is active,
      then rethrow `e`, or throw AggregateException(e, rollback's exception). */
  function RecoverSpec<R>(st: SessionState, faults: Faults, e: Exception): (Outcome<R>, SessionState)
    requires st.Begun()
  {
    var (st', rollbackExc) := RollbackIfActiveSpec(st, faults, st.current);
    match rollbackExc
    case None => (Err(e), st')
    case Some(re) => (Combined(e, re), st')
  }

  /** Leaving the two using blocks: the transaction BeginTransaction returned
      (number 0 in a fresh session) is disposed, then the session. */
  function Disposed(st: SessionState): SessionState {
    st.(calls := st.calls + [DisposeTransaction(0), DisposeSession])
  }

  /** The session right after InnerExecute returns or throws. */
  function AfterWork<R>(faults: Faults, work: Work<R>, level: IsolationLevel): (r: (SessionState, WorkResult<R>))
    ensures r.0.Begun()
  {
    InnerExecuteSpec(BeginTx(Opened(), level), faults, work)
  }

  /** Execute(level) over a session whose Commit and Rollback fail as
      `faults` says: the outcome and the final session. */
  function ExecuteSpec<R>(faults: Faults, work: Work<R>, level: IsolationLevel): (Outcome<R>, SessionState)
  {
    var (st, result) := AfterWork(faults, work, level);
    var (outcome, st') := SettleSpec(st, faults, result);
    (outcome, Disposed(st'))
  }

  /** The try/catch after InnerExecute: commit the current transaction if
      the work returned and it is active; recover from the work's or the
      commit's exception. */
  function SettleSpec<R>(st: SessionState, faults: Faults, result: WorkResult<R>): (Outcome<R>, SessionState)
    requires st.Begun()
  {
    match result
    case Threw(e) => RecoverSpec(st, faults, e)
    case Returned(v) =>
      var (stc, commitExc) := CommitIfActiveSpec(st, faults, st.current);
      if commitExc.Some? then RecoverSpec(stc, faults, commitExc.value) else (Ok(v), stc)
  }

  /** A Call the caller's work can make: a begin, a commit or a rollback. */
  predicate IsWorkCall(c: Call, steps: seq<Step>) {
    || c.Commit?
    || c.Rollback?
    || (c.BeginTransaction? && Begin(c.level) in steps)
  }

  /** Every call after the first `from` is one the steps can make. */
  predicate OnlyWorkCalls(calls: seq<Call>, from: nat, steps: seq<Step>) {
    forall i :: from <= i < |calls| ==> IsWorkCall(calls[i], steps)
  }

  /** The calls the steps make are commits, rollbacks and the begins the
      steps ask for, appended after the calls made before. */
  lemma {:induction false} RunStepsCalls(st: SessionState, faults: Faults, steps: seq<Step>)
    requires st.Begun()
    ensures OnlyWorkCalls(RunSteps(st, faults, steps).0.calls, |st.calls|, steps)
    decreases |steps|
  {
    if steps != [] {
      var (st', thrown) := StepSpec(st, faults, steps[0]);
      assert |st'.calls| == |st.calls| + 1;
      assert IsWorkCall(st'.calls[|st.calls|], steps);
      if thrown.None? {
        var rest := steps[1..];
        RunStepsCalls(st', faults, rest);
        var r := RunSteps(st', faults, rest).0;
        assert r == RunSteps(st, faults, steps).0;
        assert st'.calls <= r.calls;
        forall i | |st.calls| <= i < |r.calls| ensures IsWorkCall(r.calls[i], steps) {
          if i == |st.calls| {
            assert r.calls[i] == st'.calls[i];
          } else {
            assert IsWorkCall(r.calls[i], rest);
            assert forall l :: Begin(l) in rest ==> Begin(l) in steps;
          }
        }
      }
    }
  }

  /** Execute opens the session and begins the transaction at the requested
      level before anything else, and its last calls dispose that
      transaction and then the session; none of these happens anywhere else.
      When the work begins no transaction of its own, BeginTransaction is
      called exactly once. */
  lemma ExecuteBracketsTheWork<R>(faults: Faults, work: Work<R>, level: IsolationLevel)
    ensures var calls := ExecuteSpec(faults, work, level).1.calls;
      && 4 <= |calls|
      && calls[0] == OpenSession && calls[1] == BeginTransaction(level)
      && calls[|calls| - 2] == DisposeTransaction(0) && calls[|calls| - 1] == DisposeSession
      && (forall i :: 0 < i < |calls| ==> calls[i] != OpenSession)
      && (forall i :: 0 <= i < |calls| - 1 ==> calls[i] != DisposeSession)
      && (forall i :: 0 <= i < |calls| - 2 ==> !calls[i].DisposeTransaction?)
      && ((forall s :: s in work.steps ==> !s.Begin?) ==> forall i :: 1 < i < |calls| ==> !calls[i].BeginTransaction?)
  {
    var st0 := BeginTx(Opened(), level);
    RunStepsCalls(st0, faults, work.steps);
    var st := AfterWork(faults, work, level).0;
    assert st.calls == RunSteps(st0, faults, work.steps).0.calls;
    assert st0.calls == [OpenSession, BeginTransaction(level)];
    assert st.calls[..2] == st0.calls;
    ExecutorCalls(faults, work, level);
    var calls := ExecuteSpec(faults, work, level).1.calls;
    forall i | 2 <= i < |calls| - 2
      ensures calls[i].Commit? || calls[i].Rollback? || calls[i].BeginTransaction?
      ensures (forall s :: s in work.steps ==> !s.Begin?) ==> !calls[i].BeginTransaction?
    {
      if i < |st.calls| {
        assert calls[i] == st.calls[i];
        assert IsWorkCall(st.calls[i], work.steps);
      }
    }
  }

  /** After the work, Execute appends only commits and rollbacks, and then
      the two disposals. */
  lemma ExecutorCalls<R>(faults: Faults, work: Work<R>, level: IsolationLevel)
    ensures var st := AfterWork(faults, work, level).0;
      var calls := ExecuteSpec(faults, work, level).1.calls;
      && |st.calls| + 2 <= |calls| <= |st.calls| + 4
      && calls[..|st.calls|] == st.calls
      && calls[|calls| - 2..] == [DisposeTransaction(0), DisposeSession]
      && (forall i :: |st.calls| <= i < |calls| - 2 ==> calls[i].Commit? || calls[i].Rollback?)
  {
  }

  /** Automatic commit: when the work returns and the current transaction
      is still active, Execute commits exactly that transaction; if the
      commit succeeds the result is returned unchanged, the transaction is
      committed, and no rollback is issued. */
  lemma ExecuteCommitsOnReturn<R>(faults: Faults, work: Work<R>, level: IsolationLevel)
    requires var (st, result) := AfterWork(faults, work, level);
      result.Returned? && st.IsActive(st.current) && faults.commit(st.current).None?
    ensures var (st, result) := AfterWork(faults, work, level);
      var (outcome, final) := ExecuteSpec(faults, work, level);
      && outcome == Ok(result.value)
      && final.calls == st.calls + [Commit(st.current), DisposeTransaction(0), DisposeSession]
      && final.txs[st.current].WasCommitted()
  {
  }

  /** Manual commit or rollback: when the work leaves the current
      transaction inactive, Execute issues no commit and no rollback of its
      own and passes the work's result or exception through unchanged. */
  lemma ExecuteSkipsFinishedTransaction<R>(faults: Faults, work: Work<R>, level: IsolationLevel)
    requires var (st, _) := AfterWork(faults, work, level);
      !st.IsActive(st.current)
    ensures var (st, result) := AfterWork(faults, work, level);
      var (outcome, final) := ExecuteSpec(faults, work, level);
      && final == Disposed(st)
      && outcome == (match result case Returned(v) => Ok(v) case Threw(e) => Err(e))
  {
  }

  /** Automatic rollback: when the work throws e and the current transaction
      is active, Execute never commits and rolls that transaction back once;
      it then rethrows e unchanged, or, if the rollback throws re, throws the
      aggregate of e and re in that order. */
  lemma ExecuteRollsBackOnThrow<R>(faults: Faults, work: Work<R>, level: IsolationLevel)
    requires var (st, result) := AfterWork(faults, work, level);
      result.Threw? && st.IsActive(st.current)
    ensures var (st, result) := AfterWork(faults, work, level);
      var (outcome, final) := ExecuteSpec(faults, work, level);
      && final.calls == st.calls + [Rollback(st.current), DisposeTransaction(0), DisposeSession]
      && outcome == (match faults.rollback(st.current)
                     case None => Err(result.exc)
                     case Some(re) => Combined(result.exc, re))
      && (faults.rollback(st.current).None? ==> final.txs[st.current].WasRolledBack())
  {
  }

  /** A commit that throws ce is followed by exactly one rollback of the
      same transaction; Execute then rethrows ce, or the aggregate of ce and
      the rollback's exception. */
  lemma ExecuteRollsBackFailedCommit<R>(faults: Faults, work: Work<R>, level: IsolationLevel)
    requires var (st, result) := AfterWork(faults, work, level);
      result.Returned? && st.IsActive(st.current) && faults.commit(st.current).Some?
    ensures var (st, _) := AfterWork(faults, work, level);
      var (outcome, final) := ExecuteSpec(faults, work, level);
      var ce := faults.commit(st.current).value;
      && final.calls == st.calls + [Commit(st.current), Rollback(st.current), DisposeTransaction(0), DisposeSession]
      && outcome == (match faults.rollback(st.current)
                     case None => Err(ce)
                     case Some(re) => Combined(ce, re))
  {
  }

  /** Every transaction the session began keeps its isolation level, and one
      that the work finished stays as the work left it: Execute only ever
      commits or rolls back the transaction current when the work ended. */
  lemma ExecuteTouchesOnlyCurrent<R>(faults: Faults, work: Work<R>, level: IsolationLevel)
    ensures var (st, _) := AfterWork(faults, work, level);
      var final := ExecuteSpec(faults, work, level).1;
      && |final.txs| == |st.txs|
      && (forall t :: 0 <= t < |st.txs| && t != st.current ==> final.txs[t] == st.txs[t])
      && final.txs[0].level == level
  {
    var (st, _) := AfterWork(faults, work, level);
    assert Extends(BeginTx(Opened(), level), st);
  }

  /** The serial-transactions scenario: the work commits the first
      transaction, begins a second and returns; Execute commits the second,
      which is current, and not the first again. */
  lemma SerialTransactions(faults: Faults, level: IsolationLevel, v: int)
    requires faults.commit(0).None? && faults.commit(1).None?
    ensures var (outcome, final) := ExecuteSpec(faults, Work([CommitCurrent, Begin(Unspecified)], Return(v)), level);
      && outcome == Ok(v)
      && final.txs == [Transaction(level, Committed), Transaction(Unspecified, Committed)]
      && final.calls == [OpenSession, BeginTransaction(level), Commit(0), BeginTransaction(Unspecified),
                         Commit(1), DisposeTransaction(0), DisposeSession]
  {
  }

  /** No concurrent transaction: a BeginTransaction inside the work, while
      Execute's transaction is active, yields that same transaction, so one
      transaction is begun and Execute commits it. */
  lemma NoConcurrentTransaction(faults: Faults, level: IsolationLevel, inner: IsolationLevel, v: int)
    requires faults.commit(0).None?
    ensures var (outcome, final) := ExecuteSpec(faults, Work([Begin(inner)], Return(v)), level);
      && outcome == Ok(v)
      && final.txs == [Transaction(level, Committed)]
      && final.calls == [OpenSession, BeginTransaction(level), BeginTransaction(inner),
                         Commit(0), DisposeTransaction(0), DisposeSession]
  {
    var st0 := BeginTx(Opened(), level);
    assert st0 == SessionState([Transaction(level, Active)], 0, [OpenSession, BeginTransaction(level)]);
    var st1 := BeginTx(st0, inner);
    assert st1 == st0.(calls := st0.calls + [BeginTransaction(inner)]);
    assert [Begin(inner)][1..] == [];
    assert RunSteps(st0, faults, [Begin(inner)]) == (st1, None);
    assert AfterWork(faults, Work([Begin(inner)], Return(v)), level) == (st1, Returned(v));
  }

  /** Action<ISession> overloads wrap the action in a Func returning true. */
  function AsFunc(doWork: Work<()>): (r: Work<bool>)
    ensures r.steps == doWork.steps
    ensures r.ending.Return? <==> doWork.ending.Return?
    ensures r.ending.Return? ==> r.ending.value
    ensures doWork.ending.Throw? ==> r.ending == Throw(doWork.ending.exc)
  {
    Work(doWork.steps, match doWork.ending case Return(_) => Return(true) case Throw(e) => Throw(e))
  }

  /** The wrapped action runs the same calls on the session as the action
      itself, and ends the same way, with `true` for its unit result. */
  lemma ActionAsFunc(faults: Faults, doWork: Work<()>, level: IsolationLevel)
    ensures var (o1, st1) := ExecuteSpec(faults, AsFunc(doWork), level);
      var (o2, st2) := ExecuteSpec(faults, doWork, level);
      && st1 == st2
      && (o2.Ok? <==> o1 == Ok(true))
      && (!o2.Ok? ==> Original(o1) == Original(o2) && o1.Combined? == o2.Combined?)
      && (o1.Combined? ==> o2.Combined? && o1.second == o2.second)
  {
  }

  /** A UnitOfWork<TResult> whose InnerExecute runs `doWork`. */
  class UnitOfWork<R> {
    const factory: SessionFactory
    const doWork: Work<R>

    constructor(factory: SessionFactory, doWork: Work<R>)
      ensures this.factory == factory && this.doWork == doWork
    {
      this.factory := factory;
      this.doWork := doWork;
    }

    /** Execute(isolationLevel); the session opened is returned beside the
        outcome so that the calls it received can be inspected. */
    method Execute(level: IsolationLevel := ReadCommitted) returns (outcome: Outcome<R>, session: Session)
      ensures fresh(session) && session.faults == factory.faults
      ensures (outcome, session.State()) == ExecuteSpec(factory.faults, doWork, level)
    {
      session := factory.OpenSession();
      var tx := session.BeginTransaction(level);
      assert tx == 0;
      var result := InnerExecute(session);
      ghost var st := session.State();
      assert (st, result) == AfterWork(factory.faults, doWork, level);
      match result {
        case Returned(v) =>
          var commitExc := CommitIfActive(session, session.CurrentTransaction());
          if commitExc.Some? {
            outcome := Recover(session, commitExc.value);
          } else {
            outcome := Ok(v);
          }
        case Threw(e) =>
          outcome := Recover(session, e);
      }
      assert (outcome, session.State()) == SettleSpec(st, factory.faults, result);
      ghost var settled := session.State();
      session.DisposeTransaction(tx);
      session.Dispose();
      assert session.State() == Disposed(settled);
    }

    /** The variant of Execute that UnitOfWorkEventsTests expects: it also
        notifies the execute-or-commit channel with the caught exception,
        and the rollback channel with the rollback's exception. */
    method ExecuteNotifying(events: UnitOfWorkEvents, level: IsolationLevel := ReadCommitted)
      returns (outcome: Outcome<R>, session: Session,
               executeOrCommitInvoked: seq<Invocation>, rollbackInvoked: seq<Invocation>)
      ensures fresh(session) && session.faults == factory.faults
      ensures (outcome, session.State()) == ExecuteSpec(factory.faults, doWork, level)
      ensures executeOrCommitInvoked ==
                match Original(outcome)
                case None => []
                case Some(e) => Notified(events.executeOrCommitHandlers, factory, e)
      ensures rollbackInvoked ==
                if outcome.Combined? then Notified(events.rollbackHandlers, factory, outcome.second) else []
    {
      session := factory.OpenSession();
      var tx := session.BeginTransaction(level);
      assert tx == 0;
      var result := InnerExecute(session);
      ghost var st := session.State();
      assert (st, result) == AfterWork(factory.faults, doWork, level);
      var caught: Option<Exception> := None;
      match result {
        case Returned(v) =>
          var commitExc := CommitIfActive(session, session.CurrentTransaction());
          if commitExc.Some? {
            caught := commitExc;
          } else {
            outcome := Ok(v);
          }
        case Threw(e) =>
          caught := Some(e);
      }
      executeOrCommitInvoked, rollbackInvoked := [], [];
      if caught.Some? {
        executeOrCommitInvoked := events.OnExecuteOrCommitException(factory, caught.value);
        outcome := Recover(session, caught.value);
        if outcome.Combined? {
          rollbackInvoked := events.OnRollbackException(factory, outcome.second);
        }
      }
      assert (outcome, session.State()) == SettleSpec(st, factory.faults, result);
      ghost var settled := session.State();
      session.DisposeTransaction(tx);
      session.Dispose();
      assert session.State() == Disposed(settled);
    }

    /** Runs the work's steps on the session until one throws, then ends as
        the work says. */
    method InnerExecute(session: Session) returns (result: WorkResult<R>)
      requires session.State().Begun()
      modifies session
      ensures (session.State(), result) == InnerExecuteSpec(old(session.State()), session.faults, doWork)
    {
      var steps := doWork.steps;
      var i := 0;
      while i < |steps|
        invariant 0 <= i <= |steps|
        invariant session.State().Begun()
        invariant RunSteps(old(session.State()), session.faults, steps)
                  == RunSteps(session.State(), session.faults, steps[i..])
      {
        var thrown: Option<Exception>;
        match steps[i] {
          case CommitCurrent =>
            thrown := session.Commit(session.CurrentTransaction());
          case RollbackCurrent =>
            thrown := session.Rollback(session.CurrentTransaction());
          case Begin(level) =>
            var _ := session.BeginTransaction(level);
            thrown := None;
        }
        assert steps[i..][1..] == steps[i + 1..];
        if thrown.Some? {
          return Threw(thrown.value);
        }
        i := i + 1;
      }
      match doWork.ending {
        case Return(v) => result := Returned(v);
        case Throw(e) => result := Threw(e);
      }
    }

    /** CommitIfActive(t) */
    static method CommitIfActive(session: Session, t: nat) returns (thrown: Option<Exception>)
      requires t < |session.txs|
      modifies session
      ensures (session.State(), thrown) == CommitIfActiveSpec(old(session.State()), session.faults, t)
    {
      thrown := None;
      if session.IsActive(t) {
        thrown := session.Commit(t);
      }
    }

    /** RollbackIfActive(t) */
    static method RollbackIfActive(session: Session, t: nat) returns (thrown: Option<Exception>)
      requires t < |session.txs|
      modifies session
      ensures (session.State(), thrown) == RollbackIfActiveSpec(old(session.State()), session.faults, t)
    {
      thrown := None;
      if session.IsActive(t) {
        thrown := session.Rollback(t);
      }
    }

    /** The catch block, reading `session.Transaction` again at this point. */
    static method Recover(session: Session, e: Exception) returns (outcome: Outcome<R>)
      requires session.State().Begun()
      modifies session
      ensures (outcome, session.State()) == RecoverSpec(old(session.State()), session.faults, e)
    {
      var rollbackExc := RollbackIfActive(session, session.CurrentTransaction());
      if rollbackExc.Some? {
        outcome := Combined(e, rollbackExc.value);
      } else {
        outcome := Err(e);
      }
    }
  }

  /** SessionFactoryExtensions.UnitOfWork(isolationLevel, func) */
  method UnitOfWorkFuncAt<R>(factory: SessionFactory, level: IsolationLevel, func: Work<R>)
    returns (outcome: Outcome<R>, session: Session)
    ensures fresh(session)
    ensures (outcome, session.State()) == ExecuteSpec(factory.faults, func, level)
  {
    var uow := new UnitOfWork(factory, func);
    outcome, session := uow.Execute(level);
  }

  /** SessionFactoryExtensions.UnitOfWork(func), at the default level */
  method UnitOfWorkFunc<R>(factory: SessionFactory, func: Work<R>)
    returns (outcome: Outcome<R>, session: Session)
    ensures fresh(session)
    ensures (outcome, session.State()) == ExecuteSpec(factory.faults, func, ReadCommitted)
  {
    var uow := new UnitOfWork(factory, func);
    outcome, session := uow.Execute();
  }

  /** SessionFactoryExtensions.UnitOfWork(doWork) for an Action: the wrapped
      Func's `true` is what a normal return yields. */
  method UnitOfWorkAction(factory: SessionFactory, doWork: Work<()>)
    returns (outcome: Outcome<bool>, session: Session)
    ensures fresh(session)
    ensures (outcome, session.State()) == ExecuteSpec(factory.faults, AsFunc(doWork), ReadCommitted)
  {
    var uow := new UnitOfWork(factory, AsFunc(doWork));
    outcome, session := uow.Execute();
  }

  /** SessionFactoryExtensions.UnitOfWork(isolationLevel, doWork) for an Action */
  method UnitOfWorkActionAt(factory: SessionFactory, level: IsolationLevel, doWork: Work<()>)
    returns (outcome: Outcome<bool>, session: Session)
    ensures fresh(session)
    ensures (outcome, session.State()) == ExecuteSpec(factory.faults, AsFunc(doWork), level)
  {
    var uow := new UnitOfWork(factory, AsFunc(doWork));
    outcome, session := uow.Execute(level);
  }
}
