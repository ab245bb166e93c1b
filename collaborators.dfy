/** The data-access collaborator the unit of work drives: NHibernate's
    ISessionFactory, ISession and ITransaction, reduced to the state that
    UnitOfWork<TResult>.Execute reads and changes. Persistence itself is not
    modelled; what a session keeps is its transactions, which of them is
    `session.Transaction`, and the calls it has received, in order. */
module Collaborators {

  datatype Option<+T> = None | Some(value: T)

  /** A thrown .NET exception, known only by its identity. */
  datatype Exception = Exception(id: nat)

  /** System.Data.IsolationLevel, passed through to BeginTransaction uninterpreted. */
  datatype IsolationLevel =
    | Unspecified
    | Chaos
    | ReadUncommitted
    | ReadCommitted
    | RepeatableRead
    | Serializable
    | Snapshot

  /** ITransaction's IsActive, WasCommitted and WasRolledBack folded into one
      status, so that a transaction is never both committed and rolled back. */
  datatype TxStatus = Active | Committed | RolledBack

  datatype Transaction = Transaction(level: IsolationLevel, status: TxStatus) {
    predicate IsActive() { status == Active }
    predicate WasCommitted() { status == Committed }
    predicate WasRolledBack() { status == RolledBack }
  }

  /** A call received by the session factory, the session or one of its
      transactions (transactions are numbered from 0 in the order begun). */
  datatype Call =
    | OpenSession
    | BeginTransaction(level: IsolationLevel)
    | Commit(tx: nat)
    | Rollback(tx: nat)
    | DisposeTransaction(tx: nat)
    | DisposeSession

  /** Failure oracles: the exception, if any, that Commit and Rollback throw
      on each transaction. */
  datatype Faults = Faults(commit: nat -> Option<Exception>, rollback: nat -> Option<Exception>)

  /** An open session: the transactions begun so far, the index of the one
      `session.Transaction` returns, and the calls received. */
  datatype SessionState = SessionState(txs: seq<Transaction>, current: nat, calls: seq<Call>) {
    /** A transaction has been begun, so `session.Transaction` names one. */
    predicate Begun() { current < |txs| }

    predicate IsActive(t: nat) { t < |txs| && txs[t].IsActive() }
  }

  /** A freshly opened session. */
  function Opened(): SessionState {
    SessionState([], 0, [OpenSession])
  }

  /** What a session may become by the calls a unit of work makes: the log
      only grows, no transaction disappears or changes its isolation level,
      and a transaction that is no longer active keeps its final status. */
  ghost predicate Extends(st: SessionState, st': SessionState) {
    && |st.txs| <= |st'.txs|
    && st.calls <= st'.calls
    && (forall t :: 0 <= t < |st.txs| ==> st'.txs[t].level == st.txs[t].level)
    && (forall t :: 0 <= t < |st.txs| && !st.txs[t].IsActive() ==> st'.txs[t] == st.txs[t])
  }

  /** ISession.BeginTransaction(level). A session holds at most one active
      transaction: while the current one is active it is returned again,
      otherwise a new active transaction becomes current. */
  function BeginTx(st: SessionState, level: IsolationLevel): (r: SessionState)
    ensures r.Begun() && r.IsActive(r.current)
    ensures Extends(st, r) && r.calls == st.calls + [BeginTransaction(level)]
    ensures st.IsActive(st.current) ==> r.txs == st.txs && r.current == st.current
    ensures !st.IsActive(st.current) ==> r.txs == st.txs + [Transaction(level, Active)] && r.current == |st.txs|
  {
    var st' := st.(calls := st.calls + [BeginTransaction(level)]);
    if st.IsActive(st.current) then st'
    else st'.(txs := st.txs + [Transaction(level, Active)], current := |st.txs|)
  }

  /** ITransaction.Commit() on transaction t: the call is received; when the
      oracle makes it throw nothing else changes, otherwise an active t
      becomes committed. */
  function CommitTx(st: SessionState, faults: Faults, t: nat): (r: (SessionState, Option<Exception>))
    requires t < |st.txs|
    ensures Extends(st, r.0) && r.0.current == st.current && |r.0.txs| == |st.txs|
    ensures r.0.calls == st.calls + [Commit(t)] && r.1 == faults.commit(t)
    ensures r.0.txs[t].WasCommitted() <==> st.txs[t].WasCommitted() || (st.IsActive(t) && r.1.None?)
    ensures r.0.txs[t] == if st.IsActive(t) && r.1.None? then st.txs[t].(status := Committed) else st.txs[t]
    ensures forall u :: 0 <= u < |st.txs| && u != t ==> r.0.txs[u] == st.txs[u]
  {
    var st' := st.(calls := st.calls + [Commit(t)]);
    if faults.commit(t).None? && st.IsActive(t) then
      (st'.(txs := st.txs[t := st.txs[t].(status := Committed)]), None)
    else
      (st', faults.commit(t))
  }

  /** ITransaction.Rollback() on transaction t, with the same shape as CommitTx. */
  function RollbackTx(st: SessionState, faults: Faults, t: nat): (r: (SessionState, Option<Exception>))
    requires t < |st.txs|
    ensures Extends(st, r.0) && r.0.current == st.current && |r.0.txs| == |st.txs|
    ensures r.0.calls == st.calls + [Rollback(t)] && r.1 == faults.rollback(t)
    ensures r.0.txs[t].WasRolledBack() <==> st.txs[t].WasRolledBack() || (st.IsActive(t) && r.1.None?)
    ensures r.0.txs[t] == if st.IsActive(t) && r.1.None? then st.txs[t].(status := RolledBack) else st.txs[t]
    ensures forall u :: 0 <= u < |st.txs| && u != t ==> r.0.txs[u] == st.txs[u]
  {
    var st' := st.(calls := st.calls + [Rollback(t)]);
    if faults.rollback(t).None? && st.IsActive(t) then
      (st'.(txs := st.txs[t := st.txs[t].(status := RolledBack)]), None)
    else
      (st', faults.rollback(t))
  }

  /** An open ISession. */
  class Session {
    const faults: Faults
    var txs: seq<Transaction>
    var current: nat
    var calls: seq<Call>

    function State(): SessionState
      reads this
    {
      SessionState(txs, current, calls)
    }

    constructor Open(faults: Faults)
      ensures this.faults == faults && State() == Opened()
    {
      this.faults := faults;
      txs := [];
      current := 0;
      calls := [Call.OpenSession];
    }

    /** `session.Transaction`: the transaction current at the time of asking. */
    function CurrentTransaction(): nat
      reads this
    {
      current
    }

    /** `t.IsActive` */
    predicate IsActive(t: nat)
      reads this
    {
      t < |txs| && txs[t].IsActive()
    }

    method BeginTransaction(level: IsolationLevel) returns (t: nat)
      modifies this
      ensures State() == BeginTx(old(State()), level) && t == current
    {
      calls := calls + [Call.BeginTransaction(level)];
      if !IsActive(current) {
        txs := txs + [Transaction(level, Active)];
        current := |txs| - 1;
      }
      t := current;
    }

    method Commit(t: nat) returns (thrown: Option<Exception>)
      requires t < |txs|
      modifies this
      ensures (State(), thrown) == CommitTx(old(State()), faults, t)
    {
      calls := calls + [Call.Commit(t)];
      thrown := faults.commit(t);
      if thrown.None? && txs[t].IsActive() {
        txs := txs[t := txs[t].(status := Committed)];
      }
    }

    method Rollback(t: nat) returns (thrown: Option<Exception>)
      requires t < |txs|
      modifies this
      ensures (State(), thrown) == RollbackTx(old(State()), faults, t)
    {
      calls := calls + [Call.Rollback(t)];
      thrown := faults.rollback(t);
      if thrown.None? && txs[t].IsActive() {
        txs := txs[t := txs[t].(status := RolledBack)];
      }
    }

    /** ITransaction.Dispose() on transaction t; what disposal does to the
        database belongs to the collaborator and is only recorded here. */
    method DisposeTransaction(t: nat)
      modifies this
      ensures State() == old(State()).(calls := old(calls) + [Call.DisposeTransaction(t)])
    {
      calls := calls + [Call.DisposeTransaction(t)];
    }

    /** ISession.Dispose() */
    method Dispose()
      modifies this
      ensures State() == old(State()).(calls := old(calls) + [Call.DisposeSession])
    {
      calls := calls + [Call.DisposeSession];
    }
  }

  /** An ISessionFactory; its sessions fail as its oracles say. */
  class SessionFactory {
    const faults: Faults

    constructor(faults: Faults)
      ensures this.faults == faults
    {
      this.faults := faults;
    }

    method OpenSession() returns (s: Session)
      ensures fresh(s) && s.faults == faults && s.State() == Opened()
    {
      s := new Session.Open(faults);
    }
  }
}
