/** UnitOfWorkEvents: two append-only channels of exception handlers, one
    notified of exceptions from InnerExecute or Commit, the other of
    exceptions from Rollback. The source keeps them in static fields; here
    the registry is one object that its users are given. */
module Events {
  import opened Collaborators

  /** An OnException delegate. NoOp is the empty `delegate { }` that seeds
      each channel; a callback, when invoked with a session factory and an
      exception, throws exactly when `throwsOn` says so. */
  datatype Handler =
    | NoOp
    | Callback(id: nat, throwsOn: (SessionFactory, Exception) -> bool)
  {
    predicate Throws(factory: SessionFactory, exc: Exception) {
      match this
      case NoOp => false
      case Callback(_, throwsOn) => throwsOn(factory, exc)
    }
  }

  /** One call of a handler, with the arguments it received. */
  datatype Invocation = Invocation(handler: Handler, factory: SessionFactory, exc: Exception)

  datatype ArgumentError = ArgumentNullException(paramName: string)

  /** The handlers invoked when the multicast delegate `hs` is invoked with
      (factory, exc) inside one try block: each in order, until one throws;
      that exception ends the invocation and is swallowed by the catch. */
  function Notified(hs: seq<Handler>, factory: SessionFactory, exc: Exception): seq<Invocation>
  {
    if hs == [] then []
    else if hs[0].Throws(factory, exc) then [Invocation(hs[0], factory, exc)]
    else [Invocation(hs[0], factory, exc)] + Notified(hs[1..], factory, exc)
  }

  /** Invoking the handlers of one channel; the loop is the multicast
      invocation, and leaving it early is the swallowed exception. */
  method Notify(hs: seq<Handler>, factory: SessionFactory, exc: Exception) returns (invoked: seq<Invocation>)
    ensures invoked == Notified(hs, factory, exc)
  {
    invoked := [];
    var i := 0;
    while i < |hs|
      invariant 0 <= i <= |hs|
      invariant invoked + Notified(hs[i..], factory, exc) == Notified(hs, factory, exc)
    {
      assert hs[i..] == [hs[i]] + hs[i + 1..];
      invoked := invoked + [Invocation(hs[i], factory, exc)];
      if hs[i].Throws(factory, exc) {
        return;
      }
      i := i + 1;
    }
  }

  /** A notification invokes a prefix of the channel, in order, each handler
      with the same arguments; every handler but the last invoked returned
      normally, and the invocation stops early only at a handler that threw. */
  lemma {:induction false} NotifiedPrefix(hs: seq<Handler>, factory: SessionFactory, exc: Exception)
    ensures var r := Notified(hs, factory, exc);
      && |r| <= |hs|
      && (forall i :: 0 <= i < |r| ==> r[i] == Invocation(hs[i], factory, exc))
      && (forall i :: 0 <= i < |r| - 1 ==> !hs[i].Throws(factory, exc))
      && (|r| < |hs| ==> 0 < |r| && hs[|r| - 1].Throws(factory, exc))
  {
    if hs != [] && !hs[0].Throws(factory, exc) {
      NotifiedPrefix(hs[1..], factory, exc);
      var r := Notified(hs, factory, exc);
      assert r == [Invocation(hs[0], factory, exc)] + Notified(hs[1..], factory, exc);
      forall i | 0 <= i < |r| ensures r[i] == Invocation(hs[i], factory, exc) {
        if i > 0 { assert hs[1..][i - 1] == hs[i]; }
      }
    }
  }

  /** When no handler throws, every handler is invoked once, in registration
      order, with the same factory and exception. */
  lemma {:induction false} NotifiedAll(hs: seq<Handler>, factory: SessionFactory, exc: Exception)
    requires forall i :: 0 <= i < |hs| ==> !hs[i].Throws(factory, exc)
    ensures var r := Notified(hs, factory, exc);
      |r| == |hs| && forall i :: 0 <= i < |hs| ==> r[i] == Invocation(hs[i], factory, exc)
  {
    if hs != [] {
      NotifiedAll(hs[1..], factory, exc);
    }
    NotifiedPrefix(hs, factory, exc);
  }

  /** When handler k is the first to throw, exactly handlers 0..k are
      invoked, and none registered after it. */
  lemma {:induction false} NotifiedStopsAtFirstThrow(hs: seq<Handler>, factory: SessionFactory, exc: Exception, k: nat)
    requires k < |hs| && hs[k].Throws(factory, exc)
    requires forall i :: 0 <= i < k ==> !hs[i].Throws(factory, exc)
    ensures var r := Notified(hs, factory, exc);
      |r| == k + 1 && forall i :: 0 <= i <= k ==> r[i] == Invocation(hs[i], factory, exc)
  {
    if k > 0 {
      NotifiedStopsAtFirstThrow(hs[1..], factory, exc, k - 1);
    }
    NotifiedPrefix(hs, factory, exc);
  }

  /** After a reset, a notification calls the seed and nothing else. */
  lemma NotifiedAfterReset(factory: SessionFactory, exc: Exception)
    ensures Notified([NoOp], factory, exc) == [Invocation(NoOp, factory, exc)]
  {
  }

  class UnitOfWorkEvents {
    var executeOrCommitHandlers: seq<Handler>
    var rollbackHandlers: seq<Handler>

    /** The static initialisers: each channel holds only the no-op. */
    constructor()
      ensures executeOrCommitHandlers == [NoOp] && rollbackHandlers == [NoOp]
    {
      executeOrCommitHandlers := [NoOp];
      rollbackHandlers := [NoOp];
    }

    /** A null handler (None) is refused and nothing changes; any other is
        appended to the execute-or-commit channel only. */
    method AddGlobalExecuteOrCommitExceptionHandler(handler: Option<Handler>) returns (thrown: Option<ArgumentError>)
      modifies this
      ensures handler.None? ==> thrown == Some(ArgumentNullException("handler"))
      ensures handler.Some? ==> thrown.None?
      ensures executeOrCommitHandlers ==
                if handler.None? then old(executeOrCommitHandlers)
                else old(executeOrCommitHandlers) + [handler.value]
      ensures rollbackHandlers == old(rollbackHandlers)
    {
      if handler.None? {
        return Some(ArgumentNullException("handler"));
      }
      executeOrCommitHandlers := executeOrCommitHandlers + [handler.value];
      thrown := None;
    }

    /** The same for the rollback channel. */
    method AddGlobalRollbackExceptionHandler(handler: Option<Handler>) returns (thrown: Option<ArgumentError>)
      modifies this
      ensures handler.None? ==> thrown == Some(ArgumentNullException("handler"))
      ensures handler.Some? ==> thrown.None?
      ensures rollbackHandlers ==
                if handler.None? then old(rollbackHandlers)
                else old(rollbackHandlers) + [handler.value]
      ensures executeOrCommitHandlers == old(executeOrCommitHandlers)
    {
      if handler.None? {
        return Some(ArgumentNullException("handler"));
      }
      rollbackHandlers := rollbackHandlers + [handler.value];
      thrown := None;
    }

    /** Notifies the execute-or-commit channel. It has no error result, since
        any handler exception is swallowed, and no modifies clause, since
        notifying changes neither channel. */
    method OnExecuteOrCommitException(factory: SessionFactory, exc: Exception) returns (invoked: seq<Invocation>)
      ensures invoked == Notified(executeOrCommitHandlers, factory, exc)
    {
      invoked := Notify(executeOrCommitHandlers, factory, exc);
    }

    /** Notifies the rollback channel, in the same way. */
    method OnRollbackException(factory: SessionFactory, exc: Exception) returns (invoked: seq<Invocation>)
      ensures invoked == Notified(rollbackHandlers, factory, exc)
    {
      invoked := Notify(rollbackHandlers, factory, exc);
    }

    /** Resets both channels to the no-op alone (kept for test isolation), so
        that a later notification of either channel invokes only the no-op. */
    method RemoveAllHandlers()
      modifies this
      ensures executeOrCommitHandlers == [NoOp] && rollbackHandlers == [NoOp]
      ensures forall f, e :: Notified(executeOrCommitHandlers, f, e) == [Invocation(NoOp, f, e)]
      ensures forall f, e :: Notified(rollbackHandlers, f, e) == [Invocation(NoOp, f, e)]
    {
      executeOrCommitHandlers := [NoOp];
      rollbackHandlers := [NoOp];
    }
  }
}
