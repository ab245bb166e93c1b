# NHibernateUnitOfWork in Dafny

A model of the unit-of-work core of uShip's NHibernate helper library, with
proofs about it. The model has three parts.

- **UnitOfWork<TResult>.Execute** (`unit_of_work.dfy`, module `Executor`). It
  opens a session and begins a transaction at the requested isolation level,
  ReadCommitted by default. Then it runs the caller's work. When the work
  returns and the session's current transaction is still active, Execute
  commits it. When the work or the commit throws, Execute rolls the current
  transaction back if it is still active. It then rethrows the original
  exception, or throws an AggregateException of the original and the
  rollback's exception if the rollback throws too. Finally it disposes the
  transaction and then the session. The four `SessionFactoryExtensions.UnitOfWork`
  overloads are modelled too: Func or Action, each with or without a level.
- **UnitOfWorkEvents** (`unit_of_work_events.dfy`, module `Events`). It keeps
  two channels of exception handlers, each seeded with a no-op. Handlers are
  appended, never null. A notification invokes a channel's handlers in order
  and swallows the first exception any of them throws.
- **SqlStoredProcedure** (`sql_stored_procedure.dfy`, module `StoredProcedures`).
  It provides the safe-identifier check, the `EXEC name :p1, :p2` command text,
  the checked constructor and `SetParameter`.

The collaborators are NHibernate's `ISessionFactory`, `ISession` and
`ITransaction` (`collaborators.dfy`, module `Collaborators`). They are
abstract state:

- the transactions a session has begun, each with its isolation level and its
  status (active, committed or rolled back);
- which transaction `session.Transaction` currently returns;
- the log of calls the session has received.

Whether a Commit or Rollback throws is a parameter: a `Faults` oracle, keyed
by transaction number. The caller's `Func<ISession, TResult>` is a script,
`Work`. It is a sequence of steps (commit or roll back the current
transaction, begin a transaction), followed by returning a value or throwing
an exception.

The operations that update an object in place are methods of a class
(`Session`, `UnitOfWork<R>`, `UnitOfWorkEvents`, `SqlStoredProcedure<V>`).
Those with no object of their own are module-level methods: the
notification loop `Notify`, `StoredProcCommandText`, `Create` and the four
`UnitOfWork*` extension methods. Each method's postcondition ties the new
state and the result to a specification function (`ExecuteSpec`,
`Notified`, `CommandText`, ...). The lemmas state the library's promises
about those functions.

The regular expression `\A [_\@\#a-z] [\.\@\$\#\w\\]* \Z`, compiled with
IgnoreCase and IgnorePatternWhitespace, is modelled twice:

- as a scanner, `TailMatches`;
- as a declarative predicate, `IsSafeIdentifier`.

They are proved equal. Because `\Z` also matches just before a final
newline, an otherwise safe identifier followed by one `\n` is accepted. The
model follows the code. The doc comment at UnitOfWork/SqlStoredProcedure.cs:141-169
allows a leading English letter, `_`, `@` or `#`. It allows later letters,
decimal digits, `@`, `$`, `#` and `_`. The exception message at lines
183-187 speaks of letters, digits and the underscore only. The pattern
itself also allows `.` and `\` after the first character. It allows the
final newline too, which neither text mentions.

Where a test and the code differ, the model follows the code.
JordanUnitOfWorkTests.cs:330-368 expects a `CompoundException`, but
UnitOfWork/UnitOfWork.cs:39-41 throws an `AggregateException`. The model's
`Combined(first, second)` outcome is that AggregateException.

## Model

| member | source | states |
|---|---|---|
| Collaborators.BeginTx | JordanUnitOfWorkTests.cs:217-228 | While the current transaction is active, beginning one returns that same transaction: the transactions and the current one are unchanged. Otherwise exactly one new active transaction, at the level asked for, is added and becomes current. Either way the call is logged. |
| Collaborators.CommitTx | UnitOfWork/UnitOfWork.cs:57 | Commit on transaction t is logged. It throws exactly what the oracle says. t is committed exactly when it was active and nothing was thrown. Otherwise t is left as it was, so a failed commit leaves it active. Every other transaction is unchanged. |
| Collaborators.RollbackTx | UnitOfWork/UnitOfWork.cs:52 | The same for Rollback: t is rolled back exactly when it was active and nothing was thrown, and otherwise left as it was. |
| Collaborators.Session.Open | UnitOfWork/UnitOfWork.cs:18 | A session opens with no transaction, and OpenSession is its only logged call. |
| Collaborators.Session.BeginTransaction | UnitOfWork/UnitOfWork.cs:19 | The session's new state is BeginTx of its old state, and the transaction returned is the current one. |
| Collaborators.Session.Commit | UnitOfWork/UnitOfWork.cs:57 | The session's new state and the exception thrown are those of CommitTx. |
| Collaborators.Session.Rollback | UnitOfWork/UnitOfWork.cs:52 | The session's new state and the exception thrown are those of RollbackTx. |
| Collaborators.Session.DisposeTransaction | UnitOfWork/UnitOfWork.cs:19 | Leaving the inner using block appends only the transaction's Dispose to the log. |
| Collaborators.Session.Dispose | UnitOfWork/UnitOfWork.cs:18 | Leaving the outer using block appends only the session's Dispose to the log. |
| Collaborators.SessionFactory.OpenSession | UnitOfWork/UnitOfWork.cs:18 | Returns a fresh session, freshly opened, that fails as the factory's oracle says. |
| Events.Notify | UnitOfWork/UnitOfWorkEvents.cs:96-104 | Invoking a channel inside the try block records exactly the invocations of Notified. The loop stops at the first handler that throws, and its exception goes no further. |
| Events.NotifiedPrefix | UnitOfWork/UnitOfWorkEvents.cs:96-104 | A notification invokes a prefix of the channel, in order. Each handler gets the same factory and exception. Every handler but the last invoked returned normally. The invocation stops early only at a handler that threw. |
| Events.NotifiedAll | UnitOfWork/UnitOfWorkEvents.cs:98 | When no handler throws, every handler is invoked exactly once, in registration order, with the same arguments. |
| Events.NotifiedStopsAtFirstThrow | UnitOfWork/UnitOfWorkEvents.cs:96-104 | When handler k is the first to throw, exactly handlers 0..k are invoked, and none after it. |
| Events.NotifiedAfterReset | UnitOfWork/UnitOfWorkEvents.cs:138-142 | After a reset, a notification invokes only the no-op. |
| Events.UnitOfWorkEvents.constructor | UnitOfWork/UnitOfWorkEvents.cs:36-37 | Each channel starts as the no-op delegate alone. |
| Events.UnitOfWorkEvents.AddGlobalExecuteOrCommitExceptionHandler | UnitOfWork/UnitOfWorkEvents.cs:50-56 | A null handler gives ArgumentNullException("handler") and leaves both channels unchanged. Any other handler is appended to the end of the execute-or-commit channel, and the rollback channel is unchanged. |
| Events.UnitOfWorkEvents.AddGlobalRollbackExceptionHandler | UnitOfWork/UnitOfWorkEvents.cs:70-76 | The same for the rollback channel, leaving the execute-or-commit channel unchanged. |
| Events.UnitOfWorkEvents.OnExecuteOrCommitException | UnitOfWork/UnitOfWorkEvents.cs:92-105 | Invokes exactly Notified of the execute-or-commit channel and never throws. With no modifies clause, it changes neither channel. |
| Events.UnitOfWorkEvents.OnRollbackException | UnitOfWork/UnitOfWorkEvents.cs:120-133 | The same for the rollback channel. |
| Events.UnitOfWorkEvents.RemoveAllHandlers | UnitOfWork/UnitOfWorkEvents.cs:138-142 | Both channels are reset to the no-op alone. A later notification of either channel, with any factory and exception, invokes only the no-op. |
| Executor.StepSpec | UnitOfWork/UnitOfWork.cs:77-80 | One step of the caller's work keeps a transaction current and only extends the session. Calls are appended, levels are kept, and finished transactions stay finished. |
| Executor.RunSteps | UnitOfWork/UnitOfWork.cs:77-80 | The work's steps, run until one throws, only extend the session. |
| Executor.InnerExecuteSpec | UnitOfWork/UnitOfWork.cs:25 | InnerExecute leaves a current transaction and only extends the session it is given. |
| Executor.RunStepsCalls | UnitOfWork/UnitOfWork.cs:77-80 | Every call the work makes is a commit, a rollback, or a BeginTransaction at a level one of its steps names. |
| Executor.ExecuteBracketsTheWork | UnitOfWork/UnitOfWork.cs:16-19 | Execute's first calls are OpenSession, then BeginTransaction at the requested level. Its last calls dispose that transaction, then the session. Neither call happens anywhere else. When the work begins no transaction itself, BeginTransaction is called exactly once. |
| Executor.ExecutorCalls | UnitOfWork/UnitOfWork.cs:23-47 | After the work, Execute itself adds only commits and rollbacks (at most two), then the two disposals. |
| Executor.ExecuteCommitsOnReturn | UnitOfWork/UnitOfWork.cs:25-26 | The work returns, the current transaction is active and the commit succeeds. Then Execute returns the result unchanged, commits that transaction once, and never rolls back. |
| Executor.ExecuteSkipsFinishedTransaction | UnitOfWork/UnitOfWork.cs:50-58 | If the work already committed or rolled back the current transaction, Execute neither commits nor rolls back. It passes the work's result or exception through unchanged. |
| Executor.ExecuteRollsBackOnThrow | UnitOfWork/UnitOfWork.cs:28-43 | If the work throws e while the transaction is active, there is no commit and exactly one rollback. The result is e unchanged, or Combined(e, re) when the rollback throws re. A successful rollback leaves the transaction rolled back. |
| Executor.ExecuteRollsBackFailedCommit | UnitOfWork/UnitOfWork.cs:23-43 | A commit that throws ce is followed by exactly one rollback of the same transaction. The result is ce, or Combined(ce, re). |
| Executor.ExecuteTouchesOnlyCurrent | UnitOfWork/UnitOfWork.cs:26-32 | Execute finalises only the transaction current when the work ended. Every other transaction is as the work left it, and the first one keeps the requested level. |
| Executor.SerialTransactions | UnitOfWork/UnitOfWork.cs:26 | If the work commits the first transaction and begins a second, Execute commits the second and never commits the first again. |
| Executor.NoConcurrentTransaction | UnitOfWork/UnitOfWork.cs:19 | A BeginTransaction inside the work yields Execute's own active transaction. Exactly one transaction exists, and Execute commits it. |
| Executor.AsFunc | UnitOfWork/UnitOfWork.cs:102-108 | The lambda wrapping an Action runs the same steps. It returns true where the action returns, and throws the action's exception where the action throws. |
| Executor.ActionAsFunc | UnitOfWork/UnitOfWork.cs:98-123 | Wrapping an Action as a Func that returns true changes neither the session's calls nor how Execute fails. The original exception is the same, and so is the rollback's exception in an aggregate. A normal return yields true. |
| Executor.UnitOfWork.constructor | UnitOfWork/UnitOfWork.cs:65-75 | The unit of work keeps its session factory and the work delegate. |
| Executor.UnitOfWork.Execute | UnitOfWork/UnitOfWork.cs:16-48 | Execute opens a fresh session from its factory. The outcome and the session's final state are exactly ExecuteSpec, about which the lemmas above are proved. |
| Executor.UnitOfWork.ExecuteNotifying | UnitOfWorkTests/UnitOfWorkEventsTests.cs:143-186 | Same outcome and session as Execute. In addition, the execute-or-commit channel is notified with the caught exception, exactly when there is one. The rollback channel is notified with the rollback's exception, exactly when the outcome is Combined. |
| Executor.UnitOfWork.InnerExecute | UnitOfWork/UnitOfWork.cs:77-80 | Running the delegate on the session has exactly the effect and result of InnerExecuteSpec. |
| Executor.UnitOfWork.CommitIfActive | UnitOfWork/UnitOfWork.cs:55-58 | If t is active it is committed; otherwise nothing happens. |
| Executor.UnitOfWork.RollbackIfActive | UnitOfWork/UnitOfWork.cs:50-53 | If t is active it is rolled back; otherwise nothing happens. |
| Executor.UnitOfWork.Recover | UnitOfWork/UnitOfWork.cs:28-44 | The catch block re-reads session.Transaction and rolls it back if it is active. It rethrows e, or throws Combined(e, re). |
| Executor.UnitOfWorkFuncAt | UnitOfWork/UnitOfWork.cs:83-89 | Runs the Func at the given level and returns its result. |
| Executor.UnitOfWorkFunc | UnitOfWork/UnitOfWork.cs:91-96 | Runs the Func at ReadCommitted. |
| Executor.UnitOfWorkAction | UnitOfWork/UnitOfWork.cs:98-109 | Runs the Action, wrapped to return true, at ReadCommitted. |
| Executor.UnitOfWorkActionAt | UnitOfWork/UnitOfWork.cs:111-123 | Runs the wrapped Action at the given level. |
| StoredProcedures.TailMatchesSpec | UnitOfWork/SqlStoredProcedure.cs:171 | The pattern's tail matches from position i iff everything from i on is an allowed later character, possibly followed by one final newline. |
| StoredProcedures.PatternMatchesSafe | UnitOfWork/SqlStoredProcedure.cs:170-173 | The regular expression accepts exactly the safe identifiers. |
| StoredProcedures.EnsureSafeSqlIdentifier | UnitOfWork/SqlStoredProcedure.cs:178-189 | No error iff the identifier is non-null and safe. Otherwise the error is ArgumentException naming the identifier. |
| StoredProcedures.SafeIdentifierChars | UnitOfWork/SqlStoredProcedure.cs:171 | A safe identifier is not blank and does not start with a digit. It contains no comma, colon, space, tab or asterisk, and no newline except a final one. |
| StoredProcedures.SafeIdentifierExamples | UnitOfWorkTests/SqlStoredProcedureTests.cs:24-32 | The safe identifiers of the tests are accepted. |
| StoredProcedures.QualifiedIdentifierExample | UnitOfWorkTests/SqlStoredProcedureTests.cs:33 | A domain-qualified, dotted procedure name is accepted. |
| StoredProcedures.UnsafeIdentifierExamples | UnitOfWorkTests/SqlStoredProcedureTests.cs:89-92 | Null, empty, whitespace-only, "*", "*a" and "4a" are refused. |
| StoredProcedures.UnsafeSeparatorExamples | UnitOfWorkTests/SqlStoredProcedureTests.cs:40-45 | "a*" and names with an embedded space, tab or newline are refused. |
| StoredProcedures.TrailingNewlineExample | UnitOfWork/SqlStoredProcedure.cs:171 | Because of \Z, "a" followed by one newline is accepted. |
| StoredProcedures.PlaceholdersAppend | UnitOfWork/SqlStoredProcedure.cs:131-136 | One more name adds one more " :name" placeholder, preceded by a comma unless it is the first. |
| StoredProcedures.StoredProcCommandText | UnitOfWork/SqlStoredProcedure.cs:119-139 | The checks come in order. A blank name gives ArgumentException. Then a null name list gives ArgumentNullException. Then an unsafe name gives ArgumentException. The call succeeds iff none applies, and the text is CommandText(name, names). |
| StoredProcedures.CommandTextExamples | UnitOfWorkTests/SqlStoredProcedureTests.cs:52-80 | "EXEC StoredProc :a, :b, :c", "EXEC StoredProc" and "EXEC StoredProc :a" for three, zero and one parameter. |
| StoredProcedures.PlaceholdersRoundTrip | UnitOfWork/SqlStoredProcedure.cs:131-136 | Names without commas are read back from their placeholders exactly, in order. |
| StoredProcedures.CommandTextRoundTrip | UnitOfWork/SqlStoredProcedure.cs:128-136 | For safe parameter names, the text begins with "EXEC " + name. What follows splits back into exactly the given names. |
| StoredProcedures.SqlStoredProcedure.constructor | UnitOfWork/SqlStoredProcedure.cs:41-43 | Once the arguments are checked, the object holds the session and name and no parameters. |
| StoredProcedures.Create | UnitOfWork/SqlStoredProcedure.cs:20-44 | A null session gives ArgumentNullException("session") before the name is looked at. Then an unsafe name gives ArgumentException. Otherwise a fresh, valid object with an empty parameter map is returned. |
| StoredProcedures.SqlStoredProcedure.SetParameter | UnitOfWork/SqlStoredProcedure.cs:46-51 | An unsafe name gives ArgumentException, and a name already present gives Dictionary.Add's ArgumentException; both leave the parameters unchanged. Otherwise exactly name -> value is added, and the same instance is returned. |
| StoredProcedures.SqlStoredProcedure.StoredProc | UnitOfWork/SqlStoredProcedure.cs:97-116 | The prepared query's text is CommandText of the procedure name and the parameter names. It has one binding per parameter, in the dictionary's order. |

## Left out

- Persistence: saving, loading and the database's view of a committed or rolled-back transaction are not modelled. A transaction is only its status and isolation level.
- What disposal does to a transaction or session beyond being recorded in the call log is NHibernate's behaviour and is not part of this model. So is what Commit or Rollback does to a transaction that is not active.
- The work delegate can only commit, roll back and begin transactions, and return or throw. Other session calls (Save, queries) change no state the unit of work reads, and are left out.
- OpenSession and BeginTransaction never throw in this model. In the source (UnitOfWork/UnitOfWork.cs:18-19) a throwing BeginTransaction leaves no transaction to dispose: the session is disposed and the exception escapes with no rollback. That path is not modelled.
- The `Work` script stops at its first throwing step and acts only on `session.Transaction`. A work that catches a failed Commit and carries on, or that commits a transaction it saved earlier, cannot be written. So the Execute lemmas cover only the session states such scripts can reach.
- A Dispose of the transaction or the session that throws is not modelled. Both disposals always succeed, and the outcome is never replaced by a disposal's exception.
- `ListResult` and `UniqueResult` (UnitOfWork/SqlStoredProcedure.cs:65-95) run the query against the database and are left out. `StoredProc` is modelled as the prepared text plus its bindings, without `CreateSQLQuery`. Its null checks cannot fail from inside a constructed object, so they are not modelled.
- Execute at UnitOfWork/UnitOfWork.cs:16-48 does not call the event notifications. `ExecuteNotifying` is the variant that UnitOfWorkTests/UnitOfWorkEventsTests.cs:143-186 expects, and `Execute` follows the code.
- The event channels are static fields in the source. Here they are one `UnitOfWorkEvents` object passed to its users. Thread safety of registration is not modelled.
- Handlers are values with a `throwsOn` predicate. What a handler does besides possibly throwing (logging, counting) is outside the model.
- StoredProcedures.IsWordChar: `\w` is modelled as ASCII letters, digits and underscore. Full Unicode letter categories and IgnoreCase culture folding (for example the Kelvin sign) are not modelled.
- StoredProcedures.StoredProcCommandText: a null element in the name list, which the source formats as an empty string, is not modelled; names are plain strings.
- The dictionary's enumeration order is modelled as insertion order, which .NET gives for a dictionary that is never removed from. It is kept as a sequence of keys beside the map.
- The SessionFactoryExtensions.cs copy of the extension methods duplicates UnitOfWork/UnitOfWork.cs:63-124 and is not part of this model.
