/** The lazily initialised connection of `AuditLogger`: `_db` starts out null,
    `initialize` connects and creates the schema, `_ensure_db` initialises only
    while `_db` is null, and `close` sets it back to null. */
module Lifecycle {
  import opened Wrappers
  import opened Records

  /** A connection handle; `serial` tells connections opened at different times apart. */
  datatype Connection = Connection(serial: nat)

  /** The logger's state: the nullable `_db` field, how many connections it has
      ever opened, and the database file it points at. */
  datatype Logger = Logger(db: Option<Connection>, connects: nat, store: Store)

  /** What happens when `initialize` runs: connecting succeeds and so do the
      PRAGMAs and the schema script; or `aiosqlite.connect` raises; or the
      connection is made but a PRAGMA, a statement of the schema script or the
      commit raises. `executescript` runs the script's statements outside any
      transaction, so `CREATE TABLE` stays done when a later `CREATE INDEX` or
      the commit fails: `tableCreated` says whether it ran before the failure. */
  datatype InitFault = InitSucceeds | ConnectFails | SetupFails(tableCreated: bool)

  /** Causes of the exceptions the logger's operations can raise. */
  datatype AuditError =
    | ConnectError     // the database file could not be opened
    | SetupError       // a PRAGMA, the schema script or its commit failed
    | NoSuchTable      // a statement ran against a database without `tool_calls`
    | StatementError   // the statement or its commit failed for another reason
    | CloseError       // closing the connection failed
    | BindOverflow     // an integer parameter lies outside SQLite's 64-bit range
    | TableFull        // AUTOINCREMENT has already handed out the largest rowid

  /** What the environment does to one public operation: `initialize`'s fault,
      should it run, and whether the statement itself and its commit go
      through (a full disk, a locked file and the like make them raise; for a
      write, so does a `parameters` value `json.dumps` cannot serialise). */
  datatype Faults = Faults(init: InitFault, statementOk: bool)

  /** The state after an operation, and the exception it raised, if any. */
  datatype Step = Step(after: Logger, raised: Option<AuditError>)

  /** The states the logger can reach: the table is well formed, a database
      without the table holds no rows and no AUTOINCREMENT counter, and an open
      connection is one of those made so far. */
  ghost predicate Valid(s: Logger)
  {
    && Records.WellFormed(s.store.table)
    && (!s.store.hasTable ==> s.store.table == Table([], 0))
    && (s.db.Some? ==> s.db.value.serial < s.connects)
  }

  /** `AuditLogger(db_path)`: no connection yet, whatever the file already holds. */
  function NewLogger(store: Store): (s: Logger)
    ensures s.db.None? && s.store == store
    ensures Records.WellFormed(store.table) && (!store.hasTable ==> store.table == Table([], 0)) ==> Valid(s)
  {
    Logger(None, 0, store)
  }

  /** `initialize`: assigns `_db` as soon as the connection exists, then runs the
      PRAGMAs and `CREATE TABLE IF NOT EXISTS`, which never touches existing rows.
      A failure after connecting leaves `_db` pointing at the new connection. */
  function Initialize(s: Logger, fault: InitFault): (o: Step)
    ensures o.raised.None? <==> fault == InitSucceeds
    ensures fault == ConnectFails ==> o.after == s
    ensures fault != ConnectFails ==>
      && o.after.db == Some(Connection(s.connects))
      && o.after.connects == s.connects + 1
      && (Valid(s) && s.db.Some? ==> s.db != o.after.db)
    ensures o.raised.None? ==> o.after.store.hasTable
    ensures fault.SetupFails? ==>
      (o.after.store.hasTable <==> s.store.hasTable || fault.tableCreated)
    ensures o.after.store.table == s.store.table
    ensures Valid(s) ==> Valid(o.after)
  {
    match fault
    case ConnectFails => Step(s, Some(ConnectError))
    case SetupFails(created) =>
      var store := s.store.(hasTable := s.store.hasTable || created);
      Step(Logger(Some(Connection(s.connects)), s.connects + 1, store), Some(SetupError))
    case InitSucceeds =>
      Step(Logger(Some(Connection(s.connects)), s.connects + 1, s.store.(hasTable := true)), None)
  }

  /** `_ensure_db`: initialise only while `_db` is null. */
  function EnsureDb(s: Logger, fault: InitFault): (o: Step)
    ensures o.raised.None? ==> o.after.db.Some?
    ensures s.db.Some? ==> o == Step(s, None)
    ensures s.db.None? && fault == InitSucceeds ==> o.raised.None? && o.after.store.hasTable
    ensures o.after.store.table == s.store.table
    ensures o.after.connects <= s.connects + 1
    ensures Valid(s) ==> Valid(o.after)
  {
    if s.db.None? then Initialize(s, fault) else Step(s, None)
  }

  /** `close`: when a connection is open, close it and set `_db` back to null;
      if closing raises, `_db` keeps the connection. */
  function Close(s: Logger, closeOk: bool): (o: Step)
    ensures o.raised.None? ==> o.after.db.None?
    ensures o.raised.Some? <==> s.db.Some? && !closeOk
    ensures o.raised.Some? ==> o.after == s
    ensures o.after.store == s.store && o.after.connects == s.connects
    ensures Valid(s) ==> Valid(o.after)
  {
    if s.db.Some? then
      if closeOk then Step(s.(db := None), None) else Step(s, Some(CloseError))
    else Step(s, None)
  }

  /** A second `_ensure_db` after a successful one does nothing, whatever would
      have happened had it initialised. */
  lemma EnsureDbIdempotent(s: Logger, f: InitFault, g: InitFault)
    ensures var o := EnsureDb(s, f);
      o.raised.None? ==> EnsureDb(o.after, g) == Step(o.after, None)
  {
  }

  /** `_ensure_db` called with each fault of `faults` in turn; stops at nothing,
      as every caller swallows or reports the exception and carries on. */
  function EnsureDbEach(s: Logger, faults: seq<InitFault>): (s': Logger)
    ensures s'.store == s.store || (s'.store.table == s.store.table && s'.store.hasTable)
    decreases |faults|
  {
    if |faults| == 0 then s else EnsureDbEach(EnsureDb(s, faults[0]).after, faults[1..])
  }

  /** However many times `_ensure_db` runs, at most one connection is opened,
      and none once `_db` is set: initialisation happens once per `close`. */
  lemma {:induction false} EnsureDbOpensAtMostOnce(s: Logger, faults: seq<InitFault>)
    ensures EnsureDbEach(s, faults).connects <= s.connects + 1
    ensures s.db.Some? ==> EnsureDbEach(s, faults) == s
    ensures EnsureDbEach(s, faults).db.None? ==> EnsureDbEach(s, faults).connects == s.connects
    decreases |faults|
  {
    if |faults| > 0 {
      var o := EnsureDb(s, faults[0]);
      EnsureDbOpensAtMostOnce(o.after, faults[1..]);
      if o.after.db.Some? {
        assert EnsureDbEach(o.after, faults[1..]) == o.after;
      } else {
        assert o.after == s;
      }
    }
  }

  /** After a successful `close`, the next use initialises again with a new connection. */
  lemma CloseThenReinitialise(s: Logger)
    requires s.db.Some?
    ensures var c := Close(s, true).after;
      && c.db.None?
      && var o := EnsureDb(c, InitSucceeds);
      && o.raised.None?
      && o.after.db == Some(Connection(s.connects))
      && o.after.connects == s.connects + 1
      && o.after.store.hasTable
  {
  }

  /** A failure to connect leaves `_db` null, so the next use retries, and may succeed. */
  lemma ConnectFailureIsRetried(s: Logger)
    requires s.db.None?
    ensures EnsureDb(s, ConnectFails) == Step(s, Some(ConnectError))
    ensures EnsureDb(EnsureDb(s, ConnectFails).after, InitSucceeds).raised.None?
  {
  }

  /** A failure after connecting is never retried: `_db` is already set, so every
      later `_ensure_db` returns at once. When the failure came before
      `CREATE TABLE` ran, the table stays missing until `close`. */
  lemma SetupFailureSticks(s: Logger, faults: seq<InitFault>)
    requires s.db.None? && !s.store.hasTable
    ensures var o := EnsureDb(s, SetupFails(false));
      && o.raised == Some(SetupError)
      && o.after.db.Some?
      && EnsureDbEach(o.after, faults) == o.after
      && !o.after.store.hasTable
  {
    EnsureDbOpensAtMostOnce(EnsureDb(s, SetupFails(false)).after, faults);
  }

  /** The way out of a stuck set-up short of `close`: `initialize` is public, and
      calling it directly reconnects and creates the missing table. */
  lemma DirectInitializeRecovers(s: Logger)
    requires Valid(s) && s.db.None? && !s.store.hasTable
    ensures var stuck := EnsureDb(s, SetupFails(false)).after;
      var o := Initialize(stuck, InitSucceeds);
      && o.raised.None?
      && o.after.store.hasTable
      && o.after.db.Some? && o.after.db != stuck.db
      && o.after.store.table == s.store.table
  {
  }

  /** A failure after `CREATE TABLE` (a failing index or commit) is not retried
      either, but the table exists: later uses raise nothing and find it. */
  lemma LateSetupFailureKeepsTable(s: Logger, g: InitFault)
    requires s.db.None?
    ensures var o := EnsureDb(s, SetupFails(true));
      && o.raised == Some(SetupError)
      && o.after.store.hasTable
      && EnsureDb(o.after, g) == Step(o.after, None)
  {
  }
}
