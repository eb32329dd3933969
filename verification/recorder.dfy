/** The write path, `AuditLogger.log_tool_call`: build one row from the call's
    arguments, make sure the connection exists, insert and commit. Every failure
    is caught and reported to the diagnostic log instead of being raised. */
module Recorder {
  import opened Wrappers
  import opened Records
  import opened Lifecycle

  /** The `parameters` dict, as its items in insertion order. */
  datatype Params = Params(items: seq<(string, string)>)

  /** The keyword arguments of `log_tool_call`. */
  datatype ToolCall = ToolCall(
    toolName: string,
    parameters: Option<Params>,
    success: bool,
    errorMsg: Option<string>,
    durationMs: nat,
    requestId: Option<string>,
    sessionId: Option<string>,
    clientName: Option<string>,
    clientVersion: Option<string>)

  /** What `logger.exception` records: the tool name and the cause. */
  datatype Diagnostic = Diagnostic(toolName: string, cause: AuditError)

  /** The state after `log_tool_call`, and the diagnostic it logged, if any.
      There is no exception slot: the call always returns normally. */
  datatype WriteReport = WriteReport(after: Logger, diagnostic: Option<Diagnostic>)

  /** Python truthiness of the `parameters` argument: `None` and `{}` are false. */
  predicate HasParameters(p: Option<Params>)
  {
    p.Some? && |p.value.items| > 0
  }

  /** The row `log_tool_call` binds to the INSERT, before the id is assigned.
      `now` is the ISO text of the current UTC time and `dumps` is `json.dumps`;
      both are opaque here. */
  function BuildRow(call: ToolCall, now: string, dumps: Params -> string): (r: Record)
    ensures r.success == 1 <==> call.success
    ensures r.success == 0 <==> !call.success
    ensures r.parameters.None? <==> !HasParameters(call.parameters)
    ensures r.parameters.Some? ==> r.parameters.value == dumps(call.parameters.value)
    ensures r.timestamp == now && r.toolName == call.toolName
    ensures r.sessionId == call.sessionId && r.clientName == call.clientName
    ensures r.requestId == call.requestId && r.clientVersion == call.clientVersion
    ensures r.errorMsg == call.errorMsg && r.durationMs == call.durationMs
  {
    Record(
      0,
      now,
      call.requestId,
      call.sessionId,
      call.clientName,
      call.clientVersion,
      call.toolName,
      if HasParameters(call.parameters) then Some(dumps(call.parameters.value)) else None,
      if call.success then 1 else 0,
      call.errorMsg,
      call.durationMs)
  }

  /** `log_tool_call`. The only way a failure shows is the diagnostic. */
  function LogToolCall(s: Logger, call: ToolCall, now: string, dumps: Params -> string, faults: Faults)
    : (w: WriteReport)
    ensures var e := EnsureDb(s, faults.init);
      w.after == e.after || w.after == e.after.(store := e.after.store.(table := Insert(s.store.table, BuildRow(call, now, dumps))))
    ensures w.diagnostic.None? ==> w.after.store.table == Insert(s.store.table, BuildRow(call, now, dumps))
    ensures w.diagnostic.Some? ==> w.after.store.table == s.store.table
    ensures w.diagnostic.Some? ==> w.diagnostic.value.toolName == call.toolName
    ensures Valid(s) ==> Valid(w.after)
  {
    var e := EnsureDb(s, faults.init);
    if e.raised.Some? then
      WriteReport(e.after, Some(Diagnostic(call.toolName, e.raised.value)))
    else if !e.after.store.hasTable then
      WriteReport(e.after, Some(Diagnostic(call.toolName, NoSuchTable)))
    else if !faults.statementOk then
      WriteReport(e.after, Some(Diagnostic(call.toolName, StatementError)))
    else if e.after.store.table.lastId >= MaxInteger then
      WriteReport(e.after, Some(Diagnostic(call.toolName, TableFull)))
    else
      var row := BuildRow(call, now, dumps);
      assert row.success == 0 || row.success == 1;
      assert Records.WellFormed(s.store.table) ==> Records.WellFormed(Insert(s.store.table, row)) by {
        if Records.WellFormed(s.store.table) {
          InsertPreservesWellFormed(s.store.table, row);
        }
      }
      WriteReport(e.after.(store := e.after.store.(table := Insert(e.after.store.table, row))), None)
  }

  /** The write goes through exactly when the connection can be had, the table
      exists, the statement succeeds and AUTOINCREMENT still has an id to hand
      out; otherwise the failure is only logged. */
  lemma LogToolCallSucceedsIff(s: Logger, call: ToolCall, now: string, dumps: Params -> string, faults: Faults)
    ensures LogToolCall(s, call, now, dumps, faults).diagnostic.None? <==>
      && faults.statementOk
      && s.store.table.lastId < MaxInteger
      && (if s.db.Some? then s.store.hasTable else faults.init == InitSucceeds)
  {
  }

  /** A successful write appends one row at the end with an id above every
      existing id, and leaves every earlier row as it was. */
  lemma LogToolCallAppends(s: Logger, call: ToolCall, now: string, dumps: Params -> string, faults: Faults)
    requires Valid(s)
    requires LogToolCall(s, call, now, dumps, faults).diagnostic.None?
    ensures var rows := s.store.table.rows;
      var rows' := LogToolCall(s, call, now, dumps, faults).after.store.table.rows;
      && |rows'| == |rows| + 1
      && rows'[..|rows|] == rows
      && (forall x :: x in rows ==> x.id < rows'[|rows|].id)
      && rows'[|rows|].toolName == call.toolName
      && (rows'[|rows|].success == 1 <==> call.success)
  {
    var row := BuildRow(call, now, dumps);
    InsertPreservesWellFormed(s.store.table, row);
  }

  /** A failed write changes no row: only the connection may have been opened. */
  lemma LogToolCallFailureKeepsRows(s: Logger, call: ToolCall, now: string, dumps: Params -> string, faults: Faults)
    requires LogToolCall(s, call, now, dumps, faults).diagnostic.Some?
    ensures var w := LogToolCall(s, call, now, dumps, faults);
      && w.after.store.table == s.store.table
      && w.after == EnsureDb(s, faults.init).after
  {
  }

  /** When only an index or the commit of `initialize` failed, that first write
      is lost, but the table exists and `_db` stays set, so the next write is
      recorded whatever `initialize` would have done, unless the ids have run out. */
  lemma WriteAfterLateSetupFailure(s: Logger, call: ToolCall, now: string, dumps: Params -> string, g: InitFault)
    requires s.db.None?
    ensures var first := LogToolCall(s, call, now, dumps, Faults(SetupFails(true), true));
      && first.diagnostic == Some(Diagnostic(call.toolName, SetupError))
      && first.after.store.table == s.store.table
      && (LogToolCall(first.after, call, now, dumps, Faults(g, true)).diagnostic.None? <==>
          s.store.table.lastId < MaxInteger)
  {
  }

  /** Once AUTOINCREMENT has handed out the largest rowid, SQLite refuses every
      further insert with SQLITE_FULL: each write is then dropped, and the only
      trace is a diagnostic naming the tool. */
  lemma FullTableDropsWrites(s: Logger, call: ToolCall, now: string, dumps: Params -> string, faults: Faults)
    requires Valid(s)
    requires s.store.table.lastId == MaxInteger
    ensures var w := LogToolCall(s, call, now, dumps, faults);
      && w.after.store.table == s.store.table
      && w.diagnostic.Some?
      && (faults.statementOk && EnsureDb(s, faults.init).raised.None? && w.after.store.hasTable ==>
          w.diagnostic == Some(Diagnostic(call.toolName, TableFull)))
  {
  }
}
