# Audit log of MCP tool calls, modelled in Dafny

`AuditLogger` (audit.py) records every MCP tool invocation as one row of the
SQLite table `tool_calls` and answers three read requests over it: the most
recent calls, a filtered query, and summary statistics. This project models
that class as pure functions over an in-memory table and proves what the code
promises about it.

- `records.dfy` (`Records`): a row of `tool_calls`, the table as a sequence
  of rows in insertion order with the AUTOINCREMENT counter, and `INSERT`.
- `lifecycle.dfy` (`Lifecycle`): the nullable `_db` connection and its lazy
  initialisation: `initialize`, `_ensure_db`, `close`.
- `recorder.dfy` (`Recorder`): `log_tool_call`. It builds the row, inserts
  it, and swallows every failure into a diagnostic.
- `filters.dfy` (`Filters`): the clause list, parameter list and WHERE
  fragment that `query_with_filters` builds. It also holds a small evaluator
  for the six clause forms. The evaluator binds parameters to `?` placeholders
  the way SQLite does.
- `query.dfy` (`Query`): `ORDER BY id DESC LIMIT ?` over the rows that pass
  the filters, a loop that computes it, and the logger's
  `query_recent` / `query_with_filters`.
- `summary.dfy` (`Summary`): `get_summary_stats`. It covers totals, distinct
  counts, the error-rate guard, first and last call, and the per-tool
  breakdown.
- `text.dfy` (`Text`) and `wrappers.dfy` (`Wrappers`): string order,
  `str.join`, placeholder counting, and `Option`/`Result`.

Everything the environment decides is an explicit parameter:

- the current time string;
- `json.dumps`;
- whether `aiosqlite.connect` or the schema set-up raises (`InitFault`);
- whether a statement and its commit go through (`Faults.statementOk`);
- whether `close` raises.

An operation returns the logger's new state together with its outcome:

- `Lifecycle.Step` carries the exception an operation raised, if any.
- `Recorder.WriteReport` carries only a diagnostic, because `log_tool_call`
  never raises.
- `Query.ReadOutcome` carries a `Result`, because read failures reach the
  caller.

## Where the code does something other than one might expect

The model follows the code in each case.

- **Retrying initialisation.** `initialize` assigns `_db` as soon as
  `aiosqlite.connect` returns (audit.py:40). If a PRAGMA, a statement of the
  schema script or the commit then raises, `_db` stays set, and every later
  `_ensure_db` returns at once without retrying:
  - When the failure came before `CREATE TABLE`, the table stays missing and
    every read and write fails until `close` is called or `initialize` is
    called directly (`Lifecycle.SetupFailureSticks`,
    `Lifecycle.DirectInitializeRecovers`).
  - `executescript` runs the script outside any transaction. So when a later
    `CREATE INDEX` or the commit fails, the table already exists, and writes
    after the first succeed (`Lifecycle.LateSetupFailureKeepsTable`,
    `Recorder.WriteAfterLateSetupFailure`).
  - A failure to connect leaves `_db` null and is retried
    (`Lifecycle.ConnectFailureIsRetried`).
- **The empty table's error rate is NULL.** The error rate divides by
  `MAX(COUNT(*), 1)`, a guard against dividing by zero on an empty table
  (audit.py:169). But the numerator is a `SUM`, and SQL's `SUM` over no rows
  is NULL, so `error_rate_pct` is NULL there all the same
  (`Summary.EmptyOverall`). Summing with `TOTAL`, which gives 0 over no rows,
  would give the 0% the guard aims at. `Summary.IntendedErrorRateFacts`
  proves that this variant is 0% on an empty table and equals the query's
  rate on every other table.
- **Running out of ids.** AUTOINCREMENT never reuses an id, and SQLite's
  rowid is a 64-bit integer. Once the counter has reached 2^63 - 1, every
  INSERT fails with SQLITE_FULL, and `log_tool_call` swallows that failure
  like any other. So from then on every call is dropped, and the only trace
  is a diagnostic (`Recorder.FullTableDropsWrites`).
- **No validation of read arguments.**
  - `since` and `until` are compared as plain strings, whatever they hold.
  - A negative `limit` reaches SQLite, where a negative LIMIT means "no
    limit" (`Query.Limit`).
  - A `limit` outside SQLite's 64-bit INTEGER range makes the parameter
    binding raise `OverflowError`, which reaches the caller (`Query.Fetch`).
- **Empty strings are inactive filters.** A filter counts as active only when
  it is truthy in Python, so an empty string adds no clause (`Filters.Active`).
- **Empty parameters are stored as NULL.** An empty `parameters` dict is
  stored as NULL, the same as `None` (`Recorder.HasParameters`).
- **`errors_only` keeps rows with `success = 0`.** It does not look at
  `error_msg`, and `log_tool_call` does not require a failed call to carry a
  message.

## Model

| member | source | states |
|---|---|---|
| Records.Insert | audit.py:76-95 | The INSERT omits `id`. It appends exactly one row at the end, leaves every earlier row as it was, and gives the new row the id one above the AUTOINCREMENT counter, whatever id the caller's record had. |
| Records.InsertPreservesWellFormed | audit.py:13 | `INTEGER PRIMARY KEY AUTOINCREMENT`: while the counter is below the largest 64-bit rowid, the new id is greater than every existing id, ids stay strictly increasing in insertion order, and the counter stays within the rowid range. |
| Records.InsertAllDense | audit.py:13 | Any sequence of N inserts into an empty table hands out exactly the ids 1..N, with no gap and no repeat. |
| Lifecycle.NewLogger | audit.py:35-37 | A new logger has no connection (`_db` is None), whatever the database file already holds. It starts in a valid state when the file's table is well formed, and a file without the table holds no rows. |
| Lifecycle.Initialize | audit.py:39-44 | A connection failure leaves the state unchanged. Otherwise `_db` becomes a new connection, which in a valid state differs from the one it had, and it stays set even when a later step fails. On success the table exists. After a failed set-up the table exists exactly when it existed before or `CREATE TABLE` ran before the failure. The rows are never touched. |
| Lifecycle.EnsureDb | audit.py:46-49 | When `_ensure_db` raises nothing, `_db` is non-null afterwards. When `_db` is already set it does nothing at all. It never touches rows and opens at most one connection. |
| Lifecycle.Close | audit.py:51-54 | After a successful `close`, `_db` is None. A failed close keeps the connection. `close` never changes the stored data. |
| Lifecycle.EnsureDbIdempotent | audit.py:46-49 | A second `_ensure_db` after a successful one changes nothing and raises nothing. |
| Lifecycle.EnsureDbOpensAtMostOnce | audit.py:46-49 | Any number of `_ensure_db` calls, whatever their faults, opens at most one connection, and none once `_db` is set. |
| Lifecycle.CloseThenReinitialise | audit.py:46-54 | After `close`, the next use initialises again with a new connection and the table present. |
| Lifecycle.ConnectFailureIsRetried | audit.py:39-49 | A failure to connect leaves `_db` null, so the next `_ensure_db` retries and can succeed. |
| Lifecycle.SetupFailureSticks | audit.py:39-49 | A failure after connecting but before `CREATE TABLE` leaves `_db` set. Every later `_ensure_db` returns without retrying, and the missing table stays missing. |
| Lifecycle.DirectInitializeRecovers | audit.py:39-44 | After a set-up failure before `CREATE TABLE` has left `_db` set and the table missing, a direct call to `initialize` opens a new connection and creates the table, keeping the rows. |
| Lifecycle.LateSetupFailureKeepsTable | audit.py:39-49 | A failure after `CREATE TABLE` (an index or the commit) raises once. The table exists, and every later `_ensure_db` raises nothing. |
| Recorder.BuildRow | audit.py:83-94 | `success` is stored as 1 exactly when the call succeeded and 0 otherwise. `parameters` is NULL exactly when it is None or empty, otherwise its JSON text. The other columns copy the arguments, and the timestamp is the current time. |
| Recorder.LogToolCall | audit.py:60-98 | `log_tool_call` never raises. On success the row is appended through `Insert`. On failure the rows are unchanged and the diagnostic names the tool. Validity of the state is preserved. |
| Recorder.LogToolCallSucceedsIff | audit.py:73-98 | The write goes through exactly when the connection can be had, the table exists, the statement succeeds and AUTOINCREMENT has not yet handed out the largest rowid. |
| Recorder.LogToolCallAppends | audit.py:76-96 | A successful write appends one row whose id exceeds every earlier id, with the call's tool and success flag. Earlier rows keep their values. |
| Recorder.LogToolCallFailureKeepsRows | audit.py:97-98 | A swallowed failure changes no row; only the connection may have been opened. |
| Recorder.WriteAfterLateSetupFailure | audit.py:39-49 | When only an index or the commit of `initialize` fails, the first write is lost with a diagnostic naming the tool. The next write is recorded exactly when ids remain. |
| Recorder.FullTableDropsWrites | audit.py:76-98 | Once the largest rowid has been handed out, every write leaves the rows as they were and logs a diagnostic. When the connection and the table are there and nothing else fails, that diagnostic is SQLITE_FULL for the tool. |
| Filters.DefaultArgsAreUnfiltered | audit.py:118-128 | Called with no arguments, `query_with_filters` has no active filter and a limit of 100. |
| Filters.BuildStatement | audit.py:150-155 | The statement's parameter list always ends with `limit`. |
| Filters.PlanShape | audit.py:129-149 | Exactly one clause per truthy filter, in the fixed order tool, session, client, since, until, errors-only. `errors_only` adds a clause but no parameter. The clauses hold as many `?` as there are parameters. |
| Filters.WhereShape | audit.py:150 | The WHERE fragment is empty exactly when no filter is active. Otherwise it is `" WHERE "` followed by the clauses joined with `" AND "`. |
| Filters.StatementPlaceholders | audit.py:150-155 | The full statement has exactly as many `?` placeholders as bound parameters, and `limit` is the last parameter. |
| Filters.RecentIsUnfiltered | audit.py:112-116 | With no filter, the statement `query_with_filters` builds is exactly the statement and parameter tuple of `query_recent`. |
| Filters.PlanMeansFilters | audit.py:132-153 | Bound to the parameters in order, the clauses accept a record exactly when it satisfies every active filter together. Tool, session and client use equality, with NULL never equal. `since` and `until` are inclusive string bounds on `timestamp`. `errors_only` keeps `success = 0`. |
| Query.SelectSound | audit.py:150-155 | Every returned row is a stored row that satisfies all active filters. |
| Query.SelectBounded | audit.py:153 | At most `limit` rows come back when `limit` is not negative. |
| Query.SelectDescending | audit.py:153 | Rows come back in strictly descending id order. |
| Query.SelectNewest | audit.py:153 | A matching row is left out only when `limit` rows with higher ids were returned. So the result is the newest matching rows, and all of them when fewer than `limit` match. |
| Query.RecentIsNewest | audit.py:112-116 | `query_recent` returns min(limit, N) rows in strictly descending id order, every returned row is stored, and every row left out has a lower id than all returned rows. |
| Query.Execute | audit.py:104-110 | Scanning the table from the newest row and stopping at `limit` matches yields exactly the ordered, limited selection. |
| Query.Fetch | audit.py:104-110 | A read initialises the connection on demand and never changes the rows. It succeeds exactly when the connection, the table and the statement do and `limit` fits SQLite's 64-bit INTEGER. A `limit` out of that range raises the overflow error once the table is found. Every error reaches the caller. |
| Query.QueryRecent | audit.py:112-116 | It leaves the logger as `_ensure_db` does, so it opens the connection on first use. With `limit` defaulting to 50, it succeeds under the same conditions as `Fetch`. It then returns exactly min(limit, N) stored rows, or all N when `limit` is negative. In a valid state they are in descending id order and are the highest ids. |
| Query.QueryWithFilters | audit.py:118-155 | It leaves the logger as `_ensure_db` does, and it succeeds under the same conditions as `Fetch`. The rows are unchanged. Every result row satisfies the filters, and there are at most `limit` of them. In a valid state the rows are in descending id order, and a matching row is missing only when `limit` newer matches were returned. |
| Summary.RateOf | audit.py:169 | The error-rate denominator is `MAX(COUNT(*), 1)`: it is never zero, 1 for an empty table, and the count otherwise. |
| Summary.Percent | audit.py:169-170 | The percentage needs a non-zero denominator. It is between 0 and 100 when errors do not exceed the denominator, and 0 exactly when there are no errors. |
| Summary.FirstCallIsLeast | audit.py:173 | `MIN(timestamp)` is NULL exactly on an empty table. Otherwise it is a stored timestamp that no stored timestamp sorts before. |
| Summary.LastCallIsGreatest | audit.py:174 | `MAX(timestamp)` is NULL exactly on an empty table. Otherwise it is a stored timestamp that no stored timestamp sorts after. |
| Summary.ValuesMembers | audit.py:166-168 | `COUNT(DISTINCT col)` counts the distinct non-NULL values that occur in some row. |
| Summary.SumFailures | audit.py:169 | The `SUM` of the failure indicator is NULL exactly on an empty table. Otherwise it is the number of rows with `success = 0`. |
| Summary.EmptyOverall | audit.py:162-178 | On an empty table every count is 0, and the error rate, first call and last call are all NULL. |
| Summary.OverallBounds | audit.py:162-178 | `total_calls` is the number of rows. Each distinct count is at most that, and `unique_tools` is 0 only for an empty table. The error rate is NULL exactly on an empty table. Otherwise it is the failed calls over all calls, between 0% and 100%. |
| Summary.IntendedErrorRateFacts | audit.py:169 | Summing failures with `TOTAL` instead of `SUM` gives a rate that is always between 0% and 100%, is 0% on an empty table, and equals the query's rate on every non-empty table. |
| Summary.SortKeepsTies | audit.py:191-192 | Sorting the groups by calls is stable: for every count, the groups with exactly that many calls come out in the order the grouping produced them, with none added or lost. |
| Summary.PerToolFacts | audit.py:180-194 | There is one per-tool row per distinct tool, each with exactly that tool's calls (at least one) and failures. Rows are ordered by calls descending. Their calls sum to `total_calls` and their failures to the overall error count, and there are `unique_tools` of them. |
| Summary.GetSummaryStats | audit.py:157-196 | Both queries run after the lazy initialisation, and failures reach the caller. On success `total_calls` is the row count, and the distinct counts are those of the tool, client and session columns. The error rate is NULL exactly on an empty table and the failed calls over all calls otherwise. First and last call are the least and greatest timestamps. The per-tool rows are ordered by calls descending, one per distinct tool, each with exactly that tool's calls and failures. Together they add up to the overall totals. |

## Left out

- SQLite and aiosqlite plumbing is left out: the WAL and synchronous PRAGMAs,
  the indexes, `row_factory` and the conversion of rows to dicts. None of
  these changes which rows are stored or returned.
- The INSERT and its commit are modelled as one atomic step. A commit that
  fails after a successful INSERT, leaving the row pending in an open
  transaction on the connection, is not modelled.
- Concurrency and `async` are not modelled: calls are sequential. The code
  has no lock around lazy initialisation, so nothing is claimed about
  concurrent first use.
- Floating-point results are not modelled: `AVG` and `MAX` of `duration_ms`
  (NULL on an empty table as well) and `ROUND` to one decimal. `duration_ms`
  is a natural number. A non-NULL error rate is the exact pair (errors,
  `MAX(count, 1)`), and `Summary.Percent` gives the exact real value without
  rounding.
- `datetime.now(timezone.utc).isoformat()` and `json.dumps` are opaque
  parameters.
- Recorder.BuildRow: `json.dumps` is a total function here. A `parameters`
  value it cannot serialise raises inside the swallowed `try`, and the model
  can express that only as `Faults.statementOk` being false. So its
  diagnostic reads `StatementError` rather than a serialisation error.
- Timestamps compare as strings, as SQLite's BINARY collation does.
- The text written by `logger.exception` is reduced to the tool name and the
  cause.
- The order of per-tool rows with equal `calls` is not fixed by the SQL. The
  model sorts stably from the grouping order, which lists tools by their most
  recent call, newest first.
- Query.QueryRecent: descending order and "highest ids" are stated only for
  valid states, where ids increase in insertion order. Every reachable state
  is valid: a logger opened on a file whose table is well formed (or absent
  and so empty) starts valid, `Lifecycle.Initialize`, `Lifecycle.EnsureDb`,
  `Lifecycle.Close` and `Recorder.LogToolCall` preserve validity, and
  `Records.Insert` keeps ids increasing.
- Query.QueryWithFilters: the same restriction to valid states, for the same
  reason.
- server.py is not part of this model: HTTP pass-through tools, float-to-int
  argument coercion, resource files and prompt templates. It does not call
  the audit logger.
- config.py is not part of this model: settings read from the environment,
  including the database path.
