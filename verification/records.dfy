/** The `tool_calls` table: one immutable record per audited tool invocation,
    kept in insertion order, with SQLite's AUTOINCREMENT id assignment. */
module Records {
  import opened Wrappers

  /** One row of `tool_calls`. `success` is the INTEGER column (1 or 0);
      `durationMs` stands for the REAL column and is kept as a natural number. */
  datatype Record = Record(
    id: nat,
    timestamp: string,
    requestId: Option<string>,
    sessionId: Option<string>,
    clientName: Option<string>,
    clientVersion: Option<string>,
    toolName: string,
    parameters: Option<string>,
    success: int,
    errorMsg: Option<string>,
    durationMs: nat)

  /** The rows in insertion order, plus AUTOINCREMENT's record of the largest
      id ever handed out (SQLite's `sqlite_sequence` entry for the table). */
  datatype Table = Table(rows: seq<Record>, lastId: nat)

  /** The database file: whether the schema has been created, and the table. */
  datatype Store = Store(hasTable: bool, table: Table)

  /** 1 for true and 0 for false, as SQL counts a condition. */
  function Bit(b: bool): nat
  {
    if b then 1 else 0
  }

  /** SQLite's INTEGER range, which also bounds a rowid. */
  const MinInteger: int := -0x8000_0000_0000_0000
  const MaxInteger: int := 0x7FFF_FFFF_FFFF_FFFF

  /** Ids strictly increase along `rows`. */
  ghost predicate Ascending(rows: seq<Record>)
  {
    forall i, j :: 0 <= i < j < |rows| ==> rows[i].id < rows[j].id
  }

  /** Ids strictly increase in insertion order and never exceed the AUTOINCREMENT
      counter, which itself never exceeds the largest rowid; every stored success
      flag is 0 or 1. */
  ghost predicate WellFormed(t: Table)
  {
    && t.lastId <= MaxInteger
    && Ascending(t.rows)
    && (forall i :: 0 <= i < |t.rows| ==> 1 <= t.rows[i].id <= t.lastId)
    && (forall i :: 0 <= i < |t.rows| ==> t.rows[i].success == 0 || t.rows[i].success == 1)
  }

  /** A table that only ever received inserts: ids are exactly 1..N. */
  ghost predicate Dense(t: Table)
  {
    && t.lastId == |t.rows|
    && forall i :: 0 <= i < |t.rows| ==> t.rows[i].id == i + 1
  }

  /** INSERT with the id column omitted: AUTOINCREMENT assigns one more than the
      largest id ever used, whatever id the caller's record carried. Once that
      counter has reached `MaxInteger` SQLite refuses the insert instead (the
      caller, `Recorder.LogToolCall`, checks this first). */
  function Insert(t: Table, r: Record): (t': Table)
    ensures |t'.rows| == |t.rows| + 1
    ensures t'.rows[..|t.rows|] == t.rows
    ensures t'.rows[|t.rows|] == r.(id := t'.lastId)
    ensures t'.lastId == t.lastId + 1
  {
    var next := t.lastId + 1;
    Table(t.rows + [r.(id := next)], next)
  }

  /** The assigned id is larger than every existing id, and the table stays well formed. */
  lemma InsertPreservesWellFormed(t: Table, r: Record)
    requires WellFormed(t)
    requires t.lastId < MaxInteger
    requires r.success == 0 || r.success == 1
    ensures WellFormed(Insert(t, r))
    ensures forall x :: x in t.rows ==> x.id < Insert(t, r).rows[|t.rows|].id
  {
  }

  /** Starting from an empty table, N inserts hand out exactly the ids 1..N. */
  lemma InsertPreservesDense(t: Table, r: Record)
    requires Dense(t)
    ensures Dense(Insert(t, r))
    ensures Insert(t, r).rows[|t.rows|].id == |t.rows| + 1
  {
  }

  /** Inserting a sequence of records one by one. */
  function InsertAll(t: Table, rs: seq<Record>): (t': Table)
    ensures |t'.rows| == |t.rows| + |rs|
    decreases |rs|
  {
    if |rs| == 0 then t else InsertAll(Insert(t, rs[0]), rs[1..])
  }

  /** Any N inserts into an empty table leave ids 1..N, with no gap and no repeat. */
  lemma {:induction false} InsertAllDense(t: Table, rs: seq<Record>)
    requires Dense(t)
    ensures Dense(InsertAll(t, rs))
    decreases |rs|
  {
    if |rs| > 0 {
      InsertPreservesDense(t, rs[0]);
      InsertAllDense(Insert(t, rs[0]), rs[1..]);
    }
  }
}
