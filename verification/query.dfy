/** The read path: `query_recent` and `query_with_filters` both select the
    records that satisfy the filters, order them by id descending and keep the
    first `limit`. */
module Query {
  import opened Wrappers
  import opened Records
  import opened Filters
  import opened Lifecycle

  /** Ids strictly decrease along `rows`: the order of `ORDER BY id DESC`. */
  ghost predicate Descending(rows: seq<Record>)
  {
    forall i, j :: 0 <= i < j < |rows| ==> rows[i].id > rows[j].id
  }

  /** The records of `rows` that satisfy `f`, last inserted first. */
  function Matching(rows: seq<Record>, f: FilterArgs): seq<Record>
    decreases |rows|
  {
    if |rows| == 0 then []
    else Matching(rows[1..], f) + (if Matches(f, rows[0]) then [rows[0]] else [])
  }

  /** SQLite's `LIMIT n`: keep the first `n` rows; a negative `n` means no limit. */
  function Limit(s: seq<Record>, n: int): (r: seq<Record>)
    ensures n >= 0 ==> |r| == if n < |s| then n else |s|
    ensures n < 0 ==> r == s
    ensures |r| <= |s| && r == s[..|r|]
  {
    if n < 0 || n >= |s| then s else s[..n]
  }

  /** `SELECT * FROM tool_calls WHERE <f> ORDER BY id DESC LIMIT <f.limit>`. */
  function Select(rows: seq<Record>, f: FilterArgs): seq<Record>
  {
    Limit(Matching(rows, f), f.limit)
  }

  lemma {:induction false} MatchingMembers(rows: seq<Record>, f: FilterArgs)
    ensures forall x :: x in Matching(rows, f) <==> x in rows && Matches(f, x)
    decreases |rows|
  {
    if |rows| > 0 {
      MatchingMembers(rows[1..], f);
      assert rows == [rows[0]] + rows[1..];
    }
  }

  lemma {:induction false} MatchingDescending(rows: seq<Record>, f: FilterArgs)
    requires Ascending(rows)
    ensures Descending(Matching(rows, f))
    decreases |rows|
  {
    if |rows| > 0 {
      MatchingDescending(rows[1..], f);
      MatchingMembers(rows[1..], f);
      var m := Matching(rows[1..], f);
      forall y | y in m
        ensures y.id > rows[0].id
      {
        var j :| 0 <= j < |rows[1..]| && rows[1..][j] == y;
        assert rows[j + 1] == y;
      }
    }
  }

  /** `Matching` reads the rows from the end: the later part comes first. */
  lemma {:induction false} MatchingSplit(a: seq<Record>, b: seq<Record>, f: FilterArgs)
    ensures Matching(a + b, f) == Matching(b, f) + Matching(a, f)
    decreases |a|
  {
    if |a| == 0 {
      assert a + b == b;
    } else {
      assert (a + b)[0] == a[0];
      assert (a + b)[1..] == a[1..] + b;
      MatchingSplit(a[1..], b, f);
    }
  }

  /** Every record returned is a stored record that satisfies every active filter. */
  lemma SelectSound(rows: seq<Record>, f: FilterArgs)
    ensures forall x :: x in Select(rows, f) ==> x in rows && Matches(f, x)
  {
    MatchingMembers(rows, f);
  }

  /** At most `limit` records come back, unless the limit is negative. */
  lemma SelectBounded(rows: seq<Record>, f: FilterArgs)
    ensures f.limit >= 0 ==> |Select(rows, f)| <= f.limit
  {
  }

  /** Results are in strictly descending id order. */
  lemma SelectDescending(rows: seq<Record>, f: FilterArgs)
    requires Ascending(rows)
    ensures Descending(Select(rows, f))
  {
    MatchingDescending(rows, f);
  }

  /** A matching record is left out only when `limit` records with higher ids
      were returned instead: the result is the newest matching records, and all
      of them when fewer than `limit` match. */
  lemma SelectNewest(rows: seq<Record>, f: FilterArgs, x: Record)
    requires Ascending(rows)
    requires x in rows && Matches(f, x)
    requires x !in Select(rows, f)
    ensures 0 <= f.limit == |Select(rows, f)|
    ensures forall y :: y in Select(rows, f) ==> y.id > x.id
  {
    var m := Matching(rows, f);
    var s := Select(rows, f);
    MatchingMembers(rows, f);
    MatchingDescending(rows, f);
    var k :| 0 <= k < |m| && m[k] == x;
    assert k >= |s|;
    forall y | y in s
      ensures y.id > x.id
    {
      var i :| 0 <= i < |s| && s[i] == y;
      assert m[i] == y;
    }
  }

  /** With no active filter every stored record matches, so `query_recent`'s
      result is the newest `limit` records of the table. */
  lemma RecentIsNewest(rows: seq<Record>, limit: int)
    requires Ascending(rows)
    ensures var s := Select(rows, Unfiltered(limit));
      && Descending(s)
      && |s| == (if 0 <= limit < |rows| then limit else |rows|)
      && (forall x :: x in s ==> x in rows)
      && (forall x :: x in rows && x !in s ==> forall y :: y in s ==> y.id > x.id)
  {
    var f := Unfiltered(limit);
    MatchingMembers(rows, f);
    SelectDescending(rows, f);
    AllMatch(rows, f);
    forall x | x in rows && x !in Select(rows, f)
      ensures forall y :: y in Select(rows, f) ==> y.id > x.id
    {
      SelectNewest(rows, f, x);
    }
  }

  lemma {:induction false} AllMatch(rows: seq<Record>, f: FilterArgs)
    requires CountActive(f) == 0
    ensures |Matching(rows, f)| == |rows|
    decreases |rows|
  {
    if |rows| > 0 {
      AllMatch(rows[1..], f);
    }
  }

  /** What the database engine does with the statement: walk the table from the
      last inserted record back, keeping matches until `limit` are found. */
  method Execute(rows: seq<Record>, f: FilterArgs) returns (out: seq<Record>)
    ensures out == Select(rows, f)
  {
    out := [];
    var i := |rows|;
    while i > 0 && (f.limit < 0 || |out| < f.limit)
      invariant 0 <= i <= |rows|
      invariant out == Matching(rows[i..], f)
      invariant f.limit >= 0 ==> |out| <= f.limit
      decreases i
    {
      i := i - 1;
      assert rows[i..][1..] == rows[i + 1..];
      if Matches(f, rows[i]) {
        out := out + [rows[i]];
      }
    }
    assert rows[..i] + rows[i..] == rows;
    MatchingSplit(rows[..i], rows[i..], f);
  }

  // ---------------------------------------------------------------------------
  // The logger's read operations
  // ---------------------------------------------------------------------------

  /** The state after a read, and either its result or the exception it raised. */
  datatype ReadOutcome<T> = ReadOutcome(after: Logger, result: Result<T, AuditError>)

  /** Python's `sqlite3` refuses to bind an `int` outside SQLite's INTEGER
      range and raises `OverflowError` once the statement is prepared. */
  predicate FitsInteger(n: int)
  {
    MinInteger <= n <= MaxInteger
  }

  /** `_fetchall_dicts`: make sure the connection exists, then run the statement.
      Unlike the write path, every failure reaches the caller: a missing table
      when the statement is prepared, a `limit` SQLite cannot hold when it is
      bound, or a failure of the statement itself. */
  function Fetch(s: Logger, faults: Faults, f: FilterArgs): (o: ReadOutcome<seq<Record>>)
    ensures o.after == EnsureDb(s, faults.init).after
    ensures o.result.Ok? <==>
      && faults.statementOk
      && FitsInteger(f.limit)
      && (if s.db.Some? then s.store.hasTable else faults.init == InitSucceeds)
    ensures o.result == Err(BindOverflow) <==>
      && !FitsInteger(f.limit)
      && (if s.db.Some? then s.store.hasTable else faults.init == InitSucceeds)
    ensures o.result.Ok? ==> o.result.value == Select(s.store.table.rows, f)
  {
    var e := EnsureDb(s, faults.init);
    if e.raised.Some? then ReadOutcome(e.after, Err(e.raised.value))
    else if !e.after.store.hasTable then ReadOutcome(e.after, Err(NoSuchTable))
    else if !FitsInteger(f.limit) then ReadOutcome(e.after, Err(BindOverflow))
    else if !faults.statementOk then ReadOutcome(e.after, Err(StatementError))
    else ReadOutcome(e.after, Ok(Select(e.after.store.table.rows, f)))
  }

  const RecentDefaultLimit: int := 50

  /** `query_recent(limit)`: the newest `limit` records, newest first; 50 unless
      the caller says otherwise. */
  function QueryRecent(s: Logger, faults: Faults, limit: int := RecentDefaultLimit)
    : (o: ReadOutcome<seq<Record>>)
    ensures o.after == EnsureDb(s, faults.init).after
    ensures o.after.store.table == s.store.table
    ensures o.result.Ok? <==>
      && faults.statementOk
      && FitsInteger(limit)
      && (if s.db.Some? then s.store.hasTable else faults.init == InitSucceeds)
    ensures o.result.Ok? ==>
      var rows := s.store.table.rows;
      var out := o.result.value;
      && |out| == (if 0 <= limit < |rows| then limit else |rows|)
      && (forall x :: x in out ==> x in rows)
    ensures o.result.Ok? && Valid(s) ==>
      var rows := s.store.table.rows;
      var out := o.result.value;
      && Descending(out)
      && (forall x :: x in rows && x !in out ==> forall y :: y in out ==> y.id > x.id)
  {
    var rows := s.store.table.rows;
    RecentIsUnfiltered(limit);
    MatchingMembers(rows, Unfiltered(limit));
    AllMatch(rows, Unfiltered(limit));
    assert Valid(s) ==>
      && Descending(Select(rows, Unfiltered(limit)))
      && (forall x :: x in rows && x !in Select(rows, Unfiltered(limit)) ==>
            forall y :: y in Select(rows, Unfiltered(limit)) ==> y.id > x.id)
    by {
      if Valid(s) {
        RecentIsNewest(rows, limit);
      }
    }
    Fetch(s, faults, Unfiltered(limit))
  }

  /** `query_with_filters`: the newest `limit` records that satisfy every
      active filter, newest first. */
  function QueryWithFilters(s: Logger, faults: Faults, f: FilterArgs): (o: ReadOutcome<seq<Record>>)
    ensures o.after == EnsureDb(s, faults.init).after
    ensures o.after.store.table == s.store.table
    ensures o.result.Ok? <==>
      && faults.statementOk
      && FitsInteger(f.limit)
      && (if s.db.Some? then s.store.hasTable else faults.init == InitSucceeds)
    ensures o.result.Ok? ==>
      var rows := s.store.table.rows;
      var out := o.result.value;
      && (f.limit >= 0 ==> |out| <= f.limit)
      && (forall x :: x in out ==> x in rows && Matches(f, x))
    ensures o.result.Ok? && Valid(s) ==>
      var rows := s.store.table.rows;
      var out := o.result.value;
      && Descending(out)
      && (forall x :: x in rows && Matches(f, x) && x !in out ==>
            |out| == f.limit && forall y :: y in out ==> y.id > x.id)
  {
    var rows := s.store.table.rows;
    SelectSound(rows, f);
    assert Valid(s) ==>
      && Descending(Select(rows, f))
      && (forall x :: x in rows && Matches(f, x) && x !in Select(rows, f) ==>
            |Select(rows, f)| == f.limit && forall y :: y in Select(rows, f) ==> y.id > x.id)
    by {
      if Valid(s) {
        SelectDescending(rows, f);
        forall x | x in rows && Matches(f, x) && x !in Select(rows, f)
          ensures |Select(rows, f)| == f.limit && forall y :: y in Select(rows, f) ==> y.id > x.id
        {
          SelectNewest(rows, f, x);
        }
      }
    }
    Fetch(s, faults, f)
  }
}
