/** `get_summary_stats`: overall totals and a per-tool breakdown of the table. */
module Summary {
  import opened Wrappers
  import opened Records
  import opened Text
  import opened Lifecycle
  import Query

  /** An error rate as the pair the SQL divides: failed calls over
      `MAX(COUNT(*), 1)`. The denominator is never zero. */
  datatype ErrorRate = ErrorRate(errors: nat, denominator: nat)

  /** `SUM(CASE WHEN success = 0 ...) / MAX(COUNT(*), 1)`. */
  function RateOf(errors: nat, count: nat): (r: ErrorRate)
    ensures r.denominator >= 1 && r.errors == errors
    ensures count == 0 ==> r.denominator == 1
    ensures count > 0 ==> r.denominator == count
  {
    ErrorRate(errors, if count > 1 then count else 1)
  }

  /** `100.0 * errors / denominator`, exactly; the code then rounds a float to
      one decimal. Needs the guard: the denominator is not zero. */
  function Percent(r: ErrorRate): (p: real)
    requires r.denominator > 0
    ensures 0.0 <= p
    ensures r.errors <= r.denominator ==> p <= 100.0
    ensures r.errors == 0 <==> p == 0.0
  {
    var e := r.errors as real;
    var d := r.denominator as real;
    assert e <= d ==> e / d <= 1.0;
    100.0 * (e / d)
  }

  /** The row of the first query. Averages and maxima of `duration_ms` are left
      out. `errorRate` is `None` where `error_rate_pct` is NULL. */
  datatype Overall = Overall(
    totalCalls: nat,
    uniqueTools: nat,
    uniqueClients: nat,
    uniqueSessions: nat,
    errorRate: Option<ErrorRate>,
    firstCall: Option<string>,
    lastCall: Option<string>)

  /** One row of the per-tool query: calls and failed calls of one tool. Its
      error rate is `RateOf(errors, calls)`. */
  datatype ToolStats = ToolStats(toolName: string, calls: nat, errors: nat)

  datatype Stats = Stats(overall: Overall, perTool: seq<ToolStats>)

  /** Rows with `success = 0`. */
  function Errors(rows: seq<Record>): (n: nat)
    ensures n <= |rows|
    decreases |rows|
  {
    if |rows| == 0 then 0 else Bit(rows[0].success == 0) + Errors(rows[1..])
  }

  /** `SUM(CASE WHEN success = 0 THEN 1 ELSE 0 END)`: SQL's SUM is NULL over no
      rows and adds the values otherwise. */
  function SumFailures(rows: seq<Record>): (n: Option<nat>)
    ensures n.None? <==> |rows| == 0
    ensures n.Some? ==> n.value == Errors(rows)
    decreases |rows|
  {
    if |rows| == 0 then None
    else
      var b := Bit(rows[0].success == 0);
      match SumFailures(rows[1..])
      case None => Some(b)
      case Some(rest) => Some(b + rest)
  }

  /** The non-NULL values of a column; `COUNT(DISTINCT col)` is its size. */
  function Values(rows: seq<Record>, col: Record -> Option<string>): (vs: set<string>)
    decreases |rows|
  {
    if |rows| == 0 then {}
    else (if col(rows[0]).Some? then {col(rows[0]).value} else {}) + Values(rows[1..], col)
  }

  lemma {:induction false} ValuesMembers(rows: seq<Record>, col: Record -> Option<string>)
    ensures forall v :: v in Values(rows, col) <==> exists r :: r in rows && col(r) == Some(v)
    decreases |rows|
  {
    if |rows| > 0 {
      ValuesMembers(rows[1..], col);
      assert rows == [rows[0]] + rows[1..];
    }
  }

  lemma {:induction false} ValuesBounded(rows: seq<Record>, col: Record -> Option<string>)
    ensures |Values(rows, col)| <= |rows|
    decreases |rows|
  {
    if |rows| > 0 {
      ValuesBounded(rows[1..], col);
    }
  }

  function ToolColumn(r: Record): Option<string> { Some(r.toolName) }
  function ClientColumn(r: Record): Option<string> { r.clientName }
  function SessionColumn(r: Record): Option<string> { r.sessionId }

  /** `MIN(timestamp)`: NULL on an empty table. */
  function FirstCall(rows: seq<Record>): Option<string>
    decreases |rows|
  {
    if |rows| == 0 then None
    else match FirstCall(rows[1..])
      case None => Some(rows[0].timestamp)
      case Some(m) => Some(if LexLe(rows[0].timestamp, m) then rows[0].timestamp else m)
  }

  /** `MAX(timestamp)`: NULL on an empty table. */
  function LastCall(rows: seq<Record>): Option<string>
    decreases |rows|
  {
    if |rows| == 0 then None
    else match LastCall(rows[1..])
      case None => Some(rows[0].timestamp)
      case Some(m) => Some(if LexLe(m, rows[0].timestamp) then rows[0].timestamp else m)
  }

  /** `MIN(timestamp)` is one of the stored timestamps, and no stored timestamp sorts before it. */
  lemma {:induction false} FirstCallIsLeast(rows: seq<Record>)
    ensures FirstCall(rows).None? <==> |rows| == 0
    ensures FirstCall(rows).Some? ==>
      && (exists r :: r in rows && r.timestamp == FirstCall(rows).value)
      && (forall r :: r in rows ==> LexLe(FirstCall(rows).value, r.timestamp))
    decreases |rows|
  {
    if |rows| > 0 {
      FirstCallIsLeast(rows[1..]);
      assert rows == [rows[0]] + rows[1..];
      var t := rows[0].timestamp;
      LexLeReflexive(t);
      match FirstCall(rows[1..])
      case None =>
      case Some(m) =>
        LexLeTotal(t, m);
        forall r | r in rows[1..]
          ensures LexLe(FirstCall(rows).value, r.timestamp)
        {
          if LexLe(t, m) {
            LexLeTransitive(t, m, r.timestamp);
          }
        }
    }
  }

  /** `MAX(timestamp)` is one of the stored timestamps, and no stored timestamp sorts after it. */
  lemma {:induction false} LastCallIsGreatest(rows: seq<Record>)
    ensures LastCall(rows).None? <==> |rows| == 0
    ensures LastCall(rows).Some? ==>
      && (exists r :: r in rows && r.timestamp == LastCall(rows).value)
      && (forall r :: r in rows ==> LexLe(r.timestamp, LastCall(rows).value))
    decreases |rows|
  {
    if |rows| > 0 {
      LastCallIsGreatest(rows[1..]);
      assert rows == [rows[0]] + rows[1..];
      var t := rows[0].timestamp;
      LexLeReflexive(t);
      match LastCall(rows[1..])
      case None =>
      case Some(m) =>
        LexLeTotal(t, m);
        forall r | r in rows[1..]
          ensures LexLe(r.timestamp, LastCall(rows).value)
        {
          if LexLe(m, t) {
            LexLeTransitive(r.timestamp, m, t);
          }
        }
    }
  }

  /** `100.0 * SUM(...) / MAX(COUNT(*), 1)`: NULL when the SUM is NULL, since
      arithmetic and ROUND carry NULL through. */
  function RateOfSum(failures: Option<nat>, count: nat): Option<ErrorRate>
  {
    match failures
    case None => None
    case Some(e) => Some(RateOf(e, count))
  }

  /** The first query of `get_summary_stats`. */
  function OverallOf(rows: seq<Record>): Overall
  {
    Overall(
      |rows|,
      |Values(rows, ToolColumn)|,
      |Values(rows, ClientColumn)|,
      |Values(rows, SessionColumn)|,
      RateOfSum(SumFailures(rows), |rows|),
      FirstCall(rows),
      LastCall(rows))
  }

  /** On an empty table every count is zero and the first and last call are
      NULL; so is the error rate, because the SUM over no rows is NULL. */
  lemma EmptyOverall()
    ensures OverallOf([]) == Overall(0, 0, 0, 0, None, None, None)
  {
  }

  /** The totals agree with the table: `total_calls` is the number of rows, every
      distinct count is at most that, and on a non-empty table the error rate
      is the failed calls over all calls, between 0% and 100%. */
  lemma OverallBounds(rows: seq<Record>)
    ensures var o := OverallOf(rows);
      && o.totalCalls == |rows|
      && o.uniqueTools <= o.totalCalls
      && o.uniqueClients <= o.totalCalls
      && o.uniqueSessions <= o.totalCalls
      && (o.uniqueTools == 0 <==> o.totalCalls == 0)
      && (o.errorRate.None? <==> o.totalCalls == 0)
      && (o.errorRate.Some? ==>
            && o.errorRate.value == ErrorRate(Errors(rows), |rows|)
            && 0.0 <= Percent(o.errorRate.value) <= 100.0)
  {
    ValuesBounded(rows, ToolColumn);
    ValuesBounded(rows, ClientColumn);
    ValuesBounded(rows, SessionColumn);
    if |rows| > 0 {
      ValuesMembers(rows, ToolColumn);
      assert rows[0].toolName in Values(rows, ToolColumn);
    }
  }

  /** The rate the `MAX(COUNT(*), 1)` guard is evidently there for: failures
      summed with `TOTAL` (0 over no rows) instead of `SUM`. */
  function IntendedErrorRate(rows: seq<Record>): (r: ErrorRate)
    ensures r.denominator >= 1 && r.errors <= r.denominator
  {
    var failures := match SumFailures(rows) case None => 0 case Some(e) => e;
    RateOf(failures, |rows|)
  }

  /** The intended rate is always a number between 0% and 100%, is 0% on an
      empty table, and agrees with the query's rate wherever that is not NULL. */
  lemma IntendedErrorRateFacts(rows: seq<Record>)
    ensures 0.0 <= Percent(IntendedErrorRate(rows)) <= 100.0
    ensures |rows| == 0 ==> Percent(IntendedErrorRate(rows)) == 0.0
    ensures |rows| > 0 ==> OverallOf(rows).errorRate == Some(IntendedErrorRate(rows))
  {
  }

  // ---------------------------------------------------------------------------
  // Per-tool breakdown: GROUP BY tool_name ORDER BY calls DESC
  // ---------------------------------------------------------------------------

  function CountTool(rows: seq<Record>, t: string): nat
    decreases |rows|
  {
    if |rows| == 0 then 0 else Bit(rows[0].toolName == t) + CountTool(rows[1..], t)
  }

  function CountToolErrors(rows: seq<Record>, t: string): nat
    decreases |rows|
  {
    if |rows| == 0 then 0
    else Bit(rows[0].toolName == t && rows[0].success == 0) + CountToolErrors(rows[1..], t)
  }

  /** What the group of tool `t` must hold: all its calls and all its failures. */
  function Expected(rows: seq<Record>, t: string): ToolStats
  {
    ToolStats(t, CountTool(rows, t), CountToolErrors(rows, t))
  }

  function NamesOf(g: seq<ToolStats>): set<string>
    decreases |g|
  {
    if |g| == 0 then {} else {g[0].toolName} + NamesOf(g[1..])
  }

  /** No tool has two groups. */
  predicate Distinct(g: seq<ToolStats>)
    decreases |g|
  {
    |g| == 0 || (g[0].toolName !in NamesOf(g[1..]) && Distinct(g[1..]))
  }

  function SumCalls(g: seq<ToolStats>): nat
    decreases |g|
  {
    if |g| == 0 then 0 else g[0].calls + SumCalls(g[1..])
  }

  function SumErrors(g: seq<ToolStats>): nat
    decreases |g|
  {
    if |g| == 0 then 0 else g[0].errors + SumErrors(g[1..])
  }

  /** Count one more call in the group of `r`'s tool, opening it if there is none. */
  function AddCall(g: seq<ToolStats>, r: Record): seq<ToolStats>
    decreases |g|
  {
    if |g| == 0 then [ToolStats(r.toolName, 1, Bit(r.success == 0))]
    else if g[0].toolName == r.toolName then
      [g[0].(calls := g[0].calls + 1, errors := g[0].errors + Bit(r.success == 0))] + g[1..]
    else [g[0]] + AddCall(g[1..], r)
  }

  /** `GROUP BY tool_name`, before ordering. */
  function Group(rows: seq<Record>): seq<ToolStats>
    decreases |rows|
  {
    if |rows| == 0 then [] else AddCall(Group(rows[1..]), rows[0])
  }

  lemma {:induction false} AddCallFacts(g: seq<ToolStats>, r: Record)
    requires Distinct(g)
    ensures NamesOf(AddCall(g, r)) == NamesOf(g) + {r.toolName}
    ensures Distinct(AddCall(g, r))
    ensures SumCalls(AddCall(g, r)) == SumCalls(g) + 1
    ensures SumErrors(AddCall(g, r)) == SumErrors(g) + Bit(r.success == 0)
    ensures forall t :: CallsIn(AddCall(g, r), t) == CallsIn(g, t) + Bit(t == r.toolName)
    ensures forall t :: ErrorsIn(AddCall(g, r), t) == ErrorsIn(g, t) + Bit(t == r.toolName && r.success == 0)
    decreases |g|
  {
    if |g| > 0 && g[0].toolName != r.toolName {
      AddCallFacts(g[1..], r);
    }
  }

  /** The calls and failures of the group of `t` (0 when there is none). */
  function CallsIn(g: seq<ToolStats>, t: string): nat
    decreases |g|
  {
    if |g| == 0 then 0 else if g[0].toolName == t then g[0].calls else CallsIn(g[1..], t)
  }

  function ErrorsIn(g: seq<ToolStats>, t: string): nat
    decreases |g|
  {
    if |g| == 0 then 0 else if g[0].toolName == t then g[0].errors else ErrorsIn(g[1..], t)
  }

  lemma {:induction false} InGroupIsFound(g: seq<ToolStats>, e: ToolStats)
    requires Distinct(g) && e in g
    ensures CallsIn(g, e.toolName) == e.calls && ErrorsIn(g, e.toolName) == e.errors
    decreases |g|
  {
    if g[0] != e {
      InGroupIsFound(g[1..], e);
      NamesMembers(g[1..]);
    }
  }

  lemma {:induction false} NamesMembers(g: seq<ToolStats>)
    ensures forall t :: t in NamesOf(g) <==> exists e :: e in g && e.toolName == t
    decreases |g|
  {
    if |g| > 0 {
      NamesMembers(g[1..]);
      assert g == [g[0]] + g[1..];
    }
  }

  lemma {:induction false} CountAbsentTool(rows: seq<Record>, t: string)
    requires t !in Values(rows, ToolColumn)
    ensures CountTool(rows, t) == 0 && CountToolErrors(rows, t) == 0
    decreases |rows|
  {
    if |rows| > 0 {
      CountAbsentTool(rows[1..], t);
    }
  }

  /** Every group holds exactly the calls and failures of its tool, every tool
      has one group, and the groups add up to the whole table. */
  lemma {:induction false} GroupFacts(rows: seq<Record>)
    ensures Distinct(Group(rows))
    ensures NamesOf(Group(rows)) == Values(rows, ToolColumn)
    ensures forall t :: CallsIn(Group(rows), t) == CountTool(rows, t)
    ensures forall t :: ErrorsIn(Group(rows), t) == CountToolErrors(rows, t)
    ensures SumCalls(Group(rows)) == |rows|
    ensures SumErrors(Group(rows)) == Errors(rows)
    decreases |rows|
  {
    if |rows| > 0 {
      GroupFacts(rows[1..]);
      AddCallFacts(Group(rows[1..]), rows[0]);
    }
  }

  /** Place `x` after every group with more calls and before the first one with
      no more; as `SortByCalls` inserts the earlier groups last, groups with
      equal counts keep their grouping order. */
  function InsertByCalls(x: ToolStats, s: seq<ToolStats>): seq<ToolStats>
    decreases |s|
  {
    if |s| == 0 || x.calls >= s[0].calls then [x] + s else [s[0]] + InsertByCalls(x, s[1..])
  }

  /** `ORDER BY calls DESC`, by insertion; groups with equal counts keep the
      grouping order (`SortKeepsTies`). */
  function SortByCalls(g: seq<ToolStats>): seq<ToolStats>
    decreases |g|
  {
    if |g| == 0 then [] else InsertByCalls(g[0], SortByCalls(g[1..]))
  }

  ghost predicate CallsDescending(s: seq<ToolStats>)
  {
    forall i, j :: 0 <= i < j < |s| ==> s[i].calls >= s[j].calls
  }

  lemma {:induction false} InsertFacts(x: ToolStats, s: seq<ToolStats>)
    ensures |InsertByCalls(x, s)| == |s| + 1
    ensures forall e :: e in InsertByCalls(x, s) <==> e == x || e in s
    ensures NamesOf(InsertByCalls(x, s)) == NamesOf(s) + {x.toolName}
    ensures SumCalls(InsertByCalls(x, s)) == SumCalls(s) + x.calls
    ensures SumErrors(InsertByCalls(x, s)) == SumErrors(s) + x.errors
    ensures Distinct(s) && x.toolName !in NamesOf(s) ==> Distinct(InsertByCalls(x, s))
    decreases |s|
  {
    if |s| > 0 && x.calls < s[0].calls {
      InsertFacts(x, s[1..]);
      assert s == [s[0]] + s[1..];
    }
  }

  lemma {:induction false} InsertSorted(x: ToolStats, s: seq<ToolStats>)
    requires CallsDescending(s)
    ensures CallsDescending(InsertByCalls(x, s))
    decreases |s|
  {
    if |s| > 0 && x.calls < s[0].calls {
      InsertSorted(x, s[1..]);
      InsertFacts(x, s[1..]);
      var t := InsertByCalls(x, s[1..]);
      forall i, j | 0 <= i < j < |[s[0]] + t|
        ensures ([s[0]] + t)[i].calls >= ([s[0]] + t)[j].calls
      {
        if i == 0 {
          var e := ([s[0]] + t)[j];
          assert e in t;
          if e != x {
            var k :| 0 <= k < |s[1..]| && s[1..][k] == e;
            assert s[k + 1] == e;
          }
        }
      }
    }
  }

  lemma {:induction false} SortFacts(g: seq<ToolStats>)
    requires Distinct(g)
    ensures |SortByCalls(g)| == |g|
    ensures forall e :: e in SortByCalls(g) <==> e in g
    ensures NamesOf(SortByCalls(g)) == NamesOf(g)
    ensures Distinct(SortByCalls(g))
    ensures SumCalls(SortByCalls(g)) == SumCalls(g)
    ensures SumErrors(SortByCalls(g)) == SumErrors(g)
    ensures CallsDescending(SortByCalls(g))
    decreases |g|
  {
    if |g| > 0 {
      SortFacts(g[1..]);
      InsertFacts(g[0], SortByCalls(g[1..]));
      InsertSorted(g[0], SortByCalls(g[1..]));
      assert g == [g[0]] + g[1..];
    }
  }

  /** The groups with exactly `c` calls, in order. */
  function WithCalls(s: seq<ToolStats>, c: nat): seq<ToolStats>
    decreases |s|
  {
    if |s| == 0 then [] else (if s[0].calls == c then [s[0]] else []) + WithCalls(s[1..], c)
  }

  /** Inserting `x` puts it ahead of every group with its count: the groups it
      passes over all have more calls. */
  lemma {:induction false} InsertKeepsTies(x: ToolStats, s: seq<ToolStats>, c: nat)
    ensures WithCalls(InsertByCalls(x, s), c)
      == (if x.calls == c then [x] else []) + WithCalls(s, c)
    decreases |s|
  {
    if |s| == 0 || x.calls >= s[0].calls {
      assert ([x] + s)[1..] == s;
    } else {
      InsertKeepsTies(x, s[1..], c);
      assert ([s[0]] + InsertByCalls(x, s[1..]))[1..] == InsertByCalls(x, s[1..]);
    }
  }

  /** The sort is stable: for every count, the groups with that count come out
      in the order they went in. */
  lemma {:induction false} SortKeepsTies(g: seq<ToolStats>, c: nat)
    ensures WithCalls(SortByCalls(g), c) == WithCalls(g, c)
    decreases |g|
  {
    if |g| > 0 {
      SortKeepsTies(g[1..], c);
      InsertKeepsTies(g[0], SortByCalls(g[1..]), c);
    }
  }

  lemma {:induction false} DistinctSize(g: seq<ToolStats>)
    requires Distinct(g)
    ensures |NamesOf(g)| == |g|
    decreases |g|
  {
    if |g| > 0 {
      DistinctSize(g[1..]);
    }
  }

  /** The second query of `get_summary_stats`. */
  function PerToolOf(rows: seq<Record>): seq<ToolStats>
  {
    SortByCalls(Group(rows))
  }

  /** The per-tool rows: one per distinct tool, each with exactly that tool's
      calls (at least one) and failures, ordered by calls descending; their
      calls add up to `total_calls` and their failures to the overall errors,
      and there are as many as `unique_tools`. */
  lemma PerToolFacts(rows: seq<Record>)
    ensures var p := PerToolOf(rows);
      && CallsDescending(p)
      && Distinct(p)
      && NamesOf(p) == Values(rows, ToolColumn)
      && (forall e :: e in p ==> e == Expected(rows, e.toolName) && e.calls >= 1)
      && SumCalls(p) == OverallOf(rows).totalCalls
      && SumErrors(p) == Errors(rows)
      && |p| == OverallOf(rows).uniqueTools
  {
    var g := Group(rows);
    GroupFacts(rows);
    SortFacts(g);
    DistinctSize(SortByCalls(g));
    NamesMembers(g);
    forall e | e in g
      ensures e == Expected(rows, e.toolName) && e.calls >= 1
    {
      InGroupIsFound(g, e);
      assert e.toolName in Values(rows, ToolColumn);
      ToolCounted(rows, e.toolName);
    }
  }

  lemma {:induction false} ToolCounted(rows: seq<Record>, t: string)
    requires t in Values(rows, ToolColumn)
    ensures CountTool(rows, t) >= 1
    decreases |rows|
  {
    if rows[0].toolName != t {
      ToolCounted(rows[1..], t);
    }
  }

  /** `get_summary_stats`: both queries, after making sure the connection exists.
      Any failure reaches the caller. */
  function GetSummaryStats(s: Logger, faults: Faults): (o: Query.ReadOutcome<Stats>)
    ensures o.after == EnsureDb(s, faults.init).after
    ensures o.result.Ok? <==>
      && faults.statementOk
      && (if s.db.Some? then s.store.hasTable else faults.init == InitSucceeds)
    ensures o.result.Ok? ==>
      var rows := s.store.table.rows;
      var st := o.result.value;
      && st.overall.totalCalls == |rows|
      && st.overall.uniqueTools == |Values(rows, ToolColumn)|
      && st.overall.uniqueClients == |Values(rows, ClientColumn)|
      && st.overall.uniqueSessions == |Values(rows, SessionColumn)|
      && (st.overall.errorRate.None? <==> |rows| == 0)
      && (st.overall.errorRate.Some? ==> st.overall.errorRate.value == ErrorRate(Errors(rows), |rows|))
      && st.overall.firstCall == FirstCall(rows)
      && st.overall.lastCall == LastCall(rows)
    ensures o.result.Ok? ==>
      var rows := s.store.table.rows;
      var p := o.result.value.perTool;
      && CallsDescending(p)
      && Distinct(p)
      && NamesOf(p) == Values(rows, ToolColumn)
      && (forall e :: e in p ==> e == Expected(rows, e.toolName) && e.calls >= 1)
      && SumCalls(p) == |rows|
      && SumErrors(p) == Errors(rows)
  {
    var e := EnsureDb(s, faults.init);
    if e.raised.Some? then Query.ReadOutcome(e.after, Err(e.raised.value))
    else if !e.after.store.hasTable then Query.ReadOutcome(e.after, Err(NoSuchTable))
    else if !faults.statementOk then Query.ReadOutcome(e.after, Err(StatementError))
    else
      var rows := e.after.store.table.rows;
      OverallBounds(rows);
      PerToolFacts(rows);
      Query.ReadOutcome(e.after, Ok(Stats(OverallOf(rows), PerToolOf(rows))))
  }
}
