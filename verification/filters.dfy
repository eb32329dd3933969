/** The statement `query_with_filters` builds: one clause per active filter in a
    fixed order, the parameter list that goes with them, the WHERE fragment,
    and the meaning SQLite gives the result. */
module Filters {
  import opened Wrappers
  import opened Records
  import opened Text

  /** The keyword arguments of `query_with_filters`, with their defaults: no
      filter and a limit of 100 rows. */
  datatype FilterArgs = FilterArgs(
    toolName: Option<string> := None,
    sessionId: Option<string> := None,
    clientName: Option<string> := None,
    since: Option<string> := None,
    until: Option<string> := None,
    errorsOnly: bool := false,
    limit: int := DefaultFilterLimit)

  const DefaultFilterLimit: int := 100

  /** No filter at all: the shape of `query_recent`. */
  function Unfiltered(limit: int): (f: FilterArgs)
    ensures f.limit == limit && CountActive(f) == 0
  {
    FilterArgs(limit := limit)
  }

  /** Called with no argument at all, `query_with_filters` filters nothing and
      returns at most 100 rows. */
  lemma DefaultArgsAreUnfiltered()
    ensures FilterArgs() == Unfiltered(100)
  {
  }

  /** A parameter bound to a `?`. */
  datatype SqlValue = TextValue(text: string) | IntValue(number: int)

  /** Python truthiness of an optional string filter: `None` and `""` are both inactive. */
  predicate Active(o: Option<string>)
  {
    o.Some? && o.value != ""
  }

  /** The six filters, in the order the code tests them. */
  datatype Kind = ToolKind | SessionKind | ClientKind | SinceKind | UntilKind | ErrorsKind

  const FilterOrder: seq<Kind> := [ToolKind, SessionKind, ClientKind, SinceKind, UntilKind, ErrorsKind]

  predicate IsActive(f: FilterArgs, k: Kind)
  {
    match k
    case ToolKind => Active(f.toolName)
    case SessionKind => Active(f.sessionId)
    case ClientKind => Active(f.clientName)
    case SinceKind => Active(f.since)
    case UntilKind => Active(f.until)
    case ErrorsKind => f.errorsOnly
  }

  function CountActive(f: FilterArgs): nat
  {
    Bit(Active(f.toolName)) + Bit(Active(f.sessionId)) + Bit(Active(f.clientName))
      + Bit(Active(f.since)) + Bit(Active(f.until)) + Bit(f.errorsOnly)
  }

  /** The kinds of `kinds` that are active for `f`, order kept. */
  function ActiveKinds(f: FilterArgs, kinds: seq<Kind>): (r: seq<Kind>)
    ensures |r| <= |kinds|
    ensures forall k :: k in r <==> k in kinds && IsActive(f, k)
    decreases |kinds|
  {
    if |kinds| == 0 then []
    else (if IsActive(f, kinds[0]) then [kinds[0]] else []) + ActiveKinds(f, kinds[1..])
  }

  const ToolClause := "tool_name = ?"
  const SessionClause := "session_id = ?"
  const ClientClause := "client_name = ?"
  const SinceClause := "timestamp >= ?"
  const UntilClause := "timestamp <= ?"
  const ErrorsClause := "success = 0"

  function ClauseText(k: Kind): string
  {
    match k
    case ToolKind => ToolClause
    case SessionKind => SessionClause
    case ClientKind => ClientClause
    case SinceKind => SinceClause
    case UntilKind => UntilClause
    case ErrorsKind => ErrorsClause
  }

  /** The `clauses` and `params` lists before `limit` is appended. */
  datatype Plan = Plan(clauses: seq<string>, params: seq<SqlValue>)

  /** One `if x: clauses.append(...); params.append(x)` step. */
  function AddFilter(p: Plan, o: Option<string>, clause: string): (q: Plan)
    ensures |q.clauses| == |p.clauses| + Bit(Active(o)) && q.clauses[..|p.clauses|] == p.clauses
    ensures |q.params| == |p.params| + Bit(Active(o)) && q.params[..|p.params|] == p.params
    ensures Active(o) ==> q.clauses[|p.clauses|] == clause && q.params[|p.params|] == TextValue(o.value)
  {
    if Active(o) then Plan(p.clauses + [clause], p.params + [TextValue(o.value)]) else p
  }

  function BuildPlan(f: FilterArgs): Plan
  {
    var p1 := AddFilter(Plan([], []), f.toolName, ToolClause);
    var p2 := AddFilter(p1, f.sessionId, SessionClause);
    var p3 := AddFilter(p2, f.clientName, ClientClause);
    var p4 := AddFilter(p3, f.since, SinceClause);
    var p5 := AddFilter(p4, f.until, UntilClause);
    if f.errorsOnly then Plan(p5.clauses + [ErrorsClause], p5.params) else p5
  }

  /** The WHERE fragment: nothing without clauses, otherwise the keyword
      followed by the clauses joined with AND. */
  function WhereOf(clauses: seq<string>): string
  {
    if |clauses| == 0 then "" else " WHERE " + Join(" AND ", clauses)
  }

  const SelectHead := "SELECT * FROM tool_calls"
  const SelectTail := " ORDER BY id DESC LIMIT ?"

  /** A statement text and the tuple of parameters bound to it. */
  datatype Statement = Statement(sql: string, params: seq<SqlValue>)

  /** The statement `query_with_filters` hands to `_fetchall_dicts`. */
  function BuildStatement(f: FilterArgs): (st: Statement)
    ensures |st.params| > 0 && st.params[|st.params| - 1] == IntValue(f.limit)
  {
    var p := BuildPlan(f);
    Statement(SelectHead + WhereOf(p.clauses) + SelectTail, p.params + [IntValue(f.limit)])
  }

  /** The statement `query_recent` runs. */
  function RecentStatement(limit: int): Statement
  {
    Statement("SELECT * FROM tool_calls ORDER BY id DESC LIMIT ?", [IntValue(limit)])
  }

  // ---------------------------------------------------------------------------
  // What SQLite makes of these clauses
  // ---------------------------------------------------------------------------

  /** The conjunction of the active filters, stated directly on the record:
      equality on tool, session and client, inclusive string bounds on the
      timestamp, and `success = 0` when only errors are wanted. A NULL column
      never equals a bound value. */
  predicate Matches(f: FilterArgs, r: Record)
  {
    && (Active(f.toolName) ==> r.toolName == f.toolName.value)
    && (Active(f.sessionId) ==> r.sessionId == f.sessionId)
    && (Active(f.clientName) ==> r.clientName == f.clientName)
    && (Active(f.since) ==> LexLe(f.since.value, r.timestamp))
    && (Active(f.until) ==> LexLe(r.timestamp, f.until.value))
    && (f.errorsOnly ==> r.success == 0)
  }

  /** SQLite's reading of one of the six clause forms with `args` bound to its
      placeholders; `None` for any other text or a wrongly typed binding. */
  function EvalClause(c: string, args: seq<SqlValue>, r: Record): Option<bool>
  {
    if |args| == 1 && args[0].TextValue? then
      var v := args[0].text;
      if c == ToolClause then Some(r.toolName == v)
      else if c == SessionClause then Some(r.sessionId == Some(v))
      else if c == ClientClause then Some(r.clientName == Some(v))
      else if c == SinceClause then Some(LexLe(v, r.timestamp))
      else if c == UntilClause then Some(LexLe(r.timestamp, v))
      else None
    else if |args| == 0 && c == ErrorsClause then Some(r.success == 0)
    else None
  }

  /** A clause with the values bound to its placeholders. */
  datatype Bound = Bound(clause: string, args: seq<SqlValue>)

  /** Binding positional parameters: each clause takes as many values from the
      front of `params` as it has placeholders; `None` unless every value is used. */
  function Bind(clauses: seq<string>, params: seq<SqlValue>): Option<seq<Bound>>
    decreases |clauses|
  {
    if |clauses| == 0 then
      if |params| == 0 then Some([]) else None
    else
      var n := Marks(clauses[0]);
      if |params| < n then None
      else
        match Bind(clauses[1..], params[n..])
        case None => None
        case Some(rest) => Some([Bound(clauses[0], params[..n])] + rest)
  }

  /** The bound clauses joined by AND. */
  function EvalBound(bs: seq<Bound>, r: Record): Option<bool>
    decreases |bs|
  {
    if |bs| == 0 then Some(true)
    else
      match EvalClause(bs[0].clause, bs[0].args, r)
      case None => None
      case Some(b) =>
        match EvalBound(bs[1..], r)
        case None => None
        case Some(rest) => Some(b && rest)
  }

  /** A WHERE clause over `clauses` with `params` bound, applied to `r`. */
  function EvalWhere(clauses: seq<string>, params: seq<SqlValue>, r: Record): Option<bool>
  {
    match Bind(clauses, params)
    case None => None
    case Some(bs) => EvalBound(bs, r)
  }

  // ---------------------------------------------------------------------------
  // Properties of the statement
  // ---------------------------------------------------------------------------

  /** A clause that ends in its only placeholder. */
  lemma EndsInMark(clause: string, prefix: string)
    requires clause == prefix + "?" && '?' !in prefix
    ensures Marks(clause) == 1
  {
    OneMarkAtEnd(prefix);
  }

  lemma ToolClauseMarks()
    ensures Marks(ToolClause) == 1
  {
    EndsInMark(ToolClause, "tool_name = ");
  }

  lemma SessionClauseMarks()
    ensures Marks(SessionClause) == 1
  {
    EndsInMark(SessionClause, "session_id = ");
  }

  lemma ClientClauseMarks()
    ensures Marks(ClientClause) == 1
  {
    EndsInMark(ClientClause, "client_name = ");
  }

  lemma SinceClauseMarks()
    ensures Marks(SinceClause) == 1
  {
    EndsInMark(SinceClause, "timestamp >= ");
  }

  lemma UntilClauseMarks()
    ensures Marks(UntilClause) == 1
  {
    EndsInMark(UntilClause, "timestamp <= ");
  }

  lemma ErrorsClauseMarks()
    ensures Marks(ErrorsClause) == 0
  {
    NoMarks(ErrorsClause);
  }

  /** Every clause but `success = 0` has exactly one placeholder. */
  lemma ClauseMarks(k: Kind)
    ensures Marks(ClauseText(k)) == if k == ErrorsKind then 0 else 1
  {
    match k
    case ToolKind => ToolClauseMarks();
    case SessionKind => SessionClauseMarks();
    case ClientKind => ClientClauseMarks();
    case SinceKind => SinceClauseMarks();
    case UntilKind => UntilClauseMarks();
    case ErrorsKind => ErrorsClauseMarks();
  }

  /** The argument a kind of filter tests; `errors_only` is a flag, not a value. */
  function KindValue(f: FilterArgs, k: Kind): Option<string>
  {
    match k
    case ToolKind => f.toolName
    case SessionKind => f.sessionId
    case ClientKind => f.clientName
    case SinceKind => f.since
    case UntilKind => f.until
    case ErrorsKind => None
  }

  /** One step of the builder, for any kind. */
  function AddKind(p: Plan, f: FilterArgs, k: Kind): Plan
  {
    if k == ErrorsKind then
      if f.errorsOnly then Plan(p.clauses + [ErrorsClause], p.params) else p
    else AddFilter(p, KindValue(f, k), ClauseText(k))
  }

  /** The builder's steps for `kinds`, in order, starting from `p`. */
  function PlanFrom(p: Plan, f: FilterArgs, kinds: seq<Kind>): Plan
    decreases |kinds|
  {
    if |kinds| == 0 then p else PlanFrom(AddKind(p, f, kinds[0]), f, kinds[1..])
  }

  /** The six `if` blocks are the builder's step over the fixed filter order. */
  lemma BuildPlanIsFold(f: FilterArgs)
    ensures BuildPlan(f) == PlanFrom(Plan([], []), f, FilterOrder)
  {
    assert FilterOrder[1..][1..][1..][1..][1..][1..] == [];
  }

  function ClausesOf(kinds: seq<Kind>): seq<string>
    decreases |kinds|
  {
    if |kinds| == 0 then [] else [ClauseText(kinds[0])] + ClausesOf(kinds[1..])
  }

  /** The clauses the steps add are the texts of the active kinds, in order. */
  lemma {:induction false} PlanFromClauses(p: Plan, f: FilterArgs, kinds: seq<Kind>)
    ensures PlanFrom(p, f, kinds).clauses == p.clauses + ClausesOf(ActiveKinds(f, kinds))
    decreases |kinds|
  {
    if |kinds| > 0 {
      var k := kinds[0];
      PlanFromClauses(AddKind(p, f, k), f, kinds[1..]);
      if IsActive(f, k) {
        assert ActiveKinds(f, kinds) == [k] + ActiveKinds(f, kinds[1..]);
        assert ClausesOf(ActiveKinds(f, kinds)) == [ClauseText(k)] + ClausesOf(ActiveKinds(f, kinds[1..]));
      } else {
        assert ActiveKinds(f, kinds) == ActiveKinds(f, kinds[1..]);
      }
    }
  }

  /** As many parameters as placeholders in the clauses. */
  ghost predicate Aligned(p: Plan)
  {
    MarksOf(p.clauses) == |p.params|
  }

  lemma {:induction false} PlanFromAligned(p: Plan, f: FilterArgs, kinds: seq<Kind>)
    requires Aligned(p)
    ensures Aligned(PlanFrom(p, f, kinds))
    decreases |kinds|
  {
    if |kinds| > 0 {
      var k := kinds[0];
      var q := AddKind(p, f, k);
      ClauseMarks(k);
      if q != p {
        MarksOfSnoc(p.clauses, ClauseText(k));
      }
      PlanFromAligned(q, f, kinds[1..]);
    }
  }

  lemma ClausesCount(f: FilterArgs)
    ensures |BuildPlan(f).clauses| == CountActive(f)
  {
  }

  lemma ParamsCount(f: FilterArgs)
    ensures |BuildPlan(f).params| == CountActive(f) - Bit(f.errorsOnly)
  {
  }

  /** The plan holds one clause per active filter, in the fixed order tool,
      session, client, since, until, errors-only, and one parameter per
      placeholder: every active filter but `errors_only` brings its value. */
  lemma PlanShape(f: FilterArgs)
    ensures var p := BuildPlan(f);
      && p.clauses == ClausesOf(ActiveKinds(f, FilterOrder))
      && |p.clauses| == CountActive(f)
      && |p.params| == CountActive(f) - Bit(f.errorsOnly)
      && MarksOf(p.clauses) == |p.params|
  {
    BuildPlanIsFold(f);
    PlanFromClauses(Plan([], []), f, FilterOrder);
    PlanFromAligned(Plan([], []), f, FilterOrder);
    ClausesCount(f);
    ParamsCount(f);
  }

  /** No active filter, no WHERE; otherwise " WHERE " and the clauses joined by " AND ". */
  lemma WhereShape(f: FilterArgs)
    ensures var w := WhereOf(BuildPlan(f).clauses);
      && (w == "" <==> CountActive(f) == 0)
      && (CountActive(f) > 0 ==> w == " WHERE " + Join(" AND ", BuildPlan(f).clauses))
  {
    PlanShape(f);
  }

  lemma HeadMarks()
    ensures Marks(SelectHead) == 0
  {
    NoMarks(SelectHead);
  }

  lemma TailMarks()
    ensures Marks(SelectTail) == 1
  {
    assert SelectTail == " ORDER BY id DESC LIMIT " + "?";
    OneMarkAtEnd(" ORDER BY id DESC LIMIT ");
  }

  lemma WhereMarks(clauses: seq<string>)
    ensures Marks(WhereOf(clauses)) == MarksOf(clauses)
  {
    if |clauses| > 0 {
      NoMarks(" WHERE ");
      NoMarks(" AND ");
      JoinMarks(" AND ", clauses);
      MarksConcat(" WHERE ", Join(" AND ", clauses));
    }
  }

  /** The statement binds exactly as many parameters as it has placeholders,
      and `limit` goes last, to the `LIMIT ?`. */
  lemma StatementPlaceholders(f: FilterArgs)
    ensures var st := BuildStatement(f);
      && Marks(st.sql) == |st.params|
      && st.params[|st.params| - 1] == IntValue(f.limit)
  {
    var p := BuildPlan(f);
    var w := WhereOf(p.clauses);
    PlanShape(f);
    HeadMarks();
    TailMarks();
    WhereMarks(p.clauses);
    MarksConcat(SelectHead, w);
    MarksConcat(SelectHead + w, SelectTail);
    assert BuildStatement(f).sql == SelectHead + w + SelectTail;
    assert |BuildStatement(f).params| == |p.params| + 1;
  }

  /** With no filter, the statement is exactly the one `query_recent` runs. */
  lemma RecentIsUnfiltered(limit: int)
    ensures BuildStatement(Unfiltered(limit)) == RecentStatement(limit)
  {
    assert SelectHead + "" + SelectTail == "SELECT * FROM tool_calls ORDER BY id DESC LIMIT ?";
  }

  // ---------------------------------------------------------------------------
  // The clauses and parameters mean the conjunction of the active filters
  // ---------------------------------------------------------------------------

  /** The filter of kind `k` lets `r` through (an inactive filter lets everything through). */
  predicate KindHolds(f: FilterArgs, k: Kind, r: Record)
  {
    IsActive(f, k) ==>
      match k
      case ToolKind => r.toolName == f.toolName.value
      case SessionKind => r.sessionId == f.sessionId
      case ClientKind => r.clientName == f.clientName
      case SinceKind => LexLe(f.since.value, r.timestamp)
      case UntilKind => LexLe(r.timestamp, f.until.value)
      case ErrorsKind => r.success == 0
  }

  predicate AllHold(f: FilterArgs, kinds: seq<Kind>, r: Record)
    decreases |kinds|
  {
    |kinds| == 0 || (KindHolds(f, kinds[0], r) && AllHold(f, kinds[1..], r))
  }

  /** Appending a clause together with its own values extends the binding by one. */
  lemma {:induction false} BindSnoc(cs: seq<string>, ps: seq<SqlValue>, c: string, args: seq<SqlValue>)
    requires Bind(cs, ps).Some?
    requires Marks(c) == |args|
    ensures Bind(cs + [c], ps + args) == Some(Bind(cs, ps).value + [Bound(c, args)])
    decreases |cs|
  {
    if |cs| == 0 {
      assert ps == [] && cs + [c] == [c] && ps + args == args;
      assert [c][1..] == [];
      assert args[..|args|] == args && args[|args|..] == [];
      assert Bind([], []) == Some([]);
      assert Bind([c], args) == Some([Bound(c, args)] + []);
      assert [Bound(c, args)] + [] == [Bound(c, args)];
      assert Bind(cs, ps).value + [Bound(c, args)] == [Bound(c, args)];
    } else {
      var n := Marks(cs[0]);
      assert (cs + [c])[0] == cs[0];
      assert (cs + [c])[1..] == cs[1..] + [c];
      assert (ps + args)[..n] == ps[..n];
      assert (ps + args)[n..] == ps[n..] + args;
      BindSnoc(cs[1..], ps[n..], c, args);
      var head := [Bound(cs[0], ps[..n])];
      var rest := Bind(cs[1..], ps[n..]).value;
      assert Bind(cs, ps).value == head + rest;
      assert Bind(cs + [c], ps + args) == Some(head + (rest + [Bound(c, args)]));
      assert head + (rest + [Bound(c, args)]) == (head + rest) + [Bound(c, args)];
    }
  }

  lemma {:induction false} EvalBoundSnoc(bs: seq<Bound>, b: Bound, r: Record, v: bool)
    requires EvalBound(bs, r).Some?
    requires EvalClause(b.clause, b.args, r) == Some(v)
    ensures EvalBound(bs + [b], r) == Some(EvalBound(bs, r).value && v)
    decreases |bs|
  {
    if |bs| == 0 {
      assert [b][1..] == [];
    } else {
      assert (bs + [b])[1..] == bs[1..] + [b];
      EvalBoundSnoc(bs[1..], b, r, v);
    }
  }

  lemma ClauseMeaning(f: FilterArgs, k: Kind, r: Record)
    requires IsActive(f, k) && k != ErrorsKind
    ensures EvalClause(ClauseText(k), [TextValue(KindValue(f, k).value)], r) == Some(KindHolds(f, k, r))
  {
  }

  /** Adding the clause of an active kind other than `errors_only`, with its value. */
  lemma AddValueMeaning(p: Plan, f: FilterArgs, k: Kind, r: Record)
    requires IsActive(f, k) && k != ErrorsKind
    requires Bind(p.clauses, p.params).Some?
    requires EvalBound(Bind(p.clauses, p.params).value, r).Some?
    ensures var q := AddKind(p, f, k);
      && Bind(q.clauses, q.params).Some?
      && EvalBound(Bind(q.clauses, q.params).value, r)
        == Some(EvalBound(Bind(p.clauses, p.params).value, r).value && KindHolds(f, k, r))
  {
    var bs := Bind(p.clauses, p.params).value;
    var args := [TextValue(KindValue(f, k).value)];
    assert AddKind(p, f, k) == Plan(p.clauses + [ClauseText(k)], p.params + args);
    ClauseMarks(k);
    ClauseMeaning(f, k, r);
    BindSnoc(p.clauses, p.params, ClauseText(k), args);
    EvalBoundSnoc(bs, Bound(ClauseText(k), args), r, KindHolds(f, k, r));
  }

  lemma ErrorsClauseMeaning(r: Record)
    ensures EvalClause(ErrorsClause, [], r) == Some(r.success == 0)
  {
  }

  /** Adding `success = 0`, which takes no value. */
  lemma AddErrorsMeaning(p: Plan, f: FilterArgs, r: Record)
    requires f.errorsOnly
    requires Bind(p.clauses, p.params).Some?
    requires EvalBound(Bind(p.clauses, p.params).value, r).Some?
    ensures var q := AddKind(p, f, ErrorsKind);
      && Bind(q.clauses, q.params).Some?
      && EvalBound(Bind(q.clauses, q.params).value, r)
        == Some(EvalBound(Bind(p.clauses, p.params).value, r).value && r.success == 0)
  {
    var bs := Bind(p.clauses, p.params).value;
    var q := Plan(p.clauses + [ErrorsClause], p.params + []);
    assert AddKind(p, f, ErrorsKind) == q;
    ErrorsClauseMarks();
    BindSnoc(p.clauses, p.params, ErrorsClause, []);
    ErrorsClauseMeaning(r);
    EvalBoundSnoc(bs, Bound(ErrorsClause, []), r, r.success == 0);
  }

  lemma AddKindMeaning(p: Plan, f: FilterArgs, k: Kind, r: Record)
    requires Bind(p.clauses, p.params).Some?
    requires EvalBound(Bind(p.clauses, p.params).value, r).Some?
    ensures var q := AddKind(p, f, k);
      && Bind(q.clauses, q.params).Some?
      && EvalBound(Bind(q.clauses, q.params).value, r)
        == Some(EvalBound(Bind(p.clauses, p.params).value, r).value && KindHolds(f, k, r))
  {
    if !IsActive(f, k) {
      assert AddKind(p, f, k) == p;
    } else if k == ErrorsKind {
      AddErrorsMeaning(p, f, r);
    } else {
      AddValueMeaning(p, f, k, r);
    }
  }

  lemma {:induction false} PlanFromMeaning(p: Plan, f: FilterArgs, kinds: seq<Kind>, r: Record)
    requires Bind(p.clauses, p.params).Some?
    requires EvalBound(Bind(p.clauses, p.params).value, r).Some?
    ensures var q := PlanFrom(p, f, kinds);
      && Bind(q.clauses, q.params).Some?
      && EvalBound(Bind(q.clauses, q.params).value, r)
        == Some(EvalBound(Bind(p.clauses, p.params).value, r).value && AllHold(f, kinds, r))
    decreases |kinds|
  {
    if |kinds| > 0 {
      AddKindMeaning(p, f, kinds[0], r);
      PlanFromMeaning(AddKind(p, f, kinds[0]), f, kinds[1..], r);
    }
  }

  lemma MatchesIsAllHold(f: FilterArgs, r: Record)
    ensures Matches(f, r) == AllHold(f, FilterOrder, r)
  {
    assert FilterOrder[1..][1..][1..][1..][1..][1..] == [];
  }

  /** Bound to the parameters in order, the clauses select exactly the records
      that satisfy every active filter: no parameter is left over or missing,
      and none lands on another filter's placeholder. */
  lemma PlanMeansFilters(f: FilterArgs, r: Record)
    ensures var p := BuildPlan(f);
      EvalWhere(p.clauses, p.params, r) == Some(Matches(f, r))
  {
    BuildPlanIsFold(f);
    PlanFromMeaning(Plan([], []), f, FilterOrder, r);
    MatchesIsAllHold(f, r);
  }
}
