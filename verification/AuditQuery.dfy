/** The audit query of the PostgreSQL store: a filter compiled into numbered placeholders and an argument list,
    and what any database that obeys the query may answer. */
module AuditQuery {
  import opened Results
  import opened AuditLog

  datatype Column = Resource | ResourceId | Action | Cluster | Actor

  /** The pieces appended to the SELECT, each with the number of its placeholder. */
  datatype Clause =
    | AndEquals(column: Column, param: nat)
    | AndSince(param: nat)
    | OrderByTimestampDesc
    | Limit(param: nat)

  datatype Arg = Text(text: string) | Time(time: int) | Count(count: int)

  function ColumnOf(c: Column, e: AuditEvent): string {
    match c
    case Resource => e.resource
    case ResourceId => e.resourceId
    case Action => e.action
    case Cluster => e.cluster
    case Actor => e.actor
  }

  // ---- What a query means -----------------------------------------------------------------

  function ArgAt(args: seq<Arg>, n: nat): Option<Arg> {
    if 1 <= n <= |args| then Some(args[n - 1]) else None
  }

  predicate Holds(c: Clause, args: seq<Arg>, row: AuditEvent) {
    match c
    case AndEquals(column, n) => ArgAt(args, n) == Some(Text(ColumnOf(column, row)))
    case AndSince(n) =>
      var a := ArgAt(args, n);
      a.Some? && a.value.Time? && row.timestamp >= a.value.time
    case OrderByTimestampDesc => true
    case Limit(_) => true
  }

  predicate Satisfies(query: seq<Clause>, args: seq<Arg>, row: AuditEvent) {
    forall i | 0 <= i < |query| :: Holds(query[i], args, row)
  }

  function LimitOf(query: seq<Clause>, args: seq<Arg>): Option<int> {
    if query == [] then None
    else match query[|query| - 1]
      case Limit(n) => (match ArgAt(args, n) case Some(Count(k)) => Some(k) case _ => None)
      case _ => LimitOf(query[..|query| - 1], args)
  }

  function Selected(query: seq<Clause>, args: seq<Arg>, table: seq<AuditEvent>): seq<AuditEvent> {
    if table == [] then [] else
      var last := table[|table| - 1];
      Selected(query, args, table[..|table| - 1]) + (if Satisfies(query, args, last) then [last] else [])
  }

  /** An answer that the database may give: some ordering of the selected rows that the ORDER BY clause allows,
      cut at the LIMIT. The order of rows in the table means nothing. */
  ghost predicate Answers(query: seq<Clause>, args: seq<Arg>, table: seq<AuditEvent>, answer: seq<AuditEvent>) {
    exists rows: seq<AuditEvent> ::
      && multiset(rows) == multiset(Selected(query, args, table))
      && (OrderByTimestampDesc in query ==> NewestFirst(rows))
      && answer == if LimitOf(query, args).Some? then Truncated(rows, LimitOf(query, args).value) else rows
  }

  /** The placeholders, in the order in which they appear. */
  function Params(query: seq<Clause>): seq<nat> {
    if query == [] then []
    else Params(query[..|query| - 1]) + match query[|query| - 1]
      case AndEquals(_, n) => [n]
      case AndSince(n) => [n]
      case Limit(n) => [n]
      case OrderByTimestampDesc => []
  }

  function Numbers(n: nat): (r: seq<nat>)
    ensures |r| == n && forall i | 0 <= i < n :: r[i] == i + 1
  {
    seq(n, i => i + 1)
  }

  /** Conditions, then ORDER BY, then LIMIT if there is one. */
  predicate SqlShape(query: seq<Clause>, limited: bool) {
    var conditions := |query| - (if limited then 2 else 1);
    && conditions >= 0
    && (forall i | 0 <= i < conditions :: query[i].AndEquals? || query[i].AndSince?)
    && query[conditions] == OrderByTimestampDesc
    && (limited ==> query[conditions + 1].Limit?)
  }

  /** What a compiled query must be: clauses in the order of SQL, placeholders numbered 1 to n without gap, one argument
      each, the right rows, newest first, and the right limit. */
  ghost predicate Compiles(f: AuditFilter, query: seq<Clause>, args: seq<Arg>) {
    && SqlShape(query, f.limit > 0)
    && Params(query) == Numbers(|args|)
    && (forall row :: Satisfies(query, args, row) <==> Passes(f, row))
    && LimitOf(query, args) == if f.limit > 0 then Some(f.limit) else None
  }

  // ---- Compilation ------------------------------------------------------------------------

  /** The filter's conditions in the order in which they are compiled, and how far compilation has come. */
  predicate PassesFirst(f: AuditFilter, k: nat, e: AuditEvent) {
    && (k > 0 && f.resource != "" ==> e.resource == f.resource)
    && (k > 1 && f.resourceId != "" ==> e.resourceId == f.resourceId)
    && (k > 2 && f.action != "" ==> e.action == f.action)
    && (k > 3 && f.cluster != "" ==> e.cluster == f.cluster)
    && (k > 4 && f.actor != "" ==> e.actor == f.actor)
    && (k > 5 && f.since.Some? ==> e.timestamp >= f.since.value)
  }

  ghost predicate CompiledFirst(f: AuditFilter, k: nat, query: seq<Clause>, args: seq<Arg>, argN: nat) {
    && argN == |args| + 1
    && Params(query) == Numbers(|args|)
    && (forall i | 0 <= i < |query| ::
          || (query[i].AndEquals? && 1 <= query[i].param <= |args|)
          || (query[i].AndSince? && 1 <= query[i].param <= |args|))
    && (forall row :: Satisfies(query, args, row) <==> PassesFirst(f, k, row))
  }

  /** One more condition: a clause with the next number and its argument, or nothing. */
  lemma CompileOneMore(f: AuditFilter, k: nat, query: seq<Clause>, args: seq<Arg>, argN: nat, c: Clause, a: Arg)
    requires CompiledFirst(f, k, query, args, argN)
    requires (c.AndEquals? || c.AndSince?) && c.param == argN
    requires forall row ::
      PassesFirst(f, k + 1, row) <==> PassesFirst(f, k, row) && Holds(c, args + [a], row)
    ensures CompiledFirst(f, k + 1, query + [c], args + [a], argN + 1)
  {
    var query', args' := query + [c], args + [a];
    assert query'[..|query|] == query;
    assert Numbers(|args'|) == Numbers(|args|) + [argN];
    forall row ensures Satisfies(query', args', row) <==> PassesFirst(f, k + 1, row) {
      forall i | 0 <= i < |query| ensures Holds(query'[i], args', row) == Holds(query[i], args, row) {
        assert query'[i] == query[i];
      }
      assert query'[|query|] == c;
      if Satisfies(query, args, row) && Holds(c, args', row) {
        forall i | 0 <= i < |query'| ensures Holds(query'[i], args', row) {
          assert i < |query| ==> Holds(query[i], args, row);
        }
      }
      if Satisfies(query', args', row) {
        forall i | 0 <= i < |query| ensures Holds(query[i], args, row) { assert Holds(query'[i], args', row); }
      }
    }
  }

  method CompileEquals(ghost f: AuditFilter, ghost k: nat, query: seq<Clause>, args: seq<Arg>, argN: nat,
                       column: Column, wanted: string)
    returns (query': seq<Clause>, args': seq<Arg>, argN': nat)
    requires CompiledFirst(f, k, query, args, argN)
    requires forall row ::
      PassesFirst(f, k + 1, row) <==> PassesFirst(f, k, row) && (wanted != "" ==> ColumnOf(column, row) == wanted)
    ensures CompiledFirst(f, k + 1, query', args', argN')
  {
    query', args', argN' := query, args, argN;
    if wanted != "" {
      CompileOneMore(f, k, query, args, argN, AndEquals(column, argN), Text(wanted));
      query' := query' + [AndEquals(column, argN')];
      args' := args' + [Text(wanted)];
      argN' := argN' + 1;
    }
  }

  /** The query builder, clause by clause. */
  method Compile(filter: AuditFilter) returns (query: seq<Clause>, args: seq<Arg>)
    ensures Compiles(filter, query, args)
  {
    query, args := [], [];
    var argN := 1;
    query, args, argN := CompileEquals(filter, 0, query, args, argN, Resource, filter.resource);
    query, args, argN := CompileEquals(filter, 1, query, args, argN, ResourceId, filter.resourceId);
    query, args, argN := CompileEquals(filter, 2, query, args, argN, Action, filter.action);
    query, args, argN := CompileEquals(filter, 3, query, args, argN, Cluster, filter.cluster);
    query, args, argN := CompileEquals(filter, 4, query, args, argN, Actor, filter.actor);
    if filter.since.Some? {
      CompileOneMore(filter, 5, query, args, argN, AndSince(argN), Time(filter.since.value));
      query := query + [AndSince(argN)];
      args := args + [Time(filter.since.value)];
      argN := argN + 1;
    }
    CompileTail(filter, query, args, argN);
    query := query + [OrderByTimestampDesc];
    if filter.limit > 0 {
      query := query + [Limit(argN)];
      args := args + [Count(filter.limit)];
    }
  }

  lemma CompileTail(f: AuditFilter, query: seq<Clause>, args: seq<Arg>, argN: nat)
    requires CompiledFirst(f, 6, query, args, argN)
    ensures f.limit <= 0 ==> Compiles(f, query + [OrderByTimestampDesc], args)
    ensures f.limit > 0 ==>
      Compiles(f, query + [OrderByTimestampDesc] + [Limit(argN)], args + [Count(f.limit)])
  {
    var ordered := query + [OrderByTimestampDesc];
    var limited, args' := ordered + [Limit(argN)], args + [Count(f.limit)];
    assert ordered[..|query|] == query && limited[..|ordered|] == ordered;
    assert ordered[|query|] == OrderByTimestampDesc && limited[|query|] == OrderByTimestampDesc;
    assert Numbers(|args'|) == Numbers(|args|) + [argN];
    NoLimit(query, args);
    forall row
      ensures Satisfies(ordered, args, row) <==> Passes(f, row)
      ensures Satisfies(limited, args', row) <==> Passes(f, row)
    {
      assert Satisfies(query, args, row) <==> PassesFirst(f, 6, row);
      if Satisfies(query, args, row) {
        forall i | 0 <= i < |query| ensures Holds(ordered[i], args, row) && Holds(limited[i], args', row) {
          assert Holds(query[i], args, row) && ordered[i] == query[i] && limited[i] == query[i];
        }
      }
      if Satisfies(ordered, args, row) {
        forall i | 0 <= i < |query| ensures Holds(query[i], args, row) { assert Holds(ordered[i], args, row); }
      }
      if Satisfies(limited, args', row) {
        forall i | 0 <= i < |query| ensures Holds(query[i], args, row) {
          assert Holds(limited[i], args', row) && limited[i] == query[i];
        }
      }
    }
  }

  lemma {:induction false} NoLimit(query: seq<Clause>, args: seq<Arg>)
    requires forall i | 0 <= i < |query| :: !query[i].Limit?
    ensures LimitOf(query, args) == None
  {
    if query != [] { NoLimit(query[..|query| - 1], args); }
  }

  // ---- Meaning preserved ------------------------------------------------------------------

  lemma {:induction false} SelectedIsMatching(
      f: AuditFilter, query: seq<Clause>, args: seq<Arg>, table: seq<AuditEvent>)
    requires forall row :: Satisfies(query, args, row) <==> Passes(f, row)
    ensures Selected(query, args, table) == Matching(table, f)
  {
    if table != [] { SelectedIsMatching(f, query, args, table[..|table| - 1]); }
  }

  lemma MatchingOfPermutation(f: AuditFilter, s: seq<AuditEvent>, t: seq<AuditEvent>)
    requires multiset(s) == multiset(t)
    ensures multiset(Matching(s, f)) == multiset(Matching(t, f))
  {
    forall e ensures multiset(Matching(s, f))[e] == multiset(Matching(t, f))[e] {
      MatchingCounts(s, f, e);
      MatchingCounts(t, f, e);
    }
  }

  lemma TailCounts(s: seq<AuditEvent>)
    requires s != []
    ensures multiset(s[1..]) == multiset(s) - multiset{s[0]}
  {
    assert s == [s[0]] + s[1..];
  }

  /** Within the first n, an event is equal to every later event of the same time. */
  predicate Settled(s: seq<AuditEvent>, n: nat) {
    forall i, j | 0 <= i < n && i < j < |s| && s[i].timestamp == s[j].timestamp :: s[i] == s[j]
  }

  lemma SameHead(s: seq<AuditEvent>, t: seq<AuditEvent>, n: nat)
    requires s != [] && t != [] && multiset(s) == multiset(t) && NewestFirst(s) && NewestFirst(t)
    requires Settled(s, n) && n > 0
    ensures s[0] == t[0]
  {
    assert t[0] in multiset(s);
    var i :| 0 <= i < |s| && s[i] == t[0];
    assert s[0] in multiset(t);
    var j :| 0 <= j < |t| && t[j] == s[0];
    assert i > 0 ==> s[0].timestamp >= s[i].timestamp;
    assert j > 0 ==> t[0].timestamp >= t[j].timestamp;
  }

  /** Where times settle the order, every newest-first ordering of the same events starts the same. */
  lemma {:induction false} NewestFirstUnique(s: seq<AuditEvent>, t: seq<AuditEvent>, n: nat)
    requires multiset(s) == multiset(t) && NewestFirst(s) && NewestFirst(t) && n <= |s| && Settled(s, n)
    ensures |s| == |t| && s[..n] == t[..n]
  {
    assert |multiset(s)| == |s| && |multiset(t)| == |t|;
    if n > 0 {
      SameHead(s, t, n);
      TailCounts(s);
      TailCounts(t);
      NewestFirstUnique(s[1..], t[1..], n - 1);
      assert s[..n] == [s[0]] + s[1..][..n - 1] && t[..n] == [t[0]] + t[1..][..n - 1];
    }
  }

  /** Swapping two events of the same time gives another newest-first ordering. */
  lemma SwapKeepsOrder(s: seq<AuditEvent>, i: nat, j: nat)
    requires i < j < |s| && NewestFirst(s) && s[i].timestamp == s[j].timestamp
    ensures NewestFirst(s[i := s[j]][j := s[i]])
    ensures multiset(s[i := s[j]][j := s[i]]) == multiset(s)
  {
    var t := s[i := s[j]][j := s[i]];
    assert forall k | 0 <= k < |s| :: t[k].timestamp == s[k].timestamp;
  }

  lemma OtherOrder(all: seq<AuditEvent>, limit: int) returns (rows: seq<AuditEvent>)
    requires NewestFirst(all) && !Settled(all, |Truncated(all, limit)|)
    ensures multiset(rows) == multiset(all) && NewestFirst(rows)
    ensures Truncated(rows, limit) != Truncated(all, limit)
  {
    var n := |Truncated(all, limit)|;
    var i, j :| 0 <= i < n && i < j < |all| && all[i].timestamp == all[j].timestamp && all[i] != all[j];
    SwapKeepsOrder(all, i, j);
    rows := all[i := all[j]][j := all[i]];
    assert Truncated(rows, limit)[i] == all[j] && Truncated(all, limit)[i] == all[i];
  }

  /** All matches, newest first, before the cut at the limit. */
  function Matches(events: seq<AuditEvent>, f: AuditFilter): seq<AuditEvent> {
    Reversed(Matching(events, f))
  }

  lemma MatchesAreSelected(
      f: AuditFilter, query: seq<Clause>, args: seq<Arg>, events: seq<AuditEvent>, table: seq<AuditEvent>)
    requires Compiles(f, query, args) && multiset(table) == multiset(events) && TimesRise(events)
    ensures multiset(Matches(events, f)) == multiset(Selected(query, args, table)) && NewestFirst(Matches(events, f))
    ensures OrderByTimestampDesc in query
    ensures forall rows: seq<AuditEvent> ::
      (if LimitOf(query, args).Some? then Truncated(rows, LimitOf(query, args).value) else rows)
      == Truncated(rows, f.limit)
  {
    SelectedIsMatching(f, query, args, table);
    MatchingOfPermutation(f, table, events);
    MatchingRises(events, f);
    ReversedCounts(Matching(events, f));
    assert query[|query| - (if f.limit > 0 then 2 else 1)] in query;
  }

  /** Every ordering that the database may choose, cut at the limit, is an answer, and there is no other. */
  lemma AnswersAre(
      f: AuditFilter, query: seq<Clause>, args: seq<Arg>, events: seq<AuditEvent>, table: seq<AuditEvent>,
      answer: seq<AuditEvent>)
    requires Compiles(f, query, args) && multiset(table) == multiset(events) && TimesRise(events)
    ensures Answers(query, args, table, answer) <==>
      exists rows: seq<AuditEvent> ::
        multiset(rows) == multiset(Matches(events, f)) && NewestFirst(rows) && answer == Truncated(rows, f.limit)
  {
    MatchesAreSelected(f, query, args, events, table);
  }

  /** Both stores tell the same story. Over a table that holds, in whatever order, the events that the memory store
      appended, the memory store's listing is an answer that the database may give to the compiled query. It is the only
      one exactly when no listed match shares its time with a different match: only then does ORDER BY settle the
      order. */
  lemma QueryPreservesMeaning(
      f: AuditFilter, query: seq<Clause>, args: seq<Arg>, events: seq<AuditEvent>, table: seq<AuditEvent>)
    requires Compiles(f, query, args) && multiset(table) == multiset(events) && TimesRise(events)
    ensures Answers(query, args, table, Listing(events, f))
    ensures (forall answer | Answers(query, args, table, answer) :: answer == Listing(events, f))
      <==> Settled(Matches(events, f), |Listing(events, f)|)
  {
    var all, n := Matches(events, f), |Listing(events, f)|;
    MatchesAreSelected(f, query, args, events, table);
    AnswersAre(f, query, args, events, table, Listing(events, f));
    assert Listing(events, f) == all[..n];
    if Settled(all, n) {
      forall answer | Answers(query, args, table, answer) ensures answer == Listing(events, f) {
        AnswersAre(f, query, args, events, table, answer);
        var rows: seq<AuditEvent> :|
          multiset(rows) == multiset(all) && NewestFirst(rows) && answer == Truncated(rows, f.limit);
        NewestFirstUnique(all, rows, n);
        assert answer == rows[..n];
      }
    } else {
      var _ := TiesLeaveAChoice(f, query, args, events, table);
    }
  }

  /** Two different matches of the same time, one of them listed, leave the database another answer. */
  lemma TiesLeaveAChoice(
      f: AuditFilter, query: seq<Clause>, args: seq<Arg>, events: seq<AuditEvent>, table: seq<AuditEvent>)
    returns (other: seq<AuditEvent>)
    requires Compiles(f, query, args) && multiset(table) == multiset(events) && TimesRise(events)
    requires !Settled(Matches(events, f), |Listing(events, f)|)
    ensures Answers(query, args, table, other) && other != Listing(events, f)
  {
    MatchesAreSelected(f, query, args, events, table);
    var rows := OtherOrder(Matches(events, f), f.limit);
    other := Truncated(rows, f.limit);
    AnswersAre(f, query, args, events, table, other);
  }

  /** Append times that rise strictly among the matches settle every listing. */
  lemma StrictTimesSettle(events: seq<AuditEvent>, f: AuditFilter, n: nat)
    requires TimesRiseStrictly(Matching(events, f))
    ensures Settled(Matches(events, f), n)
  {
    var all, rising := Matches(events, f), Matching(events, f);
    forall i, j | 0 <= i < n && i < j < |all| ensures all[i].timestamp > all[j].timestamp {
      assert all[i] == rising[|rising| - 1 - i] && all[j] == rising[|rising| - 1 - j];
    }
  }
}
