/** From a request's texts to its answer over SQL: what the engines are asked for, and that the
    reply is the day-by-day sum. */
module Answers {
  import opened Wrappers
  import opened Calendar
  import opened Zones
  import opened Errors
  import opened Domain
  import opened Planner
  import opened Tables
  import opened Merge
  import opened HttpApi
  import opened Service
  import opened Sql
  import opened Reading
  import DateText
  import P = Protocol
  import Statements

  // ----- Rows as the engines hold them -----

  /** A row of the retail table, and one of the renovation table, by column names. */
  function RetailRecord(row: Row<RetailMetrics>): Record {
    Record(map["org_id" := row.org, "stat_date" := PrintDay(row.day)],
           map["order_count" := row.data.orders, "sales_amount" := row.data.cents])
  }

  function StageRecord(row: Row<seq<int>>): Record {
    Record(map["org_id" := row.org, "stat_date" := PrintDay(row.day)],
           map["lead_count" := StageCount(0)(row.data), "invited_count" := StageCount(1)(row.data),
               "measured_count" := StageCount(2)(row.data), "signed_count" := StageCount(3)(row.data),
               "started_count" := StageCount(4)(row.data), "completed_count" := StageCount(5)(row.data)])
  }

  function Records<M>(rows: seq<Row<M>>, view: Row<M> -> Record): (records: seq<Record>)
    ensures |records| == |rows| && forall i :: 0 <= i < |rows| ==> records[i] == view(rows[i])
  {
    seq(|rows|, i requires 0 <= i < |rows| => view(rows[i]))
  }

  /** The view keeps organisation and date, and the column holds the value. */
  ghost predicate Shows<M>(rows: seq<Row<M>>, view: Row<M> -> Record, column: string, value: M -> int) {
    forall i :: 0 <= i < |rows| ==>
      && view(rows[i]).texts == map["org_id" := rows[i].org, "stat_date" := PrintDay(rows[i].day)]
      && column in view(rows[i]).numbers && view(rows[i]).numbers[column] == value(rows[i].data)
  }

  /** Stored dates have four-digit years. */
  ghost predicate Storable<M>(rows: seq<Row<M>>) {
    forall i :: 0 <= i < |rows| ==> FourDigitDay(rows[i].day)
  }

  /** The date bounds, compared as texts, select exactly the segment's days. */
  lemma DateFilterSelectsRange(r: DateRange, n: int)
    requires FourDigitDay(r.start) && FourDigitDay(r.end) && FourDigitDay(n)
    ensures !DateText.TextLess(PrintDay(n), StartString(r)) && !DateText.TextLess(EndString(r), PrintDay(n))
       <==> InRange(r)(n)
  {
    hide FromDayNumber, DayNumber, DateText.Print, DateText.TextLess;
    DateText.TextOrderIsCalendarOrder(FromDayNumber(n), FromDayNumber(r.start));
    DateText.TextOrderIsCalendarOrder(FromDayNumber(r.end), FromDayNumber(n));
  }

  /** The three conditions hold of exactly the organisation's rows on the segment's days. */
  lemma MeetsFilters(record: Record, org: string, day: int, q: Query)
    requires record.texts == map["org_id" := org, "stat_date" := PrintDay(day)]
    requires FourDigitDay(day) && FourDigitDay(q.range.start) && FourDigitDay(q.range.end)
    ensures Meets(record, Filters(q.org, StartString(q.range), EndString(q.range)))
         == Some(org == q.org && InRange(q.range)(day))
  {
    hide FourDigitDay, PrintDay, DateText.TextLess;
    DateFilterSelectsRange(q.range, day);
    var (a, b, c) := (Condition("org_id", "=", q.org), Condition("stat_date", ">=", StartString(q.range)),
                      Condition("stat_date", "<=", EndString(q.range)));
    assert Filters(q.org, StartString(q.range), EndString(q.range)) == [a, b, c];
    assert [a, b, c][1..] == [b, c] && [b, c][1..] == [c] && [c][1..] == [];
    assert Meets(record, []) == Some(true);
    assert Meets(record, [c]) == Some(!DateText.TextLess(EndString(q.range), PrintDay(day)));
    assert Meets(record, [b, c])
        == Some(!DateText.TextLess(PrintDay(day), StartString(q.range))
                && !DateText.TextLess(EndString(q.range), PrintDay(day)));
  }

  /** Summing a column under the three conditions is summing the value over the range. */
  lemma {:induction false} ColumnSum<M>(rows: seq<Row<M>>, view: Row<M> -> Record, column: string, value: M -> int,
                                        q: Query)
    requires Storable(rows) && Shows(rows, view, column, value)
    requires FourDigitDay(q.range.start) && FourDigitDay(q.range.end)
    ensures SumColumn(Records(rows, view), Filters(q.org, StartString(q.range), EndString(q.range)), column)
         == Some(SumWhere(rows, q.org, InRange(q.range), value))
    decreases |rows|
  {
    hide FourDigitDay, StartString, EndString, PrintDay, Meets, Filters;
    if rows != [] {
      var (before, last) := (rows[..|rows| - 1], rows[|rows| - 1]);
      ColumnSum(before, view, column, value, q);
      assert Records(rows, view)[..|rows| - 1] == Records(before, view);
      MeetsFilters(view(last), last.org, last.day, q);
    }
  }

  lemma OneColumn(rows: seq<Record>, conditions: seq<Condition>, columns: seq<string>)
    requires columns != []
    ensures SumColumns(rows, conditions, columns)
         == (match SumColumn(rows, conditions, columns[0])
             case None => None
             case Some(first) =>
               match SumColumns(rows, conditions, columns[1..])
               case None => None
               case Some(others) => Some([first] + others))
  {
  }

  /** Each column gives its own sum, in order. */
  lemma {:induction false} ColumnSums(rows: seq<Record>, conditions: seq<Condition>, columns: seq<string>,
                                     sums: seq<int>)
    requires |columns| == |sums|
    requires forall i :: 0 <= i < |columns| ==> SumColumn(rows, conditions, columns[i]) == Some(sums[i])
    ensures SumColumns(rows, conditions, columns) == Some(sums)
    decreases |columns|
  {
    hide SumColumn;
    if columns == [] {
      assert sums == [];
    } else {
      OneColumn(rows, conditions, columns);
      ColumnSums(rows, conditions, columns[1..], sums[1..]);
      assert sums == [sums[0]] + sums[1..];
    }
  }

  /** The sums of the segment's days that a retail and a renovation table hold. */
  function RetailSums(rows: seq<Row<RetailMetrics>>, q: Query): seq<int> {
    [SumWhere(rows, q.org, InRange(q.range), OrderCount()), SumWhere(rows, q.org, InRange(q.range), SalesCents())]
  }

  function StageSums(rows: seq<Row<seq<int>>>, q: Query): (sums: seq<int>)
    ensures |sums| == STAGES
    ensures forall k :: 0 <= k < STAGES ==> sums[k] == SumWhere(rows, q.org, InRange(q.range), StageCount(k))
  {
    seq(STAGES, k => SumWhere(rows, q.org, InRange(q.range), StageCount(k)))
  }

  lemma StageShows(rows: seq<Row<seq<int>>>, k: int)
    requires 0 <= k < STAGES
    ensures Shows(rows, StageRecord, STAGE_COLUMNS[k], StageCount(k))
  {
    hide PrintDay;
  }

  lemma RetailShows(rows: seq<Row<RetailMetrics>>)
    ensures Shows(rows, RetailRecord, "order_count", OrderCount())
    ensures Shows(rows, RetailRecord, "sales_amount", SalesCents())
  {
    hide PrintDay;
  }

  // ----- The engines of real mode -----

  /** The tables and the two builders behind the repositories: Hive takes literals, Trino and
      StarRocks bind. */
  datatype Names = Names(prefix: string, retail: string, renovation: string) {
    predicate Valid() { Statements.ValidTriple(prefix, retail, renovation) }

    function RetailTable(): string { prefix + "." + retail }

    function RenovationTable(): string { prefix + "." + renovation }

    function BuilderFor(source: Source): Statements.Builder {
      if source == Hive then Statements.Builder.Hive(RetailTable(), RenovationTable())
      else Statements.Bound(RetailTable(), RenovationTable())
    }
  }

  lemma QualifiedIsOrdinary(prefix: string, table: string)
    requires Statements.ValidIdentifier(prefix) && Statements.ValidIdentifier(table)
    ensures Ordinary(Statements.Qualify(prefix, table)) && Statements.Qualify(prefix, table) != ""
  {
  }

  /** In either dialect, the retail statement of a query reads as a request for the sums of
      orders and sales over the query's days, from the configured table. */
  lemma RetailStatementAsks(names: Names, source: Source, q: Query, rows: seq<Row<RetailMetrics>>,
                            tables: map<string, seq<Record>>)
    requires names.Valid() && Statements.LiteralSafe(q.org)
    requires Storable(rows) && FourDigitDay(q.range.start) && FourDigitDay(q.range.end)
    requires names.RetailTable() in tables && tables[names.RetailTable()] == Records(rows, RetailRecord)
    ensures var statement := Statements.Retail(names.BuilderFor(source), q);
            statement.Some? && Asked(statement.value.sql, statement.value.args, tables) == Some(RetailSums(rows, q))
  {
    hide FourDigitDay, Storable, SumWhere, Statements.Retail, Statements.Renovation, Statements.ValidIdentifier,
         Statements.LiteralSafe, Statements.Meaning, Statements.Fill, Statements.Occurrences, Statements.Quote,
         Statements.Plain, Tokens, Split, ReadSelect, SumColumns, Shows, RetailRecord, PrintDay, Filters;
    var (start, end) := (StartString(q.range), EndString(q.range));
    Statements.DialectsAgree(names.prefix, names.retail, names.renovation, q);
    QualifiedIsOrdinary(names.prefix, names.retail);
    RetailReads(names.RetailTable(), q.org, start, end);
    RetailShows(rows);
    ColumnSum(rows, RetailRecord, "order_count", OrderCount(), q);
    ColumnSum(rows, RetailRecord, "sales_amount", SalesCents(), q);
    ColumnSums(Records(rows, RetailRecord), Filters(q.org, start, end), ["order_count", "sales_amount"],
               RetailSums(rows, q));
  }

  /** The renovation statement reads as a request for the sums of the six stages, in order. */
  lemma RenovationStatementAsks(names: Names, source: Source, q: Query, rows: seq<Row<seq<int>>>,
                                tables: map<string, seq<Record>>)
    requires names.Valid() && Statements.LiteralSafe(q.org)
    requires Storable(rows) && FourDigitDay(q.range.start) && FourDigitDay(q.range.end)
    requires names.RenovationTable() in tables && tables[names.RenovationTable()] == Records(rows, StageRecord)
    ensures var statement := Statements.Renovation(names.BuilderFor(source), q);
            statement.Some? && Asked(statement.value.sql, statement.value.args, tables) == Some(StageSums(rows, q))
  {
    hide FourDigitDay, Storable, SumWhere, Statements.Retail, Statements.Renovation, Statements.ValidIdentifier,
         Statements.LiteralSafe, Statements.Meaning, Statements.Fill, Statements.Occurrences, Statements.Quote,
         Statements.Plain, Tokens, Split, ReadSelect, SumColumns, Shows, StageRecord, PrintDay, Filters;
    var (start, end) := (StartString(q.range), EndString(q.range));
    Statements.DialectsAgree(names.prefix, names.retail, names.renovation, q);
    QualifiedIsOrdinary(names.prefix, names.renovation);
    RenovationReads(names.RenovationTable(), q.org, start, end);
    forall k | 0 <= k < STAGES
      ensures SumColumn(Records(rows, StageRecord), Filters(q.org, start, end), STAGE_COLUMNS[k])
           == Some(StageSums(rows, q)[k])
    {
      StageShows(rows, k);
      ColumnSum(rows, StageRecord, STAGE_COLUMNS[k], StageCount(k), q);
    }
    ColumnSums(Records(rows, StageRecord), Filters(q.org, start, end), STAGE_COLUMNS, StageSums(rows, q));
  }

  /** A repository over SQL succeeds only with the row its engine gives for the statement it
      sent: a rendered text and its arguments. */
  ghost predicate EnginesAnswerRetail(may: (nat, Result<RetailSummary, Error>, Option<Error>) -> bool,
                                      segments: seq<Segment>, org: string, names: Names,
                                      tables: Source -> map<string, seq<Record>>)
  {
    forall i: nat, d: RetailSummary, ctx: Option<Error> :: i < |segments| && may(i, Success(d), ctx) ==>
      var (source, q) := (segments[i].source, Query(segments[i].range, org));
      var statement := Statements.Retail(names.BuilderFor(source), q);
      statement.Some? ==>
        Asked(statement.value.sql, statement.value.args, tables(source)) == Some([d.orders as int, d.cents])
  }

  ghost predicate EnginesAnswerFunnel(may: (nat, Result<RenovationFunnel, Error>, Option<Error>) -> bool,
                                      segments: seq<Segment>, org: string, names: Names,
                                      tables: Source -> map<string, seq<Record>>)
  {
    forall i: nat, d: RenovationFunnel, ctx: Option<Error> :: i < |segments| && may(i, Success(d), ctx) ==>
      var (source, q) := (segments[i].source, Query(segments[i].range, org));
      var statement := Statements.Renovation(names.BuilderFor(source), q);
      statement.Some? ==>
        Asked(statement.value.sql, statement.value.args, tables(source))
        == Some([d.lead as int, d.invited as int, d.measured as int, d.signed as int, d.started as int,
                 d.completed as int])
  }

  /** Every engine's retail table holds these rows, whose dates have four-digit years. */
  ghost predicate HoldRetail(names: Names, tables: Source -> map<string, seq<Record>>,
                             rows: Source -> seq<Row<RetailMetrics>>)
  {
    forall source ::
      && Storable(rows(source))
      && names.RetailTable() in tables(source)
      && tables(source)[names.RetailTable()] == Records(rows(source), RetailRecord)
  }

  ghost predicate HoldStages(names: Names, tables: Source -> map<string, seq<Record>>,
                             rows: Source -> seq<Row<seq<int>>>)
  {
    forall source ::
      && Storable(rows(source))
      && names.RenovationTable() in tables(source)
      && tables(source)[names.RenovationTable()] == Records(rows(source), StageRecord)
  }

  // ----- From the request to the reply -----

  /** What a request over SQL repositories rests on: it was accepted, its midnights are there,
      the configured names are identifiers, and history is not StarRocks. */
  ghost predicate Answerable(s: Routing, now: int, request: Request, maxDays: int, names: Names) {
    && names.Valid() && s.historical != StarRocks
    && EndsComparable(request.start, request.end, s.zone)
    && ParseQuery(request, maxDays, s.zone).Success?
    && var p := ParseQuery(request, maxDays, s.zone).value;
       PlanMeets(s, now, p.source, p.query.range)
  }

  /** Such requests exist. */
  lemma SomeRequestIsAnswerable(s: Routing, now: int, org: string)
    requires FixedOffset(s.zone) && s.historical != StarRocks && ValidOrg(org)
    ensures Answerable(s, now, Request("auto", org, "1970-01-01", "1970-01-10"), 31, Names("db", "sales", "works"))
  {
    var request := Request("auto", org, "1970-01-01", "1970-01-10");
    TextsOfWitnesses();
    hide ParseDay, FixedOffset, ValidOrg, PlanMeets, Comparable, ClockMeets;
    FixedOffsetComparable(s.zone, 0, 9);
    hide OffsetOn, Midnight;
    OrgPattern(org);
    AcceptedExactly(request, 31, s.zone);
    hide ParseQuery, EndsComparable, MakesRange;
    var p := ParseQuery(request, 31, s.zone).value;
    FixedOffsetMeets(s, now, p.source, p.query.range);
  }

  /** Every segment of an accepted request is a query the statements are made for. */
  lemma PlannedQueries(s: Routing, now: int, request: Request, maxDays: int, names: Names)
    requires Answerable(s, now, request, maxDays, names)
    ensures var p := ParseQuery(request, maxDays, s.zone).value;
            && p.query.org == request.org && Statements.LiteralSafe(p.query.org)
            && Plan(s, now, p.source, p.query.range).Success?
            && forall seg :: seg in Plan(s, now, p.source, p.query.range).value ==>
                 FourDigitDay(seg.range.start) && FourDigitDay(seg.range.end)
  {
    hide EndsComparable, PlanMeets, CutoffAt, LocalDay, Midnight, FromDayNumber;
    AcceptedQuery(request, maxDays, s.zone);
    hide Statements.LiteralSafe;
    var p := ParseQuery(request, maxDays, s.zone).value;
    PlanFailsOnlyForUnknownSource(s, now, p.source, p.query.range);
    hide ParseQuery, Plan;
    forall seg | seg in Plan(s, now, p.source, p.query.range).value
      ensures FourDigitDay(seg.range.start) && FourDigitDay(seg.range.end)
    {
      PlannedDatesStayInside(s, now, p.source, p.query.range, seg);
    }
  }

  /** Whatever the four texts of an accepted request, the clock and the tables: a retail run
      over engines that answer the statements they are sent, however scheduled, replies with
      the exact day-by-day sums when it replies with data. */
  lemma AcceptedRetailIsAnswered(s: Routing, now: int, request: Request, maxDays: int, names: Names,
                                 entries: map<Source, Handle>, tables: Source -> map<string, seq<Record>>,
                                 rows: Source -> seq<Row<RetailMetrics>>,
                                 may: (nat, Result<RetailSummary, Error>, Option<Error>) -> bool,
                                 steps: seq<P.Step<RetailSummary>>)
    requires Answerable(s, now, request, maxDays, names) && HoldRetail(names, tables, rows)
    requires var p := ParseQuery(request, maxDays, s.zone).value;
             Plan(s, now, p.source, p.query.range).Success? ==>
               var segments := Plan(s, now, p.source, p.query.range).value;
               var c := RetailConfig(entries, segments, may);
               && EnginesAnswerRetail(may, segments, request.org, names, tables)
               && P.After(c, steps).Some? && P.After(c, steps).value.reply.Some?
               && P.After(c, steps).value.reply.value.Success?
    ensures var p := ParseQuery(request, maxDays, s.zone).value;
            && Plan(s, now, p.source, p.query.range).Success?
            && var c := RetailConfig(entries, Plan(s, now, p.source, p.query.range).value, may);
               var data := P.After(c, steps).value.reply.value.value;
               && data.orders as int == RoutedSum(s, now, p.source, request.org, p.query.range, rows, OrderCount())
               && data.cents == RoutedSum(s, now, p.source, request.org, p.query.range, rows, SalesCents())
  {
    hide ParseQuery, Plan, P.After, RoutedSum, SumWhere, Asked, FourDigitDay, Storable, EndsComparable, PlanMeets,
         Statements.Retail, Statements.LiteralSafe;
    PlannedQueries(s, now, request, maxDays, names);
    var p := ParseQuery(request, maxDays, s.zone).value;
    var segments := Plan(s, now, p.source, p.query.range).value;
    forall i: nat, d: RetailSummary, ctx: Option<Error> | i < |segments| && may(i, Success(d), ctx)
      ensures d.orders as int
           == SumWhere(rows(segments[i].source), request.org, InRange(segments[i].range), OrderCount())
      ensures d.cents == SumWhere(rows(segments[i].source), request.org, InRange(segments[i].range), SalesCents())
    {
      var (source, q) := (segments[i].source, Query(segments[i].range, request.org));
      RetailStatementAsks(names, source, q, rows(source), tables(source));
      assert [d.orders as int, d.cents] == RetailSums(rows(source), q);
      assert [d.orders as int, d.cents][0] == d.orders as int && [d.orders as int, d.cents][1] == d.cents;
    }
    RetailAnswersDayByDay(s, now, p.source, p.query, entries, rows, may, steps);
  }

  lemma StagesInOrder(d: RenovationFunnel, sums: seq<int>, j: int)
    requires sums == [d.lead as int, d.invited as int, d.measured as int, d.signed as int, d.started as int,
                      d.completed as int]
    requires 0 <= j < STAGES
    ensures Stage(d, j) as int == sums[j]
  {
  }

  /** The same for every stage of the renovation funnel. */
  lemma AcceptedFunnelIsAnswered(s: Routing, now: int, request: Request, maxDays: int, names: Names,
                                 entries: map<Source, Handle>, tables: Source -> map<string, seq<Record>>,
                                 rows: Source -> seq<Row<seq<int>>>,
                                 may: (nat, Result<RenovationFunnel, Error>, Option<Error>) -> bool,
                                 steps: seq<P.Step<RenovationFunnel>>, k: int)
    requires Answerable(s, now, request, maxDays, names) && HoldStages(names, tables, rows) && 0 <= k < STAGES
    requires var p := ParseQuery(request, maxDays, s.zone).value;
             Plan(s, now, p.source, p.query.range).Success? ==>
               var segments := Plan(s, now, p.source, p.query.range).value;
               var c := FunnelConfig(entries, segments, may);
               && EnginesAnswerFunnel(may, segments, request.org, names, tables)
               && P.After(c, steps).Some? && P.After(c, steps).value.reply.Some?
               && P.After(c, steps).value.reply.value.Success?
    ensures var p := ParseQuery(request, maxDays, s.zone).value;
            && Plan(s, now, p.source, p.query.range).Success?
            && var c := FunnelConfig(entries, Plan(s, now, p.source, p.query.range).value, may);
               Stage(P.After(c, steps).value.reply.value.value, k) as int
               == RoutedSum(s, now, p.source, request.org, p.query.range, rows, StageCount(k))
  {
    hide ParseQuery, Plan, P.After, RoutedSum, SumWhere, Asked, FourDigitDay, Storable, EndsComparable, PlanMeets,
         Statements.Renovation, Statements.LiteralSafe, Stage;
    PlannedQueries(s, now, request, maxDays, names);
    var p := ParseQuery(request, maxDays, s.zone).value;
    var segments := Plan(s, now, p.source, p.query.range).value;
    forall i: nat, d: RenovationFunnel, ctx: Option<Error>, j
      | i < |segments| && may(i, Success(d), ctx) && 0 <= j < STAGES
      ensures Stage(d, j) as int
           == SumWhere(rows(segments[i].source), request.org, InRange(segments[i].range), StageCount(j))
    {
      var (source, q) := (segments[i].source, Query(segments[i].range, request.org));
      RenovationStatementAsks(names, source, q, rows(source), tables(source));
      StagesInOrder(d, StageSums(rows(source), q), j);
    }
    FunnelAnswersDayByDay(s, now, p.source, p.query, entries, rows, may, steps, k);
  }
}
