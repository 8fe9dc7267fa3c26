/** The per-day tables the engines hold, and the sums their statements ask for. */
module Tables {
  import opened Domain
  import opened Planner
  import opened Zones

  datatype Row<M> = Row(org: string, day: int, data: M)

  /** The exact sum of a metric over an organisation's rows on the chosen days. */
  function SumWhere<M>(rows: seq<Row<M>>, org: string, days: int -> bool, value: M -> int): int {
    if rows == [] then 0
    else
      var row := rows[|rows| - 1];
      SumWhere(rows[..|rows| - 1], org, days, value)
        + (if row.org == org && days(row.day) then value(row.data) else 0)
  }

  function InRange(r: DateRange): int -> bool {
    d => r.Contains(d)
  }

  /** The days of r that a request sends to the named engine. */
  function SentTo(s: Routing, now: int, requested: Source, r: DateRange, engine: Source): int -> bool {
    d => r.Contains(d) && Route(s, now, requested, d) == engine
  }

  /** The answer day by day: each row counts if the day's engine is the one that holds it. */
  function RoutedSum<M>(s: Routing, now: int, requested: Source, org: string, r: DateRange,
                        tables: Source -> seq<Row<M>>, value: M -> int): int
  {
    if requested != Auto then SumWhere(tables(requested), org, InRange(r), value)
    else
      SumWhere(tables(s.historical), org, SentTo(s, now, requested, r, s.historical), value)
        + SumWhere(tables(StarRocks), org, SentTo(s, now, requested, r, StarRocks), value)
  }

  /** What the statements of a plan ask for, added up. */
  function PlannedSum<M>(segments: seq<Segment>, org: string,
                         tables: Source -> seq<Row<M>>, value: M -> int): int
  {
    if segments == [] then 0
    else
      var seg := segments[|segments| - 1];
      PlannedSum(segments[..|segments| - 1], org, tables, value)
        + SumWhere(tables(seg.source), org, InRange(seg.range), value)
  }

  lemma {:induction false} SumWhereSame<M>(rows: seq<Row<M>>, org: string, f: int -> bool, g: int -> bool,
                                           value: M -> int)
    requires forall i :: 0 <= i < |rows| && rows[i].org == org ==> f(rows[i].day) == g(rows[i].day)
    ensures SumWhere(rows, org, f, value) == SumWhere(rows, org, g, value)
    decreases |rows|
  {
    if rows != [] {
      SumWhereSame(rows[..|rows| - 1], org, f, g, value);
    }
  }

  lemma {:induction false} SumWhereNone<M>(rows: seq<Row<M>>, org: string, f: int -> bool, value: M -> int)
    requires forall i :: 0 <= i < |rows| && rows[i].org == org ==> !f(rows[i].day)
    ensures SumWhere(rows, org, f, value) == 0
    decreases |rows|
  {
    if rows != [] {
      SumWhereNone(rows[..|rows| - 1], org, f, value);
    }
  }

  lemma {:induction false} SumWhereAppend<M>(a: seq<Row<M>>, b: seq<Row<M>>, org: string,
                                             f: int -> bool, value: M -> int)
    ensures SumWhere(a + b, org, f, value) == SumWhere(a, org, f, value) + SumWhere(b, org, f, value)
    decreases |b|
  {
    if b == [] {
      assert a + b == a;
    } else {
      assert (a + b)[..|a + b| - 1] == a + b[..|b| - 1];
      SumWhereAppend(a, b[..|b| - 1], org, f, value);
    }
  }

  lemma PlannedSumOne<M>(seg: Segment, org: string, tables: Source -> seq<Row<M>>, value: M -> int)
    ensures PlannedSum([seg], org, tables, value)
         == SumWhere(tables(seg.source), org, InRange(seg.range), value)
  {
    assert [seg][..0] == [];
  }

  lemma PlannedSumTwo<M>(a: Segment, b: Segment, org: string,
                         tables: Source -> seq<Row<M>>, value: M -> int)
    ensures PlannedSum([a, b], org, tables, value)
         == SumWhere(tables(a.source), org, InRange(a.range), value)
          + SumWhere(tables(b.source), org, InRange(b.range), value)
  {
    assert [a, b][..1] == [a];
    PlannedSumOne(a, org, tables, value);
  }

  /** Splitting a request over the planned segments asks for exactly the day-by-day answer,
      for every metric, whatever the tables hold. */
  lemma PlanPreservesSum<M>(s: Routing, now: int, requested: Source, org: string, r: DateRange,
                            tables: Source -> seq<Row<M>>, value: M -> int)
    requires PlanMeets(s, now, requested, r) && s.historical != StarRocks
    requires Plan(s, now, requested, r).Success?
    ensures PlannedSum(Plan(s, now, requested, r).value, org, tables, value)
         == RoutedSum(s, now, requested, org, r, tables, value)
  {
    hide LocalDay, Midnight, AddDate, CutoffAt, Cutoff, PlanMeets, SumWhere;
    PlanFailsOnlyForUnknownSource(s, now, requested, r);
    PlanInDays(s, now, requested, r);
    hide Plan;
    var segs := Plan(s, now, requested, r).value;
    var (early, late) := (SentTo(s, now, Auto, r, s.historical), SentTo(s, now, Auto, r, StarRocks));
    if requested != Auto || |segs| == 1 {
      PlannedSumOne(segs[0], org, tables, value);
      if requested == Auto && segs[0].source == StarRocks {
        SumWhereSame(tables(StarRocks), org, InRange(r), late, value);
        SumWhereNone(tables(s.historical), org, early, value);
      } else if requested == Auto {
        SumWhereSame(tables(s.historical), org, InRange(r), early, value);
        SumWhereNone(tables(StarRocks), org, late, value);
      }
    } else {
      PlannedSumTwo(segs[0], segs[1], org, tables, value);
      SumWhereSame(tables(s.historical), org, InRange(segs[0].range), early, value);
      SumWhereSame(tables(StarRocks), org, InRange(segs[1].range), late, value);
    }
  }

  /** History holds only days before the cutoff, StarRocks only days from it on. */
  ghost predicate NonOverlap<M>(history: seq<Row<M>>, realtime: seq<Row<M>>, cutoff: int) {
    && (forall i :: 0 <= i < |history| ==> history[i].day < cutoff)
    && (forall i :: 0 <= i < |realtime| ==> realtime[i].day >= cutoff)
  }

  /** Under the non-overlap contract the automatic answer is the sum over both tables. */
  lemma RoutedSumIsUnion<M>(s: Routing, now: int, org: string, r: DateRange,
                            tables: Source -> seq<Row<M>>, value: M -> int)
    requires s.historical != StarRocks
    requires NonOverlap(tables(s.historical), tables(StarRocks), Cutoff(s, now))
    ensures RoutedSum(s, now, Auto, org, r, tables, value)
         == SumWhere(tables(s.historical) + tables(StarRocks), org, InRange(r), value)
  {
    SumWhereAppend(tables(s.historical), tables(StarRocks), org, InRange(r), value);
    SumWhereSame(tables(s.historical), org, InRange(r), SentTo(s, now, Auto, r, s.historical), value);
    SumWhereSame(tables(StarRocks), org, InRange(r), SentTo(s, now, Auto, r, StarRocks), value);
  }

  lemma RoutedSumSkipsOverlap<M>(s: Routing, now: int, org: string, r: DateRange,
                                 tables: Source -> seq<Row<M>>, extra: Source -> seq<Row<M>>, value: M -> int)
    requires s.historical != StarRocks
    requires NonOverlap(extra(StarRocks), extra(s.historical), Cutoff(s, now))
    ensures RoutedSum(s, now, Auto, org, r, source => tables(source) + extra(source), value)
         == RoutedSum(s, now, Auto, org, r, tables, value)
  {
    var (h, k) := (s.historical, StarRocks);
    SumWhereAppend(tables(h), extra(h), org, SentTo(s, now, Auto, r, h), value);
    SumWhereAppend(tables(k), extra(k), org, SentTo(s, now, Auto, r, k), value);
    SumWhereNone(extra(h), org, SentTo(s, now, Auto, r, h), value);
    SumWhereNone(extra(k), org, SentTo(s, now, Auto, r, k), value);
  }

  /** Rows that history holds from the cutoff on, or StarRocks before it, change nothing in what
      the planned statements ask for: a day both tables hold is not counted twice. */
  lemma OverlapIsNotCounted<M>(s: Routing, now: int, org: string, r: DateRange,
                               tables: Source -> seq<Row<M>>, extra: Source -> seq<Row<M>>, value: M -> int)
    requires s.historical != StarRocks && PlanMeets(s, now, Auto, r)
    requires NonOverlap(extra(StarRocks), extra(s.historical), Cutoff(s, now))
    requires Plan(s, now, Auto, r).Success?
    ensures PlannedSum(Plan(s, now, Auto, r).value, org, source => tables(source) + extra(source), value)
         == PlannedSum(Plan(s, now, Auto, r).value, org, tables, value)
  {
    hide Plan, PlanMeets, PlannedSum, RoutedSum, NonOverlap, Cutoff;
    PlanPreservesSum(s, now, Auto, org, r, tables, value);
    PlanPreservesSum(s, now, Auto, org, r, source => tables(source) + extra(source), value);
    RoutedSumSkipsOverlap(s, now, org, r, tables, extra, value);
  }
}
