/** The query service: construction, and what a whole query answers. */
module Service {
  import opened Wrappers
  import opened Zones
  import opened Errors
  import opened Domain
  import opened Planner
  import opened Merge
  import opened Tables
  import P = Protocol
  import Memory
  import opened DayLoop

  // ----- Construction -----

  /** A repository in a map; None is a nil interface value. */
  type Handle = Option<nat>

  /** A map from sources to repositories that its holder can change. */
  class RepositoryMap {
    var entries: map<Source, Handle>

    constructor (entries: map<Source, Handle>)
      ensures this.entries == entries
    {
      this.entries := entries;
    }
  }

  predicate Present(entries: map<Source, Handle>, source: Source) {
    source in entries && entries[source].Some?
  }

  /** What the constructor asks for. */
  predicate Acceptable(entries: map<Source, Handle>, historical: Source, realtimeDays: int) {
    && (historical == Hive || historical == Trino)
    && realtimeDays >= 1
    && Present(entries, historical) && Present(entries, StarRocks)
  }

  class QueryService {
    const repositories: RepositoryMap
    const routing: Routing

    constructor (repositories: RepositoryMap, routing: Routing)
      ensures this.repositories == repositories && this.routing == routing
    {
      this.repositories := repositories;
      this.routing := routing;
    }
  }

  /** Rejects what the service cannot route with; otherwise the new service owns a copy of the
      caller's map. */
  method NewQueryService(repositories: RepositoryMap?, historical: Source, realtimeDays: int,
                         timezone: Option<Zone>, clock: bool, observer: bool)
    returns (r: Result<QueryService, Error>)
    ensures r.Success? <==> repositories != null && timezone.Some? && clock && observer
                            && Acceptable(repositories.entries, historical, realtimeDays)
    ensures r.Failure? ==> r.error == InvalidArgument
    ensures r.Success? ==> fresh(r.value) && fresh(r.value.repositories)
    ensures r.Success? ==> r.value.repositories.entries == repositories.entries
    ensures r.Success? ==> r.value.routing == Routing(historical, realtimeDays, timezone.value)
  {
    if historical != Hive && historical != Trino {
      return Failure(InvalidArgument);
    }
    if realtimeDays < 1 {
      return Failure(InvalidArgument);
    }
    if timezone.None? || !clock || !observer {
      return Failure(InvalidArgument);
    }
    if repositories == null {
      return Failure(InvalidArgument);
    }
    if !Present(repositories.entries, historical) || !Present(repositories.entries, StarRocks) {
      return Failure(InvalidArgument);
    }
    var owned := new RepositoryMap(map[]);
    var keys := repositories.entries.Keys;
    while keys != {}
      invariant fresh(owned) && keys <= repositories.entries.Keys
      invariant owned.entries == map k | k in repositories.entries && k !in keys :: repositories.entries[k]
      decreases keys
    {
      var source :| source in keys;
      owned.entries := owned.entries[source := repositories.entries[source]];
      keys := keys - {source};
    }
    assert owned.entries == repositories.entries;
    var service := new QueryService(owned, Routing(historical, realtimeDays, timezone.value));
    r := Success(service);
  }

  /** Whatever the caller does to its map afterwards, the service keeps what it was given. */
  method CallerMutatesLater(repositories: RepositoryMap, historical: Source, realtimeDays: int,
                            timezone: Zone, later: map<Source, Handle>)
    returns (service: QueryService)
    requires Acceptable(repositories.entries, historical, realtimeDays)
    modifies repositories
    ensures repositories.entries == later
    ensures service.repositories.entries == old(repositories.entries)
    ensures Acceptable(service.repositories.entries, service.routing.historical, service.routing.realtimeDays)
  {
    var r := NewQueryService(repositories, historical, realtimeDays, Some(timezone), true, true);
    service := r.value;
    repositories.entries := later;
  }

  /** A constructed service misses a repository exactly for an explicit request for a source
      it was not given; never for an automatic one. */
  lemma MissingRepositoryExactly(entries: map<Source, Handle>, s: Routing, now: int, requested: Source,
                                 r: DateRange)
    requires Acceptable(entries, s.historical, s.realtimeDays)
    requires Plan(s, now, requested, r).Success?
    ensures (exists seg :: seg in Plan(s, now, requested, r).value && !Present(entries, seg.source))
       <==> requested != Auto && !Present(entries, requested)
  {
    hide CutoffAt, LocalDay, Midnight, AddDate;
    var segs := Plan(s, now, requested, r).value;
    if requested != Auto {
      assert segs[0] in segs;
    }
  }

  // ----- A query's configuration -----

  function Label(metric: string, source: Source): string {
    metric + " " + SourceName(source)
  }

  lemma LabelReads(metric: string, source: Source)
    ensures metric == "retail" ==> Label(metric, source) == "retail " + SourceName(source)
    ensures metric == "renovation" ==> Label(metric, source) == "renovation " + SourceName(source)
  {
    assert "retail" + " " == "retail " && "renovation" + " " == "renovation ";
  }

  ghost function RetailConfig(entries: map<Source, Handle>, segments: seq<Segment>,
                              may: (nat, Result<RetailSummary, Error>, Option<Error>) -> bool)
    : (c: P.Config<RetailSummary>)
    ensures c.Valid() && |c.present| == |segments| && c.may == may
    ensures forall i :: 0 <= i < |segments| ==>
              c.present[i] == Present(entries, segments[i].source)
              && c.labels[i] == "retail " + SourceName(segments[i].source)
  {
    assert forall i :: 0 <= i < |segments| ==>
             Label("retail", segments[i].source) == "retail " + SourceName(segments[i].source) by {
      forall i | 0 <= i < |segments|
        ensures Label("retail", segments[i].source) == "retail " + SourceName(segments[i].source)
      {
        LabelReads("retail", segments[i].source);
      }
    }
    P.Config(seq(|segments|, i requires 0 <= i < |segments| => Present(entries, segments[i].source)),
             seq(|segments|, i requires 0 <= i < |segments| => Label("retail", segments[i].source)),
             may, (parts: seq<RetailSummary>) => MergedRetail(parts), RetailSummary(0, 0))
  }

  ghost function FunnelConfig(entries: map<Source, Handle>, segments: seq<Segment>,
                              may: (nat, Result<RenovationFunnel, Error>, Option<Error>) -> bool)
    : (c: P.Config<RenovationFunnel>)
    ensures c.Valid() && |c.present| == |segments| && c.may == may
    ensures forall i :: 0 <= i < |segments| ==>
              c.present[i] == Present(entries, segments[i].source)
              && c.labels[i] == "renovation " + SourceName(segments[i].source)
  {
    assert forall i :: 0 <= i < |segments| ==>
             Label("renovation", segments[i].source) == "renovation " + SourceName(segments[i].source) by {
      forall i | 0 <= i < |segments|
        ensures Label("renovation", segments[i].source) == "renovation " + SourceName(segments[i].source)
      {
        LabelReads("renovation", segments[i].source);
      }
    }
    P.Config(seq(|segments|, i requires 0 <= i < |segments| => Present(entries, segments[i].source)),
             seq(|segments|, i requires 0 <= i < |segments| => Label("renovation", segments[i].source)),
             may, (parts: seq<RenovationFunnel>) => MergedFunnel(parts), RenovationFunnel(0, 0, 0, 0, 0, 0))
  }

  // ----- The answer equals the day-by-day sum -----

  /** One day's retail figures, and one day's funnel counts, as a table row holds them. */
  datatype RetailMetrics = RetailMetrics(orders: int, cents: int)

  function OrderCount(): RetailMetrics -> int { (m: RetailMetrics) => m.orders }

  function SalesCents(): RetailMetrics -> int { (m: RetailMetrics) => m.cents }

  function StageCount(k: int): (count: seq<int> -> int)
    ensures forall m :: 0 <= k < |m| ==> count(m) == m[k]
  {
    (m: seq<int>) => if 0 <= k < |m| then m[k] else 0
  }

  /** When the repositories answer, they answer with what their engine's table holds for the
      segment's days. */
  ghost predicate AnswersRetail(may: (nat, Result<RetailSummary, Error>, Option<Error>) -> bool,
                                segments: seq<Segment>, org: string,
                                tables: Source -> seq<Row<RetailMetrics>>)
  {
    forall i: nat, d: RetailSummary, ctx: Option<Error> :: i < |segments| && may(i, Success(d), ctx) ==>
      && d.orders as int == SumWhere(tables(segments[i].source), org, InRange(segments[i].range), OrderCount())
      && d.cents == SumWhere(tables(segments[i].source), org, InRange(segments[i].range), SalesCents())
  }

  ghost predicate AnswersFunnel(may: (nat, Result<RenovationFunnel, Error>, Option<Error>) -> bool,
                                segments: seq<Segment>, org: string,
                                tables: Source -> seq<Row<seq<int>>>)
  {
    forall i: nat, d: RenovationFunnel, ctx: Option<Error>, k ::
      i < |segments| && may(i, Success(d), ctx) && 0 <= k < STAGES ==>
        Stage(d, k) as int
        == SumWhere(tables(segments[i].source), org, InRange(segments[i].range), StageCount(k))
  }

  lemma {:induction false} TotalIsPlannedSum<M>(values: seq<int>, segments: seq<Segment>, org: string,
                                                tables: Source -> seq<Row<M>>, value: M -> int)
    requires |values| == |segments|
    requires forall i :: 0 <= i < |segments| ==>
               values[i] == SumWhere(tables(segments[i].source), org, InRange(segments[i].range), value)
    ensures Total(values) == PlannedSum(segments, org, tables, value)
    decreases |segments|
  {
    if segments != [] {
      TotalIsPlannedSum(values[..|values| - 1], segments[..|segments| - 1], org, tables, value);
    }
  }

  /** Every retail run that replies with data replies with the exact day-by-day sums: each day
      of the range counted once, from the one engine that day is routed to. */
  lemma RetailAnswersDayByDay(s: Routing, now: int, requested: Source, q: Query,
                              entries: map<Source, Handle>, tables: Source -> seq<Row<RetailMetrics>>,
                              may: (nat, Result<RetailSummary, Error>, Option<Error>) -> bool,
                              steps: seq<P.Step<RetailSummary>>)
    requires PlanMeets(s, now, requested, q.range) && s.historical != StarRocks
    requires Plan(s, now, requested, q.range).Success?
    requires var segments := Plan(s, now, requested, q.range).value;
             var c := RetailConfig(entries, segments, may);
             && AnswersRetail(may, segments, q.org, tables)
             && P.After(c, steps).Some? && P.After(c, steps).value.reply.Some?
             && P.After(c, steps).value.reply.value.Success?
    ensures var c := RetailConfig(entries, Plan(s, now, requested, q.range).value, may);
            var data := P.After(c, steps).value.reply.value.value;
            && data.orders as int == RoutedSum(s, now, requested, q.org, q.range, tables, OrderCount())
            && data.cents == RoutedSum(s, now, requested, q.org, q.range, tables, SalesCents())
  {
    var segments := Plan(s, now, requested, q.range).value;
    var c := RetailConfig(entries, segments, may);
    P.SuccessMergesAnswers(c, steps);
    var data := P.Data(P.After(c, steps).value);
    forall i: nat | i < |segments|
      ensures Orders(data)[i] == SumWhere(tables(segments[i].source), q.org, InRange(segments[i].range), OrderCount())
      ensures Cents(data)[i] == SumWhere(tables(segments[i].source), q.org, InRange(segments[i].range), SalesCents())
    {
      assert P.MayAnswer(c, i, data[i]);
    }
    hide P.After, Plan, RoutedSum, PlannedSum, PlanMeets, SumWhere, AnswersRetail;
    TotalIsPlannedSum(Orders(data), segments, q.org, tables, OrderCount());
    TotalIsPlannedSum(Cents(data), segments, q.org, tables, SalesCents());
    PlanPreservesSum(s, now, requested, q.org, q.range, tables, OrderCount());
    PlanPreservesSum(s, now, requested, q.org, q.range, tables, SalesCents());
    assert P.After(c, steps).value.reply.value == MergedRetail(data);
    MergedOrders(data);
  }

  lemma MergedOrders(data: seq<RetailSummary>)
    requires MergedRetail(data).Success?
    ensures MergedRetail(data).value.orders as int == Total(Orders(data))
    ensures MergedRetail(data).value.cents == Total(Cents(data))
  {
    WholeSumFits(Orders(data));
  }

  lemma MergedStage(data: seq<RenovationFunnel>, k: int)
    requires 0 <= k < STAGES && MergedFunnel(data).Success?
    ensures Stage(MergedFunnel(data).value, k) as int == Total(Stages(data, k))
  {
    WholeSumFits(Stages(data, k));
  }

  /** The same for every stage of the renovation funnel. */
  lemma FunnelAnswersDayByDay(s: Routing, now: int, requested: Source, q: Query,
                              entries: map<Source, Handle>, tables: Source -> seq<Row<seq<int>>>,
                              may: (nat, Result<RenovationFunnel, Error>, Option<Error>) -> bool,
                              steps: seq<P.Step<RenovationFunnel>>, k: int)
    requires PlanMeets(s, now, requested, q.range) && s.historical != StarRocks && 0 <= k < STAGES
    requires Plan(s, now, requested, q.range).Success?
    requires var segments := Plan(s, now, requested, q.range).value;
             var c := FunnelConfig(entries, segments, may);
             && AnswersFunnel(may, segments, q.org, tables)
             && P.After(c, steps).Some? && P.After(c, steps).value.reply.Some?
             && P.After(c, steps).value.reply.value.Success?
    ensures var c := FunnelConfig(entries, Plan(s, now, requested, q.range).value, may);
            Stage(P.After(c, steps).value.reply.value.value, k) as int
            == RoutedSum(s, now, requested, q.org, q.range, tables, StageCount(k))
  {
    var segments := Plan(s, now, requested, q.range).value;
    var c := FunnelConfig(entries, segments, may);
    P.SuccessMergesAnswers(c, steps);
    var data := P.Data(P.After(c, steps).value);
    forall i: nat | i < |segments|
      ensures Stages(data, k)[i]
           == SumWhere(tables(segments[i].source), q.org, InRange(segments[i].range), StageCount(k))
    {
      assert P.MayAnswer(c, i, data[i]);
    }
    hide P.After, Plan, RoutedSum, PlannedSum, PlanMeets, SumWhere, AnswersFunnel, Stage;
    TotalIsPlannedSum(Stages(data, k), segments, q.org, tables, StageCount(k));
    PlanPreservesSum(s, now, requested, q.org, q.range, tables, StageCount(k));
    assert P.After(c, steps).value.reply.value == MergedFunnel(data);
    MergedStage(data, k);
  }

  // ----- Memory mode -----

  /** The daily formula's sums over each segment. */
  function MemoryRetailParts(seed: Memory.Seed, segments: seq<Segment>): (parts: seq<RetailSummary>)
    ensures |parts| == |segments|
    ensures forall i :: 0 <= i < |segments| ==> parts[i] == Memory.RetailOver(seed, segments[i].range)
  {
    seq(|segments|, i requires 0 <= i < |segments| => Memory.RetailOver(seed, segments[i].range))
  }

  function MemoryFunnelParts(seed: Memory.Seed, segments: seq<Segment>): (parts: seq<RenovationFunnel>)
    ensures |parts| == |segments|
    ensures forall i :: 0 <= i < |segments| ==> parts[i] == Memory.FunnelOver(seed, segments[i].range)
  {
    seq(|segments|, i requires 0 <= i < |segments| => Memory.FunnelOver(seed, segments[i].range))
  }

  /** Summing a function of the day over the planned segments is summing it over the range. */
  lemma SegmentsSumToRange(s: Routing, now: int, requested: Source, r: DateRange, f: int -> int,
                           values: seq<int>)
    requires PlanMeets(s, now, requested, r) && r.start <= r.end
    requires Plan(s, now, requested, r).Success?
    requires var segs := Plan(s, now, requested, r).value;
             |values| == |segs| && forall i :: 0 <= i < |segs| ==>
               values[i] == Memory.SumDays(segs[i].range.start, segs[i].range.end, f)
    ensures Total(values) == Memory.SumDays(r.start, r.end, f)
  {
    hide PlanMeets, CutoffAt, LocalDay, Midnight, AddDate, Memory.SumDays, Total;
    PlanFailsOnlyForUnknownSource(s, now, requested, r);
    hide Plan;
    var segs := Plan(s, now, requested, r).value;
    PlanIsChain(s, now, requested, r);
    ChainSums(segs, r, f, values);
  }

  lemma ChainSums(segs: seq<Segment>, r: DateRange, f: int -> int, values: seq<int>)
    requires Chain(segs, r) && |segs| <= 2 && |values| == |segs|
    requires forall i :: 0 <= i < |segs| ==>
               values[i] == Memory.SumDays(segs[i].range.start, segs[i].range.end, f)
    ensures Total(values) == Memory.SumDays(r.start, r.end, f)
  {
    hide Memory.SumDays;
    if |segs| == 1 {
      assert values[..0] == [];
    } else {
      TotalOfTwo(values);
      hide Total;
      Memory.SumDaysSplit(r.start, segs[0].range.end, r.end, f);
      assert segs[1].range.start == segs[0].range.end + 1;
    }
  }

  lemma TotalOfTwo(values: seq<int>)
    requires |values| == 2
    ensures Total(values) == values[0] + values[1]
  {
    TotalStep(values, 0);
    TotalStep(values, 1);
    assert values[..2] == values;
  }

  lemma SegmentsAreShort(s: Routing, now: int, requested: Source, r: DateRange, seg: Segment)
    requires PlanMeets(s, now, requested, r) && r.start <= r.end && r.end - r.start + 1 <= Memory.MOST_DAYS
    requires Plan(s, now, requested, r).Success? && seg in Plan(s, now, requested, r).value
    ensures seg.range.start <= seg.range.end
    ensures seg.range.end - seg.range.start + 1 <= Memory.MOST_DAYS
  {
    PlanIsChain(s, now, requested, r);
    PlannedDatesStayInside(s, now, requested, r, seg);
  }

  /** The formula's sums over the planned segments merge to its sums over the whole range, for
      every source, clock and window, without overflow. */
  lemma RetailFormulaIgnoresPlan(s: Routing, now: int, requested: Source, r: DateRange, seed: Memory.Seed)
    requires PlanMeets(s, now, requested, r) && r.start <= r.end && r.end - r.start + 1 <= Memory.MOST_DAYS
    requires Plan(s, now, requested, r).Success?
    ensures MergedRetail(MemoryRetailParts(seed, Plan(s, now, requested, r).value))
         == Success(Memory.RetailOver(seed, r))
  {
    var segs := Plan(s, now, requested, r).value;
    var parts := MemoryRetailParts(seed, segs);
    assert |parts| <= 2;
    forall i | 0 <= i < |segs|
      ensures Orders(parts)[i] == Memory.SumDays(segs[i].range.start, segs[i].range.end, Memory.OrdersOn(seed))
      ensures Cents(parts)[i] == Memory.SumDays(segs[i].range.start, segs[i].range.end, Memory.CentsOn(seed))
    {
      SegmentsAreShort(s, now, requested, r, segs[i]);
      Memory.TotalsNeverWrap(seed, segs[i].range);
    }
    SegmentsSumToRange(s, now, requested, r, Memory.OrdersOn(seed), Orders(parts));
    SegmentsSumToRange(s, now, requested, r, Memory.CentsOn(seed), Cents(parts));
    Memory.TotalsNeverWrap(seed, r);
    hide Plan, PlanMeets, Memory.SumDays, Memory.OrdersOn, Memory.CentsOn, Memory.Wrap;
    TwoPartsOverflowExactly(Orders(parts));
  }

  lemma FunnelFormulaIgnoresPlan(s: Routing, now: int, requested: Source, r: DateRange, seed: Memory.Seed)
    requires PlanMeets(s, now, requested, r) && r.start <= r.end && r.end - r.start + 1 <= Memory.MOST_DAYS
    requires Plan(s, now, requested, r).Success?
    ensures MergedFunnel(MemoryFunnelParts(seed, Plan(s, now, requested, r).value))
         == Success(Memory.FunnelOver(seed, r))
  {
    var segs := Plan(s, now, requested, r).value;
    var parts := MemoryFunnelParts(seed, segs);
    assert |parts| <= 2;
    Memory.TotalsNeverWrap(seed, r);
    forall k | 0 <= k < STAGES
      ensures PartialSumsFit(Stages(parts, k))
      ensures Total(Stages(parts, k)) == Stage(Memory.FunnelOver(seed, r), k) as int
    {
      MemoryStageIgnoresPlan(s, now, requested, r, seed, k);
    }
    hide Plan, PlanMeets, Memory.FunnelOver, PartialSumsFit;
    SameStages(parts, Memory.FunnelOver(seed, r));
  }

  lemma MemoryStageIgnoresPlan(s: Routing, now: int, requested: Source, r: DateRange, seed: Memory.Seed,
                               k: int)
    requires PlanMeets(s, now, requested, r) && r.start <= r.end && r.end - r.start + 1 <= Memory.MOST_DAYS
    requires Plan(s, now, requested, r).Success? && 0 <= k < STAGES
    ensures var parts := MemoryFunnelParts(seed, Plan(s, now, requested, r).value);
            && PartialSumsFit(Stages(parts, k))
            && Total(Stages(parts, k)) == Stage(Memory.FunnelOver(seed, r), k) as int
  {
    var segs := Plan(s, now, requested, r).value;
    var parts := MemoryFunnelParts(seed, segs);
    assert |parts| <= 2;
    hide Memory.FunnelOver, Memory.StageOn, Stage;
    StageNeverWraps(seed, r, k);
    forall i | 0 <= i < |segs|
      ensures Stages(parts, k)[i]
           == Memory.SumDays(segs[i].range.start, segs[i].range.end, Memory.StageOn(seed, k))
    {
      SegmentsAreShort(s, now, requested, r, segs[i]);
      StageNeverWraps(seed, segs[i].range, k);
    }
    SegmentsSumToRange(s, now, requested, r, Memory.StageOn(seed, k), Stages(parts, k));
    hide Plan, PlanMeets, Memory.SumDays;
    TwoPartsOverflowExactly(Stages(parts, k));
  }

  lemma StageNeverWraps(seed: Memory.Seed, r: DateRange, k: int)
    requires r.start <= r.end + 1 && r.end - r.start + 1 <= Memory.MOST_DAYS && 0 <= k < STAGES
    ensures Stage(Memory.FunnelOver(seed, r), k) as int
         == Memory.SumDays(r.start, r.end, Memory.StageOn(seed, k))
  {
    Memory.TotalsNeverWrap(seed, r);
    hide Memory.FunnelOver, Memory.StageOn, Memory.SumDays, Stage;
  }

  lemma SameStages(parts: seq<RenovationFunnel>, f: RenovationFunnel)
    requires forall k :: 0 <= k < STAGES ==> PartialSumsFit(Stages(parts, k))
    requires forall k :: 0 <= k < STAGES ==> Total(Stages(parts, k)) == Stage(f, k) as int
    ensures MergedFunnel(parts) == Success(f)
  {
    hide PartialSumsFit;
    forall k | 0 <= k < STAGES
      ensures StageTotal(parts, k) == Stage(f, k)
    {
      WholeSumFits(Stages(parts, k));
    }
  }

  // ----- Memory mode: what the loops give -----

  /** Every planned segment's days can be walked midnight by midnight. */
  ghost predicate SegmentsWalk(z: Zone, segments: seq<Segment>) {
    forall i :: 0 <= i < |segments| ==> Walkable(z, segments[i].range)
  }

  /** A context that stays live. */
  function LiveContext(): int -> Option<Error> {
    (d: int) => None
  }

  lemma LiveContextShowsNothing(lo: int, hi: int)
    ensures Memory.FirstError(LiveContext(), lo, hi).None?
    decreases hi - lo
  {
    if lo <= hi {
      LiveContextShowsNothing(lo, hi - 1);
    }
  }

  /** parts is what the day loop gives for each segment. */
  ghost predicate LoopedRetail(z: Zone, seed: Memory.Seed, segments: seq<Segment>, parts: seq<RetailSummary>) {
    && |parts| == |segments|
    && forall i :: 0 <= i < |segments| ==>
         Memory.GivesRetail(z, seed, segments[i].range, LiveContext(), Success(parts[i]))
  }

  ghost predicate LoopedFunnel(z: Zone, seed: Memory.Seed, segments: seq<Segment>, parts: seq<RenovationFunnel>) {
    && |parts| == |segments|
    && forall i :: 0 <= i < |segments| ==>
         Memory.GivesFunnel(z, seed, segments[i].range, LiveContext(), Success(parts[i]))
  }

  /** Over walkable segments the merged parts that the day loops give are the aggregate over the
      whole range, whatever the requested source, clock and window, without overflow; and where
      the whole range can be walked, one loop over it gives the same. */
  lemma MemoryRetailIgnoresPlan(s: Routing, now: int, requested: Source, r: DateRange, seed: Memory.Seed,
                                parts: seq<RetailSummary>)
    requires PlanMeets(s, now, requested, r) && r.start <= r.end && r.end - r.start + 1 <= Memory.MOST_DAYS
    requires Plan(s, now, requested, r).Success?
    requires SegmentsWalk(s.zone, Plan(s, now, requested, r).value)
    requires LoopedRetail(s.zone, seed, Plan(s, now, requested, r).value, parts)
    ensures MergedRetail(parts) == Success(Memory.RetailOver(seed, r))
    ensures Walkable(s.zone, r) ==>
              Memory.GivesRetail(s.zone, seed, r, LiveContext(), Success(Memory.RetailOver(seed, r)))
  {
    hide PlanMeets, Plan, Walkable, Memory.GivesRetail, Memory.RetailOver, MergedRetail;
    var segments := Plan(s, now, requested, r).value;
    forall i | 0 <= i < |segments|
      ensures parts[i] == Memory.RetailOver(seed, segments[i].range)
    {
      Memory.RetailGiven(s.zone, seed, segments[i].range, LiveContext(), Success(parts[i]));
      LiveContextShowsNothing(segments[i].range.start, segments[i].range.end);
    }
    assert parts == MemoryRetailParts(seed, segments);
    RetailFormulaIgnoresPlan(s, now, requested, r, seed);
    if Walkable(s.zone, r) {
      Memory.RetailGiven(s.zone, seed, r, LiveContext(), Success(Memory.RetailOver(seed, r)));
      LiveContextShowsNothing(r.start, r.end);
    }
  }

  lemma MemoryFunnelIgnoresPlan(s: Routing, now: int, requested: Source, r: DateRange, seed: Memory.Seed,
                                parts: seq<RenovationFunnel>)
    requires PlanMeets(s, now, requested, r) && r.start <= r.end && r.end - r.start + 1 <= Memory.MOST_DAYS
    requires Plan(s, now, requested, r).Success?
    requires SegmentsWalk(s.zone, Plan(s, now, requested, r).value)
    requires LoopedFunnel(s.zone, seed, Plan(s, now, requested, r).value, parts)
    ensures MergedFunnel(parts) == Success(Memory.FunnelOver(seed, r))
    ensures Walkable(s.zone, r) ==>
              Memory.GivesFunnel(s.zone, seed, r, LiveContext(), Success(Memory.FunnelOver(seed, r)))
  {
    hide PlanMeets, Plan, Walkable, Memory.GivesFunnel, Memory.FunnelOver, MergedFunnel;
    var segments := Plan(s, now, requested, r).value;
    forall i | 0 <= i < |segments|
      ensures parts[i] == Memory.FunnelOver(seed, segments[i].range)
    {
      Memory.FunnelGiven(s.zone, seed, segments[i].range, LiveContext(), Success(parts[i]));
      LiveContextShowsNothing(segments[i].range.start, segments[i].range.end);
    }
    assert parts == MemoryFunnelParts(seed, segments);
    FunnelFormulaIgnoresPlan(s, now, requested, r, seed);
    if Walkable(s.zone, r) {
      Memory.FunnelGiven(s.zone, seed, r, LiveContext(), Success(Memory.FunnelOver(seed, r)));
      LiveContextShowsNothing(r.start, r.end);
    }
  }

  lemma {:induction false} TotalBelow(a: seq<int>, b: seq<int>)
    requires |a| == |b| && forall i :: 0 <= i < |a| ==> a[i] <= b[i]
    ensures Total(a) <= Total(b)
    ensures (exists i :: 0 <= i < |a| && a[i] < b[i]) ==> Total(a) < Total(b)
    decreases |a|
  {
    if a != [] {
      TotalBelow(a[..|a| - 1], b[..|b| - 1]);
      if i :| 0 <= i < |a| - 1 && a[i] < b[i] {
        assert a[..|a| - 1][i] < b[..|b| - 1][i];
      }
    }
  }

  /** In a zone whose clocks keep step but may skip midnights, the merged retail parts are the
      aggregate over the whole range if and only if no planned segment has a skipped midnight
      before its last day. */
  lemma MemoryRetailExactly(s: Routing, now: int, requested: Source, r: DateRange, seed: Memory.Seed,
                            parts: seq<RetailSummary>)
    requires PlanMeets(s, now, requested, r) && r.start <= r.end && r.end - r.start + 1 <= Memory.MOST_DAYS
    requires Plan(s, now, requested, r).Success?
    requires var segments := Plan(s, now, requested, r).value;
             && (forall i :: 0 <= i < |segments| ==> ClocksKeepStep(s.zone, segments[i].range))
             && LoopedRetail(s.zone, seed, segments, parts)
    ensures MergedRetail(parts) == Success(Memory.RetailOver(seed, r)) <==>
            var segments := Plan(s, now, requested, r).value;
            forall i :: 0 <= i < |segments| ==> NoneSkipped(s.zone, segments[i].range)
  {
    hide PlanMeets, Plan, ClocksKeepStep, NoneSkipped, Memory.GivesRetail, Memory.RetailOver, MergedRetail;
    var segments := Plan(s, now, requested, r).value;
    var whole := MemoryRetailParts(seed, segments);
    forall i | 0 <= i < |segments|
      ensures NoneSkipped(s.zone, segments[i].range) ==> parts[i] == whole[i]
      ensures !NoneSkipped(s.zone, segments[i].range) ==> parts[i].orders < whole[i].orders
    {
      SegmentsAreShort(s, now, requested, r, segments[i]);
      Memory.RetailGivenExactly(s.zone, seed, segments[i].range, LiveContext(), parts[i]);
    }
    RetailFormulaIgnoresPlan(s, now, requested, r, seed);
    if i :| 0 <= i < |segments| && !NoneSkipped(s.zone, segments[i].range) {
      assert Orders(parts)[i] < Orders(whole)[i];
      TotalBelow(Orders(parts), Orders(whole));
      MergedOrders(whole);
      if MergedRetail(parts).Success? {
        MergedOrders(parts);
      }
    } else {
      assert parts == whole;
    }
  }

  /** With a fixed offset, or about days since which the zone has kept one, all segments walk. */
  lemma FixedOffsetSegmentsWalk(z: Zone, segments: seq<Segment>)
    requires FixedOffset(z)
    ensures SegmentsWalk(z, segments)
  {
    hide Walkable;
    forall i | 0 <= i < |segments|
      ensures Walkable(z, segments[i].range)
    {
      FixedOffsetWalkable(z, segments[i].range);
    }
  }

  lemma SteadySegmentsWalk(s: Routing, now: int, requested: Source, r: DateRange, since: int)
    requires SteadySince(s.zone, since) && s.realtimeDays >= 1
    requires WellAfter(LocalDay(s.zone, now) - s.realtimeDays, since)
    requires r.start <= r.end && WellAfter(r.start, since) && WellAfter(r.end, since)
    requires Plan(s, now, requested, r).Success?
    ensures PlanMeets(s, now, requested, r)
    ensures SegmentsWalk(s.zone, Plan(s, now, requested, r).value) && Walkable(s.zone, r)
  {
    hide Walkable, PlanMeets, LocalDay, Midnight, CutoffAt, SteadySince, Plan;
    SteadyMeets(s, now, requested, r, since);
    SteadyWalkable(s.zone, r, since);
    PlanIsChain(s, now, requested, r);
    var segments := Plan(s, now, requested, r).value;
    forall i | 0 <= i < |segments|
      ensures Walkable(s.zone, segments[i].range)
    {
      PlannedDatesStayInside(s, now, requested, r, segments[i]);
      SteadyWalkable(s.zone, segments[i].range, since);
    }
  }

  /** Memory repositories: what one returns is what the day loop over its segment gives, for some
      readings of its context along the way.  A context's error never changes, so every error
      the loop saw is the one its context shows by the time it returns. */
  ghost predicate MemoryAnswers<D(!new)>(may: (nat, Result<D, Error>, Option<Error>) -> bool,
                                         segments: seq<Segment>,
                                         gives: (DateRange, int -> Option<Error>, Result<D, Error>) -> bool)
  {
    forall i: nat, out: Result<D, Error>, ctx: Option<Error> :: may(i, out, ctx) ==>
      i < |segments| && exists seen: int -> Option<Error> ::
        SeenBy(seen, ctx) && gives(segments[i].range, seen, out)
  }

  ghost predicate SeenBy(seen: int -> Option<Error>, ctx: Option<Error>) {
    forall d :: seen(d).Some? ==> seen(d) == ctx
  }

  ghost function RetailLoop(z: Zone, seed: Memory.Seed)
    : (DateRange, int -> Option<Error>, Result<RetailSummary, Error>) -> bool
  {
    (r: DateRange, seen: int -> Option<Error>, out: Result<RetailSummary, Error>) =>
      Memory.GivesRetail(z, seed, r, seen, out)
  }

  ghost function FunnelLoop(z: Zone, seed: Memory.Seed)
    : (DateRange, int -> Option<Error>, Result<RenovationFunnel, Error>) -> bool
  {
    (r: DateRange, seen: int -> Option<Error>, out: Result<RenovationFunnel, Error>) =>
      Memory.GivesFunnel(z, seed, r, seen, out)
  }

  lemma NothingSeenNothingFails(days: seq<int>, seen: int -> Option<Error>)
    requires SeenBy(seen, None)
    ensures Memory.FirstErrorOver(seen, days).None?
  {
    OnlySeenErrorsFail(days, seen, None);
  }

  lemma OnlySeenErrorsFail(days: seq<int>, seen: int -> Option<Error>, ctx: Option<Error>)
    requires SeenBy(seen, ctx)
    ensures Memory.FirstErrorOver(seen, days).Some? ==> Memory.FirstErrorOver(seen, days) == ctx
  {
    if Memory.FirstErrorOver(seen, days).Some? {
      var d := Memory.FirstErrorIsShown(seen, days);
    }
  }

  /** The loop fails only with its context's error, in any zone; over a walkable segment what it
      gives otherwise is the formula's sum. */
  lemma MemoryRetailIsFaithful(c: P.Config<RetailSummary>, segments: seq<Segment>, z: Zone, seed: Memory.Seed)
    requires |c.present| == |segments| && MemoryAnswers(c.may, segments, RetailLoop(z, seed))
    ensures P.FailsWithContext(c)
    ensures SegmentsWalk(z, segments) ==> P.Faithful(c, MemoryRetailParts(seed, segments))
  {
    hide Memory.RetailOver, Walkable, StopsAfter, Memory.GivesRetail;
    forall i: nat, out: Result<RetailSummary, Error>, ctx: Option<Error> | c.may(i, out, ctx) && out.Failure?
      ensures ctx == Some(out.error)
    {
      var seen: int -> Option<Error> :| SeenBy(seen, ctx) && RetailLoop(z, seed)(segments[i].range, seen, out);
      RetailFailsWithContext(z, seed, segments[i].range, seen, ctx, out);
    }
    if SegmentsWalk(z, segments) {
      forall i: nat, out: Result<RetailSummary, Error>, ctx: Option<Error>
        | i < |segments| && c.may(i, out, ctx) && out.Success?
        ensures out.value == Memory.RetailOver(seed, segments[i].range)
      {
        var seen: int -> Option<Error> :| SeenBy(seen, ctx) && RetailLoop(z, seed)(segments[i].range, seen, out);
        Memory.RetailGiven(z, seed, segments[i].range, seen, out);
      }
    }
  }

  lemma RetailFailsWithContext(z: Zone, seed: Memory.Seed, r: DateRange, seen: int -> Option<Error>,
                          ctx: Option<Error>, out: Result<RetailSummary, Error>)
    requires SeenBy(seen, ctx) && Memory.GivesRetail(z, seed, r, seen, out)
    ensures out.Failure? ==> ctx == Some(out.error)
  {
    hide StopsAfter, DaysMet, SeenBy;
    var n: nat :| StopsAfter(z, r, n) && out == Memory.RetailMet(seed, DaysMet(z, r, n), seen);
    OnlySeenErrorsFail(DaysMet(z, r, n), seen, ctx);
  }

  lemma MemoryFunnelIsFaithful(c: P.Config<RenovationFunnel>, segments: seq<Segment>, z: Zone, seed: Memory.Seed)
    requires |c.present| == |segments| && MemoryAnswers(c.may, segments, FunnelLoop(z, seed))
    ensures P.FailsWithContext(c)
    ensures SegmentsWalk(z, segments) ==> P.Faithful(c, MemoryFunnelParts(seed, segments))
  {
    hide Memory.FunnelOver, Walkable, StopsAfter, Memory.GivesFunnel;
    forall i: nat, out: Result<RenovationFunnel, Error>, ctx: Option<Error> | c.may(i, out, ctx) && out.Failure?
      ensures ctx == Some(out.error)
    {
      var seen: int -> Option<Error> :| SeenBy(seen, ctx) && FunnelLoop(z, seed)(segments[i].range, seen, out);
      FunnelFailsWithContext(z, seed, segments[i].range, seen, ctx, out);
    }
    if SegmentsWalk(z, segments) {
      forall i: nat, out: Result<RenovationFunnel, Error>, ctx: Option<Error>
        | i < |segments| && c.may(i, out, ctx) && out.Success?
        ensures out.value == Memory.FunnelOver(seed, segments[i].range)
      {
        var seen: int -> Option<Error> :| SeenBy(seen, ctx) && FunnelLoop(z, seed)(segments[i].range, seen, out);
        Memory.FunnelGiven(z, seed, segments[i].range, seen, out);
      }
    }
  }

  lemma FunnelFailsWithContext(z: Zone, seed: Memory.Seed, r: DateRange, seen: int -> Option<Error>,
                          ctx: Option<Error>, out: Result<RenovationFunnel, Error>)
    requires SeenBy(seen, ctx) && Memory.GivesFunnel(z, seed, r, seen, out)
    ensures out.Failure? ==> ctx == Some(out.error)
  {
    hide StopsAfter, DaysMet, SeenBy;
    var n: nat :| StopsAfter(z, r, n) && out == Memory.FunnelMet(seed, DaysMet(z, r, n), seen);
    OnlySeenErrorsFail(DaysMet(z, r, n), seen, ctx);
  }

  /** The one repository of memory mode stands for all three sources. */
  predicate OneForAll(entries: map<Source, Handle>) {
    Present(entries, Hive) && Present(entries, Trino) && Present(entries, StarRocks)
  }

  lemma AllPresent(entries: map<Source, Handle>, s: Routing, now: int, requested: Source, r: DateRange, i: nat)
    requires OneForAll(entries) && (s.historical == Hive || s.historical == Trino)
    requires Plan(s, now, requested, r).Success? && i < |Plan(s, now, requested, r).value|
    ensures Present(entries, Plan(s, now, requested, r).value[i].source)
  {
    hide CutoffAt, Midnight, LocalDay, AddDate;
  }

  /** So every memory-mode run over walkable segments, however scheduled, replies with the
      aggregate over the whole requested range, which does not depend on source, clock, window
      or schedule; or else its caller has timed out and it replies with a deadline, a 504, or
      its caller has cancelled and it replies with a cancellation. */
  lemma MemoryRetailRunsReplyAlike(s: Routing, now: int, requested: Source, r: DateRange, seed: Memory.Seed,
                                   entries: map<Source, Handle>,
                                   may: (nat, Result<RetailSummary, Error>, Option<Error>) -> bool,
                                   steps: seq<P.Step<RetailSummary>>)
    requires PlanMeets(s, now, requested, r) && r.start <= r.end && r.end - r.start + 1 <= Memory.MOST_DAYS
    requires OneForAll(entries) && (s.historical == Hive || s.historical == Trino)
    requires Plan(s, now, requested, r).Success?
    requires var segments := Plan(s, now, requested, r).value;
             var c := RetailConfig(entries, segments, may);
             && MemoryAnswers(may, segments, RetailLoop(s.zone, seed)) && SegmentsWalk(s.zone, segments)
             && P.After(c, steps).Some? && P.After(c, steps).value.reply.Some?
    ensures var c := RetailConfig(entries, Plan(s, now, requested, r).value, may);
            var end := P.After(c, steps).value;
            || end.reply.value == Success(Memory.RetailOver(seed, r))
            || (end.reply.value.Failure? && P.ReportsCaller(end.parent, end.reply.value.error))
  {
    hide P.After, PlanMeets, P.Faithful, P.FailsWithContext, P.ReportsCaller, MemoryAnswers, SegmentsWalk, Plan;
    var segments := Plan(s, now, requested, r).value;
    var c := RetailConfig(entries, segments, may);
    forall i | 0 <= i < |c.present|
      ensures c.present[i]
    {
      AllPresent(entries, s, now, requested, r, i);
    }
    MemoryRetailIsFaithful(c, segments, s.zone, seed);
    RetailFormulaIgnoresPlan(s, now, requested, r, seed);
    P.OnlyCallersEndQueries(c, steps, MemoryRetailParts(seed, segments));
  }

  /** The same for the funnel. */
  lemma MemoryFunnelRunsReplyAlike(s: Routing, now: int, requested: Source, r: DateRange, seed: Memory.Seed,
                                   entries: map<Source, Handle>,
                                   may: (nat, Result<RenovationFunnel, Error>, Option<Error>) -> bool,
                                   steps: seq<P.Step<RenovationFunnel>>)
    requires PlanMeets(s, now, requested, r) && r.start <= r.end && r.end - r.start + 1 <= Memory.MOST_DAYS
    requires OneForAll(entries) && (s.historical == Hive || s.historical == Trino)
    requires Plan(s, now, requested, r).Success?
    requires var segments := Plan(s, now, requested, r).value;
             var c := FunnelConfig(entries, segments, may);
             && MemoryAnswers(may, segments, FunnelLoop(s.zone, seed)) && SegmentsWalk(s.zone, segments)
             && P.After(c, steps).Some? && P.After(c, steps).value.reply.Some?
    ensures var c := FunnelConfig(entries, Plan(s, now, requested, r).value, may);
            var end := P.After(c, steps).value;
            || end.reply.value == Success(Memory.FunnelOver(seed, r))
            || (end.reply.value.Failure? && P.ReportsCaller(end.parent, end.reply.value.error))
  {
    hide P.After, PlanMeets, P.Faithful, P.FailsWithContext, P.ReportsCaller, MemoryAnswers, SegmentsWalk, Plan;
    var segments := Plan(s, now, requested, r).value;
    var c := FunnelConfig(entries, segments, may);
    forall i | 0 <= i < |c.present|
      ensures c.present[i]
    {
      AllPresent(entries, s, now, requested, r, i);
    }
    MemoryFunnelIsFaithful(c, segments, s.zone, seed);
    FunnelFormulaIgnoresPlan(s, now, requested, r, seed);
    P.OnlyCallersEndQueries(c, steps, MemoryFunnelParts(seed, segments));
  }

  lemma NextOffsetDiffers(d: int, seed: Memory.Seed)
    ensures Memory.Offset(d + 1, seed) != Memory.Offset(d, seed)
  {
    Memory.OffsetIsResidue(d, seed);
    Memory.OffsetIsResidue(d + 1, seed);
    hide Memory.Offset;
    NextResidueDiffers(d + seed);
    assert d + 1 + seed == d + seed + 1;
  }

  lemma NextResidueDiffers(n: int)
    ensures (n + 1) % Memory.TWO64 % 41 != n % Memory.TWO64 % 41
  {
    var u := n % Memory.TWO64;
    if u == Memory.TWO64 - 1 {
      assert (n + 1) % Memory.TWO64 == 0;
    } else {
      Memory.WithoutWrap(n, 1);
    }
  }

  /** What a loop that meets two or three days sums up. */
  lemma OrdersMet(days: seq<int>, seed: Memory.Seed)
    requires |days| <= 3
    ensures Memory.RetailMet(seed, days, LiveContext()).Success?
    ensures Memory.RetailMet(seed, days, LiveContext()).value.orders as int
         == (if |days| > 0 then 60 + Memory.Offset(days[0], seed) else 0)
          + (if |days| > 1 then 60 + Memory.Offset(days[1], seed) else 0)
          + (if |days| > 2 then 60 + Memory.Offset(days[2], seed) else 0)
  {
    hide Memory.Offset, Memory.CentsOn, Memory.Wrap;
    NothingSeenNothingFails(days, LiveContext());
    var f := Memory.OrdersOn(seed);
    assert days[..|days|] == days;
    if |days| > 0 { assert days[..1][..0] == [] && Memory.SumOver(days[..1], f) == f(days[0]); }
    if |days| > 1 { assert days[..2][..1] == days[..1] && Memory.SumOver(days[..2], f) == f(days[0]) + f(days[1]); }
    if |days| > 2 { assert days[..3][..2] == days[..2]; }
  }

  /** Where a midnight inside the range is skipped, sources can disagree: for every organisation
      the orders of the days -1 to 2 differ between source hive, whose one loop never meets day
      2, and source auto, whose first loop never meets day 1. */
  lemma MemorySourcesCanDisagree(seed: Memory.Seed, whole: RetailSummary, early: RetailSummary, late: RetailSummary)
    requires Memory.GivesRetail(SPRING_FORWARD, seed, DateRange(-1, 2), LiveContext(), Success(whole))
    requires Memory.GivesRetail(SPRING_FORWARD, seed, DateRange(-1, 1), LiveContext(), Success(early))
    requires Memory.GivesRetail(SPRING_FORWARD, seed, DateRange(2, 2), LiveContext(), Success(late))
    ensures var (s, r) := (Routing(Hive, 1, SPRING_FORWARD), DateRange(-1, 2));
            && PlanMeets(s, 2 * DAY, Auto, r)
            && Plan(s, 2 * DAY, Hive, r) == Success([Segment(Hive, r)])
            && Plan(s, 2 * DAY, Auto, r)
               == Success([Segment(Hive, DateRange(-1, 1)), Segment(StarRocks, DateRange(2, 2))])
    ensures whole.orders as int != early.orders as int + late.orders as int
  {
    SpringForwardPlans();
    SkippedMidnightLosesDay();
    SpringForwardLoops();
    hide StopsAfter, Instant, Memory.RetailMet, Memory.Offset, Plan, PlanMeets;
    OrdersMet([-1, 0, 1], seed);
    OrdersMet([-1, 0], seed);
    OrdersMet([2], seed);
    NextOffsetDiffers(1, seed);
    forall n: nat | StopsAfter(SPRING_FORWARD, DateRange(-1, 2), n)
      ensures n == 3
    {
      StopsOnce(SPRING_FORWARD, DateRange(-1, 2), n, 3);
    }
    forall n: nat | StopsAfter(SPRING_FORWARD, DateRange(-1, 1), n)
      ensures n == 2
    {
      StopsOnce(SPRING_FORWARD, DateRange(-1, 1), n, 2);
    }
    forall n: nat | StopsAfter(SPRING_FORWARD, DateRange(2, 2), n)
      ensures n == 1
    {
      StopsOnce(SPRING_FORWARD, DateRange(2, 2), n, 1);
    }
  }

  lemma SpringForwardLoops()
    ensures StopsAfter(SPRING_FORWARD, DateRange(-1, 1), 2) && DaysMet(SPRING_FORWARD, DateRange(-1, 1), 2) == [-1, 0]
    ensures StopsAfter(SPRING_FORWARD, DateRange(2, 2), 1) && DaysMet(SPRING_FORWARD, DateRange(2, 2), 1) == [2]
  {
    var z := SPRING_FORWARD;
    hide AddDate;
    OtherMidnights(-1);
    OtherMidnights(1);
    OtherMidnights(2);
    OtherMidnights(3);
    SkippedMidnight();
    InstantOnMidnight(z, -1, 1);
    InstantOnMidnight(z, 2, 1);
    assert Midnight(z, 0) == -28800;
    assert Instant(z, -1, 0) == -DAY - 28800 && Instant(z, 2, 0) == 2 * DAY - 32400;
    assert Instant(z, -1, 2) == AddDate(z, Instant(z, -1, 1), 1) == DAY - 28800;
  }

  lemma SpringForwardPlans()
    ensures var (s, r) := (Routing(Hive, 1, SPRING_FORWARD), DateRange(-1, 2));
            && PlanMeets(s, 2 * DAY, Auto, r)
            && Plan(s, 2 * DAY, Hive, r) == Success([Segment(Hive, r)])
            && Plan(s, 2 * DAY, Auto, r)
               == Success([Segment(Hive, DateRange(-1, 1)), Segment(StarRocks, DateRange(2, 2))])
  {
    var s := Routing(Hive, 1, SPRING_FORWARD);
    OtherMidnights(-1);
    OtherMidnights(1);
    OtherMidnights(2);
    assert LocalDay(s.zone, 2 * DAY) == 2;
    hide LocalDay, Midnight, CutoffAt, Cutoff, HasMidnight;
    assert ClockMeets(s, 2 * DAY);
    CutoffIsMidnight(s, 2 * DAY);
    PlanInDays(s, 2 * DAY, Auto, DateRange(-1, 2));
  }

  // ----- Errors of a whole query -----

  /** Repositories over SQL: a failure is a driver's error after the repository's classifier,
      and a driver reports a cancellation only once its context is done. */
  ghost predicate SqlRepositories<D(!new)>(may: (nat, Result<D, Error>, Option<Error>) -> bool,
                                           sources: seq<string>)
  {
    forall i: nat, out: Result<D, Error>, ctx: Option<Error> ::
      may(i, out, ctx) && out.Failure? ==>
        i < |sources| && exists e ::
          Foreign(e) && (ctx.None? ==> !Is(e, Canceled)) && out.error == WrapErr(sources[i], e)
  }

  /** With every repository present and the caller still there, a query over SQL repositories
      fails with 503 or 504, or because the merge itself overflowed: never with the 500 of a
      sibling's induced cancellation, and never with 400. */
  lemma SqlFailureClass<D(!new)>(c: P.Config<D>, steps: seq<P.Step<D>>, sources: seq<string>)
    requires c.Valid() && SqlRepositories(c.may, sources)
    requires forall i :: 0 <= i < |c.present| ==> c.present[i]
    requires P.After(c, steps).Some? && P.After(c, steps).value.reply.Some?
    requires P.After(c, steps).value.parent == P.Live
    ensures var s := P.After(c, steps).value;
            && (s.first.Some? ==> s.reply.value.Failure?)
            && (s.first.Some? ==> MapDomainError(s.reply.value.error) in {Unavailable503, GatewayTimeout504})
            && (s.first.None? ==> P.AllAnswered(s) && s.reply.value == c.merge(P.Data(s)))
  {
    P.RunsKeepInv(c, steps);
    P.ReplyIsWholeOrError(c, steps);
    var s := P.After(c, steps).value;
    if s.first.Some? {
      P.ErrorIsRootCause(c, steps);
      var w := s.first.value.worker;
      var cause := s.answers[w].value.error;
      var e :| Foreign(e) && !Is(e, Canceled) && cause == WrapErr(sources[w], e);
      WrapErrClass(sources[w], e);
      WrappingKeepsClass(c.labels[w], cause);
    } else {
      forall i: nat | i < |c.present|
        ensures s.answers[i].Some? && s.answers[i].value.Success?
      {
        assert P.WorkerOk(c, s, i) && s.workers[i].Exited?;
      }
    }
  }

  /** When the caller timed out, drivers that report a cancellation only where their context was
      cancelled leave the same classes: 503, 504 or the merge, never a 500 of an induced
      cancellation. */
  lemma SqlTimeoutClass<D(!new)>(c: P.Config<D>, steps: seq<P.Step<D>>, sources: seq<string>)
    requires c.Valid() && SqlRepositories(c.may, sources)
    requires forall i: nat, out: Result<D, Error> ::
               c.may(i, out, Some(DeadlineExceeded)) && out.Failure? ==> !Is(out.error, Canceled)
    requires forall i :: 0 <= i < |c.present| ==> c.present[i]
    requires P.After(c, steps).Some? && P.After(c, steps).value.reply.Some?
    requires P.After(c, steps).value.parent == P.ParentExpired
    ensures var s := P.After(c, steps).value;
            || (s.reply.value.Failure?
                && MapDomainError(s.reply.value.error) in {Unavailable503, GatewayTimeout504})
            || (P.AllAnswered(s) && s.reply.value == c.merge(P.Data(s)))
  {
    P.RunsKeepInv(c, steps);
    P.ReplyIsWholeOrError(c, steps);
    var s := P.After(c, steps).value;
    if s.first.Some? {
      P.ErrorIsRootCause(c, steps);
      var w := s.first.value.worker;
      var cause := s.answers[w].value.error;
      var e :| Foreign(e) && cause == WrapErr(sources[w], e);
      WrapErrClass(sources[w], e);
      WrappingKeepsClass(c.labels[w], cause);
      assert !Is(cause, Canceled);
    } else {
      forall i: nat | i < |c.present|
        ensures s.answers[i].Some? && s.answers[i].value.Success?
      {
        assert P.WorkerOk(c, s, i) && s.workers[i].Exited?;
      }
    }
  }
}
