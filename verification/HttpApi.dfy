/** The HTTP layer: what a request may ask, and the segments a response reports. */
module HttpApi {
  import opened Wrappers
  import opened Calendar
  import opened Zones
  import opened Errors
  import opened Domain
  import opened Planner
  import DateText
  import Merge
  import Memory
  import Service
  import Statements

  /** The four query parameters a handler reads. */
  datatype Request = Request(source: string, org: string, start: string, end: string)

  datatype ParsedQuery = ParsedQuery(source: Source, query: Query)

  function ParseQuery(q: Request, maxDays: int, z: Zone): Result<ParsedQuery, Error> {
    match ParseSource(q.source)
    case Failure(e) => Failure(e)
    case Success(source) =>
      if !ValidOrg(q.org) then Failure(InvalidArgument)
      else
        match NewDateRange(q.start, q.end, maxDays, z)
        case Failure(e) => Failure(e)
        case Success(r) => Success(ParsedQuery(source, Query(r, q.org)))
  }

  /** What an accepted request guarantees to everything below: a public source, a safe
      organisation, and a range in order that prints as the requested texts, within four-digit
      years and so within the days memory totals can sum. */
  lemma AcceptedQuery(q: Request, maxDays: int, z: Zone)
    requires EndsComparable(q.start, q.end, z) && ParseQuery(q, maxDays, z).Success?
    ensures var p := ParseQuery(q, maxDays, z).value;
            && SourceName(p.source) == q.source && !p.source.Unknown?
            && p.query.org == q.org && Statements.LiteralSafe(p.query.org)
            && StartString(p.query.range) == q.start && EndString(p.query.range) == q.end
            && p.query.range.start <= p.query.range.end
            && FourDigitDay(p.query.range.start) && FourDigitDay(p.query.range.end)
            && p.query.range.end - p.query.range.start + 1 <= Memory.MOST_DAYS
  {
    hide FromDayNumber, DayNumber, PrintDay, Days, Comparable, Midnight;
    ParseSourceInverts(q.source);
    PrintOfParsedDay(q.start);
    PrintOfParsedDay(q.end);
    var r := ParseQuery(q, maxDays, z).value.query.range;
    MidnightsOrder(z, r.start, r.end);
    Memory.FourDigitSpan(r.start, r.end);
  }

  /** A request is refused, always as an invalid argument and so 400, exactly when one of its
      parameters is: the checks are independent of one another. */
  lemma RefusedExactly(q: Request, maxDays: int, z: Zone)
    ensures ParseQuery(q, maxDays, z).Failure? <==>
            ParseSource(q.source).Failure? || !ValidOrg(q.org)
            || NewDateRange(q.start, q.end, maxDays, z).Failure?
    ensures ParseQuery(q, maxDays, z).Failure? ==>
              ParseQuery(q, maxDays, z).error == InvalidArgument
              && MapDomainError(ParseQuery(q, maxDays, z).error) == BadRequest400
  {
    hide ParseDay, Days;
    ParseSourceInverts(q.source);
  }

  lemma OrgPattern(org: string)
    ensures ValidOrg(org) <==> 1 <= |org| <= 64 && forall c :: c in org ==>
              'A' <= c <= 'Z' || 'a' <= c <= 'z' || '0' <= c <= '9' || c == '_' || c == '-'
  {
    if forall c :: c in org ==> 'A' <= c <= 'Z' || 'a' <= c <= 'z' || '0' <= c <= '9' || c == '_' || c == '-' {
      forall i | 0 <= i < |org|
        ensures OrgChar(org[i])
      {
        assert org[i] in org;
      }
    }
  }

  lemma PublicSources(name: string)
    ensures ParseSource(name).Success? <==> name in {"auto", "hive", "trino", "starrocks"}
  {
  }

  /** Exactly which four texts are accepted: a public source name, an organisation of safe
      characters, and two existing dates in order that are not too far apart, where the limit
      lets one more day through when the offset grows over the range and limits nothing from
      106752 on. */
  lemma AcceptedExactly(q: Request, maxDays: int, z: Zone)
    requires EndsComparable(q.start, q.end, z)
    ensures ParseQuery(q, maxDays, z).Success? <==>
            && q.source in {"auto", "hive", "trino", "starrocks"}
            && 1 <= |q.org| <= 64
            && (forall c :: c in q.org ==>
                  'A' <= c <= 'Z' || 'a' <= c <= 'z' || '0' <= c <= '9' || c == '_' || c == '-')
            && MakesRange(q.start, q.end, maxDays, z)
  {
    PublicSources(q.source);
    OrgPattern(q.org);
    hide ParseSource, ValidOrg, NewDateRange, MakesRange, EndsComparable;
    NewDateRangeAccepts(q.start, q.end, maxDays, z);
  }

  // ----- The reported segments -----

  datatype SegmentDTO = SegmentDTO(source: string, startDate: string, endDate: string)

  function DTO(s: Segment): SegmentDTO {
    SegmentDTO(SourceName(s.source), StartString(s.range), EndString(s.range))
  }

  method SegmentsDTO(segments: seq<Segment>) returns (out: seq<SegmentDTO>)
    ensures |out| == |segments|
    ensures forall i :: 0 <= i < |segments| ==> out[i] == DTO(segments[i])
  {
    hide PrintDay;
    out := [];
    for i := 0 to |segments|
      invariant |out| == i
      invariant forall k :: 0 <= k < i ==> out[k] == DTO(segments[k])
    {
      var s := segments[i];
      out := out + [SegmentDTO(SourceName(s.source), StartString(s.range), EndString(s.range))];
    }
  }

  /** The text of the day after the day a text names. */
  function NextText(s: string): string
    requires DateText.Parse(s).Some?
  {
    DateText.Print(NextDay(DateText.Parse(s).value))
  }

  lemma NextTextOfDay(n: int)
    requires FourDigitDay(n)
    ensures DateText.Parse(PrintDay(n)).Some?
    ensures NextText(PrintDay(n)) == PrintDay(n + 1)
  {
    hide FromDayNumber, DayNumber;
    DateText.ParseOfPrint(FromDayNumber(n));
    SuccessorIsNextDay(FromDayNumber(n));
  }

  /** Segment b is reported as starting on the day after a's reported end. */
  predicate Follows(a: Segment, b: Segment) {
    && DateText.Parse(DTO(a).endDate).Some?
    && DTO(b).startDate == NextText(DTO(a).endDate)
  }

  lemma AdjacentFollow(a: Segment, b: Segment)
    requires FourDigitDay(a.range.end) && b.range.start == a.range.end + 1
    ensures Follows(a, b)
  {
    hide FromDayNumber, PrintDay, NextText, DateText.Parse;
    NextTextOfDay(a.range.end);
  }

  /** For every accepted request the reported segments read as a gap-free partition: the first
      starts and the last ends as requested, and each next one starts on the calendar day
      after the previous one's end. */
  lemma ReportedSegmentsPartition(s: Routing, now: int, q: Request, maxDays: int)
    requires EndsComparable(q.start, q.end, s.zone) && ParseQuery(q, maxDays, s.zone).Success?
    requires var p := ParseQuery(q, maxDays, s.zone).value; PlanMeets(s, now, p.source, p.query.range)
    ensures var p := ParseQuery(q, maxDays, s.zone).value;
            && Plan(s, now, p.source, p.query.range).Success?
            && var segs := Plan(s, now, p.source, p.query.range).value;
               && segs != []
               && DTO(segs[0]).startDate == q.start
               && DTO(segs[|segs| - 1]).endDate == q.end
               && forall i, j :: 0 <= i && j == i + 1 < |segs| ==> Follows(segs[i], segs[j])
  {
    hide EndsComparable, PlanMeets, CutoffAt, LocalDay, Midnight;
    AcceptedQuery(q, maxDays, s.zone);
    var p := ParseQuery(q, maxDays, s.zone).value;
    var r := p.query.range;
    PlanFailsOnlyForUnknownSource(s, now, p.source, r);
    PlanIsChain(s, now, p.source, r);
    var segs := Plan(s, now, p.source, r).value;
    hide ParseQuery, Plan, FromDayNumber, PrintDay, Follows;
    forall i, j | 0 <= i && j == i + 1 < |segs|
      ensures Follows(segs[i], segs[j])
    {
      PlannedDatesStayInside(s, now, p.source, r, segs[i]);
      AdjacentFollow(segs[i], segs[j]);
    }
  }

  /** A reported segment names, under its public name, the engine its days are routed to. */
  lemma ReportedSourcesAreRouted(s: Routing, now: int, q: Request, maxDays: int, seg: Segment, day: int)
    requires EndsComparable(q.start, q.end, s.zone) && ParseQuery(q, maxDays, s.zone).Success?
    requires s.historical == Hive || s.historical == Trino
    requires var p := ParseQuery(q, maxDays, s.zone).value;
             && PlanMeets(s, now, p.source, p.query.range)
             && Plan(s, now, p.source, p.query.range).Success?
             && seg in Plan(s, now, p.source, p.query.range).value && seg.range.Contains(day)
    ensures ParseSource(DTO(seg).source)
         == Success(Route(s, now, ParseQuery(q, maxDays, s.zone).value.source, day))
  {
    hide EndsComparable, PlanMeets, Plan, Cutoff, LocalDay, PrintDay;
    var p := ParseQuery(q, maxDays, s.zone).value;
    AcceptedQuery(q, maxDays, s.zone);
    PlanCoversEachDayOnce(s, now, p.source, p.query.range, day);
    hide ParseQuery;
    PublicNames();
  }

  // ----- The handler -----

  /** What a handler answers requests with: the query service and the limits of requests. */
  datatype Handler = Handler(
    queries: Service.QueryService, ready: seq<nat>, apiKey: string, queryTimeout: int, maxDays: int, zone: Zone)

  /** The constructor asks for an API key, and takes 366 days where no limit is given. */
  function NewHandler(queries: Service.QueryService, ready: seq<nat>, apiKey: string, queryTimeout: int,
                      maxDays: int, zone: Zone): (r: Result<Handler, Error>)
    ensures r.Success? <==> apiKey != ""
    ensures r.Success? ==> r.value.maxDays == if maxDays >= 1 then maxDays else 366
  {
    if apiKey == "" then Failure(Other("APIKey: required"))
    else Success(Handler(queries, ready, apiKey, queryTimeout, if maxDays < 1 then 366 else maxDays, zone))
  }

  /** Every accepted request can be planned, and each planned query rendered by any builder
      made from identifiers, without reaching the panic; both dialects then agree. */
  lemma AcceptedQueriesRender(s: Routing, now: int, q: Request, maxDays: int,
                              prefix: string, retail: string, renovation: string, seg: Segment)
    requires EndsComparable(q.start, q.end, s.zone) && ParseQuery(q, maxDays, s.zone).Success?
    requires var p := ParseQuery(q, maxDays, s.zone).value; PlanMeets(s, now, p.source, p.query.range)
    requires Statements.ValidTriple(prefix, retail, renovation)
    requires var p := ParseQuery(q, maxDays, s.zone).value;
             Plan(s, now, p.source, p.query.range).Success? ==>
               seg in Plan(s, now, p.source, p.query.range).value
    ensures var p := ParseQuery(q, maxDays, s.zone).value;
            var planned := Query(seg.range, p.query.org);
            var bound := Statements.NewBoundBuilder(prefix, retail, renovation);
            var hive := Statements.NewHiveBuilder(prefix, retail, renovation);
            && Plan(s, now, p.source, p.query.range).Success?
            && bound.Success? && hive.Success?
            && Statements.Agree(Statements.Retail(bound.value, planned), Statements.Retail(hive.value, planned),
                                Statements.RETAIL_COLUMNS, Statements.Qualify(prefix, retail), planned)
            && Statements.Agree(Statements.Renovation(bound.value, planned), Statements.Renovation(hive.value, planned),
                                Statements.RENOVATION_COLUMNS, Statements.Qualify(prefix, renovation), planned)
            && FourDigitDay(seg.range.start) && FourDigitDay(seg.range.end)
  {
    hide EndsComparable, PlanMeets, CutoffAt, LocalDay, Midnight;
    AcceptedQuery(q, maxDays, s.zone);
    var p := ParseQuery(q, maxDays, s.zone).value;
    PlanFailsOnlyForUnknownSource(s, now, p.source, p.query.range);
    PlannedDatesStayInside(s, now, p.source, p.query.range, seg);
    hide ParseQuery, Plan, FromDayNumber, Statements.Agree, Statements.Retail, Statements.Renovation;
    hide Statements.ValidTriple, Statements.LiteralSafe;
    Statements.DialectsAgree(prefix, retail, renovation, Query(seg.range, p.query.org));
  }

  /** What the day loops give for the plan of an accepted request. */
  datatype MemoryParts = MemoryParts(retail: seq<Merge.RetailSummary>, funnel: seq<Merge.RenovationFunnel>)

  /** An accepted request whose plan meets its midnights and whose segments walk, and what the
      day loops give for them. */
  ghost predicate MemoryQuery(s: Routing, now: int, q: Request, maxDays: int, seed: Memory.Seed, parts: MemoryParts) {
    && ParseQuery(q, maxDays, s.zone).Success?
    && var p := ParseQuery(q, maxDays, s.zone).value;
       (PlanMeets(s, now, p.source, p.query.range)
        && Plan(s, now, p.source, p.query.range).Success?
        && var segments := Plan(s, now, p.source, p.query.range).value;
           (Service.SegmentsWalk(s.zone, segments)
            && Service.LoopedRetail(s.zone, seed, segments, parts.retail)
            && Service.LoopedFunnel(s.zone, seed, segments, parts.funnel)))
  }

  /** In memory mode two accepted requests that differ only in their source get identical data
      from the day loops, at any clock readings, with any windows and either historical engine,
      and are never refused for overflow, wherever the planned segments can be walked. */
  lemma MemoryModeSourcesAgree(s: Routing, t: Routing, now: int, later: int, q: Request, other: string,
                               maxDays: int, seed: Memory.Seed, x: MemoryParts, y: MemoryParts)
    requires s.zone == t.zone && EndsComparable(q.start, q.end, s.zone)
    requires MemoryQuery(s, now, q, maxDays, seed, x)
    requires MemoryQuery(t, later, q.(source := other), maxDays, seed, y)
    ensures Merge.MergedRetail(x.retail).Success? && Merge.MergedFunnel(x.funnel).Success?
    ensures Merge.MergedRetail(x.retail) == Merge.MergedRetail(y.retail)
    ensures Merge.MergedFunnel(x.funnel) == Merge.MergedFunnel(y.funnel)
  {
    hide EndsComparable, PlanMeets, CutoffAt, LocalDay, Midnight, FromDayNumber;
    hide Plan, Merge.MergedRetail, Merge.MergedFunnel, Service.SegmentsWalk, Service.LoopedRetail, Service.LoopedFunnel;
    AcceptedQuery(q, maxDays, s.zone);
    AcceptedQuery(q.(source := other), maxDays, s.zone);
    var a := ParseQuery(q, maxDays, s.zone).value;
    var b := ParseQuery(q.(source := other), maxDays, s.zone).value;
    SameRange(q, other, maxDays, s.zone);
    hide ParseQuery;
    Service.MemoryRetailIgnoresPlan(s, now, a.source, a.query.range, seed, x.retail);
    Service.MemoryRetailIgnoresPlan(t, later, b.source, b.query.range, seed, y.retail);
    Service.MemoryFunnelIgnoresPlan(s, now, a.source, a.query.range, seed, x.funnel);
    Service.MemoryFunnelIgnoresPlan(t, later, b.source, b.query.range, seed, y.funnel);
  }

  lemma SameRange(q: Request, other: string, maxDays: int, z: Zone)
    requires ParseQuery(q, maxDays, z).Success?
    requires ParseQuery(q.(source := other), maxDays, z).Success?
    ensures ParseQuery(q, maxDays, z).value.query == ParseQuery(q.(source := other), maxDays, z).value.query
  {
    hide ParseSource, NewDateRange, ValidOrg;
  }
}
