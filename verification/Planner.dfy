/** The split planner: which engine answers for which days. */
module Planner {
  import opened Wrappers
  import opened Calendar
  import opened Zones
  import opened Errors
  import opened Domain
  import DateText

  datatype Segment = Segment(source: Source, range: DateRange)

  /** What the service fixes at construction. */
  datatype Routing = Routing(historical: Source, realtimeDays: int, zone: Zone)

  /** The instant at which StarRocks takes over: n - 1 days before the start of today. */
  function CutoffAt(s: Routing, now: int): int {
    AddDate(s.zone, Midnight(s.zone, LocalDay(s.zone, now)), -(s.realtimeDays - 1))
  }

  /** The first day StarRocks answers for. */
  function Cutoff(s: Routing, now: int): int {
    LocalDay(s.zone, CutoffAt(s, now))
  }

  /** The instants of the source are compared as such; a segment then names its days, which is
      all that printing and walking it use. */
  function Plan(s: Routing, now: int, requested: Source, r: DateRange): Result<seq<Segment>, Error> {
    match requested
    case Hive => Success([Segment(requested, r)])
    case Trino => Success([Segment(requested, r)])
    case StarRocks => Success([Segment(requested, r)])
    case Unknown(_) => Failure(InvalidArgument)
    case Auto =>
      var cutoff := CutoffAt(s, now);
      if Midnight(s.zone, r.end) < cutoff then
        Success([Segment(s.historical, r)])
      else if !(Midnight(s.zone, r.start) < cutoff) then
        Success([Segment(StarRocks, r)])
      else
        var historyEnd := AddDate(s.zone, cutoff, -1);
        Success([Segment(s.historical, DateRange(r.start, LocalDay(s.zone, historyEnd))),
                 Segment(StarRocks, DateRange(LocalDay(s.zone, cutoff), r.end))])
  }

  // ----- The midnights that planning meets -----

  /** Today, the first day of the window and the day before it have midnights. */
  predicate ClockMeets(s: Routing, now: int) {
    var today := LocalDay(s.zone, now);
    && HasMidnight(s.zone, today)
    && HasMidnight(s.zone, today - (s.realtimeDays - 1))
    && HasMidnight(s.zone, today - s.realtimeDays)
  }

  /** An automatic request meets the clock's midnights and compares those of its own two ends
      with the cutoff's; an explicit one meets none. */
  predicate PlanMeets(s: Routing, now: int, requested: Source, r: DateRange) {
    requested == Auto ==>
      && ClockMeets(s, now)
      && Comparable(s.zone, r.start, Cutoff(s, now))
      && Comparable(s.zone, r.end, Cutoff(s, now))
  }

  /** Counting back from today's midnight lands on the midnight n - 1 days before. */
  lemma CutoffIsMidnight(s: Routing, now: int)
    requires ClockMeets(s, now)
    ensures Cutoff(s, now) == LocalDay(s.zone, now) - (s.realtimeDays - 1)
    ensures CutoffAt(s, now) == Midnight(s.zone, Cutoff(s, now))
    ensures LocalDay(s.zone, AddDate(s.zone, CutoffAt(s, now), -1)) == Cutoff(s, now) - 1
  {
    var (z, today) := (s.zone, LocalDay(s.zone, now));
    var c := today - (s.realtimeDays - 1);
    AddDateFromMidnight(z, today, -(s.realtimeDays - 1));
    AddDateFromMidnight(z, c, -1);
    MidnightShowsItsDay(z, c, 0);
    MidnightShowsItsDay(z, c - 1, 0);
    hide Midnight, AddDate, LocalDay;
    assert c - 1 == today - s.realtimeDays;
  }

  /** With a fixed offset every request meets its midnights. */
  lemma FixedOffsetMeets(s: Routing, now: int, requested: Source, r: DateRange)
    requires FixedOffset(s.zone)
    ensures ClockMeets(s, now) && PlanMeets(s, now, requested, r)
  {
    hide Midnight, AddDate, LocalDay, CutoffAt, OffsetOn, FixedOffset;
    forall n
      ensures HasMidnight(s.zone, n)
    {
      FixedOffsetComparable(s.zone, n, n);
    }
    FixedOffsetComparable(s.zone, r.start, Cutoff(s, now));
    FixedOffsetComparable(s.zone, r.end, Cutoff(s, now));
  }

  /** So does every request about days of a steady time, with a window that reaches back no
      further, whatever clocks did in the zone before. */
  lemma SteadyMeets(s: Routing, now: int, requested: Source, r: DateRange, since: int)
    requires SteadySince(s.zone, since) && s.realtimeDays >= 1
    requires WellAfter(LocalDay(s.zone, now) - s.realtimeDays, since)
    requires WellAfter(r.start, since) && WellAfter(r.end, since)
    ensures ClockMeets(s, now) && PlanMeets(s, now, requested, r)
  {
    hide Midnight, AddDate, LocalDay, CutoffAt, Cutoff, OffsetOn, SteadySince;
    var today := LocalDay(s.zone, now);
    SteadyComparable(s.zone, since, today - s.realtimeDays, today);
    SteadyComparable(s.zone, since, today, today - (s.realtimeDays - 1));
    CutoffIsMidnight(s, now);
    SteadyComparable(s.zone, since, r.start, Cutoff(s, now));
    SteadyComparable(s.zone, since, r.end, Cutoff(s, now));
  }

  lemma CutoffNamesDay(s: Routing, now: int)
    ensures LocalDay(s.zone, CutoffAt(s, now)) == Cutoff(s, now)
  {
  }

  /** What the three branches come to, in days. */
  lemma PlanInDays(s: Routing, now: int, requested: Source, r: DateRange)
    requires PlanMeets(s, now, requested, r) && !requested.Unknown?
    ensures var c := Cutoff(s, now);
            Plan(s, now, requested, r) == Success(
              if requested != Auto then [Segment(requested, r)]
              else if r.end < c then [Segment(s.historical, r)]
              else if r.start >= c then [Segment(StarRocks, r)]
              else [Segment(s.historical, DateRange(r.start, c - 1)), Segment(StarRocks, DateRange(c, r.end))])
  {
    hide Midnight, AddDate, LocalDay, ClockMeets, Comparable, CutoffAt, Cutoff;
    if requested == Auto {
      CutoffIsMidnight(s, now);
      MidnightsOrder(s.zone, r.start, Cutoff(s, now));
      MidnightsOrder(s.zone, r.end, Cutoff(s, now));
      CutoffNamesDay(s, now);
    }
  }

  /** The engine that is to answer for day d, stated day by day. */
  function Route(s: Routing, now: int, requested: Source, d: int): Source {
    if requested != Auto then requested
    else if d < Cutoff(s, now) then s.historical
    else StarRocks
  }

  /** How many of the segments cover day d. */
  function Covering(segments: seq<Segment>, d: int): nat {
    if segments == [] then 0
    else (if segments[0].range.Contains(d) then 1 else 0) + Covering(segments[1..], d)
  }

  lemma CoveringTwo(segments: seq<Segment>, d: int)
    requires 1 <= |segments| <= 2
    ensures Covering(segments, d)
         == (if segments[0].range.Contains(d) then 1 else 0)
          + (if |segments| == 2 && segments[1].range.Contains(d) then 1 else 0)
  {
    assert Covering(segments[1..], d) ==
           if |segments| == 2 && segments[1].range.Contains(d) then 1 else 0 by {
      assert |segments| == 2 ==> segments[1..][1..] == [];
    }
  }

  /** A plan fails only for a source outside the enumeration. */
  lemma PlanFailsOnlyForUnknownSource(s: Routing, now: int, requested: Source, r: DateRange)
    ensures Plan(s, now, requested, r).Failure? <==> requested.Unknown?
    ensures Plan(s, now, requested, r).Failure? ==> Plan(s, now, requested, r).error == InvalidArgument
    ensures Plan(s, now, requested, r).Success? ==> 1 <= |Plan(s, now, requested, r).value| <= 2
  {
    hide CutoffAt, LocalDay, Midnight, AddDate;
  }

  /** Each day of the range belongs to exactly one segment, days outside to none, and the
      segment's engine is the one day-by-day routing names. */
  lemma PlanCoversEachDayOnce(s: Routing, now: int, requested: Source, r: DateRange, d: int)
    requires PlanMeets(s, now, requested, r)
    requires Plan(s, now, requested, r).Success?
    ensures Covering(Plan(s, now, requested, r).value, d) == if r.Contains(d) then 1 else 0
    ensures forall seg :: seg in Plan(s, now, requested, r).value && seg.range.Contains(d) ==>
              seg.source == Route(s, now, requested, d)
  {
    hide AddDate, LocalDay, Midnight, CutoffAt, Cutoff, PlanMeets;
    PlanFailsOnlyForUnknownSource(s, now, requested, r);
    PlanInDays(s, now, requested, r);
    hide Plan;
    CoveringTwo(Plan(s, now, requested, r).value, d);
  }

  /** Consecutive segments touch: the plan of a range is a chain from its start to its end in
      which each segment starts on the day after the one before, and none is empty. */
  ghost predicate Chain(segments: seq<Segment>, r: DateRange) {
    && segments != []
    && segments[0].range.start == r.start
    && segments[|segments| - 1].range.end == r.end
    && (forall i :: 0 <= i < |segments| ==>
          segments[i].range.start <= segments[i].range.end)
    && (forall i :: 0 < i < |segments| ==>
          segments[i].range.start == segments[i - 1].range.end + 1)
  }

  lemma PlanIsChain(s: Routing, now: int, requested: Source, r: DateRange)
    requires PlanMeets(s, now, requested, r)
    requires r.start <= r.end
    requires Plan(s, now, requested, r).Success?
    ensures Chain(Plan(s, now, requested, r).value, r)
  {
    hide AddDate, LocalDay, Midnight, CutoffAt, Cutoff, PlanMeets;
    PlanFailsOnlyForUnknownSource(s, now, requested, r);
    PlanInDays(s, now, requested, r);
    hide Plan;
  }

  /** Planned dates lie inside the requested range, so they keep its four-digit years. */
  lemma PlannedDatesStayInside(s: Routing, now: int, requested: Source, r: DateRange, seg: Segment)
    requires PlanMeets(s, now, requested, r)
    requires r.start <= r.end
    requires Plan(s, now, requested, r).Success? && seg in Plan(s, now, requested, r).value
    ensures r.Contains(seg.range.start) && r.Contains(seg.range.end)
    ensures FourDigitDay(r.start) && FourDigitDay(r.end) ==>
              FourDigitDay(seg.range.start) && FourDigitDay(seg.range.end)
  {
    hide FromDayNumber, AddDate, LocalDay, Midnight, CutoffAt, Cutoff, PlanMeets;
    PlanFailsOnlyForUnknownSource(s, now, requested, r);
    PlanInDays(s, now, requested, r);
    hide Plan;
    YearsFollowDays(r.start, seg.range.start);
    YearsFollowDays(seg.range.start, r.end);
    YearsFollowDays(r.start, seg.range.end);
    YearsFollowDays(seg.range.end, r.end);
  }

  /** The day's text has a four-digit year. */
  predicate FourDigitDay(n: int) {
    DateText.FourDigitYear(FromDayNumber(n))
  }

  // ----- The realtime window -----

  /** The days from the cutoff up to today. */
  function Window(s: Routing, now: int): DateRange {
    DateRange(Cutoff(s, now), LocalDay(s.zone, now))
  }

  /** The realtime window is exactly n days of the calendar, each the successor of the one
      before, the last of them today; and they are the days up to today that automatic routing
      sends to StarRocks. */
  lemma WindowHasNDays(s: Routing, now: int)
    requires s.realtimeDays >= 1 && ClockMeets(s, now)
    ensures |DaysOf(Window(s, now))| == s.realtimeDays
    ensures DaysOf(Window(s, now))[s.realtimeDays - 1] == LocalDay(s.zone, now)
    ensures forall i, k :: 0 <= i && k == i + 1 < s.realtimeDays ==>
              FromDayNumber(DaysOf(Window(s, now))[k]) == NextDay(FromDayNumber(DaysOf(Window(s, now))[i]))
    ensures s.historical != StarRocks ==>
              forall d :: Window(s, now).Contains(d) <==>
                          d <= LocalDay(s.zone, now) && Route(s, now, Auto, d) == StarRocks
  {
    hide FromDayNumber, DayNumber, DaysOf, ClockMeets, AddDate, LocalDay, Midnight, CutoffAt, Cutoff;
    CutoffIsMidnight(s, now);
    var days := DaysOf(Window(s, now));
    forall i, k | 0 <= i && k == i + 1 < s.realtimeDays
      ensures FromDayNumber(days[k]) == NextDay(FromDayNumber(days[i]))
    {
      SuccessorIsNextDay(FromDayNumber(days[i]));
    }
  }

  predicate ByHistory(s: Routing, now: int, d: int) {
    d < Cutoff(s, now)
  }

  /** No day that history answers for at `now` is StarRocks's again at `later`. */
  ghost predicate NoDayReturns(s: Routing, now: int, later: int) {
    forall d :: ByHistory(s, now, d) ==> ByHistory(s, later, d)
  }

  /** Routing is monotone between two clock readings exactly when the wall-clock date is. */
  lemma RoutingMonotoneExactly(s: Routing, now: int, later: int)
    requires ClockMeets(s, now) && ClockMeets(s, later)
    ensures NoDayReturns(s, now, later) <==> LocalDay(s.zone, now) <= LocalDay(s.zone, later)
  {
    hide Cutoff, CutoffAt, LocalDay, ClockMeets;
    CutoffIsMidnight(s, now);
    CutoffIsMidnight(s, later);
    var d := Cutoff(s, now) - 1;
    assert ByHistory(s, now, d);
  }

  /** With a fixed offset a day routed to history stays there. */
  lemma RoutingMonotoneInFixedZone(s: Routing, now: int, later: int)
    requires FixedOffset(s.zone)
    requires now <= later
    ensures NoDayReturns(s, now, later)
  {
    FixedOffsetMeets(s, now, Auto, DateRange(0, 0));
    FixedOffsetMeets(s, later, Auto, DateRange(0, 0));
    assert LocalDay(s.zone, now) <= LocalDay(s.zone, later);
    hide ClockMeets, NoDayReturns;
    RoutingMonotoneExactly(s, now, later);
  }

  /** A zone whose clocks go back one hour a minute after midnight. */
  const FALL_BACK := Zone((t: int) => if t < 82860 then 3600 else 0)

  /** When clocks go back over midnight, a day already handed to history returns to
      StarRocks one second later, although every midnight is there. */
  lemma RoutingCanReturn()
    ensures forall n: int :: HasMidnight(FALL_BACK, n)
    ensures !NoDayReturns(Routing(Hive, 1, FALL_BACK), 82859, 82860)
  {
    forall n: int
      ensures HasMidnight(FALL_BACK, n)
    {
      assert n <= 0 ==> n * DAY <= 0;
      assert n >= 1 ==> n * DAY >= DAY;
    }
    assert LocalDay(FALL_BACK, 82859) == 1 && LocalDay(FALL_BACK, 82860) == 0;
    hide HasMidnight, LocalDay, NoDayReturns;
    RoutingMonotoneExactly(Routing(Hive, 1, FALL_BACK), 82859, 82860);
  }

  // ----- Where today has no midnight -----

  /** The first of n days that end today. */
  function FirstDay(s: Routing, now: int): int {
    LocalDay(s.zone, now) - (s.realtimeDays - 1)
  }

  /** How far the cutoff lies past the start of the window's first day: the reading with which
      today starts, 0 at midnight. */
  function Late(s: Routing, now: int): int {
    Reading(s.zone, LocalDay(s.zone, now))
  }

  /** Today starts on its own date; the window's first day has a midnight and keeps its offset
      until today's first reading; and the day before shows that reading too. */
  predicate RunsEvenly(s: Routing, now: int) {
    var (first, wall) := (FirstDay(s, now), FirstDay(s, now) * DAY + Late(s, now));
    && StartsOnItself(s.zone, LocalDay(s.zone, now))
    && HasMidnight(s.zone, first)
    && Shown(s.zone, wall) && s.zone.offsetAt(At(s.zone, wall)) == OffsetOn(s.zone, first)
    && Shown(s.zone, wall - DAY)
  }

  /** Day d's midnight compares with the first day's, and comes no earlier than the cutoff if d
      is a later day. */
  predicate EndMeets(s: Routing, now: int, d: int) {
    && Comparable(s.zone, d, FirstDay(s, now))
    && (d > FirstDay(s, now) ==> CutoffAt(s, now) <= Midnight(s.zone, d))
  }

  lemma CutoffIsLate(s: Routing, now: int)
    requires RunsEvenly(s, now)
    ensures 0 <= Late(s, now) < DAY
    ensures HasMidnight(s.zone, LocalDay(s.zone, now)) <==> Late(s, now) == 0
    ensures CutoffAt(s, now) == Midnight(s.zone, FirstDay(s, now)) + Late(s, now)
    ensures Cutoff(s, now) == FirstDay(s, now)
    ensures LocalDay(s.zone, AddDate(s.zone, CutoffAt(s, now), -1)) == FirstDay(s, now) - 1
  {
    hide AddDate, AddDays, FromDayNumber, LocalDay, Midnight, At, Reading;
    var (z, today, first, late) := (s.zone, LocalDay(s.zone, now), FirstDay(s, now), Late(s, now));
    StartReads(z, today);
    AddDateFromStart(z, today, -(s.realtimeDays - 1));
    assert today + -(s.realtimeDays - 1) == first;
    assert (first - 1) * DAY + late == first * DAY + late - DAY;
    AddDateFromReading(z, first, late, -1);
    AddDateFromReading(z, first - 1, late, 0);
    LateMidnight(z, first, late);
  }

  lemma LateMidnight(z: Zone, n: int, late: int)
    requires HasMidnight(z, n) && Shown(z, n * DAY + late)
    requires z.offsetAt(At(z, n * DAY + late)) == OffsetOn(z, n)
    ensures At(z, n * DAY + late) == Midnight(z, n) + late
  {
    hide At;
  }

  /** The plan of any range in order, with or without a midnight today.  Without one, the first
      day of the window alone goes to history, and a longer range from that day on gets a
      history segment that ends before it starts. */
  lemma PlanWithoutMidnight(s: Routing, now: int, r: DateRange)
    requires RunsEvenly(s, now) && r.start <= r.end
    requires EndMeets(s, now, r.start) && EndMeets(s, now, r.end)
    ensures var (c, m) := (FirstDay(s, now), HasMidnight(s.zone, LocalDay(s.zone, now)));
            Plan(s, now, Auto, r) == Success(
              if r.end < c || (r.end == c && !m) then [Segment(s.historical, r)]
              else if r.start > c || (r.start == c && m) then [Segment(StarRocks, r)]
              else [Segment(s.historical, DateRange(r.start, c - 1)), Segment(StarRocks, DateRange(c, r.end))])
  {
    hide AddDate, LocalDay, Midnight, At, Reading, CutoffAt, Cutoff, FirstDay, Late, RunsEvenly;
    hide HasMidnight, Comparable;
    CutoffIsLate(s, now);
    CutoffNamesDay(s, now);
    MidnightsOrder(s.zone, r.start, FirstDay(s, now));
    MidnightsOrder(s.zone, r.end, FirstDay(s, now));
  }

  /** So a planned segment ends before it starts exactly when today has no midnight and a range
      of two or more days starts on the window's first day. */
  lemma InvertedSegmentExactly(s: Routing, now: int, r: DateRange)
    requires RunsEvenly(s, now) && r.start <= r.end
    requires EndMeets(s, now, r.start) && EndMeets(s, now, r.end)
    ensures Plan(s, now, Auto, r).Success?
    ensures (exists seg :: seg in Plan(s, now, Auto, r).value && seg.range.start > seg.range.end)
       <==> !HasMidnight(s.zone, LocalDay(s.zone, now)) && r.start == FirstDay(s, now) < r.end
  {
    PlanWithoutMidnight(s, now, r);
    hide Plan, HasMidnight, LocalDay, FirstDay, RunsEvenly, EndMeets;
    var c := FirstDay(s, now);
    if !HasMidnight(s.zone, LocalDay(s.zone, now)) && r.start == c < r.end {
      assert Plan(s, now, Auto, r).value[0] in Plan(s, now, Auto, r).value;
    }
  }

  /** On a day whose midnight is skipped, with a window of two days: yesterday alone goes to
      history; from yesterday to tomorrow StarRocks answers everything, after a history segment
      of no day. */
  lemma WindowWithoutMidnight()
    ensures var s := Routing(Hive, 2, SPRING_FORWARD);
            && LocalDay(s.zone, 0) == 0 && !HasMidnight(s.zone, 0) && Window(s, 0) == DateRange(-1, 0)
            && Plan(s, 0, Auto, DateRange(-1, -1)) == Success([Segment(Hive, DateRange(-1, -1))])
            && Plan(s, 0, Auto, DateRange(-1, 1))
               == Success([Segment(Hive, DateRange(-1, -2)), Segment(StarRocks, DateRange(-1, 1))])
  {
    hide AddDate, AddDays, FromDayNumber;
    var s := Routing(Hive, 2, SPRING_FORWARD);
    OtherMidnights(-1);
    OtherMidnights(1);
    SkippedMidnight();
    assert LocalDay(s.zone, 0) == 0 && FirstDay(s, 0) == -1 && Late(s, 0) == 3600;
    assert RunsEvenly(s, 0);
    CutoffIsLate(s, 0);
    hide Plan;
    PlanWithoutMidnight(s, 0, DateRange(-1, -1));
    PlanWithoutMidnight(s, 0, DateRange(-1, 1));
  }
}
