/** The day loop of the memory repository, over instants, in any zone in which it ends. */
module DayLoop {
  import opened Wrappers
  import opened Calendar
  import opened Zones
  import opened Errors
  import opened Domain

  // ----- Where the loop stands -----

  /** The loop's instant after k steps: the start of the first day, moved on by `AddDate`. */
  function Instant(z: Zone, start: int, k: nat): int {
    if k == 0 then Midnight(z, start) else AddDate(z, Instant(z, start, k - 1), 1)
  }

  /** The first n instants are not after the start of the last day, and the next one is. */
  ghost predicate StopsAfter(z: Zone, r: DateRange, n: nat) {
    && (forall k: nat :: k < n ==> Instant(z, r.start, k) <= Midnight(z, r.end))
    && Instant(z, r.start, n) > Midnight(z, r.end)
  }

  ghost predicate Ends(z: Zone, r: DateRange) {
    exists n: nat :: StopsAfter(z, r, n)
  }

  lemma StopsOnce(z: Zone, r: DateRange, m: nat, n: nat)
    requires StopsAfter(z, r, m) && StopsAfter(z, r, n)
    ensures m == n
  {
    hide Instant, Midnight;
  }

  /** The instants the loop visits in n steps, and the days they show. */
  function Visited(z: Zone, r: DateRange, n: nat): (instants: seq<int>)
    ensures |instants| == n
    ensures forall k :: 0 <= k < n ==> instants[k] == Instant(z, r.start, k)
  {
    seq(n, k requires 0 <= k < n => Instant(z, r.start, k))
  }

  function DaysShown(z: Zone, instants: seq<int>): (days: seq<int>)
    ensures |days| == |instants|
    ensures forall k :: 0 <= k < |days| ==> days[k] == LocalDay(z, instants[k])
  {
    seq(|instants|, k requires 0 <= k < |instants| => LocalDay(z, instants[k]))
  }

  /** The days the loop meets in n steps. */
  function DaysMet(z: Zone, r: DateRange, n: nat): (days: seq<int>)
    ensures |days| == n
    ensures forall k :: 0 <= k < n ==> days[k] == LocalDay(z, Instant(z, r.start, k))
  {
    DaysShown(z, Visited(z, r, n))
  }

  /** Offsets that are all less than a day apart. */
  ghost predicate Narrow(z: Zone) {
    forall s, t :: z.offsetAt(t) - z.offsetAt(s) < DAY
  }

  lemma AddDateAdvances(z: Zone, t: int)
    requires Narrow(z)
    ensures AddDate(z, t, 1) > t
  {
    AddDateReads(z, t, 1);
    hide AddDate;
    assert (LocalDay(z, t) + 1) * DAY + Wall(z, t) % DAY == Wall(z, t) + DAY;
  }

  /** With such offsets the loop ends, whatever the clocks do. */
  lemma NarrowEnds(z: Zone, r: DateRange)
    requires Narrow(z)
    ensures Ends(z, r)
  {
    var n := EndFrom(z, r, 0);
  }

  lemma {:induction false} EndFrom(z: Zone, r: DateRange, k: nat) returns (n: nat)
    requires Narrow(z)
    requires forall j: nat :: j < k ==> Instant(z, r.start, j) <= Midnight(z, r.end)
    ensures StopsAfter(z, r, n)
    decreases Midnight(z, r.end) - Instant(z, r.start, k)
  {
    hide AddDate, Midnight, Narrow;
    if Instant(z, r.start, k) > Midnight(z, r.end) {
      n := k;
    } else {
      AddDateAdvances(z, Instant(z, r.start, k));
      assert Instant(z, r.start, k + 1) == AddDate(z, Instant(z, r.start, k), 1);
      hide Instant;
      n := EndFrom(z, r, k + 1);
    }
  }

  // ----- The loop -----

  /** A callback that carries what it has accumulated, run on instants in order until it fails. */
  function Through<S>(fn: (S, int) -> Result<S, Error>, init: S, starts: seq<int>): Result<S, Error> {
    if starts == [] then Success(init)
    else
      match Through(fn, init, starts[..|starts| - 1])
      case Failure(e) => Failure(e)
      case Success(state) => fn(state, starts[|starts| - 1])
  }

  /** After a failure the remaining days do not matter. */
  lemma {:induction false} ThroughFails<S>(fn: (S, int) -> Result<S, Error>, init: S, starts: seq<int>, k: nat)
    requires k <= |starts| && Through(fn, init, starts[..k]).Failure?
    ensures Through(fn, init, starts) == Through(fn, init, starts[..k])
    decreases |starts|
  {
    if k == |starts| {
      assert starts[..k] == starts;
    } else {
      assert starts[..|starts| - 1][..k] == starts[..k];
      ThroughFails(fn, init, starts[..|starts| - 1], k);
    }
  }

  lemma OneMore<S>(fn: (S, int) -> Result<S, Error>, init: S, starts: seq<int>, n: nat)
    requires n < |starts| && Through(fn, init, starts[..n]).Success?
    ensures Through(fn, init, starts[..n + 1]) == fn(Through(fn, init, starts[..n]).value, starts[n])
  {
    assert starts[..n + 1][..n] == starts[..n];
  }

  /** A walk fails exactly at its first failing day, with that day's error, having got through
      all days before; otherwise it got through them all. */
  lemma StopsAtFirstFailure<S>(fn: (S, int) -> Result<S, Error>, init: S, starts: seq<int>)
    ensures Through(fn, init, starts).Failure? <==>
            exists k :: 0 <= k < |starts| && FailsAt(fn, init, starts, k)
    ensures forall k :: 0 <= k < |starts| && FailsAt(fn, init, starts, k) ==>
              Through(fn, init, starts) == fn(Through(fn, init, starts[..k]).value, starts[k])
  {
    forall k: nat | k < |starts| && FailsAt(fn, init, starts, k)
      ensures Through(fn, init, starts) == fn(Through(fn, init, starts[..k]).value, starts[k])
    {
      OneMore(fn, init, starts, k);
      ThroughFails(fn, init, starts, k + 1);
    }
    if Through(fn, init, starts).Failure? {
      var k := FailingDay(fn, init, starts);
    }
  }

  /** Everything before day k went through, and day k fails. */
  predicate FailsAt<S>(fn: (S, int) -> Result<S, Error>, init: S, starts: seq<int>, k: int)
    requires 0 <= k < |starts|
  {
    Through(fn, init, starts[..k]).Success? && fn(Through(fn, init, starts[..k]).value, starts[k]).Failure?
  }

  lemma {:induction false} FailingDay<S>(fn: (S, int) -> Result<S, Error>, init: S, starts: seq<int>)
    returns (k: nat)
    requires Through(fn, init, starts).Failure?
    ensures k < |starts| && FailsAt(fn, init, starts, k)
    decreases |starts|
  {
    var before := starts[..|starts| - 1];
    if Through(fn, init, before).Failure? {
      k := FailingDay(fn, init, before);
      assert before[..k] == starts[..k];
    } else {
      k := |starts| - 1;
    }
  }

  /** Calls fn at each instant the loop visits, in order, until one call fails. */
  method EachDay<S>(z: Zone, r: DateRange, fn: (S, int) -> Result<S, Error>, init: S)
    returns (result: Result<S, Error>)
    requires Ends(z, r)
    ensures exists n: nat :: StopsAfter(z, r, n) && result == Through(fn, init, Visited(z, r, n))
  {
    hide Midnight, AddDate;
    var state := init;
    var d := Midnight(z, r.start);
    ghost var n: nat :| StopsAfter(z, r, n);
    ghost var (visited, k) := (Visited(z, r, n), 0);
    while d <= Midnight(z, r.end)
      invariant 0 <= k <= n
      invariant d == Instant(z, r.start, k)
      invariant Through(fn, init, visited[..k]) == Success(state)
      decreases n - k
    {
      assert k < n;
      OneMore(fn, init, visited, k);
      var next := fn(state, d);
      if next.Failure? {
        ThroughFails(fn, init, visited, k + 1);
        return next;
      }
      state := next.value;
      d := AddDate(z, d, 1);
      k := k + 1;
    }
    assert k == n && visited[..n] == visited;
    result := Success(state);
  }

  // ----- Where every midnight is there -----

  /** The days of a range as calendar dates. */
  function Dates(r: DateRange): (dates: seq<Date>)
    ensures |dates| == |DaysOf(r)|
  {
    seq<Date>(|DaysOf(r)|, i => FromDayNumber(r.start + i))
  }

  /** Each visited date is the calendar successor of the one before, and has the next number. */
  lemma DatesAreConsecutive(r: Domain.DateRange, i: nat)
    requires i < |Dates(r)|
    ensures DayNumber(Dates(r)[i]) == r.start + i
    ensures i + 1 < |Dates(r)| ==> Dates(r)[i + 1] == NextDay(Dates(r)[i])
  {
    hide DayNumber, FromDayNumber;
    assert Dates(r)[i] == FromDayNumber(r.start + i);
    assert i + 1 < |Dates(r)| ==> Dates(r)[i + 1] == FromDayNumber(r.start + i + 1);
    SuccessorIsNextDay(Dates(r)[i]);
  }

  /** Every day of the range has a midnight, comparable with the last day's, and the day after
      the last starts later than the last. */
  ghost predicate Walkable(z: Zone, r: DateRange) {
    && Comparable(z, r.start, r.end)
    && (forall d :: r.Contains(d) ==> Comparable(z, d, r.end))
    && Midnight(z, r.end) < Midnight(z, r.end + 1)
  }

  lemma FixedOffsetWalkable(z: Zone, r: DateRange)
    requires FixedOffset(z)
    ensures Walkable(z, r)
  {
    FixedOffsetComparable(z, r.start, r.end);
    FixedOffsetComparable(z, r.end, r.end + 1);
    hide Midnight, FixedOffset;
    forall d | r.Contains(d)
      ensures Comparable(z, d, r.end)
    {
      FixedOffsetComparable(z, d, r.end);
    }
  }

  lemma SteadyWalkable(z: Zone, r: DateRange, since: int)
    requires SteadySince(z, since) && r.start <= r.end && WellAfter(r.start, since)
    ensures Walkable(z, r)
  {
    SteadyComparable(z, since, r.start, r.end);
    SteadyComparable(z, since, r.end, r.end + 1);
    hide Midnight, SteadySince;
    forall d | r.Contains(d)
      ensures Comparable(z, d, r.end)
    {
      SteadyComparable(z, since, d, r.end);
    }
  }

  /** As long as midnights are there the loop stands on them. */
  lemma {:induction false} InstantOnMidnight(z: Zone, start: int, k: nat)
    requires forall d :: start <= d < start + k ==> HasMidnight(z, d)
    ensures Instant(z, start, k) == Midnight(z, start + k)
  {
    hide Midnight, AddDate, HasMidnight;
    if k > 0 {
      InstantOnMidnight(z, start, k - 1);
      AddDateFromMidnight(z, start + k - 1, 1);
    }
  }

  /** The loop over a walkable range meets its days, each once, in order. */
  lemma WalkMeetsRange(z: Zone, r: DateRange)
    requires Walkable(z, r)
    ensures StopsAfter(z, r, |DaysOf(r)|) && DaysMet(z, r, |DaysOf(r)|) == DaysOf(r)
  {
    hide Midnight, LocalDay, OffsetOn, Instant;
    var n := |DaysOf(r)|;
    forall d | r.Contains(d)
      ensures HasMidnight(z, d) && Midnight(z, d) <= Midnight(z, r.end) && LocalDay(z, Midnight(z, d)) == d
    {
      assert Comparable(z, d, r.end);
      MidnightsOrder(z, d, r.end);
      MidnightShowsItsDay(z, d, 0);
    }
    MidnightsOrder(z, r.start, r.end);
    hide HasMidnight, Comparable;
    forall k: nat | k <= n
      ensures Instant(z, r.start, k) == Midnight(z, r.start + k)
    {
      InstantOnMidnight(z, r.start, k);
    }
    forall k: nat | k < n
      ensures Instant(z, r.start, k) <= Midnight(z, r.end) && DaysMet(z, r, n)[k] == DaysOf(r)[k]
    {
      assert r.Contains(r.start + k);
    }
  }

  // ----- Where some midnight is missing -----

  /** The reading with which day d starts is shown on day e. */
  predicate KeptOn(z: Zone, d: int, e: int) {
    Shown(z, e * DAY + Reading(z, d))
  }

  /** The instant at which day e shows the reading with which day d starts. */
  function KeptAt(z: Zone, d: int, e: int): int {
    At(z, e * DAY + Reading(z, d))
  }

  /** The range's midnights, where there are any, come no later than the last day's, and the
      day after starts later; and a reading that some day skips to is shown on the later days,
      on the last day after midnight. */
  ghost predicate ClocksRunOn(z: Zone, r: DateRange) {
    && HasMidnight(z, r.end) && Midnight(z, r.end) < Midnight(z, r.end + 1)
    && (forall d :: r.Contains(d) && HasMidnight(z, d) ==> Midnight(z, d) <= Midnight(z, r.end))
    && (forall d, e :: r.start <= d < e <= r.end && StartsOnItself(z, d) && !HasMidnight(z, d) ==> KeptOn(z, d, e))
    && (forall d :: r.start <= d < r.end && StartsOnItself(z, d) && !HasMidnight(z, d) ==>
          KeptAt(z, d, r.end) > Midnight(z, r.end))
  }

  /** Every day before the last has a midnight. */
  ghost predicate NoneSkipped(z: Zone, r: DateRange) {
    forall d :: r.start <= d < r.end ==> HasMidnight(z, d)
  }

  lemma {:induction false} FirstSkipped(z: Zone, r: DateRange, d: int) returns (first: int)
    requires r.start <= d < r.end && !HasMidnight(z, d)
    ensures r.start <= first <= d && !HasMidnight(z, first)
    ensures forall e :: r.start <= e < first ==> HasMidnight(z, e)
    decreases d - r.start
  {
    hide HasMidnight;
    if e :| r.start <= e < d && !HasMidnight(z, e) {
      first := FirstSkipped(z, r, e);
    } else {
      first := d;
    }
  }

  /** After the first skipped midnight the loop keeps that day's reading. */
  lemma {:induction false} InstantKeepsReading(z: Zone, r: DateRange, d: int, e: int)
    requires r.start <= d < e <= r.end && StartsOnItself(z, d)
    requires forall c :: r.start <= c < d ==> HasMidnight(z, c)
    requires forall c :: d < c <= r.end ==> KeptOn(z, d, c)
    ensures Instant(z, r.start, e - r.start) == KeptAt(z, d, e)
    ensures LocalDay(z, KeptAt(z, d, e)) == e
    decreases e - d
  {
    hide Midnight, AddDate, At, LocalDay, HasMidnight;
    assert KeptOn(z, d, e);
    AddDateFromReading(z, e, Reading(z, d), 1);
    if e == d + 1 {
      InstantOnMidnight(z, r.start, d - r.start);
      AddDateFromStart(z, d, 1);
    } else {
      InstantKeepsReading(z, r, d, e - 1);
      assert KeptOn(z, d, e - 1);
      AddDateFromReading(z, e - 1, Reading(z, d), 1);
    }
  }

  /** The loop meets exactly the days of the range if and only if every day before the last
      has a midnight. */
  lemma MeetsRangeExactly(z: Zone, r: DateRange, n: nat)
    requires r.start <= r.end && ClocksRunOn(z, r) && StopsAfter(z, r, n)
    ensures DaysMet(z, r, n) == DaysOf(r) <==> NoneSkipped(z, r)
  {
    if NoneSkipped(z, r) {
      UnskippedMeetsRange(z, r);
      StopsOnce(z, r, n, |DaysOf(r)|);
    } else {
      hide HasMidnight, ClocksRunOn, StopsAfter, DaysMet, DaysOf;
      var skipped :| r.start <= skipped < r.end && !HasMidnight(z, skipped);
      var d := FirstSkipped(z, r, skipped);
      hide NoneSkipped;
      SkippedMissesRange(z, r, n, d);
    }
  }

  /** The first skipped midnight makes the loop show another date there, or run out of days
      before the last. */
  lemma SkippedMissesRange(z: Zone, r: DateRange, n: nat, d: int)
    requires r.start <= d < r.end && ClocksRunOn(z, r) && StopsAfter(z, r, n) && !HasMidnight(z, d)
    requires forall e :: r.start <= e < d ==> HasMidnight(z, e)
    ensures DaysMet(z, r, n) != DaysOf(r)
  {
    hide HasMidnight, Midnight, LocalDay, Instant, StartsOnItself, KeptAt, KeptOn, AddDate;
    var k: nat := d - r.start;
    InstantOnMidnight(z, r.start, k);
    StartReads(z, d);
    if StartsOnItself(z, d) {
      InstantKeepsReading(z, r, d, r.end);
      StopsBefore(z, r, n, r.end - r.start);
    } else if n > k {
      assert DaysMet(z, r, n)[k] != DaysOf(r)[k];
    }
  }

  lemma StopsBefore(z: Zone, r: DateRange, n: nat, k: nat)
    requires StopsAfter(z, r, n) && Instant(z, r.start, k) > Midnight(z, r.end)
    ensures n <= k
  {
    hide Instant, Midnight;
  }

  lemma UnskippedMeetsRange(z: Zone, r: DateRange)
    requires r.start <= r.end && ClocksRunOn(z, r) && NoneSkipped(z, r)
    ensures StopsAfter(z, r, |DaysOf(r)|) && DaysMet(z, r, |DaysOf(r)|) == DaysOf(r)
  {
    hide Midnight, LocalDay, HasMidnight, Instant, StartsOnItself;
    var n := |DaysOf(r)|;
    forall k: nat | k <= n
      ensures Instant(z, r.start, k) == Midnight(z, r.start + k)
    {
      InstantOnMidnight(z, r.start, k);
    }
    forall k: nat | k < n
      ensures Instant(z, r.start, k) <= Midnight(z, r.end) && DaysMet(z, r, n)[k] == DaysOf(r)[k]
    {
      assert r.Contains(r.start + k) && HasMidnight(z, r.start + k);
      MidnightShowsItsDay(z, r.start + k, 0);
    }
  }

  /** Besides, all days start on their own dates and no later than the last, and kept readings
      come no later than the last day's midnight before that day. */
  ghost predicate ClocksKeepStep(z: Zone, r: DateRange) {
    && ClocksRunOn(z, r)
    && (forall d :: r.Contains(d) ==> StartsOnItself(z, d) && Midnight(z, d) <= Midnight(z, r.end))
    && (forall d, e :: r.start <= d < e < r.end && !HasMidnight(z, d) ==> KeptAt(z, d, e) <= Midnight(z, r.end))
  }

  /** Where clocks keep step, the loop that skips a midnight meets every day but the last. */
  lemma OtherwiseLosesLastDay(z: Zone, r: DateRange, n: nat)
    requires r.start <= r.end && ClocksKeepStep(z, r) && StopsAfter(z, r, n) && !NoneSkipped(z, r)
    ensures DaysMet(z, r, n) == DaysOf(DateRange(r.start, r.end - 1))
  {
    hide Midnight, LocalDay, HasMidnight, Instant, StartsOnItself, KeptAt;
    var skipped :| r.start <= skipped < r.end && !HasMidnight(z, skipped);
    var d := FirstSkipped(z, r, skipped);
    var last: nat := r.end - r.start;
    InstantKeepsReading(z, r, d, r.end);
    forall k: nat | k < last
      ensures Instant(z, r.start, k) <= Midnight(z, r.end) && LocalDay(z, Instant(z, r.start, k)) == r.start + k
    {
      if r.start + k <= d {
        InstantOnMidnight(z, r.start, k);
        StartReads(z, r.start + k);
        assert r.Contains(r.start + k);
      } else {
        InstantKeepsReading(z, r, d, r.start + k);
      }
    }
    StopsOnce(z, r, n, last);
  }

  /** East of UTC: over the days -1 to 2 the loop that meets the skipped midnight of day 0
      never meets day 2. */
  lemma SkippedMidnightLosesDay()
    ensures var r := DateRange(-1, 2);
            && HasMidnight(SPRING_FORWARD, r.start) && HasMidnight(SPRING_FORWARD, r.end)
            && StopsAfter(SPRING_FORWARD, r, 3)
            && DaysMet(SPRING_FORWARD, r, 3) == [-1, 0, 1]
  {
    var z := SPRING_FORWARD;
    hide AddDate;
    OtherMidnights(-1);
    OtherMidnights(1);
    OtherMidnights(2);
    InstantOnMidnight(z, -1, 1);
    SkippedMidnight();
    AddDateReads(z, DAY - 28800, 1);
    assert Midnight(z, 0) == -28800;
    assert Instant(z, -1, 0) == -DAY - 28800 && Instant(z, -1, 1) == -28800;
    assert Instant(z, -1, 2) == AddDate(z, Instant(z, -1, 1), 1) == DAY - 28800;
    assert Instant(z, -1, 3) == AddDate(z, Instant(z, -1, 2), 1) == 2 * DAY - 28800;
  }

  lemma SpringForwardReading(n: int)
    requires n > 0
    ensures KeptOn(SPRING_FORWARD, 0, n) && KeptAt(SPRING_FORWARD, 0, n) == Midnight(SPRING_FORWARD, n) + 3600
  {
    assert n * DAY >= DAY && Midnight(SPRING_FORWARD, 0) == -28800;
    assert Reading(SPRING_FORWARD, 0) == 3600;
  }

  /** That zone's clocks keep step, so the loop's loss there is the general one. */
  lemma SpringForwardKeepsStep()
    ensures ClocksKeepStep(SPRING_FORWARD, DateRange(-1, 2)) && !NoneSkipped(SPRING_FORWARD, DateRange(-1, 2))
  {
    var z := SPRING_FORWARD;
    hide AddDate, LocalDay;
    OtherMidnights(-1);
    OtherMidnights(1);
    OtherMidnights(2);
    OtherMidnights(3);
    SpringForwardReading(1);
    SpringForwardReading(2);
    assert Midnight(z, 0) == -28800 && Reading(z, 0) == 3600 && !HasMidnight(z, 0);
    forall n: int | n != 0
      ensures HasMidnight(z, n) && Reading(z, n) == 0
    {
      OtherMidnights(n);
      StartReads(z, n);
    }
    hide HasMidnight, Midnight, Reading, KeptOn, KeptAt;
  }

  /** West of UTC: over the days -1 to 1 it meets day -1 twice and never day 1. */
  lemma SkippedMidnightRepeatsDay()
    ensures var r := DateRange(-1, 1);
            && HasMidnight(SPRING_FORWARD_WEST, r.start) && HasMidnight(SPRING_FORWARD_WEST, r.end)
            && StopsAfter(SPRING_FORWARD_WEST, r, 3)
            && DaysMet(SPRING_FORWARD_WEST, r, 3) == [-1, -1, 0]
  {
    var z := SPRING_FORWARD_WEST;
    hide AddDate;
    AddDateReads(z, -75600, 1);
    AddDateReads(z, 7200, 1);
    AddDateReads(z, 90000, 1);
    assert Midnight(z, -1) == -75600 && Midnight(z, 1) == 93600;
    assert Instant(z, -1, 0) == -75600;
    assert Instant(z, -1, 1) == AddDate(z, Instant(z, -1, 0), 1) == 7200;
    assert Instant(z, -1, 2) == AddDate(z, Instant(z, -1, 1), 1) == 90000;
    assert Instant(z, -1, 3) == AddDate(z, Instant(z, -1, 2), 1) == 176400;
  }
}
