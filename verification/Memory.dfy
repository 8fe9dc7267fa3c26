/** The in-memory repository: deterministic daily figures, summed day by day. */
module Memory {
  import opened Wrappers
  import opened Calendar
  import opened Zones
  import opened Errors
  import opened Merge
  import opened DayLoop
  import Domain

  // ----- The number of a day -----

  const UTC := Zone((t: int) => 0)

  /** The day number of the wall-clock date at instant t: the Unix time of that date's
      midnight in UTC, divided with truncation. */
  function DayNumberUTC(z: Zone, t: int): int {
    Domain.TruncDiv(Midnight(UTC, LocalDay(z, t)), DAY)
  }

  /** At local midnight of day n the number is n, before 1970 too: the division is exact. */
  lemma DayNumberOfMidnight(z: Zone, n: int)
    requires HasMidnight(z, n)
    ensures DayNumberUTC(z, Midnight(z, n)) == n
  {
    MidnightShowsItsDay(z, n, Midnight(z, n));
    assert Midnight(UTC, n) == n * DAY;
  }

  /** The number is always that of the date shown: dividing a midnight of UTC is exact. */
  lemma DayNumberIsDayShown(z: Zone, t: int)
    ensures DayNumberUTC(z, t) == LocalDay(z, t)
  {
    hide LocalDay;
    assert Midnight(UTC, LocalDay(z, t)) == LocalDay(z, t) * DAY;
  }

  // ----- The daily formulas -----

  const TWO64 := 0x1_0000_0000_0000_0000

  /** The organisation's salt, some fixed uint64. */
  type Seed = s: int | 0 <= s < TWO64

  /** (uint64(dn) + seed) % 41, in wrapping arithmetic. */
  function Offset(dn: int, seed: Seed): (o: int)
    ensures 0 <= o < 41
  {
    ((dn % TWO64 + seed) % TWO64) % 41
  }

  function PriceCents(seed: Seed): (p: int)
    ensures 129900 <= p <= 199899
  {
    129900 + seed % 70000
  }

  /** Prices go through 1299.00 to 1998.99 cent by cent as seeds grow, and start again every
      70000 seeds. */
  lemma PricesCycle(seed: Seed)
    ensures seed == 0 ==> PriceCents(seed) == 129900
    ensures seed + 1 < TWO64 ==>
              PriceCents(seed + 1) == if PriceCents(seed) == 199899 then 129900 else PriceCents(seed) + 1
  {
    var r := seed % 70000;
    assert (seed + 1) % 70000 == if r == 69999 then 0 else r + 1;
  }

  /** The share of the previous stage that reaches stage k, in percent. */
  function Rate(k: int): int
    requires 1 <= k < STAGES
  {
    match k case 1 => 72 case 2 => 64 case 3 => 46 case 4 => 78 case _ => 74
  }

  /** The count of stage k on a day whose leads are given, rounding down at every stage. */
  function StageOf(leads: nat, k: int): (n: nat)
    requires 0 <= k < STAGES
    decreases k
  {
    if k == 0 then leads else StageOf(leads, k - 1) * Rate(k) / 100
  }

  function OrdersOn(seed: Seed): int -> int {
    d => 60 + Offset(d, seed)
  }

  function CentsOn(seed: Seed): int -> int {
    d => (60 + Offset(d, seed)) * PriceCents(seed)
  }

  function StageOn(seed: Seed, k: int): int -> int
    requires 0 <= k < STAGES
  {
    d => StageOf(35 + Offset(d, seed), k)
  }

  // ----- Sums over days -----

  /** The exact sum of f over the days lo..hi. */
  function SumDays(lo: int, hi: int, f: int -> int): int
    decreases hi - lo
  {
    if hi < lo then 0 else SumDays(lo, hi - 1, f) + f(hi)
  }

  /** A sum over a range is the sum over its pieces. */
  lemma {:induction false} SumDaysSplit(lo: int, mid: int, hi: int, f: int -> int)
    requires lo <= mid + 1 && mid <= hi
    ensures SumDays(lo, hi, f) == SumDays(lo, mid, f) + SumDays(mid + 1, hi, f)
    decreases hi - mid
  {
    if mid < hi {
      SumDaysSplit(lo, mid, hi - 1, f);
    }
  }

  lemma {:induction false} SumDaysBounds(lo: int, hi: int, f: int -> int, least: int, most: int)
    requires lo <= hi + 1
    requires forall d :: least <= f(d) <= most
    ensures least * (hi - lo + 1) <= SumDays(lo, hi, f) <= most * (hi - lo + 1)
    decreases hi - lo
  {
    if lo <= hi {
      SumDaysBounds(lo, hi - 1, f, least, most);
      assert least * (hi - lo + 1) == least * (hi - 1 - lo + 1) + least;
      assert most * (hi - lo + 1) == most * (hi - 1 - lo + 1) + most;
    }
  }

  lemma {:induction false} SumDaysMonotone(lo: int, hi: int, f: int -> int, g: int -> int)
    requires forall d :: f(d) <= g(d)
    ensures SumDays(lo, hi, f) <= SumDays(lo, hi, g)
    decreases hi - lo
  {
    if lo <= hi {
      SumDaysMonotone(lo, hi - 1, f, g);
    }
  }

  /** sum(a * f + b) == a * sum(f) + b * days. */
  lemma {:induction false} SumDaysLinear(lo: int, hi: int, f: int -> int, g: int -> int, a: int, b: int)
    requires lo <= hi + 1
    requires forall d :: g(d) == a * f(d) + b
    ensures SumDays(lo, hi, g) == a * SumDays(lo, hi, f) + b * (hi - lo + 1)
    decreases hi - lo
  {
    if lo <= hi {
      SumDaysLinear(lo, hi - 1, f, g, a, b);
      assert a * SumDays(lo, hi, f) == a * SumDays(lo, hi - 1, f) + a * f(hi);
      assert b * (hi - lo + 1) == b * (hi - 1 - lo + 1) + b;
    }
  }

  // ----- The two aggregations -----

  /** int64 arithmetic wraps silently. */
  function Wrap(n: int): (w: int64)
    ensures Fits(n) ==> w as int == n
  {
    ((n + TWO64 / 2) % TWO64 - TWO64 / 2) as int64
  }

  lemma WrapAdd(a: int, b: int)
    ensures Wrap(Wrap(a) as int + b) == Wrap(a + b)
  {
  }

  /** The first error the context shows on the days lo..hi, checked before each day. */
  function FirstError(ctx: int -> Option<Error>, lo: int, hi: int): Option<Error>
    decreases hi - lo
  {
    if hi < lo then None
    else match FirstError(ctx, lo, hi - 1) case Some(e) => Some(e) case None => ctx(hi)
  }

  function RetailOver(seed: Seed, r: Domain.DateRange): RetailSummary {
    RetailSummary(Wrap(SumDays(r.start, r.end, OrdersOn(seed))), SumDays(r.start, r.end, CentsOn(seed)))
  }

  function StageOver(seed: Seed, r: Domain.DateRange, k: int): int
    requires 0 <= k < STAGES
  {
    SumDays(r.start, r.end, StageOn(seed, k))
  }

  function FunnelOver(seed: Seed, r: Domain.DateRange): RenovationFunnel {
    RenovationFunnel(Wrap(StageOver(seed, r, 0)), Wrap(StageOver(seed, r, 1)), Wrap(StageOver(seed, r, 2)),
                     Wrap(StageOver(seed, r, 3)), Wrap(StageOver(seed, r, 4)), Wrap(StageOver(seed, r, 5)))
  }

  /** One day of the retail aggregation: the context is asked first; ctx(d) is what its Err()
      then gives on day d. */
  function RetailStep(z: Zone, seed: Seed, ctx: int -> Option<Error>)
    : (RetailSummary, int) -> Result<RetailSummary, Error>
  {
    (total: RetailSummary, t: int) =>
      match ctx(LocalDay(z, t))
      case Some(e) => Failure(e)
      case None =>
        var orders := 60 + Offset(DayNumberUTC(z, t), seed);
        var salesCents := orders * PriceCents(seed);
        Success(RetailSummary(Wrap(total.orders as int + orders), total.cents + salesCents))
  }

  /** One day of the funnel: six unchecked additions. */
  function FunnelStep(z: Zone, seed: Seed, ctx: int -> Option<Error>)
    : (RenovationFunnel, int) -> Result<RenovationFunnel, Error>
  {
    (total: RenovationFunnel, t: int) =>
      match ctx(LocalDay(z, t))
      case Some(e) => Failure(e)
      case None =>
        var leads := 35 + Offset(DayNumberUTC(z, t), seed);
        var invited := leads * 72 / 100;
        var measured := invited * 64 / 100;
        var signed := measured * 46 / 100;
        var started := signed * 78 / 100;
        var completed := started * 74 / 100;
        Success(RenovationFunnel(
          Wrap(total.lead as int + leads), Wrap(total.invited as int + invited),
          Wrap(total.measured as int + measured), Wrap(total.signed as int + signed),
          Wrap(total.started as int + started), Wrap(total.completed as int + completed)))
  }

  /** What a query over a range gives by the daily formula: the first context error on its days,
      or the sums. */
  function RetailResult(seed: Seed, r: Domain.DateRange, ctx: int -> Option<Error>): Result<RetailSummary, Error> {
    match FirstError(ctx, r.start, r.end)
    case Some(e) => Failure(e)
    case None => Success(RetailOver(seed, r))
  }

  function FunnelResult(seed: Seed, r: Domain.DateRange, ctx: int -> Option<Error>): Result<RenovationFunnel, Error> {
    match FirstError(ctx, r.start, r.end)
    case Some(e) => Failure(e)
    case None => Success(FunnelOver(seed, r))
  }

  // ----- What the loops give, in any zone -----

  /** The sum of f over the days met, each as often as it was met. */
  function SumOver(days: seq<int>, f: int -> int): int {
    if days == [] then 0 else SumOver(days[..|days| - 1], f) + f(days[|days| - 1])
  }

  function FirstErrorOver(ctx: int -> Option<Error>, days: seq<int>): Option<Error> {
    if days == [] then None
    else
      match FirstErrorOver(ctx, days[..|days| - 1])
      case Some(e) => Some(e)
      case None => ctx(days[|days| - 1])
  }

  /** The first error is one the context really showed. */
  lemma {:induction false} FirstErrorIsShown(ctx: int -> Option<Error>, days: seq<int>) returns (d: int)
    requires FirstErrorOver(ctx, days).Some?
    ensures d in days && ctx(d) == FirstErrorOver(ctx, days)
    decreases |days|
  {
    var before := days[..|days| - 1];
    if FirstErrorOver(ctx, before).Some? {
      d := FirstErrorIsShown(ctx, before);
    } else {
      d := days[|days| - 1];
    }
  }

  /** The sums over the days met, or the first error shown on them. */
  function RetailMet(seed: Seed, days: seq<int>, ctx: int -> Option<Error>): Result<RetailSummary, Error> {
    match FirstErrorOver(ctx, days)
    case Some(e) => Failure(e)
    case None => Success(RetailSummary(Wrap(SumOver(days, OrdersOn(seed))), SumOver(days, CentsOn(seed))))
  }

  function StageMet(seed: Seed, days: seq<int>, k: int): int64
    requires 0 <= k < STAGES
  {
    Wrap(SumOver(days, StageOn(seed, k)))
  }

  function FunnelMet(seed: Seed, days: seq<int>, ctx: int -> Option<Error>): Result<RenovationFunnel, Error> {
    match FirstErrorOver(ctx, days)
    case Some(e) => Failure(e)
    case None =>
      Success(RenovationFunnel(StageMet(seed, days, 0), StageMet(seed, days, 1), StageMet(seed, days, 2),
                               StageMet(seed, days, 3), StageMet(seed, days, 4), StageMet(seed, days, 5)))
  }

  /** out is what the retail loop over r gives, in whatever zone, while the context shows ctx. */
  ghost predicate GivesRetail(z: Zone, seed: Seed, r: Domain.DateRange, ctx: int -> Option<Error>,
                              out: Result<RetailSummary, Error>)
  {
    exists n: nat :: StopsAfter(z, r, n) && out == RetailMet(seed, DaysMet(z, r, n), ctx)
  }

  ghost predicate GivesFunnel(z: Zone, seed: Seed, r: Domain.DateRange, ctx: int -> Option<Error>,
                              out: Result<RenovationFunnel, Error>)
  {
    exists n: nat :: StopsAfter(z, r, n) && out == FunnelMet(seed, DaysMet(z, r, n), ctx)
  }

  /** In any zone in which its loop ends, the query gives the sums over the days the loop meets,
      or the first context error; over a walkable range these are the range's own. */
  method Retail(z: Zone, seed: Seed, r: Domain.DateRange, ctx: int -> Option<Error>)
    returns (result: Result<RetailSummary, Error>)
    requires Ends(z, r)
    ensures GivesRetail(z, seed, r, ctx, result)
    ensures Walkable(z, r) ==> result == RetailResult(seed, r, ctx)
  {
    hide Walkable, RetailStep, RetailMet, StopsAfter, RetailResult, LocalDay;
    result := EachDay(z, r, RetailStep(z, seed, ctx), RetailSummary(0, 0));
    ghost var n: nat :|
      StopsAfter(z, r, n) && result == Through(RetailStep(z, seed, ctx), RetailSummary(0, 0), Visited(z, r, n));
    RetailThrough(z, seed, ctx, Visited(z, r, n));
    if Walkable(z, r) {
      RetailGiven(z, seed, r, ctx, result);
    }
  }

  method Renovation(z: Zone, seed: Seed, r: Domain.DateRange, ctx: int -> Option<Error>)
    returns (result: Result<RenovationFunnel, Error>)
    requires Ends(z, r)
    ensures GivesFunnel(z, seed, r, ctx, result)
    ensures Walkable(z, r) ==> result == FunnelResult(seed, r, ctx)
  {
    hide Walkable, FunnelStep, FunnelMet, StopsAfter, FunnelResult, LocalDay;
    result := EachDay(z, r, FunnelStep(z, seed, ctx), NO_COUNTS);
    ghost var n: nat :|
      StopsAfter(z, r, n) && result == Through(FunnelStep(z, seed, ctx), NO_COUNTS, Visited(z, r, n));
    FunnelThrough(z, seed, ctx, Visited(z, r, n));
    if Walkable(z, r) {
      FunnelGiven(z, seed, r, ctx, result);
    }
  }

  const NO_COUNTS := RenovationFunnel(0, 0, 0, 0, 0, 0)

  /** One call back extends the sums by its day. */
  lemma RetailDay(z: Zone, seed: Seed, ctx: int -> Option<Error>, days: seq<int>, t: int)
    requires RetailMet(seed, days, ctx).Success?
    ensures RetailStep(z, seed, ctx)(RetailMet(seed, days, ctx).value, t)
         == RetailMet(seed, days + [LocalDay(z, t)], ctx)
  {
    hide Wrap, Offset, PriceCents, LocalDay, DayNumberUTC;
    var d := LocalDay(z, t);
    DayNumberIsDayShown(z, t);
    assert (days + [d])[..|days|] == days;
    WrapAdd(SumOver(days, OrdersOn(seed)), 60 + Offset(d, seed));
  }

  lemma {:induction false} RetailThrough(z: Zone, seed: Seed, ctx: int -> Option<Error>, instants: seq<int>)
    ensures Through(RetailStep(z, seed, ctx), RetailSummary(0, 0), instants)
         == RetailMet(seed, DaysShown(z, instants), ctx)
    decreases |instants|
  {
    hide RetailStep, LocalDay, Wrap, OrdersOn, CentsOn;
    if instants != [] {
      var (before, t) := (instants[..|instants| - 1], instants[|instants| - 1]);
      RetailThrough(z, seed, ctx, before);
      var days := DaysShown(z, before);
      assert DaysShown(z, instants) == days + [LocalDay(z, t)];
      assert (days + [LocalDay(z, t)])[..|days|] == days;
      if RetailMet(seed, days, ctx).Success? {
        RetailDay(z, seed, ctx, days, t);
      }
    }
  }

  /** A day's six additions extend the six sums by that day. */
  lemma FunnelDay(z: Zone, seed: Seed, ctx: int -> Option<Error>, days: seq<int>, t: int)
    requires FunnelMet(seed, days, ctx).Success?
    ensures FunnelStep(z, seed, ctx)(FunnelMet(seed, days, ctx).value, t)
         == FunnelMet(seed, days + [LocalDay(z, t)], ctx)
  {
    hide StageOf, Offset, Wrap, LocalDay, DayNumberUTC, StageMet;
    var d := LocalDay(z, t);
    DayNumberIsDayShown(z, t);
    assert (days + [d])[..|days|] == days;
    StageOfSteps(35 + Offset(d, seed));
    StageDay(seed, days, d, 0);
    StageDay(seed, days, d, 1);
    StageDay(seed, days, d, 2);
    StageDay(seed, days, d, 3);
    StageDay(seed, days, d, 4);
    StageDay(seed, days, d, 5);
  }

  /** One more day adds its own count to a stage's sum, wrapped or not. */
  lemma StageDay(seed: Seed, days: seq<int>, d: int, k: int)
    requires 0 <= k < STAGES
    ensures StageMet(seed, days + [d], k)
         == Wrap(StageMet(seed, days, k) as int + StageOf(35 + Offset(d, seed), k))
  {
    hide StageOf, Offset, Wrap;
    assert (days + [d])[..|days|] == days;
    WrapAdd(SumOver(days, StageOn(seed, k)), StageOf(35 + Offset(d, seed), k));
  }

  lemma {:induction false} FunnelThrough(z: Zone, seed: Seed, ctx: int -> Option<Error>, instants: seq<int>)
    ensures Through(FunnelStep(z, seed, ctx), NO_COUNTS, instants)
         == FunnelMet(seed, DaysShown(z, instants), ctx)
    decreases |instants|
  {
    hide FunnelStep, LocalDay, StageMet;
    if instants == [] {
      NothingMetNothingCounted(seed);
    } else {
      var (before, t) := (instants[..|instants| - 1], instants[|instants| - 1]);
      FunnelThrough(z, seed, ctx, before);
      var days := DaysShown(z, before);
      assert DaysShown(z, instants) == days + [LocalDay(z, t)];
      assert (days + [LocalDay(z, t)])[..|days|] == days;
      if FunnelMet(seed, days, ctx).Success? {
        FunnelDay(z, seed, ctx, days, t);
      }
    }
  }

  lemma NothingMetNothingCounted(seed: Seed)
    ensures forall k :: 0 <= k < STAGES ==> StageMet(seed, [], k) == 0
  {
  }

  // ----- What the loops give over a walkable range -----

  lemma {:induction false} OverDaysOfRange(r: Domain.DateRange, f: int -> int, ctx: int -> Option<Error>)
    ensures SumOver(Domain.DaysOf(r), f) == SumDays(r.start, r.end, f)
    ensures FirstErrorOver(ctx, Domain.DaysOf(r)) == FirstError(ctx, r.start, r.end)
    decreases r.end - r.start
  {
    if r.start <= r.end {
      var before := Domain.DateRange(r.start, r.end - 1);
      OverDaysOfRange(before, f, ctx);
      var days := Domain.DaysOf(r);
      assert days[..|days| - 1] == Domain.DaysOf(before);
    }
  }

  lemma RetailGiven(z: Zone, seed: Seed, r: Domain.DateRange, ctx: int -> Option<Error>,
                    out: Result<RetailSummary, Error>)
    requires Walkable(z, r)
    ensures GivesRetail(z, seed, r, ctx, out) <==> out == RetailResult(seed, r, ctx)
  {
    hide Walkable, StopsAfter, SumOver, SumDays, FirstErrorOver, FirstError, Wrap, OrdersOn, CentsOn;
    WalkMeetsRange(z, r);
    OverDaysOfRange(r, OrdersOn(seed), ctx);
    OverDaysOfRange(r, CentsOn(seed), ctx);
    forall n: nat | StopsAfter(z, r, n)
      ensures n == |Domain.DaysOf(r)|
    {
      StopsOnce(z, r, n, |Domain.DaysOf(r)|);
    }
  }

  lemma FunnelGiven(z: Zone, seed: Seed, r: Domain.DateRange, ctx: int -> Option<Error>,
                    out: Result<RenovationFunnel, Error>)
    requires Walkable(z, r)
    ensures GivesFunnel(z, seed, r, ctx, out) <==> out == FunnelResult(seed, r, ctx)
  {
    hide Walkable, StopsAfter, SumOver, SumDays, FirstErrorOver, FirstError, Wrap, StageOn;
    WalkMeetsRange(z, r);
    OverDaysOfRange(r, StageOn(seed, 0), ctx);
    OverDaysOfRange(r, StageOn(seed, 1), ctx);
    OverDaysOfRange(r, StageOn(seed, 2), ctx);
    OverDaysOfRange(r, StageOn(seed, 3), ctx);
    OverDaysOfRange(r, StageOn(seed, 4), ctx);
    OverDaysOfRange(r, StageOn(seed, 5), ctx);
    forall n: nat | StopsAfter(z, r, n)
      ensures n == |Domain.DaysOf(r)|
    {
      StopsOnce(z, r, n, |Domain.DaysOf(r)|);
    }
  }

  lemma StageOfSteps(leads: nat)
    ensures StageOf(leads, 0) == leads
    ensures StageOf(leads, 1) == leads * 72 / 100
    ensures StageOf(leads, 2) == StageOf(leads, 1) * 64 / 100
    ensures StageOf(leads, 3) == StageOf(leads, 2) * 46 / 100
    ensures StageOf(leads, 4) == StageOf(leads, 3) * 78 / 100
    ensures StageOf(leads, 5) == StageOf(leads, 4) * 74 / 100
  {
  }

  // ----- What the totals can be -----

  lemma {:induction false} StagesDescend(leads: nat, k: int)
    requires 1 <= k < STAGES
    ensures 0 <= StageOf(leads, k) <= StageOf(leads, k - 1) <= leads
  {
    if k > 1 {
      StagesDescend(leads, k - 1);
    }
  }

  lemma CompletionsEveryDay(leads: nat)
    requires 35 <= leads <= 75
    ensures StageOf(leads, 5) >= 3
  {
    StageOfSteps(leads);
    assert StageOf(leads, 1) >= 25;
    assert StageOf(leads, 2) >= 16;
    assert StageOf(leads, 3) >= 7;
    assert StageOf(leads, 4) >= 5;
  }

  /** Over n days: between 60n and 100n orders, at most 19,989,900n cents. */
  lemma RetailTotalsBounded(seed: Seed, r: Domain.DateRange)
    requires r.start <= r.end + 1
    ensures var n := r.end - r.start + 1;
            && 60 * n <= SumDays(r.start, r.end, OrdersOn(seed)) <= 100 * n
            && 0 <= SumDays(r.start, r.end, CentsOn(seed)) <= 19_989_900 * n
  {
    forall d
      ensures 60 <= OrdersOn(seed)(d) <= 100 && 0 <= CentsOn(seed)(d) <= 19_989_900
    {
      CentsBounded(60 + Offset(d, seed), PriceCents(seed));
    }
    SumDaysBounds(r.start, r.end, OrdersOn(seed), 60, 100);
    SumDaysBounds(r.start, r.end, CentsOn(seed), 0, 19_989_900);
  }

  lemma CentsBounded(orders: int, price: int)
    requires 0 <= orders <= 100 && 0 <= price <= 199_899
    ensures 0 <= orders * price <= 19_989_900
  {
    assert orders * price <= 100 * price;
  }

  lemma StageDescends(seed: Seed, r: Domain.DateRange, k: int)
    requires 1 <= k < STAGES
    ensures StageOver(seed, r, k) <= StageOver(seed, r, k - 1)
  {
    hide Offset, SumDays;
    forall d
      ensures StageOn(seed, k)(d) <= StageOn(seed, k - 1)(d)
    {
      StagesDescend(35 + Offset(d, seed), k);
    }
    SumDaysMonotone(r.start, r.end, StageOn(seed, k), StageOn(seed, k - 1));
  }

  lemma StageBounded(seed: Seed, r: Domain.DateRange, k: int)
    requires r.start <= r.end + 1 && 0 <= k < STAGES
    ensures 0 <= StageOver(seed, r, k) <= 75 * (r.end - r.start + 1)
    ensures k == 5 ==> StageOver(seed, r, k) >= 3 * (r.end - r.start + 1)
  {
    hide Offset, SumDays, StageOf;
    var least := if k == 5 then 3 else 0;
    forall d
      ensures least <= StageOn(seed, k)(d) <= 75
    {
      StageOfSteps(35 + Offset(d, seed));
      if k > 0 {
        StagesDescend(35 + Offset(d, seed), k);
      }
      CompletionsEveryDay(35 + Offset(d, seed));
    }
    SumDaysBounds(r.start, r.end, StageOn(seed, k), least, 75);
  }

  /** Over n days: leads >= invited >= measured >= signed >= started >= completed >= 3n, and
      at most 75n leads. */
  lemma FunnelTotalsDescend(seed: Seed, r: Domain.DateRange)
    requires r.start <= r.end + 1
    ensures forall k :: 1 <= k < STAGES ==> StageOver(seed, r, k) <= StageOver(seed, r, k - 1)
    ensures StageOver(seed, r, STAGES - 1) >= 3 * (r.end - r.start + 1)
    ensures forall k :: 0 <= k < STAGES ==> 0 <= StageOver(seed, r, k) <= 75 * (r.end - r.start + 1)
  {
    hide StageOver;
    forall k | 1 <= k < STAGES
      ensures StageOver(seed, r, k) <= StageOver(seed, r, k - 1)
    {
      StageDescends(seed, r, k);
    }
    forall k | 0 <= k < STAGES
      ensures 0 <= StageOver(seed, r, k) <= 75 * (r.end - r.start + 1)
    {
      StageBounded(seed, r, k);
    }
    StageBounded(seed, r, 5);
  }

  /** The most days a range of parseable dates can have. */
  const MOST_DAYS := 3_652_425

  /** Over at most as many days as parseable dates allow, no unchecked addition wraps: the
      aggregates are the exact sums. */
  lemma TotalsNeverWrap(seed: Seed, r: Domain.DateRange)
    requires r.start <= r.end + 1 && r.end - r.start + 1 <= MOST_DAYS
    ensures RetailOver(seed, r).orders as int == SumDays(r.start, r.end, OrdersOn(seed))
    ensures forall k :: 0 <= k < STAGES ==>
              Stage(FunnelOver(seed, r), k) as int == StageOver(seed, r, k)
  {
    RetailTotalsBounded(seed, r);
    FunnelTotalsDescend(seed, r);
    hide Wrap;
    forall k | 0 <= k < STAGES
      ensures Stage(FunnelOver(seed, r), k) as int == StageOver(seed, r, k)
    {
      assert Fits(StageOver(seed, r, k));
    }
  }

  /** Two days with four-digit years are less than 3,652,425 days apart. */
  lemma FourDigitSpan(m: int, n: int)
    requires 0 <= FromDayNumber(m).year && FromDayNumber(n).year <= 9999
    ensures n - m + 1 <= MOST_DAYS
  {
    hide FromDayNumber;
    var (a, b) := (FromDayNumber(m), FromDayNumber(n));
    DayWithinYear(a);
    DayWithinYear(b);
    hide DayNumber;
    YearsIncrease(0, a.year);
    YearsIncrease(b.year + 1, 10000);
    assert DaysBeforeYear(10000) - DaysBeforeYear(0) == MOST_DAYS;
  }

  // ----- What a skipped midnight costs -----

  /** What a loop that met the given run of days sums up. */
  lemma RunMet(seed: Seed, r: Domain.DateRange, ctx: int -> Option<Error>)
    requires r.start <= r.end + 1 && r.end - r.start + 1 <= MOST_DAYS
    requires RetailMet(seed, Domain.DaysOf(r), ctx).Success?
    ensures RetailMet(seed, Domain.DaysOf(r), ctx) == Success(RetailOver(seed, r))
    ensures RetailOver(seed, r).orders as int == SumDays(r.start, r.end, OrdersOn(seed))
  {
    hide Wrap, OrdersOn, CentsOn, SumDays, SumOver, FirstErrorOver;
    OverDaysOfRange(r, OrdersOn(seed), ctx);
    OverDaysOfRange(r, CentsOn(seed), ctx);
    TotalsNeverWrap(seed, r);
  }

  /** Where clocks keep step the loop gives the formula's sums if every day before the last has
      a midnight, and otherwise fewer orders. */
  lemma RetailGivenExactly(z: Zone, seed: Seed, r: Domain.DateRange, ctx: int -> Option<Error>, out: RetailSummary)
    requires r.start <= r.end && r.end - r.start + 1 <= MOST_DAYS && ClocksKeepStep(z, r)
    requires GivesRetail(z, seed, r, ctx, Success(out))
    ensures NoneSkipped(z, r) ==> out == RetailOver(seed, r)
    ensures !NoneSkipped(z, r) ==> out.orders < RetailOver(seed, r).orders
  {
    hide StopsAfter, RetailMet, NoneSkipped, RetailOver, Domain.DaysOf;
    var n: nat :| StopsAfter(z, r, n) && Success(out) == RetailMet(seed, DaysMet(z, r, n), ctx);
    if NoneSkipped(z, r) {
      MeetsRangeExactly(z, r, n);
      RunMet(seed, r, ctx);
    } else {
      OtherwiseLosesLastDay(z, r, n);
      hide ClocksKeepStep;
      RunMet(seed, Domain.DateRange(r.start, r.end - 1), ctx);
      TotalsNeverWrap(seed, r);
      assert OrdersOn(seed)(r.end) >= 60;
    }
  }

  // ----- Any 41 consecutive days -----

  /** The sum of u % 41, (u + 1) % 41, ... over n terms. */
  function ResidueSum(u: nat, n: nat): int
    decreases n
  {
    if n == 0 then 0 else u % 41 + ResidueSum(u + 1, n - 1)
  }

  lemma ResidueSumHead(u: nat, n: nat)
    requires n > 0
    ensures ResidueSum(u, n) == u % 41 + ResidueSum(u + 1, n - 1)
  {
  }

  lemma {:induction false} ResidueSumSplit(u: nat, a: nat, b: nat)
    ensures ResidueSum(u, a + b) == ResidueSum(u, a) + ResidueSum(u + a, b)
    decreases a
  {
    if a > 0 {
      ResidueSumSplit(u + 1, a - 1, b);
    }
  }

  lemma {:induction false} ResidueSumShift(u: nat, v: nat, n: nat)
    requires u % 41 == v % 41
    ensures ResidueSum(u, n) == ResidueSum(v, n)
    decreases n
  {
    if n > 0 {
      ResidueSumShift(u + 1, v + 1, n - 1);
    }
  }

  lemma OneResidue(u: nat)
    ensures ResidueSum(u, 0) == 0 && ResidueSum(u, 1) == u % 41
  {
  }

  lemma NextTriangle(n: nat)
    ensures (n + 1) * n == n * (n - 1) + 2 * n
  {
  }

  lemma {:induction false} ResiduesFromZero(n: nat)
    requires n <= 41
    ensures 2 * ResidueSum(0, n) == n * (n - 1)
  {
    hide ResidueSum;
    if n == 0 {
      OneResidue(0);
    } else {
      ResiduesFromZero(n - 1);
      ResidueSumSplit(0, n - 1, 1);
      OneResidue(n - 1);
      NextTriangle(n - 1);
    }
  }

  /** Moving n consecutive numbers on by one drops the first residue and gains the next. */
  lemma ResidueSumSlide(u: nat, n: nat)
    ensures ResidueSum(u + 1, n) == ResidueSum(u, n) - u % 41 + (u + n) % 41
  {
    ResidueSumSplit(u, n, 1);
    ResidueSumHead(u, n + 1);
    assert ResidueSum(u + n, 1) == (u + n) % 41;
  }

  /** Any 41 consecutive numbers meet every residue once. */
  lemma {:induction false} AllResidues(u: nat, n: nat)
    requires n == 41
    ensures ResidueSum(u, n) == 820
    decreases u
  {
    hide ResidueSum;
    if u == 0 {
      ResiduesFromZero(n);
    } else {
      AllResidues(u - 1, n);
      ResidueSumSlide(u - 1, n);
      assert (u - 1 + 41) % 41 == (u - 1) % 41;
    }
  }

  lemma TurnResidues(j: nat)
    requires 1 <= j <= 40
    ensures (57 - j) % 41 == if j <= 16 then 16 - j else 57 - j
    ensures (41 - j) % 41 == 41 - j
  {
  }

  /** How far residues that start 16 too high miss the last j of a full turn. */
  lemma {:induction false} DisplacedResidues(j: nat, u: nat, v: nat)
    requires j <= 40 && u == 57 - j && v == 41 - j
    ensures ResidueSum(u, j) - ResidueSum(v, j) == if j <= 16 then -25 * j else 16 * j - 656
    decreases j
  {
    hide ResidueSum;
    if j == 0 {
      OneResidue(u);
      OneResidue(v);
    } else {
      DisplacedResidues(j - 1, u + 1, v + 1);
      ResidueSumHead(u, j);
      ResidueSumHead(v, j);
      TurnResidues(j);
    }
  }

  /** The window of 41 days from lo runs over the uint64 wrap-around. */
  predicate CrossesWrap(lo: int, seed: Seed) {
    (lo + seed) % TWO64 > TWO64 - 41
  }

  function OffsetsOf(seed: Seed): int -> int {
    d => Offset(d, seed)
  }

  lemma OffsetIsResidue(d: int, seed: Seed)
    ensures Offset(d, seed) == ((d + seed) % TWO64) % 41
  {
    assert (d % TWO64 + seed) % TWO64 == (d + seed) % TWO64;
  }

  lemma WithoutWrap(n: int, k: nat)
    requires n % TWO64 + k < TWO64
    ensures (n + k) % TWO64 == n % TWO64 + k
  {
  }

  /** Until the wrap-around the offsets are consecutive residues. */
  lemma {:induction false} OffsetsAreResidues(lo: int, n: nat, seed: Seed)
    requires (lo + seed) % TWO64 + n <= TWO64
    ensures SumDays(lo, lo + n - 1, OffsetsOf(seed)) == ResidueSum((lo + seed) % TWO64, n)
    decreases n
  {
    if n > 0 {
      hide Offset;
      OffsetsAreResidues(lo, n - 1, seed);
      var u := (lo + seed) % TWO64;
      ResidueSumSplit(u, n - 1, 1);
      OffsetIsResidue(lo + n - 1, seed);
      WithoutWrap(lo + seed, n - 1);
      assert lo + n - 1 + seed == lo + seed + (n - 1);
    }
  }

  /** 41 consecutive offsets sum to 820 exactly when the window does not cross the wrap. */
  lemma OffsetsOver41Days(lo: int, seed: Seed)
    ensures SumDays(lo, lo + 40, OffsetsOf(seed)) == 820 <==> !CrossesWrap(lo, seed)
  {
    hide Offset, ResidueSum, SumDays;
    var u := (lo + seed) % TWO64;
    if !CrossesWrap(lo, seed) {
      OffsetsAreResidues(lo, 41, seed);
      AllResidues(u, 41);
    } else {
      var j := TWO64 - u;
      OffsetsAreResidues(lo, j, seed);
      WithoutWrap(lo + seed, j - 1);
      assert (lo + j + seed) % TWO64 == 0;
      OffsetsAreResidues(lo + j, 41 - j, seed);
      SumDaysSplit(lo, lo + j - 1, lo + 40, OffsetsOf(seed));
      ResidueSumShift(u, 57 - j, j);
      DisplacedResidues(j, 57 - j, 41 - j);
      AllResidues(41 - j, 41);
      ResidueSumSplit(41 - j, j, 41 - j);
      ResidueSumShift(41, 0, 41 - j);
    }
  }

  lemma PriceDistributes(p: int, o: int)
    ensures (60 + o) * p == p * o + 60 * p
  {
  }

  lemma PriceCancels(p: int, s: int)
    requires p > 0
    ensures p * s + (60 * p) * 41 == 3280 * p <==> s == 820
  {
    assert p * s + (60 * p) * 41 - 3280 * p == p * (s - 820);
  }

  /** Cents over any days are the price times the orders. */
  lemma CentsFollowOffsets(lo: int, hi: int, seed: Seed)
    requires lo <= hi + 1
    ensures SumDays(lo, hi, CentsOn(seed))
         == PriceCents(seed) * SumDays(lo, hi, OffsetsOf(seed)) + (60 * PriceCents(seed)) * (hi - lo + 1)
  {
    hide Offset, PriceCents, SumDays;
    var p := PriceCents(seed);
    forall d
      ensures CentsOn(seed)(d) == p * OffsetsOf(seed)(d) + 60 * p
    {
      PriceDistributes(p, Offset(d, seed));
    }
    SumDaysLinear(lo, hi, OffsetsOf(seed), CentsOn(seed), p, 60 * p);
  }

  /** Any 41 consecutive days total exactly 3280 orders, 2255 leads and 3280 prices when the
      uint64 sum does not wrap inside them, and none of these totals when it does. */
  lemma Totals41Days(lo: int, seed: Seed)
    ensures SumDays(lo, lo + 40, OrdersOn(seed)) == 3280 <==> !CrossesWrap(lo, seed)
    ensures SumDays(lo, lo + 40, StageOn(seed, 0)) == 2255 <==> !CrossesWrap(lo, seed)
    ensures SumDays(lo, lo + 40, CentsOn(seed)) == 3280 * PriceCents(seed) <==> !CrossesWrap(lo, seed)
  {
    hide Offset, PriceCents, SumDays, CrossesWrap;
    OffsetsOver41Days(lo, seed);
    SumDaysLinear(lo, lo + 40, OffsetsOf(seed), OrdersOn(seed), 1, 60);
    SumDaysLinear(lo, lo + 40, OffsetsOf(seed), StageOn(seed, 0), 1, 35);
    CentsFollowOffsets(lo, lo + 40, seed);
    PriceCancels(PriceCents(seed), SumDays(lo, lo + 40, OffsetsOf(seed)));
  }
}
