/** The domain layer: sources, organisations, date ranges and how long they are. */
module Domain {
  import opened Wrappers
  import opened Calendar
  import opened Zones
  import opened Errors
  import DateText

  datatype Source = Auto | Hive | Trino | StarRocks | Unknown(name: string)

  function ParseSource(s: string): Result<Source, Error> {
    if s == "auto" then Success(Auto)
    else if s == "hive" then Success(Hive)
    else if s == "trino" then Success(Trino)
    else if s == "starrocks" then Success(StarRocks)
    else Failure(InvalidArgument)
  }

  function SourceName(s: Source): string {
    match s
    case Auto => "auto"
    case Hive => "hive"
    case Trino => "trino"
    case StarRocks => "starrocks"
    case Unknown(name) => name
  }

  /** A source is accepted exactly under its own public name. */
  lemma ParseSourceInverts(s: string)
    ensures ParseSource(s).Success? <==> exists x: Source :: !x.Unknown? && SourceName(x) == s
    ensures ParseSource(s).Success? ==> SourceName(ParseSource(s).value) == s
    ensures ParseSource(s).Success? ==> !ParseSource(s).value.Unknown?
    ensures ParseSource(s).Failure? ==> ParseSource(s).error == InvalidArgument
  {
    if ParseSource(s).Success? {
      var x := ParseSource(s).value;
      assert !x.Unknown? && SourceName(x) == s;
    }
  }

  /** The four public names, one by one. */
  lemma PublicNames()
    ensures ParseSource("auto") == Success(Auto) && ParseSource("hive") == Success(Hive)
    ensures ParseSource("trino") == Success(Trino) && ParseSource("starrocks") == Success(StarRocks)
  {
  }

  // ----- Organisations -----

  predicate OrgChar(c: char) {
    'A' <= c <= 'Z' || 'a' <= c <= 'z' || '0' <= c <= '9' || c == '_' || c == '-'
  }

  /** The pattern ^[A-Za-z0-9_-]{1,64}$. */
  predicate ValidOrg(id: string) {
    1 <= |id| <= 64 && forall i :: 0 <= i < |id| ==> OrgChar(id[i])
  }

  // ----- Ranges -----

  /** A closed range of civil days of the service's zone, each named by its day number. */
  datatype DateRange = DateRange(start: int, end: int) {
    predicate Contains(n: int) {
      start <= n <= end
    }
  }

  /** The days of a range, each once, in increasing order. */
  function DaysOf(r: DateRange): (days: seq<int>)
    ensures |days| == if r.start <= r.end then r.end - r.start + 1 else 0
    ensures forall i :: 0 <= i < |days| ==> days[i] == r.start + i
    ensures forall d :: d in days <==> r.Contains(d)
  {
    var days := seq(if r.start <= r.end then r.end - r.start + 1 else 0, i => r.start + i);
    assert forall d :: r.Contains(d) ==> days[d - r.start] == d;
    days
  }

  datatype Query = Query(range: DateRange, org: string)

  /** The text of the day with number n. */
  function PrintDay(n: int): string {
    DateText.Print(FromDayNumber(n))
  }

  /** The day number of an accepted text. */
  function ParseDay(s: string): Option<int> {
    match DateText.Parse(s)
    case None => None
    case Some(d) => Some(DayNumber(d))
  }

  /** An accepted text is read back exactly from the day it names. */
  lemma PrintOfParsedDay(s: string)
    requires ParseDay(s).Some?
    ensures PrintDay(ParseDay(s).value) == s
    ensures DateText.FourDigitYear(FromDayNumber(ParseDay(s).value))
  {
    hide DayNumber, FromDayNumber;
    FromDayNumberInverts(DateText.Parse(s).value);
    DateText.PrintOfParse(s);
  }

  function StartString(r: DateRange): string { PrintDay(r.start) }

  function EndString(r: DateRange): string { PrintDay(r.end) }

  const MAX_DURATION := 0x7fff_ffff_ffff_ffff
  const MIN_DURATION := -0x8000_0000_0000_0000
  const SECOND := 1_000_000_000

  /** `end.Sub(start)`: nanoseconds, saturating at the ends of int64. */
  function Sub(z: Zone, r: DateRange): int {
    var ns := (Midnight(z, r.end) - Midnight(z, r.start)) * SECOND;
    if ns > MAX_DURATION then MAX_DURATION
    else if ns < MIN_DURATION then MIN_DURATION
    else ns
  }

  /** Integer division that truncates toward zero. */
  function TruncDiv(a: int, b: int): int
    requires b > 0
  {
    if a >= 0 then a / b else -(-a / b)
  }

  function Days(z: Zone, r: DateRange): int {
    TruncDiv(Sub(z, r), DAY * SECOND) + 1
  }

  function NewDateRange(start: string, end: string, maxDays: int, z: Zone): Result<DateRange, Error> {
    match (ParseDay(start), ParseDay(end))
    case (Some(s), Some(e)) =>
      var r := DateRange(s, e);
      if Midnight(z, e) < Midnight(z, s) || Days(z, r) > maxDays then Failure(InvalidArgument)
      else Success(r)
    case _ => Failure(InvalidArgument)
  }

  /** The number of calendar days in the range. */
  function Length(r: DateRange): int {
    r.end - r.start + 1
  }

  /** The largest day count a saturated Duration can give. */
  const SATURATED_DAYS := 106752

  /** Elapsed seconds differ from calendar days by the change of offset. */
  lemma Elapsed(z: Zone, r: DateRange)
    requires HasMidnight(z, r.start) && HasMidnight(z, r.end)
    ensures Midnight(z, r.end) - Midnight(z, r.start)
         == (Length(r) - 1) * DAY - (OffsetOn(z, r.end) - OffsetOn(z, r.start))
  {
  }

  /** How many days short the elapsed time falls: one, when the clock is further ahead of UTC
      at the end of the range than at its start. */
  function Shortfall(z: Zone, r: DateRange): int {
    if OffsetOn(z, r.end) > OffsetOn(z, r.start) then 1 else 0
  }

  /** Whole days in a saturating number of nanoseconds. */
  lemma WholeDays(elapsed: nat)
    ensures var ns := if elapsed * SECOND > MAX_DURATION then MAX_DURATION else elapsed * SECOND;
            ns / (DAY * SECOND) + 1
            == if elapsed / DAY + 1 <= SATURATED_DAYS then elapsed / DAY + 1 else SATURATED_DAYS
  {
    assert elapsed * SECOND / (DAY * SECOND) == elapsed / DAY;
    assert MAX_DURATION / (DAY * SECOND) == 106751;
  }

  /** For dates in order `Days` is the calendar length, one less when the offset grows over the
      range, capped where the duration saturates. */
  lemma DaysExactly(z: Zone, r: DateRange)
    requires Comparable(z, r.start, r.end) && r.start <= r.end
    ensures Days(z, r) == if Length(r) - Shortfall(z, r) <= SATURATED_DAYS then Length(r) - Shortfall(z, r)
                          else SATURATED_DAYS
  {
    Elapsed(z, r);
    MidnightsOrder(z, r.start, r.end);
    var delta := OffsetOn(z, r.end) - OffsetOn(z, r.start);
    assert r.start == r.end ==> delta == 0;
    var elapsed := (Length(r) - 1) * DAY - delta;
    hide Midnight, OffsetOn, HasMidnight;
    assert elapsed / DAY + 1 == Length(r) - Shortfall(z, r);
    WholeDays(elapsed);
  }

  /** Durations count the same number of whole days in both directions, saturated or not. */
  lemma DaysReversed(z: Zone, r: DateRange)
    ensures Days(z, r) + Days(z, DateRange(r.end, r.start)) == 2
  {
    var seconds := Midnight(z, r.end) - Midnight(z, r.start);
    hide Midnight;
    assert MAX_DURATION / (DAY * SECOND) == 106751 && -MIN_DURATION / (DAY * SECOND) == 106751;
    assert (-seconds) * SECOND == -(seconds * SECOND);
  }

  /** When both texts name days, those days have midnights whose offsets are less than a day
      apart. */
  predicate EndsComparable(start: string, end: string, z: Zone) {
    ParseDay(start).Some? && ParseDay(end).Some? ==> Comparable(z, ParseDay(start).value, ParseDay(end).value)
  }

  /** The texts name days in order, and not too many of them: one extra day slips through when
      the offset grows over the range, and a limit at or above saturation limits nothing. */
  predicate MakesRange(start: string, end: string, maxDays: int, z: Zone) {
    && ParseDay(start).Some? && ParseDay(end).Some?
    && var r := DateRange(ParseDay(start).value, ParseDay(end).value);
       r.start <= r.end
       && (maxDays >= SATURATED_DAYS || Length(r) <= maxDays + Shortfall(z, r))
  }

  /** Exactly which texts make a range, and that the range prints as the texts it came from. */
  lemma NewDateRangeAccepts(start: string, end: string, maxDays: int, z: Zone)
    requires EndsComparable(start, end, z)
    ensures NewDateRange(start, end, maxDays, z).Success? <==> MakesRange(start, end, maxDays, z)
    ensures NewDateRange(start, end, maxDays, z).Success? ==>
            var r := NewDateRange(start, end, maxDays, z).value;
            StartString(r) == start && EndString(r) == end
  {
    hide DayNumber, PrintDay, ParseDay, Shortfall, Days, Comparable, Midnight;
    if ParseDay(start).Some? && ParseDay(end).Some? {
      PrintOfParsedDay(start);
      PrintOfParsedDay(end);
      var r := DateRange(ParseDay(start).value, ParseDay(end).value);
      MidnightsOrder(z, r.start, r.end);
      if r.start <= r.end {
        DaysExactly(z, r);
      }
    }
  }

  /** With one offset throughout, `Days` is min(length, 106752), so the span check is exact for
      every limit below saturation. */
  lemma SpanCheckInFixedZone(start: string, end: string, maxDays: int, z: Zone)
    requires FixedOffset(z)
    ensures forall r: DateRange :: r.start <= r.end ==>
              Days(z, r) == if Length(r) <= SATURATED_DAYS then Length(r) else SATURATED_DAYS
    ensures NewDateRange(start, end, maxDays, z).Success? <==>
            && ParseDay(start).Some? && ParseDay(end).Some?
            && var r := DateRange(ParseDay(start).value, ParseDay(end).value);
               r.start <= r.end && (maxDays < SATURATED_DAYS ==> Length(r) <= maxDays)
  {
    hide ParseDay, NewDateRange, Days, Comparable, Midnight;
    forall m, n
      ensures Comparable(z, m, n)
    {
      FixedOffsetComparable(z, m, n);
    }
    forall r: DateRange | r.start <= r.end
      ensures Days(z, r) == if Length(r) <= SATURATED_DAYS then Length(r) else SATURATED_DAYS
    {
      DaysExactly(z, r);
    }
    NewDateRangeAccepts(start, end, maxDays, z);
  }

  // ----- Where the span check fails -----

  lemma TextsOfWitnesses()
    ensures ParseDay("1970-01-01") == Some(0) && ParseDay("1970-01-10") == Some(9)
    ensures ParseDay("1700-01-01") == Some(-98615) && ParseDay("2000-01-01") == Some(10957)
  {
    DateText.ParseDigits("1970-01-01", 1970, 1, 1);
    DateText.ParseDigits("1970-01-10", 1970, 1, 10);
    DateText.ParseDigits("1700-01-01", 1700, 1, 1);
    DateText.ParseDigits("2000-01-01", 2000, 1, 1);
    hide DateText.Parse;
    assert DayNumber(YearMonthDay(1970, 1, 1)) == 0 && DayNumber(YearMonthDay(1970, 1, 10)) == 9;
    assert DayNumber(YearMonthDay(1700, 1, 1)) == -98615 && DayNumber(YearMonthDay(2000, 1, 1)) == 10957;
  }

  /** A zone whose clocks go forward an hour on 1970-01-06, two hours after midnight. */
  const SUMMER_TIME := Zone((t: int) => if t < 439200 then 0 else 3600)

  /** Ten days pass a limit of nine when clocks go forward between them, and 109573 days pass a
      limit of 106752 anywhere. */
  lemma SpanCheckCanFail(z: Zone)
    requires FixedOffset(z)
    ensures NewDateRange("1970-01-01", "1970-01-10", 9, SUMMER_TIME).Success?
    ensures Length(NewDateRange("1970-01-01", "1970-01-10", 9, SUMMER_TIME).value) == 10
    ensures NewDateRange("1700-01-01", "2000-01-01", SATURATED_DAYS, z).Success?
    ensures Length(NewDateRange("1700-01-01", "2000-01-01", SATURATED_DAYS, z).value) == 109573
  {
    TextsOfWitnesses();
    hide ParseDay, Days;
    FixedOffsetComparable(z, -98615, 10957);
    assert Comparable(SUMMER_TIME, 0, 9) && Shortfall(SUMMER_TIME, DateRange(0, 9)) == 1;
    NewDateRangeAccepts("1970-01-01", "1970-01-10", 9, SUMMER_TIME);
    NewDateRangeAccepts("1700-01-01", "2000-01-01", SATURATED_DAYS, z);
  }
}
