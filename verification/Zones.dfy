/** Instants, time zones and the midnights that start civil days.

    An instant is a number of seconds since 1970-01-01T00:00:00Z.  A zone gives the
    offset east of UTC that is in force at each instant.  Nothing is asked of a zone as a
    whole: the theorems name the days whose midnights they meet. */
module Zones {
  import Calendar

  datatype Zone = Zone(offsetAt: int -> int)

  const DAY := 86400

  /** What the zone's wall clock shows at instant t, in seconds since its own 1970-01-01. */
  function Wall(z: Zone, t: int): int {
    t + z.offsetAt(t)
  }

  /** The civil day, as a day number, that the wall clock shows at instant t. */
  function LocalDay(z: Zone, t: int): int {
    Wall(z, t) / DAY
  }

  /** The instant `time.Date` picks for a wall-clock reading: the offset is looked up for the
      reading taken as UTC, then again at the instant found.  A reading that the clock skips
      gets an instant that shows another reading. */
  function At(z: Zone, wall: int): int {
    wall - z.offsetAt(wall - z.offsetAt(wall))
  }

  /** The instant at which day n starts. */
  function Midnight(z: Zone, n: int): int {
    At(z, n * DAY)
  }

  /** `t.AddDate(0, 0, k)`: the same reading of the clock, k days on. */
  function AddDate(z: Zone, t: int, k: int): int {
    At(z, Calendar.AddDays(LocalDay(z, t), k) * DAY + Wall(z, t) % DAY)
  }

  /** Day n really starts at midnight: its clocks show 00:00. */
  predicate HasMidnight(z: Zone, n: int) {
    Wall(z, Midnight(z, n)) == n * DAY
  }

  /** What the clocks of day n show when it starts, in seconds after midnight. */
  function Reading(z: Zone, n: int): int {
    Wall(z, Midnight(z, n)) - n * DAY
  }

  /** Day n starts on its own date, at midnight or at the reading the clocks skip to. */
  predicate StartsOnItself(z: Zone, n: int) {
    0 <= Reading(z, n) < DAY
  }

  lemma StartReads(z: Zone, n: int)
    ensures HasMidnight(z, n) <==> Reading(z, n) == 0
    ensures StartsOnItself(z, n) <==> LocalDay(z, Midnight(z, n)) == n
    ensures StartsOnItself(z, n) ==> Wall(z, Midnight(z, n)) % DAY == Reading(z, n)
  {
    assert Wall(z, Midnight(z, n)) == n * DAY + Reading(z, n);
    hide Midnight, Wall, Reading;
  }

  /** The clocks do show this reading, at the instant `At` finds. */
  predicate Shown(z: Zone, wall: int) {
    Wall(z, At(z, wall)) == wall
  }

  /** The UTC offset in force at the midnight of day n. */
  function OffsetOn(z: Zone, n: int): int {
    z.offsetAt(Midnight(z, n))
  }

  /** Days m and n both have a midnight, at offsets less than a day apart. */
  predicate Comparable(z: Zone, m: int, n: int) {
    HasMidnight(z, m) && HasMidnight(z, n) && -DAY < OffsetOn(z, n) - OffsetOn(z, m) < DAY
  }

  ghost predicate FixedOffset(z: Zone) {
    forall t :: z.offsetAt(t) == z.offsetAt(0)
  }

  lemma FixedOffsetComparable(z: Zone, m: int, n: int)
    requires FixedOffset(z)
    ensures Comparable(z, m, n) && Midnight(z, n) == n * DAY - z.offsetAt(0)
  {
  }

  /** From instant `since` on the clocks have kept one offset of less than a day, whatever they
      did before. */
  ghost predicate SteadySince(z: Zone, since: int) {
    -DAY < z.offsetAt(since) < DAY && forall t :: t >= since ==> z.offsetAt(t) == z.offsetAt(since)
  }

  /** Day n starts a full day or more after the given instant, on UTC's clock. */
  predicate WellAfter(n: int, since: int) {
    n * DAY >= since + DAY
  }

  /** Days of a steady time compare, whatever happened in the zone before. */
  lemma SteadyComparable(z: Zone, since: int, m: int, n: int)
    requires SteadySince(z, since) && WellAfter(m, since) && WellAfter(n, since)
    ensures Comparable(z, m, n) && Midnight(z, n) == n * DAY - z.offsetAt(since)
  {
  }

  /** Comparing midnights as instants compares days. */
  lemma MidnightsOrder(z: Zone, m: int, n: int)
    requires Comparable(z, m, n)
    ensures Midnight(z, m) < Midnight(z, n) <==> m < n
    ensures Midnight(z, m) == Midnight(z, n) <==> m == n
  {
  }

  /** At its own midnight, and for the whole day after while the offset stands, the wall clock
      shows the day. */
  lemma MidnightShowsItsDay(z: Zone, n: int, t: int)
    requires HasMidnight(z, n)
    ensures LocalDay(z, Midnight(z, n)) == n
    ensures z.offsetAt(t) == OffsetOn(z, n) ==>
              (LocalDay(z, t) == n <==> Midnight(z, n) <= t < Midnight(z, n) + DAY)
  {
  }

  lemma AddDateReads(z: Zone, t: int, k: int)
    ensures AddDate(z, t, k) == At(z, (LocalDay(z, t) + k) * DAY + Wall(z, t) % DAY)
  {
    hide Calendar.FromDayNumber, Calendar.AddDays;
    assert Calendar.AddDays(LocalDay(z, t), k) == LocalDay(z, t) + k;
  }

  /** From a real midnight, `AddDate` leads to the start of the day it names. */
  lemma AddDateFromMidnight(z: Zone, n: int, k: int)
    requires HasMidnight(z, n)
    ensures AddDate(z, Midnight(z, n), k) == Midnight(z, n + k)
  {
    AddDateReads(z, Midnight(z, n), k);
    hide AddDate;
    MidnightShowsItsDay(z, n, Midnight(z, n));
  }

  /** From a reading that is kept on the next day `AddDate` leads to it. */
  lemma AddDateFromReading(z: Zone, n: int, reading: int, k: int)
    requires 0 <= reading < DAY && Shown(z, n * DAY + reading)
    ensures LocalDay(z, At(z, n * DAY + reading)) == n
    ensures AddDate(z, At(z, n * DAY + reading), k) == At(z, (n + k) * DAY + reading)
  {
    var t := At(z, n * DAY + reading);
    AddDateReads(z, t, k);
    hide AddDate, At;
    assert LocalDay(z, t) == n && Wall(z, t) % DAY == reading;
  }

  /** The same from the start of a day that starts on its own date. */
  lemma AddDateFromStart(z: Zone, n: int, k: int)
    requires StartsOnItself(z, n)
    ensures AddDate(z, Midnight(z, n), k) == At(z, (n + k) * DAY + Reading(z, n))
  {
    StartReads(z, n);
    AddDateReads(z, Midnight(z, n), k);
    hide AddDate, At, LocalDay, Midnight, Reading;
  }

  /** A zone whose clocks go from 00:00 of day 0 straight to 01:00. */
  const SPRING_FORWARD := Zone((t: int) => if t < -28800 then 28800 else 32400)

  lemma OtherMidnights(n: int)
    requires n != 0
    ensures HasMidnight(SPRING_FORWARD, n)
    ensures Midnight(SPRING_FORWARD, n) == n * DAY - (if n < 0 then 28800 else 32400)
  {
    assert if n < 0 then n * DAY <= -DAY else n * DAY >= DAY;
  }

  /** Where midnight is skipped, `AddDate` keeps the later reading: it misses the midnights of
      the days around. */
  lemma SkippedMidnight()
    ensures !HasMidnight(SPRING_FORWARD, 0)
    ensures forall n: int :: n != 0 ==> HasMidnight(SPRING_FORWARD, n)
    ensures AddDate(SPRING_FORWARD, Midnight(SPRING_FORWARD, 0), 1) == Midnight(SPRING_FORWARD, 1) + 3600
    ensures AddDate(SPRING_FORWARD, Midnight(SPRING_FORWARD, 0), -1) == Midnight(SPRING_FORWARD, -1) + 3600
  {
    hide AddDate;
    assert Midnight(SPRING_FORWARD, 0) == -28800 && Wall(SPRING_FORWARD, -28800) == 3600;
    assert LocalDay(SPRING_FORWARD, -28800) == 0;
    AddDateReads(SPRING_FORWARD, -28800, 1);
    AddDateReads(SPRING_FORWARD, -28800, -1);
    OtherMidnights(1);
    OtherMidnights(-1);
    forall n: int | n != 0
      ensures HasMidnight(SPRING_FORWARD, n)
    {
      OtherMidnights(n);
    }
  }

  /** West of UTC the instant found for a skipped midnight shows the day before: clocks that go
      from 00:00 of day 0 to 01:00, three hours behind UTC. */
  const SPRING_FORWARD_WEST := Zone((t: int) => if t < 10800 then -10800 else -7200)
}
