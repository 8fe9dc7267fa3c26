/** The proleptic Gregorian calendar that every date of the service lives in.

    A `Date` is a civil (year, month, day); `DayNumber` counts days from 1970-01-01,
    which is the number the memory repository derives from a date, and `FromDayNumber`
    goes back.  The rest of the model names a day by its number, as a `time.Time` at
    midnight does; dates are taken apart only to read, print and step them.
 */
module Calendar {

  datatype YearMonthDay = YearMonthDay(year: int, month: int, day: int)

  /** A date that exists in the calendar. */
  type Date = d: YearMonthDay | Valid(d) witness YearMonthDay(1970, 1, 1)

  predicate IsLeap(y: int) {
    y % 4 == 0 && (y % 100 != 0 || y % 400 == 0)
  }

  function DaysInMonth(y: int, m: int): int
    requires 1 <= m <= 12
  {
    if m == 2 then (if IsLeap(y) then 29 else 28)
    else if m == 4 || m == 6 || m == 9 || m == 11 then 30
    else 31
  }

  predicate Valid(d: YearMonthDay) {
    1 <= d.month <= 12 && 1 <= d.day <= DaysInMonth(d.year, d.month)
  }

  function DaysInYear(y: int): int {
    if IsLeap(y) then 366 else 365
  }

  /** Days from 0001-01-01 to January 1st of year y. */
  function DaysBeforeYear(y: int): int {
    365 * (y - 1) + (y - 1) / 4 - (y - 1) / 100 + (y - 1) / 400
  }

  /** Days from January 1st to the first of month m. */
  function DaysBeforeMonth(y: int, m: int): int
    requires 1 <= m <= 13
    decreases m
  {
    if m == 1 then 0 else DaysBeforeMonth(y, m - 1) + DaysInMonth(y, m - 1)
  }

  /** Days from 0001-01-01 to 1970-01-01. */
  const EPOCH := 719162

  function DayNumber(d: Date): int {
    DaysBeforeYear(d.year) + DaysBeforeMonth(d.year, d.month) + d.day - 1 - EPOCH
  }

  // ----- Years -----

  lemma DivMod4(k: int, r: int)
    requires 0 <= r < 4
    ensures (4 * k + r) / 4 == k && (4 * k + r) % 4 == r
  {
  }

  lemma DivMod100(k: int, r: int)
    requires 0 <= r < 100
    ensures (100 * k + r) / 100 == k && (100 * k + r) % 100 == r
  {
  }

  lemma DivMod400(k: int, r: int)
    requires 0 <= r < 400
    ensures (400 * k + r) / 400 == k && (400 * k + r) % 400 == r
  {
  }

  lemma DivStep4(y: int)
    ensures y / 4 == (y - 1) / 4 + (if y % 4 == 0 then 1 else 0)
  {
  }

  lemma DivStep100(y: int)
    ensures y / 100 == (y - 1) / 100 + (if y % 100 == 0 then 1 else 0)
  {
  }

  lemma DivStep400(y: int)
    ensures y / 400 == (y - 1) / 400 + (if y % 400 == 0 then 1 else 0)
  {
  }

  lemma LeapDivisors(y: int)
    ensures y % 400 == 0 ==> y % 100 == 0
    ensures y % 100 == 0 ==> y % 4 == 0
  {
    DivMod100(4 * (y / 400), 0);
    DivMod4(25 * (y / 100), 0);
  }

  lemma YearStep(y: int)
    ensures DaysBeforeYear(y + 1) == DaysBeforeYear(y) + DaysInYear(y)
  {
    LeapDivisors(y);
    DivStep4(y);
    DivStep100(y);
    DivStep400(y);
  }

  lemma {:induction false} YearsIncrease(y: int, z: int)
    requires y <= z
    ensures DaysBeforeYear(y) + 365 * (z - y) <= DaysBeforeYear(z)
    decreases z - y
  {
    if y < z {
      YearStep(y);
      YearsIncrease(y + 1, z);
    }
  }

  /** The year that contains the day n days after 0001-01-01, found by cutting off
      400-, 100-, 4- and 1-year cycles. */
  function YearOf(n: int): (y: int)
    ensures DaysBeforeYear(y) <= n < DaysBeforeYear(y + 1)
  {
    var c := n / 146097;
    var r := n % 146097;
    var h := if r / 36524 > 3 then 3 else r / 36524;
    var s := r - 36524 * h;
    var q := s / 1461;
    var t := s - 1461 * q;
    var e := if t / 365 > 3 then 3 else t / 365;
    var y := 400 * c + 100 * h + 4 * q + e + 1;
    CycleDays(c, h, q, e);
    CycleLeap(c, h, q, e);
    YearStep(y);
    y
  }

  /** How many days the elapsed cycles take. */
  lemma CycleDays(c: int, h: int, q: int, e: int)
    requires 0 <= h <= 3 && 0 <= q <= 24 && 0 <= e <= 3
    ensures DaysBeforeYear(400 * c + 100 * h + 4 * q + e + 1)
         == 146097 * c + 36524 * h + 1461 * q + 365 * e
  {
    var p := 400 * c + 100 * h + 4 * q + e;
    DivMod4(100 * c + 25 * h + q, e);
    DivMod100(4 * c + h, 4 * q + e);
    DivMod400(c, 100 * h + 4 * q + e);
    assert p / 4 == 100 * c + 25 * h + q && p / 100 == 4 * c + h && p / 400 == c;
  }

  /** The last year of a 4-year cycle is leap, unless it ends a century that does not end the
      400 years. */
  lemma CycleLeap(c: int, h: int, q: int, e: int)
    requires 0 <= h <= 3 && 0 <= q <= 24 && 0 <= e <= 3
    ensures IsLeap(400 * c + 100 * h + 4 * q + e + 1) <==> e == 3 && (q < 24 || h == 3)
  {
    var y := 400 * c + 100 * h + 4 * q + e + 1;
    if e < 3 {
      DivMod4(100 * c + 25 * h + q, e + 1);
    } else {
      DivMod4(100 * c + 25 * h + q + 1, 0);
      if q < 24 {
        DivMod100(4 * c + h, 4 * q + 4);
      } else {
        DivMod100(4 * c + h + 1, 0);
        if h < 3 {
          DivMod400(c, 100 * h + 100);
        } else {
          DivMod400(c + 1, 0);
        }
      }
    }
  }

  // ----- Months -----

  lemma {:induction false} MonthsIncrease(y: int, m: int, k: int)
    requires 1 <= m <= k <= 13
    ensures DaysBeforeMonth(y, m) + 28 * (k - m) <= DaysBeforeMonth(y, k)
    decreases k - m
  {
    if m < k {
      MonthsIncrease(y, m, k - 1);
    }
  }

  lemma MonthsFillYear(y: int)
    ensures DaysBeforeMonth(y, 13) == DaysInYear(y)
  {
    assert DaysBeforeMonth(y, 4) == DaysInMonth(y, 2) + 62;
    assert DaysBeforeMonth(y, 7) == DaysInMonth(y, 2) + 153;
    assert DaysBeforeMonth(y, 10) == DaysInMonth(y, 2) + 245;
    assert DaysBeforeMonth(y, 13) == DaysInMonth(y, 2) + 337;
  }

  /** The month, at or after m, that contains the given day of the year. */
  function MonthOf(y: int, yday: int, m: int): (k: int)
    requires 1 <= m <= 12
    requires DaysBeforeMonth(y, m) <= yday < DaysBeforeMonth(y, 13)
    ensures m <= k <= 12
    ensures DaysBeforeMonth(y, k) <= yday < DaysBeforeMonth(y, k + 1)
    decreases 12 - m
  {
    if m == 12 || yday < DaysBeforeMonth(y, m + 1) then m else MonthOf(y, yday, m + 1)
  }

  // ----- The bijection with day numbers -----

  /** The day of its own year that the day n days after 0001-01-01 is. */
  lemma DayOfYear(n: int, y: int)
    requires DaysBeforeYear(y) <= n < DaysBeforeYear(y + 1)
    ensures 0 <= n - DaysBeforeYear(y) < DaysBeforeMonth(y, 13)
  {
    YearStep(y);
    MonthsFillYear(y);
  }

  /** The date found by year, then month, then day has the number it was found for. */
  lemma DateFound(n: int, y: int, m: int)
    requires 1 <= m <= 12
    requires DaysBeforeMonth(y, m) <= n - DaysBeforeYear(y) < DaysBeforeMonth(y, m + 1)
    ensures var d := YearMonthDay(y, m, n - DaysBeforeYear(y) - DaysBeforeMonth(y, m) + 1);
            Valid(d) && DayNumber(d) == n - EPOCH
  {
    hide DaysBeforeYear, DaysInMonth;
  }

  /** The date with day number n: what normalising any (year, month, day) triple yields. */
  function FromDayNumber(n: int): (d: Date)
    ensures DayNumber(d) == n
  {
    var y := YearOf(n + EPOCH);
    DayOfYear(n + EPOCH, y);
    var yday := n + EPOCH - DaysBeforeYear(y);
    var m := MonthOf(y, yday, 1);
    DateFound(n + EPOCH, y, m);
    YearMonthDay(y, m, yday - DaysBeforeMonth(y, m) + 1)
  }

  /** Calendar order: year, then month, then day. */
  predicate Earlier(a: YearMonthDay, b: YearMonthDay) {
    || a.year < b.year
    || (a.year == b.year && a.month < b.month)
    || (a.year == b.year && a.month == b.month && a.day < b.day)
  }

  lemma DayWithinYear(d: Date)
    ensures DaysBeforeYear(d.year) <= DayNumber(d) + EPOCH < DaysBeforeYear(d.year + 1)
    ensures DaysBeforeMonth(d.year, d.month) + d.day <= DaysBeforeMonth(d.year, d.month + 1)
  {
    YearStep(d.year);
    MonthsFillYear(d.year);
    MonthsIncrease(d.year, 1, d.month);
    MonthsIncrease(d.year, d.month + 1, 13);
  }

  lemma {:induction false} EarlierHasSmallerNumber(a: Date, b: Date)
    requires Earlier(a, b)
    ensures DayNumber(a) < DayNumber(b)
  {
    DayWithinYear(a);
    DayWithinYear(b);
    if a.year < b.year {
      YearsIncrease(a.year + 1, b.year);
      assert DaysBeforeYear(a.year + 1) <= DaysBeforeYear(b.year);
    } else if a.month < b.month {
      MonthsIncrease(a.year, a.month + 1, b.month);
    }
  }

  /** Day numbers order dates exactly as the calendar does, and tell them apart. */
  lemma DayNumberOrders(a: Date, b: Date)
    ensures DayNumber(a) < DayNumber(b) <==> Earlier(a, b)
    ensures DayNumber(a) == DayNumber(b) <==> a == b
  {
    if Earlier(a, b) {
      EarlierHasSmallerNumber(a, b);
    } else if Earlier(b, a) {
      EarlierHasSmallerNumber(b, a);
    }
  }

  lemma FromDayNumberInverts(d: Date)
    ensures FromDayNumber(DayNumber(d)) == d
  {
    DayNumberOrders(FromDayNumber(DayNumber(d)), d);
  }

  /** The day part of `AddDate(0, 0, k)`, from the date with day number n: the day of the month moves by k and
      the triple is normalised again. */
  function AddDays(n: int, k: int): (r: int)
    ensures r == n + k
  {
    var d := FromDayNumber(n);
    DaysBeforeYear(d.year) + DaysBeforeMonth(d.year, d.month) + (d.day + k) - 1 - EPOCH
  }

  /** The schoolbook successor: carry into the month at its end, into the year after December. */
  function NextDay(d: Date): Date {
    if d.day < DaysInMonth(d.year, d.month) then YearMonthDay(d.year, d.month, d.day + 1)
    else if d.month < 12 then YearMonthDay(d.year, d.month + 1, 1)
    else YearMonthDay(d.year + 1, 1, 1)
  }

  /** One day more is the schoolbook carry, over month ends, leap days and century years
      alike. */
  lemma SuccessorIsNextDay(d: Date)
    ensures DayNumber(NextDay(d)) == DayNumber(d) + 1
    ensures FromDayNumber(DayNumber(d) + 1) == NextDay(d)
  {
    hide FromDayNumber;
    var n := NextDay(d);
    if d.day == DaysInMonth(d.year, d.month) && d.month == 12 {
      YearStep(d.year);
      MonthsFillYear(d.year);
      assert DaysBeforeMonth(d.year, 13) == DaysBeforeMonth(d.year, 12) + 31;
    }
    assert DayNumber(n) == DayNumber(d) + 1;
    DayNumberOrders(FromDayNumber(DayNumber(d) + 1), n);
  }

  /** The lengths of the months, one by one. */
  lemma MonthLengths(y: int, m: int)
    requires 1 <= m <= 12
    ensures DaysInMonth(y, m)
         == [31, if IsLeap(y) then 29 else 28, 31, 30, 31, 30, 31, 31, 30, 31, 30, 31][m - 1]
  {
  }

  /** The year of a date when years begin in March, and the months since then. */
  function MarchYear(d: Date): int {
    if d.month <= 2 then d.year - 1 else d.year
  }

  function MonthsSinceMarch(d: Date): int {
    if d.month <= 2 then d.month + 9 else d.month - 3
  }

  /** Days before month m, counted the other way: from March on, five months take 153 days. */
  lemma MonthsFromMarch(y: int, m: int)
    requires 1 <= m <= 12
    ensures m >= 3 ==> DaysBeforeMonth(y, m) == (153 * (m - 3) + 2) / 5 + DaysInYear(y) - 306
    ensures m <= 2 ==> DaysBeforeMonth(y, m) == (153 * (m + 9) + 2) / 5 - 306
  {
    MonthStep(y, 1);
    MonthStep(y, 2);
    MonthStep(y, 3);
    MonthStep(y, 4);
    MonthStep(y, 5);
    MonthStep(y, 6);
    MonthStep(y, 7);
    MonthStep(y, 8);
    MonthStep(y, 9);
    MonthStep(y, 10);
    MonthStep(y, 11);
    assert DaysBeforeMonth(y, 1) == 0;
    hide DaysBeforeMonth;
  }

  lemma MonthStep(y: int, m: int)
    requires 1 <= m <= 12
    ensures DaysBeforeMonth(y, m + 1) == DaysBeforeMonth(y, m) + DaysInMonth(y, m)
  {
  }

  /** The day number in closed form, for every date of every year: Gregorian leap days, and
      months counted from March. */
  lemma DayNumberFormula(d: Date)
    ensures var (y, k) := (MarchYear(d), MonthsSinceMarch(d));
            DayNumber(d) == 365 * y + y / 4 - y / 100 + y / 400 + (153 * k + 2) / 5 + d.day - 719469
  {
    MonthsFromMarch(d.year, d.month);
    YearStep(d.year);
    hide DaysBeforeMonth;
    assert DaysBeforeYear(d.year + 1) == 365 * d.year + d.year / 4 - d.year / 100 + d.year / 400;
  }

  /** Years never decrease from one day to a later one. */
  lemma YearsFollowDays(m: int, n: int)
    requires m <= n
    ensures FromDayNumber(m).year <= FromDayNumber(n).year
  {
    hide FromDayNumber;
    DayNumberOrders(FromDayNumber(n), FromDayNumber(m));
  }
}
