/** Reading and printing dates in the layout "2006-01-02": the full-date of section 5.6
    of RFC 3339, with the day-of-month limits of its section 5.7. */
module DateText {
  import opened Wrappers
  import opened Calendar

  // ----- Decimal numbers of fixed width -----

  predicate IsDigit(c: char) {
    '0' <= c <= '9'
  }

  predicate AllDigits(s: string) {
    forall i :: 0 <= i < |s| ==> IsDigit(s[i])
  }

  function Digit(n: int): (c: char)
    requires 0 <= n < 10
    ensures IsDigit(c) && c as int - '0' as int == n
  {
    n as char + '0'
  }

  /** The value of a digit string. */
  function Number(s: string): (n: nat)
    requires AllDigits(s)
  {
    if s == "" then 0 else 10 * Number(s[..|s| - 1]) + (s[|s| - 1] as int - '0' as int)
  }

  /** The decimal digits of n, padded with zeros to at least w of them. */
  function Pad(n: nat, w: nat): (s: string)
    ensures AllDigits(s) && |s| >= 1 && |s| >= w
    decreases n + w
  {
    if n < 10 && w <= 1 then [Digit(n)]
    else Pad(n / 10, if w == 0 then 0 else w - 1) + [Digit(n % 10)]
  }

  lemma {:induction false} NumberOfPad(n: nat, w: nat)
    ensures Number(Pad(n, w)) == n
    decreases n + w
  {
    var s := Pad(n, w);
    if n < 10 && w <= 1 {
      assert s[..|s| - 1] == "";
    } else {
      var p := Pad(n / 10, if w == 0 then 0 else w - 1);
      NumberOfPad(n / 10, if w == 0 then 0 else w - 1);
      assert s[..|s| - 1] == p;
    }
  }

  lemma {:induction false} PadOfNumber(s: string)
    requires AllDigits(s) && s != ""
    ensures Pad(Number(s), |s|) == s
    decreases |s|
  {
    var p := s[..|s| - 1];
    assert s == p + [s[|s| - 1]];
    if p != "" {
      PadOfNumber(p);
      assert Number(s) / 10 == Number(p);
    }
  }

  /** Ten to the power w. */
  function PowerOfTen(w: nat): nat {
    if w == 0 then 1 else 10 * PowerOfTen(w - 1)
  }

  lemma {:induction false} PadWidth(n: nat, w: nat)
    requires w >= 1 && n < PowerOfTen(w)
    ensures |Pad(n, w)| == w
    decreases w
  {
    if w > 1 {
      PadWidth(n / 10, w - 1);
    }
  }

  lemma {:induction false} NumberBound(s: string)
    requires AllDigits(s)
    ensures Number(s) < PowerOfTen(|s|)
    decreases |s|
  {
    if s != "" {
      NumberBound(s[..|s| - 1]);
    }
  }

  // ----- Dates -----

  /** The text `Format("2006-01-02")` gives; years outside 0..9999 take more characters. */
  function Print(d: Date): string {
    PrintYear(d.year) + "-" + Pad(d.month, 2) + "-" + Pad(d.day, 2)
  }

  function PrintYear(y: int): string {
    if y < 0 then "-" + Pad(-y, 4) else Pad(y, 4)
  }

  /** `ParseInLocation("2006-01-02", s, loc)`: fixed-width digits, then the date must exist. */
  function Parse(s: string): Option<Date> {
    if |s| == 10 && s[4] == '-' && s[7] == '-'
       && AllDigits(s[..4]) && AllDigits(s[5..7]) && AllDigits(s[8..])
    then
      var d := YearMonthDay(Number(s[..4]), Number(s[5..7]), Number(s[8..]));
      if Valid(d) then Some(d) else None
    else
      None
  }

  function DigitValue(c: char): int {
    c as int - '0' as int
  }

  lemma NumberOfTwo(s: string)
    requires AllDigits(s) && |s| == 2
    ensures Number(s) == 10 * DigitValue(s[0]) + DigitValue(s[1])
  {
    var p := s[..1];
    assert p[..0] == "" && Number(p) == 10 * Number(p[..0]) + DigitValue(p[0]);
  }

  lemma NumberOfFour(s: string)
    requires AllDigits(s) && |s| == 4
    ensures Number(s) == 100 * (10 * DigitValue(s[0]) + DigitValue(s[1]))
                         + 10 * DigitValue(s[2]) + DigitValue(s[3])
  {
    NumberOfTwo(s[..2]);
    assert s[..3][..2] == s[..2];
  }

  /** A text of the right shape is read digit by digit. */
  lemma ParseDigits(s: string, y: int, m: int, d: int)
    requires |s| == 10 && s[4] == '-' && s[7] == '-'
    requires AllDigits(s[..4]) && AllDigits(s[5..7]) && AllDigits(s[8..])
    requires y == 100 * (10 * DigitValue(s[0]) + DigitValue(s[1])) + 10 * DigitValue(s[2]) + DigitValue(s[3])
    requires m == 10 * DigitValue(s[5]) + DigitValue(s[6]) && d == 10 * DigitValue(s[8]) + DigitValue(s[9])
    requires Valid(YearMonthDay(y, m, d))
    ensures Parse(s) == Some(YearMonthDay(y, m, d))
  {
    NumberOfFour(s[..4]);
    NumberOfTwo(s[5..7]);
    NumberOfTwo(s[8..]);
  }

  /** The dates whose text has a four-digit year. */
  predicate FourDigitYear(d: YearMonthDay) {
    0 <= d.year <= 9999
  }

  lemma PrintShape(d: Date)
    requires FourDigitYear(d)
    ensures |Print(d)| == 10
    ensures Print(d)[..4] == Pad(d.year, 4) && Print(d)[4] == '-'
    ensures Print(d)[5..7] == Pad(d.month, 2) && Print(d)[7] == '-'
    ensures Print(d)[8..] == Pad(d.day, 2)
  {
    assert PowerOfTen(4) == 10000 && PowerOfTen(2) == 100;
    PadWidth(d.year, 4);
    PadWidth(d.month, 2);
    assert d.day < 100;
    PadWidth(d.day, 2);
    hide Pad, Valid, DaysInMonth, PowerOfTen;
    var (y, m, t) := (Pad(d.year, 4), Pad(d.month, 2), Pad(d.day, 2));
    assert Print(d) == y + "-" + m + "-" + t;
  }

  /** Printing an accepted date gives back the accepted text, character for character. */
  lemma PrintOfParse(s: string)
    requires Parse(s).Some?
    ensures Print(Parse(s).value) == s
    ensures FourDigitYear(Parse(s).value)
  {
    PadOfNumber(s[..4]);
    PadOfNumber(s[5..7]);
    PadOfNumber(s[8..]);
    NumberBound(s[..4]);
    assert PowerOfTen(4) == 10000;
    assert s == s[..4] + "-" + s[5..7] + "-" + s[8..];
  }

  /** Texts of other years are refused: they start with a sign or have a fifth digit. */
  lemma OtherYearsRefused(d: Date)
    requires !FourDigitYear(d)
    ensures Parse(Print(d)).None?
  {
    var s := Print(d);
    if d.year < 0 {
      assert s[0] == '-' && !IsDigit('-');
      assert |s| >= 4 ==> s[..4][0] == s[0];
    } else {
      PadGrows(d.year, 4);
      assert |s| > 10;
    }
  }

  lemma {:induction false} PadGrows(n: nat, w: nat)
    requires w >= 1 && n >= PowerOfTen(w)
    ensures |Pad(n, w)| > w
    decreases w
  {
    if w > 1 {
      PadGrows(n / 10, w - 1);
    }
  }

  /** Every date with a four-digit year is accepted, and read back as itself. */
  lemma ParseOfPrint(d: Date)
    requires FourDigitYear(d)
    ensures Parse(Print(d)) == Some(d)
  {
    PrintShape(d);
    NumberOfPad(d.year, 4);
    NumberOfPad(d.month, 2);
    NumberOfPad(d.day, 2);
  }

  /** The parser accepts exactly the printed forms of dates with four-digit years. */
  lemma ParseAcceptsExactlyPrinted(s: string)
    ensures Parse(s).Some? <==> exists d: Date :: FourDigitYear(d) && Print(d) == s
  {
    if Parse(s).Some? {
      PrintOfParse(s);
    }
    forall d: Date | FourDigitYear(d) && Print(d) == s
      ensures Parse(s).Some?
    {
      ParseOfPrint(d);
    }
  }

  // ----- Text order -----

  /** Byte-wise order of strings. */
  predicate TextLess(s: string, t: string) {
    if t == "" then false
    else if s == "" then true
    else if s[0] != t[0] then s[0] < t[0]
    else TextLess(s[1..], t[1..])
  }

  lemma {:induction false} TextLessAppend(s: string, t: string, u: string, v: string)
    requires |s| == |t|
    ensures TextLess(s + u, t + v) <==> TextLess(s, t) || (s == t && TextLess(u, v))
    decreases |s|
  {
    if s == "" {
      assert s + u == u && t + v == v;
    } else {
      TextLessAppend(s[1..], t[1..], u, v);
      assert (s + u)[1..] == s[1..] + u && (t + v)[1..] == t[1..] + v;
      assert s == [s[0]] + s[1..] && t == [t[0]] + t[1..];
    }
  }

  lemma PadLast(n: nat, w: nat)
    requires w >= 1
    ensures w == 1 && n < 10 ==> Pad(n, w) == [Digit(n)]
    ensures w > 1 ==> Pad(n, w) == Pad(n / 10, w - 1) + [Digit(n % 10)]
  {
  }

  lemma DigitOrder(a: int, b: int)
    requires 0 <= a < 10 && 0 <= b < 10
    ensures TextLess([Digit(a)], [Digit(b)]) <==> a < b
  {
  }

  lemma LastDigitOrder(s: string, t: string, a: int, b: int)
    requires |s| == |t| && 0 <= a < 10 && 0 <= b < 10
    ensures TextLess(s + [Digit(a)], t + [Digit(b)]) <==> TextLess(s, t) || (s == t && a < b)
    ensures s + [Digit(a)] == t + [Digit(b)] <==> s == t && a == b
  {
    DigitOrder(a, b);
    TextLessAppend(s, t, [Digit(a)], [Digit(b)]);
    if s + [Digit(a)] == t + [Digit(b)] {
      assert s == (s + [Digit(a)])[..|s|] && t == (t + [Digit(b)])[..|s|];
      assert Digit(a) == (s + [Digit(a)])[|s|] && Digit(b) == (t + [Digit(b)])[|s|];
    }
  }

  lemma {:induction false} PadOrder(a: nat, b: nat, w: nat)
    requires w >= 1 && a < PowerOfTen(w) && b < PowerOfTen(w)
    ensures TextLess(Pad(a, w), Pad(b, w)) <==> a < b
    ensures Pad(a, w) == Pad(b, w) <==> a == b
    decreases w
  {
    PadLast(a, w);
    PadLast(b, w);
    DigitOrder(a % 10, b % 10);
    if w == 1 {
      assert PowerOfTen(1) == 10;
      hide Pad, TextLess, PowerOfTen;
    } else {
      PadOrder(a / 10, b / 10, w - 1);
      PadWidth(a / 10, w - 1);
      PadWidth(b / 10, w - 1);
      hide Pad, TextLess, PowerOfTen, Digit;
      LastDigitOrder(Pad(a / 10, w - 1), Pad(b / 10, w - 1), a % 10, b % 10);
    }
  }

  lemma AppendLess(s: string, t: string, u: string, v: string)
    requires |s| == |t|
    ensures TextLess(s + "-" + u, t + "-" + v) <==> TextLess(s, t) || (s == t && TextLess(u, v))
    ensures s + "-" + u == t + "-" + v <==> s == t && u == v
  {
    TextLessAppend(s, t, "-" + u, "-" + v);
    TextLessAppend("-", "-", u, v);
    assert !TextLess("-", "-");
    assert s + "-" + u == s + ("-" + u) && t + "-" + v == t + ("-" + v);
    if s + "-" + u == t + "-" + v {
      assert s == (s + "-" + u)[..|s|] && t == (t + "-" + v)[..|s|];
      assert u == (s + "-" + u)[|s| + 1..] && v == (t + "-" + v)[|s| + 1..];
    }
  }

  lemma ThreeFields(y: string, y': string, m: string, m': string, d: string, d': string)
    requires |y| == |y'| && |m| == |m'|
    ensures TextLess(y + "-" + m + "-" + d, y' + "-" + m' + "-" + d') <==>
            TextLess(y, y') || (y == y' && (TextLess(m, m') || (m == m' && TextLess(d, d'))))
    ensures y + "-" + m + "-" + d == y' + "-" + m' + "-" + d' <==> y == y' && m == m' && d == d'
  {
    assert y + "-" + m + "-" + d == y + "-" + (m + "-" + d);
    assert y' + "-" + m' + "-" + d' == y' + "-" + (m' + "-" + d');
    AppendLess(m, m', d, d');
    AppendLess(y, y', m + "-" + d, m' + "-" + d');
  }

  /** For dates with four-digit years, the order of their texts is calendar order. */
  lemma TextOrderIsCalendarOrder(a: Date, b: Date)
    requires FourDigitYear(a) && FourDigitYear(b)
    ensures TextLess(Print(a), Print(b)) <==> DayNumber(a) < DayNumber(b)
    ensures Print(a) == Print(b) <==> a == b
  {
    hide DayNumber, Pad, TextLess;
    DayNumberOrders(a, b);
    assert PowerOfTen(4) == 10000 && PowerOfTen(2) == 100;
    PadOrder(a.year, b.year, 4);
    PadOrder(a.month, b.month, 2);
    PadOrder(a.day, b.day, 2);
    PadWidth(a.year, 4);
    PadWidth(b.year, 4);
    PadWidth(a.month, 2);
    PadWidth(b.month, 2);
    hide PowerOfTen, Valid;
    ThreeFields(Pad(a.year, 4), Pad(b.year, 4), Pad(a.month, 2), Pad(b.month, 2), Pad(a.day, 2), Pad(b.day, 2));
  }
}
