/** Timestamps as stored text: `isoformat`, `parseIso`, and why text order is time order. */
module Time {
  import opened Options
  import opened Text


  // ---------------------------------------------------------------- the calendar

  const SECONDS_PER_DAY := 86_400
  const MICROS_PER_SECOND := 1_000_000

  /** The day number, counted from 1970-01-01, of the first day of a year (ECMA-262, 21.4.1). */
  function DayFromYear(year: int): int {
    365 * (year - 1970) + (year - 1969) / 4 - (year - 1901) / 100 + (year - 1601) / 400
  }

  predicate Leap(year: int) {
    (year % 4 == 0 && year % 100 != 0) || year % 400 == 0
  }

  lemma YearLength(year: int)
    ensures DayFromYear(year + 1) == DayFromYear(year) + if Leap(year) then 366 else 365
  {
    FourthStep(year);
    CenturyStep(year);
    EraStep(year);
    ErasAreCenturies(year);
    CenturiesAreFourths(year);
  }

  lemma FourthStep(n: int)
    ensures (n - 1968) / 4 == (n - 1969) / 4 + if n % 4 == 0 then 1 else 0
  {
    assert n == 4 * (n / 4) + n % 4;
  }

  lemma CenturyStep(n: int)
    ensures (n - 1900) / 100 == (n - 1901) / 100 + if n % 100 == 0 then 1 else 0
  {
    assert n == 100 * (n / 100) + n % 100;
  }

  lemma EraStep(n: int)
    ensures (n - 1600) / 400 == (n - 1601) / 400 + if n % 400 == 0 then 1 else 0
  {
    assert n == 400 * (n / 400) + n % 400;
  }

  lemma ErasAreCenturies(n: int)
    ensures n % 400 == 0 ==> n % 100 == 0
  {
    var q := n / 400;
    assert n % 400 == 0 ==> n == 100 * (4 * q);
  }

  lemma CenturiesAreFourths(n: int)
    ensures n % 100 == 0 ==> n % 4 == 0
  {
    var q := n / 100;
    assert n % 100 == 0 ==> n == 4 * (25 * q);
  }

  lemma {:induction false} YearsAscend(a: int, b: int)
    requires a <= b
    ensures DayFromYear(b) >= DayFromYear(a) + 365 * (b - a)
    decreases b - a
  {
    if a < b {
      YearsAscend(a, b - 1);
      YearLength(b - 1);
    }
  }

  /** The year a day falls in: the last one, from `from` on, to begin no later than the day. */
  function YearOfDay(day: int, from: int := 0): (year: int)
    requires DayFromYear(from) <= day
    ensures from <= year && DayFromYear(year) <= day < DayFromYear(year + 1)
    decreases day - DayFromYear(from)
  {
    YearLength(from);
    if day < DayFromYear(from + 1) then from else YearOfDay(day, from + 1)
  }

  /** Days of the year before a month, months counted from 0; month 12 is the whole year. */
  function DaysBefore(month: int, leap: bool): (days: nat)
    requires 0 <= month <= 12
  {
    (if month == 0 then 0 else if month == 1 then 31 else if month == 2 then 59 else if month == 3 then 90
     else if month == 4 then 120 else if month == 5 then 151 else if month == 6 then 181 else if month == 7 then 212
     else if month == 8 then 243 else if month == 9 then 273 else if month == 10 then 304
     else if month == 11 then 334 else 365)
    + if leap && month >= 2 then 1 else 0
  }

  lemma {:induction false} MonthsAscend(a: int, b: int, leap: bool)
    requires 0 <= a <= b <= 12
    ensures DaysBefore(a, leap) <= DaysBefore(b, leap)
    decreases b - a
  {
    if a < b {
      MonthsAscend(a, b - 1, leap);
    }
  }

  lemma MonthLength(month: int, leap: bool)
    requires 0 <= month <= 11
    ensures DaysBefore(month, leap) < DaysBefore(month + 1, leap) <= DaysBefore(month, leap) + 31
  {
  }

  /** The month, counted from 0, a day of the year falls in. */
  function MonthOf(dayOfYear: int, leap: bool, latest: int := 11): (month: int)
    requires 0 <= latest <= 11 && 0 <= dayOfYear < DaysBefore(latest + 1, leap)
    ensures 0 <= month <= latest && DaysBefore(month, leap) <= dayOfYear < DaysBefore(month + 1, leap)
    decreases latest
  {
    if latest == 0 || DaysBefore(latest, leap) <= dayOfYear then latest else MonthOf(dayOfYear, leap, latest - 1)
  }

  /** A UTC date and time to the second; months and days count from 1. */
  datatype Civil = Civil(year: nat, month: nat, day: nat, hour: nat, minute: nat, second: nat)

  /** A date whose every field fits the width it is written in. */
  predicate Writable(c: Civil) {
    c.year <= 9999 && c.month <= 12 && c.day <= 31 && c.hour < 24 && c.minute < 60 && c.second < 60
  }

  /** Whether an instant, in seconds, falls in the years whose text is four digits wide. */
  predicate InYears(seconds: int, first: int, last: int) {
    DayFromYear(first) <= seconds / SECONDS_PER_DAY < DayFromYear(last + 1)
  }

  function MonthDay(dayOfYear: int, leap: bool): (date: (nat, nat))
    requires 0 <= dayOfYear < DaysBefore(12, leap)
    ensures 1 <= date.0 <= 12 && 1 <= date.1 <= 31
    ensures DaysBefore(date.0 - 1, leap) <= dayOfYear < DaysBefore(date.0, leap)
    ensures DaysBefore(date.0 - 1, leap) + date.1 - 1 == dayOfYear
  {
    var month := MonthOf(dayOfYear, leap);
    MonthLength(month, leap);
    (month + 1, dayOfYear - DaysBefore(month, leap) + 1)
  }

  function WrittenYear(day: int): (year: nat)
    requires DayFromYear(0) <= day < DayFromYear(10_000)
    ensures year <= 9999 && DayFromYear(year) <= day < DayFromYear(year) + DaysBefore(12, Leap(year))
    ensures DayFromYear(year + 1) == DayFromYear(year) + DaysBefore(12, Leap(year))
  {
    var year := YearOfDay(day);
    YearLength(year);
    YearsAscend(10_000, if year > 9999 then year else 10_000);
    year
  }

  /** A day as year, month and day of the month, the last two counted from 1. */
  function DateOf(day: int): (date: (nat, nat, nat))
    requires DayFromYear(0) <= day < DayFromYear(10_000)
    ensures date.0 <= 9999 && 1 <= date.1 <= 12 && 1 <= date.2 <= 31
    ensures DayFromYear(date.0) <= day < DayFromYear(date.0 + 1)
    ensures DaysBefore(date.1 - 1, Leap(date.0)) <= day - DayFromYear(date.0) < DaysBefore(date.1, Leap(date.0))
    ensures DayFromYear(date.0) + DaysBefore(date.1 - 1, Leap(date.0)) + date.2 - 1 == day
  {
    var year := WrittenYear(day);
    var monthDay := MonthDay(day - DayFromYear(year), Leap(year));
    (year, monthDay.0, monthDay.1)
  }

  /** A second of the day as hour, minute and second. */
  function ClockOf(rest: nat): (clock: (nat, nat, nat))
    requires rest < SECONDS_PER_DAY
    ensures clock.0 < 24 && clock.1 < 60 && clock.2 < 60
    ensures rest == (clock.0 * 60 + clock.1) * 60 + clock.2
  {
    (rest / 60 / 60, rest / 60 % 60, rest % 60)
  }

  function CivilOf(seconds: int): (civil: Civil)
    requires InYears(seconds, 0, 9999)
    ensures Writable(civil)
  {
    var date := DateOf(seconds / SECONDS_PER_DAY);
    var clock := ClockOf(seconds % SECONDS_PER_DAY);
    Civil(date.0, date.1, date.2, clock.0, clock.1, clock.2)
  }

  /** `Date.UTC` (ECMA-262, 21.4.3.4), with its reading of years 0 to 99 as 1900 to 1999. */
  function DateUtc(year: int, month0: int, day: int, hour: int, minute: int, second: int, millis: int): int {
    var full := if 0 <= year <= 99 then 1900 + year else year;
    var of := full + month0 / 12;
    var days := DayFromYear(of) + DaysBefore(month0 % 12, Leap(of)) + day - 1;
    ((days * 24 + hour) * 60 + minute) * 60_000 + second * 1000 + millis
  }

  /** A date taken apart and put together again is the same instant, from the year 100 on only. */
  lemma CivilRoundTrip(seconds: int, millis: int)
    requires InYears(seconds, 0, 9999)
    ensures var c := CivilOf(seconds);
            (DateUtc(c.year, c.month - 1, c.day, c.hour, c.minute, c.second, millis) == seconds * 1000 + millis
             <==> InYears(seconds, 100, 9999))
  {
    hide DayFromYear, DaysBefore, ClockOf, DateOf;
    var c := CivilOf(seconds);
    var day := seconds / SECONDS_PER_DAY;
    var clock := ClockOf(seconds % SECONDS_PER_DAY);
    assert seconds == day * SECONDS_PER_DAY + (c.hour * 60 + c.minute) * 60 + c.second;
    if c.year <= 99 {
      YearsAscend(c.year + 1, 100);
      YearsAscend(c.year + 1, c.year + 1900);
    } else {
      YearsAscend(100, c.year);
    }
  }

  // ---------------------------------------------------------------- digits

  function Digit(value: nat): char
    requires value < 10
  {
    ['0', '1', '2', '3', '4', '5', '6', '7', '8', '9'][value]
  }

  predicate IsDigit(c: char) {
    '0' <= c <= '9'
  }

  function DigitValue(c: char): (value: nat)
    requires IsDigit(c)
    ensures value < 10 && Digit(value) == c
  {
    c as int - '0' as int
  }

  /** `String(value).padStart(width, '0')`. */
  function Pad(value: nat, width: nat): (text: string)
    decreases value, width
  {
    if value < 10 && width <= 1 then [Digit(value)]
    else Pad(value / 10, if width == 0 then 0 else width - 1) + [Digit(value % 10)]
  }

  predicate AllDigits(text: string) {
    forall i :: 0 <= i < |text| ==> IsDigit(text[i])
  }

  /** The number a run of digits names; zero for an empty run. */
  function Number(digits: string): nat
    requires AllDigits(digits)
  {
    if |digits| == 0 then 0 else Number(digits[..|digits| - 1]) * 10 + DigitValue(digits[|digits| - 1])
  }

  function Pow10(width: nat): nat {
    if width == 0 then 1 else 10 * Pow10(width - 1)
  }

  /** Within its width a padded number is exactly that wide, and reads back as itself. */
  lemma {:induction false} PadReadsBack(value: nat, width: nat)
    requires 1 <= width && value < Pow10(width)
    ensures |Pad(value, width)| == width && AllDigits(Pad(value, width))
    ensures Number(Pad(value, width)) == value
    decreases width
  {
    if width == 1 {
      assert Pow10(1) == 10 * Pow10(0);
      assert Pad(value, 1) == [Digit(value)];
      assert Number([Digit(value)][..0]) == 0;
    } else {
      assert value / 10 < Pow10(width - 1);
      PadReadsBack(value / 10, width - 1);
      PadStep(value, width);
      hide Pad, Pow10;
      NumberSnoc(Pad(value / 10, width - 1), Digit(value % 10));
    }
  }

  lemma NumberSnoc(front: string, last: char)
    requires AllDigits(front) && '0' <= last <= '9'
    ensures AllDigits(front + [last]) && Number(front + [last]) == 10 * Number(front) + (last as int - '0' as int)
  {
    assert (front + [last])[..|front|] == front;
  }

  lemma DigitOrder(a: nat, b: nat)
    requires a < 10 && b < 10
    ensures Less([Digit(a)], [Digit(b)]) <==> a < b
  {
    assert Digit(a) as int == '0' as int + a && Digit(b) as int == '0' as int + b;
  }

  lemma PadStep(value: nat, width: nat)
    requires width >= 2
    ensures Pad(value, width) == Pad(value / 10, width - 1) + [Digit(value % 10)]
  {
  }

  lemma HeadsDecide(a: string, b: string)
    requires |a| > 0 && |b| > 0 && a[0] != b[0]
    ensures Less(a, b) <==> a[0] < b[0]
  {
  }

  lemma TenthsOrder(a: nat, b: nat)
    ensures a < b <==> a / 10 < b / 10 || (a / 10 == b / 10 && a % 10 < b % 10)
  {
  }

  /** Numbers padded to one width sort as numbers. */
  lemma {:induction false} PadOrder(a: nat, b: nat, width: nat)
    requires 1 <= width && a < Pow10(width) && b < Pow10(width)
    ensures Less(Pad(a, width), Pad(b, width)) <==> a < b
    decreases width
  {
    if width == 1 {
      assert Pow10(1) == 10 * Pow10(0);
      assert Pad(a, 1) == [Digit(a)] && Pad(b, 1) == [Digit(b)];
      DigitOrder(a, b);
    } else {
      assert a / 10 < Pow10(width - 1) && b / 10 < Pow10(width - 1);
      hide Pow10;
      PadOrder(a / 10, b / 10, width - 1);
      PadReadsBack(a / 10, width - 1);
      PadReadsBack(b / 10, width - 1);
      hide Pad, Less, Number, AllDigits;
      PadStep(a, width);
      PadStep(b, width);
      LessOfConcat(Pad(a / 10, width - 1), Pad(b / 10, width - 1), [Digit(a % 10)], [Digit(b % 10)]);
      LastDigitDecides(a, b, Pad(a / 10, width - 1), Pad(b / 10, width - 1));
    }
  }

  lemma LastDigitDecides(a: nat, b: nat, x: string, y: string)
    requires Less(x, y) <==> a / 10 < b / 10
    requires x == y <==> a / 10 == b / 10
    ensures Less(x, y) || (x == y && Less([Digit(a % 10)], [Digit(b % 10)])) <==> a < b
  {
    DigitOrder(a % 10, b % 10);
    TenthsOrder(a, b);
  }

  /** A padded field decides the order, and what follows it breaks a tie. */
  lemma FieldOrder(a: nat, b: nat, width: nat, x: string, y: string)
    requires 1 <= width && a < Pow10(width) && b < Pow10(width)
    ensures Less(Pad(a, width) + x, Pad(b, width) + y) <==> a < b || (a == b && Less(x, y))
  {
    PadReadsBack(a, width);
    PadReadsBack(b, width);
    PadOrder(a, b, width);
    LessOfConcat(Pad(a, width), Pad(b, width), x, y);
  }

  lemma Widths()
    ensures Pow10(2) == 100 && Pow10(3) == 1000 && Pow10(4) == 10_000 && Pow10(6) == 1_000_000
  {
    assert Pow10(1) == 10 && Pow10(5) == 100_000;
  }

  // ---------------------------------------------------------------- isoformat

  function DateText(c: Civil): string {
    Pad(c.year, 4) + "-" + Pad(c.month, 2) + "-" + Pad(c.day, 2)
  }

  function ClockText(c: Civil): string {
    Pad(c.hour, 2) + ":" + Pad(c.minute, 2) + ":" + Pad(c.second, 2)
  }

  function Stem(c: Civil): string {
    DateText(c) + "T" + ClockText(c)
  }

  /** `isoformat` of a Date, which carries milliseconds. */
  function Isoformat(millis: int): string
    requires InYears(millis / 1000, 0, 9999)
  {
    var fraction := if millis % 1000 == 0 then "" else "." + Pad(millis % 1000, 3) + "000";
    Stem(CivilOf(millis / 1000)) + fraction + "+00:00"
  }

  /** What `datetime.isoformat()` left behind in the same columns: microseconds, or none at all. */
  function PythonIsoformat(micros: int): string
    requires InYears(micros / MICROS_PER_SECOND, 0, 9999)
  {
    Stem(CivilOf(micros / MICROS_PER_SECOND)) + Tail(micros % MICROS_PER_SECOND)
  }

  function Tail(fraction: nat): string {
    (if fraction == 0 then "" else "." + Pad(fraction, 6)) + "+00:00"
  }

  /** Node writes the text Python would have written for the same instant. */
  lemma SameText(millis: int)
    requires InYears(millis / 1000, 0, 9999)
    ensures millis * 1000 / MICROS_PER_SECOND == millis / 1000
    ensures Isoformat(millis) == PythonIsoformat(millis * 1000)
  {
    hide Pad, CivilOf, Stem;
    var k := millis % 1000;
    assert millis * 1000 % MICROS_PER_SECOND == k * 1000;
    if k != 0 {
      PadStep(k * 1000, 6);
      PadStep(k * 100, 5);
      PadStep(k * 10, 4);
      assert "." + Pad(k, 3) + "000" == "." + Pad(k * 1000, 6);
    }
    var stem := Stem(CivilOf(millis / 1000));
    assert Isoformat(millis) == stem + Tail(k * 1000) == PythonIsoformat(millis * 1000);
  }

  // ---------------------------------------------------------------- order

  predicate CivilLess(a: Civil, b: Civil) {
    a.year < b.year || (a.year == b.year && (
    a.month < b.month || (a.month == b.month && (
    a.day < b.day || (a.day == b.day && (
    a.hour < b.hour || (a.hour == b.hour && (
    a.minute < b.minute || (a.minute == b.minute && a.second < b.second)))))))))
  }

  /** A field that a separator closes. */
  lemma ClosedFieldOrder(a: nat, b: nat, width: nat, separator: string, x: string, y: string)
    requires 1 <= width && a < Pow10(width) && b < Pow10(width)
    ensures Less(Pad(a, width) + (separator + x), Pad(b, width) + (separator + y)) <==> a < b || (a == b && Less(x, y))
  {
    hide Pad, Less, Pow10;
    FieldOrder(a, b, width, separator + x, separator + y);
    LessOfConcat(separator, separator, x, y);
    LessTrichotomy(separator, separator);
  }

  lemma DateOrder(a: Civil, b: Civil, x: string, y: string)
    requires Writable(a) && Writable(b)
    ensures Less(DateText(a) + x, DateText(b) + y)
            <==> a.year < b.year || (a.year == b.year && (a.month < b.month || (a.month == b.month && (
                 a.day < b.day || (a.day == b.day && Less(x, y))))))
  {
    Widths();
    hide Pad, Less, Pow10;
    var a2, b2 := Pad(a.day, 2) + x, Pad(b.day, 2) + y;
    var a1, b1 := Pad(a.month, 2) + ("-" + a2), Pad(b.month, 2) + ("-" + b2);
    assert DateText(a) + x == Pad(a.year, 4) + ("-" + a1) && DateText(b) + y == Pad(b.year, 4) + ("-" + b1);
    ClosedFieldOrder(a.year, b.year, 4, "-", a1, b1);
    ClosedFieldOrder(a.month, b.month, 2, "-", a2, b2);
    FieldOrder(a.day, b.day, 2, x, y);
  }

  lemma ClockOrder(a: Civil, b: Civil, x: string, y: string)
    requires Writable(a) && Writable(b)
    ensures Less(ClockText(a) + x, ClockText(b) + y)
            <==> a.hour < b.hour || (a.hour == b.hour && (a.minute < b.minute || (a.minute == b.minute && (
                 a.second < b.second || (a.second == b.second && Less(x, y))))))
  {
    Widths();
    hide Pad, Less, Pow10;
    var a2, b2 := Pad(a.second, 2) + x, Pad(b.second, 2) + y;
    var a1, b1 := Pad(a.minute, 2) + (":" + a2), Pad(b.minute, 2) + (":" + b2);
    assert ClockText(a) + x == Pad(a.hour, 2) + (":" + a1) && ClockText(b) + y == Pad(b.hour, 2) + (":" + b1);
    ClosedFieldOrder(a.hour, b.hour, 2, ":", a1, b1);
    ClosedFieldOrder(a.minute, b.minute, 2, ":", a2, b2);
    FieldOrder(a.second, b.second, 2, x, y);
  }

  lemma StemOrder(a: Civil, b: Civil, x: string, y: string)
    requires Writable(a) && Writable(b)
    ensures Less(Stem(a) + x, Stem(b) + y) <==> CivilLess(a, b) || (a == b && Less(x, y))
  {
    hide Pad, Less;
    var p, q := ClockText(a) + x, ClockText(b) + y;
    assert Stem(a) + x == DateText(a) + ("T" + p) && Stem(b) + y == DateText(b) + ("T" + q);
    DateOrder(a, b, "T" + p, "T" + q);
    LessOfConcat("T", "T", p, q);
    LessTrichotomy("T", "T");
    ClockOrder(a, b, x, y);
  }

  lemma CivilAscends(a: int, b: int)
    requires a < b && InYears(a, 0, 9999) && InYears(b, 0, 9999)
    ensures CivilLess(CivilOf(a), CivilOf(b))
  {
    hide DayFromYear, DaysBefore, ClockOf, DateOf;
    var da, db := a / SECONDS_PER_DAY, b / SECONDS_PER_DAY;
    var p, q := DateOf(da), DateOf(db);
    assert da <= db;
    if p.0 > q.0 {
      YearsAscend(q.0 + 1, p.0);
    } else if p.0 == q.0 && p.1 > q.1 {
      MonthsAscend(q.1, p.1 - 1, Leap(p.0));
    }
  }

  /** A fraction left out for being zero still sorts first, since '+' comes before '.'. */
  lemma TailOrder(a: nat, b: nat)
    requires a < MICROS_PER_SECOND && b < MICROS_PER_SECOND
    ensures Less(Tail(a), Tail(b)) <==> a < b
  {
    Widths();
    LessTrichotomy("+00:00", "+00:00");
    assert Tail(0) == "+00:00";
    hide Pad, Less;
    if a > 0 && b > 0 {
      assert Tail(a) == "." + (Pad(a, 6) + "+00:00") && Tail(b) == "." + (Pad(b, 6) + "+00:00");
      LessOfConcat(".", ".", Pad(a, 6) + "+00:00", Pad(b, 6) + "+00:00");
      FieldOrder(a, b, 6, "+00:00", "+00:00");
    } else if a != b {
      HeadsDecide(Tail(a), Tail(b));
    }
  }

  /** Text order is time order over every microsecond instant of the years 0 to 9999. */
  lemma TextOrderIsTimeOrder(a: int, b: int)
    requires InYears(a / MICROS_PER_SECOND, 0, 9999) && InYears(b / MICROS_PER_SECOND, 0, 9999)
    ensures Less(PythonIsoformat(a), PythonIsoformat(b)) <==> a < b
  {
    hide CivilOf, Less, Stem, Tail, InYears;
    var sa, sb := a / MICROS_PER_SECOND, b / MICROS_PER_SECOND;
    var fa, fb := a % MICROS_PER_SECOND, b % MICROS_PER_SECOND;
    StemOrder(CivilOf(sa), CivilOf(sb), Tail(fa), Tail(fb));
    TailOrder(fa, fb);
    if sa < sb {
      CivilAscends(sa, sb);
    } else if sb < sa {
      CivilAscends(sb, sa);
    }
  }

  /** The same for what Node writes, among rows of its own and rows Python left. */
  lemma StoredOrder(millis: int, other: int, micros: int)
    requires InYears(millis / 1000, 0, 9999) && InYears(other / 1000, 0, 9999)
    requires InYears(micros / MICROS_PER_SECOND, 0, 9999)
    ensures Less(Isoformat(millis), Isoformat(other)) <==> millis < other
    ensures Less(Isoformat(millis), PythonIsoformat(micros)) <==> millis * 1000 < micros
    ensures Less(PythonIsoformat(micros), Isoformat(millis)) <==> micros < millis * 1000
  {
    SameText(millis);
    SameText(other);
    TextOrderIsTimeOrder(millis * 1000, other * 1000);
    TextOrderIsTimeOrder(millis * 1000, micros);
    TextOrderIsTimeOrder(micros, millis * 1000);
  }

  // ---------------------------------------------------------------- parseIso

  function DigitRun(text: string): (run: nat)
    ensures run <= |text| && AllDigits(text[..run]) && (run < |text| ==> !IsDigit(text[run]))
  {
    if |text| == 0 || !IsDigit(text[0]) then 0 else
    var run := 1 + DigitRun(text[1..]);
    assert text[..run] == [text[0]] + text[1..][..run - 1];
    run
  }

  lemma {:induction false} RunOf(digits: string, rest: string)
    requires AllDigits(digits) && |rest| > 0 && !IsDigit(rest[0])
    ensures DigitRun(digits + rest) == |digits|
    decreases |digits|
  {
    if |digits| == 0 {
      assert digits + rest == rest;
    } else {
      assert (digits + rest)[1..] == digits[1..] + rest;
      RunOf(digits[1..], rest);
    }
  }

  /** The optional fraction, one to six digits behind a dot, and what follows it. */
  function SplitFraction(text: string): (split: Option<(string, string)>)
    ensures split.Some? ==> AllDigits(split.value.0)
  {
    if |text| > 0 && text[0] == '.' then
      var run := DigitRun(text[1..]);
      if 1 <= run <= 6 then Some((text[1..][..run], text[1..][run..])) else None
    else Some(("", text))
  }

  /** Minutes ahead of UTC an offset names; none is UTC. */
  function OffsetMinutes(text: string): Option<int> {
    if text == "" || text == "Z" then Some(0)
    else if |text| == 6 && text[0] in {'+', '-'} && text[3] == ':' && AllDigits(text[1..3])
      && AllDigits(text[4..6]) then
      var minutes := Number(text[1..3]) * 60 + Number(text[4..6]);
      Some(if text[0] == '-' then -minutes else minutes)
    else None
  }

  predicate StemShaped(text: string) {
    && |text| >= 19
    && AllDigits(text[0..4]) && text[4] == '-' && AllDigits(text[5..7]) && text[7] == '-' && AllDigits(text[8..10])
    && text[10] in {'T', ' '}
    && AllDigits(text[11..13]) && text[13] == ':' && AllDigits(text[14..16]) && text[16] == ':'
       && AllDigits(text[17..19])
  }

  lemma PaddedIsDigits(text: string)
    requires AllDigits(text)
    ensures AllDigits((text + "000")[..3])
  {
  }

  /** `parseIso`: the instant in milliseconds, or None where the source throws. */
  function ParseIso(text: string): Option<int> {
    if !StemShaped(text) then None else
    var split := SplitFraction(text[19..]);
    if split.None? then None else
    var (fraction, zone) := split.value;
    var offset := OffsetMinutes(zone);
    if offset.None? then None else
    PaddedIsDigits(fraction);
    var millis := Number((fraction + "000")[..3]);
    var utc := DateUtc(Number(text[0..4]), Number(text[5..7]) - 1, Number(text[8..10]),
                       Number(text[11..13]), Number(text[14..16]), Number(text[17..19]), millis);
    Some(utc - offset.value * 60_000)
  }

  /** The fields stand in their places. */
  predicate Reads(c: Civil, text: string) {
    && StemShaped(text)
    && Number(text[0..4]) == c.year && Number(text[5..7]) == c.month && Number(text[8..10]) == c.day
    && Number(text[11..13]) == c.hour && Number(text[14..16]) == c.minute && Number(text[17..19]) == c.second
  }

  lemma PairsReadBack(c: Civil)
    requires Writable(c)
    ensures |DateText(c)| == 10 && |ClockText(c)| == 8
    ensures DateText(c)[0..4] == Pad(c.year, 4) && AllDigits(Pad(c.year, 4)) && Number(Pad(c.year, 4)) == c.year
    ensures DateText(c)[5..7] == Pad(c.month, 2) && AllDigits(Pad(c.month, 2)) && Number(Pad(c.month, 2)) == c.month
    ensures DateText(c)[8..10] == Pad(c.day, 2) && AllDigits(Pad(c.day, 2)) && Number(Pad(c.day, 2)) == c.day
    ensures ClockText(c)[0..2] == Pad(c.hour, 2) && AllDigits(Pad(c.hour, 2)) && Number(Pad(c.hour, 2)) == c.hour
    ensures ClockText(c)[3..5] == Pad(c.minute, 2) && AllDigits(Pad(c.minute, 2))
            && Number(Pad(c.minute, 2)) == c.minute
    ensures ClockText(c)[6..8] == Pad(c.second, 2) && AllDigits(Pad(c.second, 2))
            && Number(Pad(c.second, 2)) == c.second
    ensures DateText(c)[4] == '-' && DateText(c)[7] == '-' && ClockText(c)[2] == ':' && ClockText(c)[5] == ':'
  {
    Widths();
    PadReadsBack(c.year, 4);
    PadReadsBack(c.month, 2);
    PadReadsBack(c.day, 2);
    PadReadsBack(c.hour, 2);
    PadReadsBack(c.minute, 2);
    PadReadsBack(c.second, 2);
    hide Pad, Number, AllDigits, Pow10;
  }

  lemma PlacesOfForm(date: string, between: char, clock: string, tail: string)
    requires |date| == 10 && |clock| == 8
    ensures var text := date + [between] + clock + tail;
            && |text| >= 19 && text[19..] == tail && text[4] == date[4] && text[7] == date[7] && text[10] == between
            && text[13] == clock[2] && text[16] == clock[5]
            && text[0..4] == date[0..4] && text[5..7] == date[5..7] && text[8..10] == date[8..10]
            && text[11..13] == clock[0..2] && text[14..16] == clock[3..5] && text[17..19] == clock[6..8]
  {
  }

  lemma FormReadsBack(c: Civil, between: char, tail: string)
    requires Writable(c) && between in {'T', ' '}
    ensures var text := DateText(c) + [between] + ClockText(c) + tail;
            Reads(c, text) && text[19..] == tail
  {
    PairsReadBack(c);
    hide Pad, Number, AllDigits, DateText, ClockText, Writable;
    var date, clock := DateText(c), ClockText(c);
    PlacesOfForm(date, between, clock, tail);
    var text := date + [between] + clock + tail;
    assert StemShaped(text);
  }

  lemma StemReadsBack(c: Civil, tail: string)
    requires Writable(c)
    ensures var text := Stem(c) + tail;
            Reads(c, text) && text[19..] == tail
  {
    FormReadsBack(c, 'T', tail);
    assert Stem(c) + tail == DateText(c) + ['T'] + ClockText(c) + tail;
  }

  lemma ZerosReadAsZero()
    ensures AllDigits("00") && Number("00") == 0
    ensures AllDigits("000") && Number("000") == 0
  {
    assert "000"[..2] == "00" && "00"[..1] == "0" && "0"[..0] == "";
  }

  lemma UtcOffset()
    ensures OffsetMinutes("+00:00") == Some(0)
  {
    ZerosReadAsZero();
    assert "+00:00"[1..3] == "00" && "+00:00"[4..6] == "00";
  }

  /** The first three of six digits are the milliseconds. */
  lemma FractionDigits(fraction: nat)
    requires fraction < MICROS_PER_SECOND
    ensures var digits := Pad(fraction, 6);
            && |digits| == 6 && AllDigits(digits)
            && AllDigits((digits + "000")[..3]) && Number((digits + "000")[..3]) == fraction / 1000
  {
    Widths();
    PadReadsBack(fraction, 6);
    PadReadsBack(fraction / 1000, 3);
    PadStep(fraction, 6);
    PadStep(fraction / 10, 5);
    PadStep(fraction / 100, 4);
    hide Pad, Pow10, Number, AllDigits, Digit;
    assert fraction / 10 / 10 / 10 == fraction / 1000;
    assert (Pad(fraction, 6) + "000")[..3] == Pad(fraction / 1000, 3);
  }

  lemma TailReadsBack(fraction: nat)
    requires fraction < MICROS_PER_SECOND
    ensures var split := SplitFraction(Tail(fraction));
            && split.Some? && split.value.1 == "+00:00"
            && AllDigits((split.value.0 + "000")[..3]) && Number((split.value.0 + "000")[..3]) == fraction / 1000
  {
    if fraction == 0 {
      ZerosReadAsZero();
      assert Tail(0) == "+00:00" && ("" + "000")[..3] == "000";
    } else {
      FractionDigits(fraction);
      hide Pad, Pow10, DigitRun, Number;
      var digits := Pad(fraction, 6);
      var rest := digits + "+00:00";
      assert Tail(fraction) == "." + rest && ("." + rest)[1..] == rest;
      RunOf(digits, "+00:00");
      assert rest[..6] == digits && rest[6..] == "+00:00";
    }
  }

  lemma StampParses(c: Civil, fraction: nat)
    requires Writable(c) && fraction < MICROS_PER_SECOND
    ensures ParseIso(Stem(c) + Tail(fraction))
            == Some(DateUtc(c.year, c.month - 1, c.day, c.hour, c.minute, c.second, fraction / 1000))
  {
    UtcOffset();
    hide Stem, Tail, SplitFraction, StemShaped, DateUtc, Number, AllDigits, OffsetMinutes, IsDigit;
    StemReadsBack(c, Tail(fraction));
    TailReadsBack(fraction);
  }

  lemma StampReadsBack(seconds: int, fraction: nat)
    requires InYears(seconds, 0, 9999) && fraction < MICROS_PER_SECOND
    ensures var read := ParseIso(Stem(CivilOf(seconds)) + Tail(fraction));
            && read.Some?
            && (read.value == seconds * 1000 + fraction / 1000 <==> InYears(seconds, 100, 9999))
  {
    hide ParseIso, CivilOf, DateUtc, InYears, Stem, Tail;
    StampParses(CivilOf(seconds), fraction);
    CivilRoundTrip(seconds, fraction / 1000);
  }

  /**
   * A stored microsecond row reads back cut to its millisecond exactly when it is of the year 100
   * or later: `Date.UTC` moves the first hundred years into the twentieth century.
   */
  lemma ParseCutsToMillis(micros: int)
    requires InYears(micros / MICROS_PER_SECOND, 0, 9999)
    ensures var read := ParseIso(PythonIsoformat(micros));
            && read.Some?
            && (read.value == micros / 1000 <==> InYears(micros / MICROS_PER_SECOND, 100, 9999))
  {
    hide ParseIso, CivilOf, InYears, Stem, Tail;
    StampReadsBack(micros / MICROS_PER_SECOND, micros % MICROS_PER_SECOND);
  }

  /** `parseIso(isoformat(t)) == t` for the instants of the years 100 to 9999, and for no earlier one. */
  lemma RoundTrip(millis: int)
    requires InYears(millis / 1000, 0, 9999)
    ensures ParseIso(Isoformat(millis)) == Some(millis) <==> InYears(millis / 1000, 100, 9999)
  {
    SameText(millis);
    ParseCutsToMillis(millis * 1000);
    assert millis * 1000 / 1000 == millis;
  }

  // ---------------------------------------------------------------- the calendar, counted

  /** The days of a month, counted from 0: thirty have September, April, June and November. */
  function DaysIn(month: int, leap: bool): nat {
    if month == 1 then (if leap then 29 else 28)
    else if month == 3 || month == 5 || month == 8 || month == 10 then 30
    else 31
  }

  /** The table of month beginnings is the running count of month lengths, and the year count that of year lengths. */
  lemma CalendarCounts(month: int, leap: bool, year: int)
    requires 0 <= month <= 11
    ensures DaysBefore(0, leap) == 0 && DaysBefore(month + 1, leap) == DaysBefore(month, leap) + DaysIn(month, leap)
    ensures DayFromYear(1970) == 0
    ensures DayFromYear(year + 1) == DayFromYear(year)
                                     + if year % 4 == 0 && (year % 100 != 0 || year % 400 == 0) then 366 else 365
  {
    YearLength(year);
    ErasAreCenturies(year);
    CenturiesAreFourths(year);
  }

  /** A date that exists, at a time of day. */
  predicate OnTheCalendar(c: Civil) {
    && c.year <= 9999 && 1 <= c.month <= 12 && 1 <= c.day <= DaysIn(c.month - 1, Leap(c.year))
    && c.hour < 24 && c.minute < 60 && c.second < 60
  }

  function DayNumber(c: Civil): int
    requires OnTheCalendar(c)
  {
    DayFromYear(c.year) + DaysBefore(c.month - 1, Leap(c.year)) + c.day - 1
  }

  lemma OneYear(day: int, a: int, b: int)
    requires DayFromYear(a) <= day < DayFromYear(a + 1) && DayFromYear(b) <= day < DayFromYear(b + 1)
    ensures a == b
  {
    hide DayFromYear;
    if a < b {
      YearsAscend(a + 1, b);
    } else if b < a {
      YearsAscend(b + 1, a);
    }
  }

  lemma OneMonth(dayOfYear: int, leap: bool, a: int, b: int)
    requires 1 <= a <= 12 && DaysBefore(a - 1, leap) <= dayOfYear < DaysBefore(a, leap)
    requires 1 <= b <= 12 && DaysBefore(b - 1, leap) <= dayOfYear < DaysBefore(b, leap)
    ensures a == b
  {
    hide DaysBefore;
    if a < b {
      MonthsAscend(a, b - 1, leap);
    } else if b < a {
      MonthsAscend(b, a - 1, leap);
    }
  }

  lemma DayIsInside(c: Civil)
    requires OnTheCalendar(c)
    ensures var leap := Leap(c.year);
            && DayFromYear(c.year) <= DayNumber(c) < DayFromYear(c.year + 1)
            && DaysBefore(c.month - 1, leap) <= DayNumber(c) - DayFromYear(c.year) < DaysBefore(c.month, leap)
  {
    var leap := Leap(c.year);
    CalendarCounts(c.month - 1, leap, c.year);
    MonthsAscend(c.month, 12, leap);
    WholeYear(c.year);
    hide DayFromYear, DaysBefore;
  }

  lemma WholeYear(year: int)
    ensures DayFromYear(year + 1) == DayFromYear(year) + DaysBefore(12, Leap(year))
  {
    YearLength(year);
  }

  lemma DayInYears(c: Civil)
    requires OnTheCalendar(c)
    ensures DayFromYear(0) <= DayNumber(c) < DayFromYear(10_000)
    ensures DayNumber(c) == DayFromYear(c.year) + DaysBefore(c.month - 1, Leap(c.year)) + c.day - 1
  {
    DayIsInside(c);
    hide DayFromYear, DaysBefore, Leap;
    YearsAscend(0, c.year);
    YearsAscend(c.year + 1, 10_000);
  }

  lemma DateOfDayNumber(c: Civil)
    requires OnTheCalendar(c)
    ensures DayFromYear(0) <= DayNumber(c) < DayFromYear(10_000)
    ensures DateOf(DayNumber(c)) == (c.year, c.month, c.day)
  {
    hide DayFromYear, DaysBefore, DateOf, DayNumber, Leap;
    var day := DayNumber(c);
    DayIsInside(c);
    DayInYears(c);
    var date := DateOf(day);
    OneYear(day, date.0, c.year);
    OneMonth(day - DayFromYear(c.year), Leap(c.year), date.1, c.month);
  }

  /** The instant of a date, in seconds. */
  function SecondsOf(c: Civil): int
    requires OnTheCalendar(c)
  {
    DayNumber(c) * 86_400 + ((c.hour * 60 + c.minute) * 60 + c.second)
  }

  /** Every date of the calendar is what is written for the seconds counted up to it. */
  lemma EveryDateIsWritten(c: Civil)
    requires OnTheCalendar(c)
    ensures InYears(SecondsOf(c), 0, 9999) && CivilOf(SecondsOf(c)) == c
  {
    hide DateOf, DayFromYear, DayNumber, ClockOf;
    var day, rest := DayNumber(c), (c.hour * 60 + c.minute) * 60 + c.second;
    DateOfDayNumber(c);
    ClockIs(c.hour, c.minute, c.second);
    SplitSeconds(day, rest);
    hide OnTheCalendar;
    WrittenFrom(day, rest, c);
  }

  lemma WrittenFrom(day: int, rest: nat, c: Civil)
    requires DayFromYear(0) <= day < DayFromYear(10_000) && rest < 86_400
    requires DateOf(day) == (c.year, c.month, c.day) && ClockOf(rest) == (c.hour, c.minute, c.second)
    ensures InYears(day * 86_400 + rest, 0, 9999) && CivilOf(day * 86_400 + rest) == c
  {
    hide DateOf, DayFromYear, ClockOf;
    SplitSeconds(day, rest);
  }

  lemma SplitSeconds(day: int, rest: int)
    requires 0 <= rest < 86_400
    ensures (day * 86_400 + rest) / SECONDS_PER_DAY == day && (day * 86_400 + rest) % SECONDS_PER_DAY == rest
  {
  }

  lemma ClockIs(hour: nat, minute: nat, second: nat)
    requires hour < 24 && minute < 60 && second < 60
    ensures (hour * 60 + minute) * 60 + second < SECONDS_PER_DAY
    ensures ClockOf((hour * 60 + minute) * 60 + second) == (hour, minute, second)
  {
  }

  lemma EpochIsZero()
    ensures OnTheCalendar(Civil(1970, 1, 1, 0, 0, 0)) && SecondsOf(Civil(1970, 1, 1, 0, 0, 0)) == 0
  {
  }

  lemma EpochDigits()
    ensures Pad(1970, 4) == "1970" && Pad(1, 2) == "01" && Pad(0, 2) == "00"
  {
    PadStep(1970, 4);
    PadStep(197, 3);
    PadStep(19, 2);
    assert Pad(1, 1) == "1";
  }

  lemma EpochStem()
    ensures Stem(Civil(1970, 1, 1, 0, 0, 0)) == "1970-01-01T00:00:00"
  {
    EpochDigits();
    hide Pad;
    assert "1970" + "-" + "01" + "-" + "01" == "1970-01-01";
    assert "00" + ":" + "00" + ":" + "00" == "00:00:00";
    assert "1970-01-01" + "T" + "00:00:00" == "1970-01-01T00:00:00";
  }

  lemma EpochIsWritten()
    ensures InYears(0, 0, 9999) && CivilOf(0) == Civil(1970, 1, 1, 0, 0, 0)
  {
    EpochIsZero();
    hide SecondsOf, CivilOf, InYears, OnTheCalendar;
    EveryDateIsWritten(Civil(1970, 1, 1, 0, 0, 0));
  }

  lemma SevenMillis()
    ensures Pad(7, 3) == "007"
  {
  }

  /** The epoch's own text, to the letter. */
  lemma EpochText()
    ensures InYears(0, 0, 9999) && Isoformat(0) == "1970-01-01T00:00:00+00:00"
  {
    EpochIsWritten();
    EpochStem();
    hide CivilOf, Stem, InYears, Pad;
    assert 0 / 1000 == 0 && 0 % 1000 == 0;
    assert "1970-01-01T00:00:00" + "" + "+00:00" == "1970-01-01T00:00:00+00:00";
  }

  /** Seven milliseconds later it has six digits more. */
  lemma EpochTextWithMillis()
    ensures InYears(0, 0, 9999) && Isoformat(7) == "1970-01-01T00:00:00.007000+00:00"
  {
    EpochIsWritten();
    EpochStem();
    SevenMillis();
    hide CivilOf, Stem, InYears, Pad;
    assert 7 / 1000 == 0 && 7 % 1000 == 7;
    assert "1970-01-01T00:00:00" + ("." + "007" + "000") + "+00:00" == "1970-01-01T00:00:00.007000+00:00";
  }

  // ---------------------------------------------------------------- every form parseIso takes

  /** One to six digits behind a dot, cut to three or filled up to three, are whole thousandths. */
  lemma FractionMeans(digits: string)
    requires |digits| <= 6 && AllDigits(digits)
    ensures AllDigits((digits + "000")[..3])
    ensures Pow10(|digits|) > 0
    ensures Number((digits + "000")[..3]) == Number(digits) * 1000 / Pow10(|digits|)
  {
    if |digits| < 3 {
      FilledUp(digits);
    } else {
      CutDown(digits);
    }
  }

  lemma Shifted(digits: string)
    requires AllDigits(digits)
    ensures AllDigits(digits + ['0']) && Number(digits + ['0']) == 10 * Number(digits)
  {
    NumberSnoc(digits, '0');
  }

  lemma FilledUp(digits: string)
    requires |digits| < 3 && AllDigits(digits)
    ensures AllDigits((digits + "000")[..3])
    ensures Pow10(|digits|) > 0
    ensures Number((digits + "000")[..3]) == Number(digits) * 1000 / Pow10(|digits|)
  {
    assert Pow10(0) == 1 && Pow10(1) == 10 && Pow10(2) == 100;
    if |digits| == 0 {
      ZerosReadAsZero();
      assert digits == "" && ("" + "000")[..3] == "000" && Number("") == 0;
    } else {
      hide Number, AllDigits, Pow10;
      Shifted(digits);
      Shifted(digits + ['0']);
      assert (digits + "000")[..3] == if |digits| == 1 then digits + ['0'] + ['0'] else digits + ['0'];
    }
  }

  lemma CutDown(digits: string)
    requires 3 <= |digits| <= 6 && AllDigits(digits)
    ensures AllDigits((digits + "000")[..3])
    ensures Pow10(|digits|) > 0
    ensures Number((digits + "000")[..3]) == Number(digits) * 1000 / Pow10(|digits|)
  {
    Widths();
    assert Pow10(5) == 100_000;
    assert (digits + "000")[..3] == digits[..3];
    DigitsCut(digits);
  }

  lemma {:induction false} DigitsCut(digits: string)
    requires 3 <= |digits| <= 6 && AllDigits(digits)
    ensures Pow10(|digits|) > 0
    ensures Number(digits[..3]) == Number(digits) * 1000 / Pow10(|digits|)
    decreases |digits|
  {
    Widths();
    var n := |digits|;
    if n == 3 {
      assert digits[..3] == digits;
    } else {
      var front := digits[..n - 1];
      assert Number(digits) == Number(front) * 10 + DigitValue(digits[n - 1]);
      assert front[..3] == digits[..3];
      DigitsCut(front);
      hide Number, AllDigits, IsDigit, DigitValue, Digit;
      OneDigitLess(Number(front), Number(digits), n);
    }
  }

  lemma OneDigitLess(front: nat, whole: nat, n: nat)
    requires 4 <= n <= 6 && front * 10 <= whole < front * 10 + 10
    ensures Pow10(n) > 0 && Pow10(n - 1) > 0 && whole * 1000 / Pow10(n) == front * 1000 / Pow10(n - 1)
  {
    Widths();
    assert Pow10(5) == 100_000;
    hide Pow10;
    assert front == whole / 10;
    if n == 4 {
      assert whole * 1000 / 10_000 == whole / 10;
    } else if n == 5 {
      assert whole * 1000 / 100_000 == whole / 100 == front / 10;
    } else {
      assert whole * 1000 / 1_000_000 == whole / 1000 == front / 100;
    }
  }

  /** The zones it takes: none, `Z`, or a sign with hours and minutes ahead of UTC. */
  datatype Zone = Unsaid | Zulu | Offset(behind: bool, hours: nat, minutes: nat)

  function ZoneText(zone: Zone): string {
    match zone
    case Unsaid => ""
    case Zulu => "Z"
    case Offset(behind, hours, minutes) => (if behind then "-" else "+") + Pad(hours, 2) + ":" + Pad(minutes, 2)
  }

  function AheadOfUtc(zone: Zone): int {
    match zone
    case Offset(behind, hours, minutes) => if behind then -(hours * 60 + minutes) else hours * 60 + minutes
    case _ => 0
  }

  predicate Spelled(zone: Zone) {
    zone.Offset? ==> zone.hours < 100 && zone.minutes < 100
  }

  lemma PlacesOfOffset(sign: char, hours: string, minutes: string)
    requires |hours| == |minutes| == 2
    ensures var text := [sign] + hours + ":" + minutes;
            |text| == 6 && text[0] == sign && text[3] == ':' && text[1..3] == hours && text[4..6] == minutes
  {
  }

  lemma OffsetReads(text: string)
    requires |text| == 6 && text[0] in {'+', '-'} && text[3] == ':' && AllDigits(text[1..3]) && AllDigits(text[4..6])
    ensures var ahead := Number(text[1..3]) * 60 + Number(text[4..6]);
            OffsetMinutes(text) == Some(if text[0] == '-' then -ahead else ahead)
  {
    hide AllDigits, Number;
  }

  lemma OffsetMeans(zone: Zone)
    requires Spelled(zone) && zone.Offset?
    ensures |ZoneText(zone)| == 6 && ZoneText(zone)[0] in {'+', '-'}
    ensures OffsetMinutes(ZoneText(zone)) == Some(AheadOfUtc(zone))
  {
    Widths();
    PadReadsBack(zone.hours, 2);
    PadReadsBack(zone.minutes, 2);
    hide Pad, Pow10, Number, AllDigits, OffsetMinutes;
    PlacesOfOffset(if zone.behind then '-' else '+', Pad(zone.hours, 2), Pad(zone.minutes, 2));
    OffsetReads(ZoneText(zone));
  }

  lemma ZoneMeans(zone: Zone)
    requires Spelled(zone)
    ensures OffsetMinutes(ZoneText(zone)) == Some(AheadOfUtc(zone))
    ensures ZoneText(zone) != "" ==> !IsDigit(ZoneText(zone)[0]) && ZoneText(zone)[0] != '.'
  {
    if zone.Offset? {
      OffsetMeans(zone);
      hide OffsetMinutes, Pad;
    }
  }

  lemma WholeRun(digits: string)
    requires AllDigits(digits)
    ensures DigitRun(digits) == |digits|
  {
    assert digits[..|digits|] == digits;
  }

  lemma FractionSplits(digits: string, rest: string)
    requires |digits| > 0 && AllDigits(digits) && (rest != "" ==> !IsDigit(rest[0]))
    ensures SplitFraction("." + (digits + rest)) == if |digits| <= 6 then Some((digits, rest)) else None
  {
    var text := "." + (digits + rest);
    assert text[1..] == digits + rest && (digits + rest)[..|digits|] == digits && (digits + rest)[|digits|..] == rest;
    if rest == "" {
      WholeRun(digits);
      assert digits + rest == digits;
    } else {
      RunOf(digits, rest);
    }
    hide DigitRun, AllDigits, IsDigit;
  }

  lemma EndingSplits(digits: string, zone: Zone)
    requires AllDigits(digits) && Spelled(zone)
    ensures var split := SplitFraction((if digits == "" then "" else "." + digits) + ZoneText(zone));
            if |digits| <= 6 then split == Some((digits, ZoneText(zone))) else split.None?
  {
    ZoneMeans(zone);
    var rest := ZoneText(zone);
    hide ZoneText, OffsetMinutes, DigitRun, AllDigits, IsDigit;
    if digits == "" {
      assert "" + rest == rest;
    } else {
      FractionSplits(digits, rest);
      hide SplitFraction;
      assert "." + digits + rest == "." + (digits + rest);
    }
  }

  /**
   * What a timestamp of any accepted form means: the date's own instant with its fraction cut to
   * thousandths, moved back by what its zone is ahead; a longer fraction is not read at all.
   */
  lemma EveryFormMeans(c: Civil, between: char, digits: string, zone: Zone)
    requires OnTheCalendar(c) && c.year >= 100 && between in {'T', ' '} && AllDigits(digits) && Spelled(zone)
    ensures var text := DateText(c) + [between] + ClockText(c)
                        + ((if digits == "" then "" else "." + digits) + ZoneText(zone));
            && (|digits| > 6 ==> ParseIso(text).None?)
            && (|digits| <= 6 ==>
                  && Pow10(|digits|) > 0
                  && ParseIso(text) == Some(SecondsOf(c) * 1000 + Number(digits) * 1000 / Pow10(|digits|)
                                            - AheadOfUtc(zone) * 60_000))
  {
    hide *;
    var tail := (if digits == "" then "" else "." + digits) + ZoneText(zone);
    var text := DateText(c) + [between] + ClockText(c) + tail;
    OnPaper(c);
    EndingSplits(digits, zone);
    ZoneMeans(zone);
    FormReadsBack(c, between, tail);
    if |digits| <= 6 {
      PartsParse(c, text, digits, ZoneText(zone), AheadOfUtc(zone));
      FractionMeans(digits);
      UtcIs(c, Number((digits + "000")[..3]));
    } else {
      IsShaped(c, text);
      Unsplit(text);
    }
  }

  lemma OnPaper(c: Civil)
    requires OnTheCalendar(c)
    ensures Writable(c)
  {
  }

  lemma IsShaped(c: Civil, text: string)
    requires Reads(c, text)
    ensures StemShaped(text) && |text| >= 19
  {
  }

  lemma PartsParse(c: Civil, text: string, digits: string, zone: string, ahead: int)
    requires Reads(c, text) && AllDigits(digits)
    requires SplitFraction(text[19..]) == Some((digits, zone)) && OffsetMinutes(zone) == Some(ahead)
    ensures AllDigits((digits + "000")[..3])
    ensures ParseIso(text)
            == Some(DateUtc(c.year, c.month - 1, c.day, c.hour, c.minute, c.second, Number((digits + "000")[..3]))
                    - ahead * 60_000)
  {
    hide StemShaped, SplitFraction, DateUtc, Number, OffsetMinutes;
    PaddedIsDigits(digits);
  }

  lemma Unsplit(text: string)
    requires StemShaped(text) && SplitFraction(text[19..]).None?
    ensures ParseIso(text).None?
  {
  }

  lemma UtcIs(c: Civil, millis: nat)
    requires OnTheCalendar(c) && c.year >= 100
    ensures DateUtc(c.year, c.month - 1, c.day, c.hour, c.minute, c.second, millis) == SecondsOf(c) * 1000 + millis
  {
    hide DayFromYear, DaysBefore;
  }
}
