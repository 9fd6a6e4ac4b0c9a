/** The proleptic Gregorian calendar, counted in days from 1 January of year 1. */
module Calendar {

  datatype Date = Date(year: int, month: int, day: int)

  predicate Leap(y: int)
  {
    y % 4 == 0 && (y % 100 != 0 || y % 400 == 0)
  }

  function DaysIn(y: int, m: int): nat
  {
    if m == 2 then (if Leap(y) then 29 else 28)
    else if m == 4 || m == 6 || m == 9 || m == 11 then 30
    else 31
  }

  function YearLength(y: int): nat { if Leap(y) then 366 else 365 }

  predicate ValidDate(d: Date)
  {
    1 <= d.month <= 12 && 1 <= d.day <= DaysIn(d.year, d.month)
  }

  /** The number of days before 1 January of year y. */
  function YearStart(y: int): int
  {
    var k := y - 1;
    365 * k + k / 4 - k / 100 + k / 400
  }

  /** The number of days of year y before month m. */
  function MonthStart(y: int, m: int): nat
    requires 1 <= m <= 13
    decreases m
  {
    if m == 1 then 0 else MonthStart(y, m - 1) + DaysIn(y, m - 1)
  }

  function DayNumber(d: Date): int
    requires ValidDate(d)
  {
    YearStart(d.year) + MonthStart(d.year, d.month) + d.day - 1
  }

  /** 0 is Sunday; 1 January of year 1 was a Monday. */
  function Weekday(n: int): nat { (n + 1) % 7 }

  function YearOf(n: int): int
  {
    var guess := 400 * n / 146097 + 1;
    if n < YearStart(guess) then guess - 1
    else if n >= YearStart(guess + 1) then guess + 1
    else guess
  }

  function MonthFrom(y: int, m: int, rest: nat): Date
    requires 1 <= m <= 12
    decreases 12 - m
  {
    if m == 12 || rest < DaysIn(y, m) then Date(y, m, rest + 1) else MonthFrom(y, m + 1, rest - DaysIn(y, m))
  }

  function DateOf(n: int): Date
  {
    YearOfIsRight(n);
    MonthFrom(YearOf(n), 1, n - YearStart(YearOf(n)))
  }

  lemma {:induction false} YearStep(y: int)
    ensures YearStart(y + 1) == YearStart(y) + YearLength(y)
  {
    DivStep(y - 1, 4);
    DivStep(y - 1, 100);
    DivStep(y - 1, 400);
    LeapByCentury(y);
  }

  lemma {:induction false} DivStep(k: int, n: int)
    requires n == 4 || n == 100 || n == 400
    ensures (k + 1) / n == k / n + if (k + 1) % n == 0 then 1 else 0
  {
    if n == 4 { } else if n == 100 { } else { }
  }

  lemma {:induction false} LeapByCentury(y: int)
    ensures y % 400 == 0 ==> y % 100 == 0
    ensures y % 100 == 0 ==> y % 4 == 0
  {
    if y % 400 == 0 { Hundreds(4 * (y / 400)); }
    if y % 100 == 0 { Fours(25 * (y / 100)); }
  }

  lemma {:induction false} Hundreds(k: int)
    ensures 100 * k % 100 == 0
  {
  }

  lemma {:induction false} Fours(k: int)
    ensures 4 * k % 4 == 0
  {
  }

  lemma {:induction false} YearStartMonotone(a: int, b: int)
    requires a <= b
    ensures YearStart(a) + 365 * (b - a) <= YearStart(b) <= YearStart(a) + 366 * (b - a)
    decreases b - a
  {
    if a < b {
      YearStartMonotone(a, b - 1);
      YearStep(b - 1);
    }
  }

  lemma {:induction false} YearStartNearMean(y: int)
    ensures var k := y - 1; 146097 * k - 700 <= 400 * YearStart(y) <= 146097 * k + 396
  {
    var k := y - 1;
    var a, b, c := k % 4, k % 100, k % 400;
    assert 4 * (k / 4) == k - a && 100 * (k / 100) == k - b && 400 * (k / 400) == k - c;
  }

  lemma {:induction false} YearOfIsRight(n: int)
    ensures YearStart(YearOf(n)) <= n < YearStart(YearOf(n) + 1)
  {
    var g := 400 * n / 146097 + 1;
    YearStartNearMean(g - 1);
    YearStartNearMean(g);
    YearStartNearMean(g + 1);
    YearStartNearMean(g + 2);
  }

  lemma {:induction false} MonthsFillYear(y: int, m: int)
    requires 1 <= m <= 13
    ensures MonthStart(y, m) == [0, 31, 59, 90, 120, 151, 181, 212, 243, 273, 304, 334, 365][m - 1]
                                + if m > 2 && Leap(y) then 1 else 0
    decreases m
  {
    if m > 1 { MonthsFillYear(y, m - 1); }
  }

  lemma {:induction false} MonthsEndYear(y: int)
    ensures MonthStart(y, 13) == MonthStart(y, 12) + 31 == YearLength(y)
  {
    MonthsFillYear(y, 13);
    MonthsFillYear(y, 12);
  }

  lemma {:induction false} MonthFromIsRight(y: int, m: int, rest: nat)
    requires 1 <= m <= 12 && MonthStart(y, m) + rest < YearLength(y)
    ensures var d := MonthFrom(y, m, rest);
      ValidDate(d) && d.year == y && MonthStart(y, d.month) + d.day - 1 == MonthStart(y, m) + rest
    decreases 12 - m
  {
    MonthsEndYear(y);
    hide YearLength, Leap;
    if m < 12 && rest >= DaysIn(y, m) {
      MonthFromIsRight(y, m + 1, rest - DaysIn(y, m));
    }
  }

  /** Reading a day number as a date and counting it again gives the same day. */
  lemma {:induction false} DateOfDay(n: int)
    ensures ValidDate(DateOf(n)) && DayNumber(DateOf(n)) == n
  {
    YearOfIsRight(n);
    YearStep(YearOf(n));
    MonthFromIsRight(YearOf(n), 1, n - YearStart(YearOf(n)));
  }

  /** Dates in calendar order. */
  predicate Before(a: Date, b: Date)
  {
    a.year < b.year || (a.year == b.year && (a.month < b.month || (a.month == b.month && a.day < b.day)))
  }

  lemma {:induction false} MonthsGrow(y: int, a: int, b: int)
    requires 1 <= a < b <= 13
    ensures MonthStart(y, a) + DaysIn(y, a) <= MonthStart(y, b)
    decreases b
  {
    if a < b - 1 { MonthsGrow(y, a, b - 1); }
  }

  lemma {:induction false} WithinYear(d: Date)
    requires ValidDate(d)
    ensures YearStart(d.year) <= DayNumber(d) < YearStart(d.year + 1)
  {
    MonthsGrow(d.year, d.month, 13);
    MonthsFillYear(d.year, 13);
    YearStep(d.year);
  }

  /** Calendar order is day-number order. */
  lemma {:induction false} DayNumberOrder(a: Date, b: Date)
    requires ValidDate(a) && ValidDate(b) && Before(a, b)
    ensures DayNumber(a) < DayNumber(b)
  {
    if a.year < b.year {
      WithinYear(a);
      WithinYear(b);
      YearStartMonotone(a.year + 1, b.year);
    } else if a.month < b.month {
      MonthsGrow(a.year, a.month, b.month);
    }
  }

  /** Counting a date's day and reading it back gives the same date. */
  lemma {:induction false} DayOfDate(d: Date)
    requires ValidDate(d)
    ensures DateOf(DayNumber(d)) == d
  {
    var e := DateOf(DayNumber(d));
    DateOfDay(DayNumber(d));
    if Before(d, e) { DayNumberOrder(d, e); }
    if Before(e, d) { DayNumberOrder(e, d); }
  }

  // ----- How far apart equal calendar positions can be -----

  /** Every weekday occurs in the first seven days of a month. */
  lemma {:induction false} WeekdayInMonth(y: int, m: int, w: nat) returns (n: int)
    requires 1 <= m <= 12 && w < 7
    ensures YearStart(y) <= n < YearStart(y + 1) && DateOf(n).month == m && Weekday(n) == w
  {
    var offset := DaysUntil(DayNumber(Date(y, m, 1)), w);
    var d := Date(y, m, 1 + offset);
    n := DayNumber(d);
    DayOfDate(d);
    WithinYear(d);
  }

  lemma {:induction false} DaysUntil(first: int, w: nat) returns (offset: nat)
    requires w < 7
    ensures offset < 7 && Weekday(first + offset) == w
  {
    var x := Weekday(first);
    offset := if w >= x then w - x else w + 7 - x;
    assert first + 1 == 7 * ((first + 1) / 7) + x;
  }

  lemma {:induction false} WeekdayWithinTwoYears(m: int, w: nat, start: int) returns (n: int)
    requires 1 <= m <= 12 && w < 7
    ensures start <= n < start + 732 && DateOf(n).month == m && Weekday(n) == w
  {
    hide YearStart, YearOf, DateOf, Weekday;
    var y := YearOf(start);
    YearOfIsRight(start);
    YearStep(y);
    YearStep(y + 1);
    n := WeekdayInMonth(y + 1, m, w);
  }

  /** A day of a month that exists in every year occurs in any two years. */
  lemma {:induction false} OrdinaryDayWithinTwoYears(m: int, d: int, start: int) returns (n: int)
    requires ValidDate(Date(2001, m, d))
    ensures start <= n < start + 732 && DateOf(n).month == m && DateOf(n).day == d
  {
    var y := YearOf(start);
    YearOfIsRight(start);
    YearStep(y);
    YearStep(y + 1);
    var here, there := Date(y, m, d), Date(y + 1, m, d);
    assert ValidDate(here) && ValidDate(there);
    WithinYear(here);
    WithinYear(there);
    DayOfDate(here);
    DayOfDate(there);
    n := if DayNumber(here) >= start then DayNumber(here) else DayNumber(there);
  }

  lemma {:induction false} LeapSoon(y: int) returns (b: int)
    ensures Leap(b) && y < b <= y + 8 && (!Leap(y) ==> b <= y + 7)
  {
    var a := y + 4 - y % 4;
    MultipleOfFour(y);
    b := if Leap(a) then a else a + 4;
    if a % 100 == 0 {
      NextToCentury(a);
    }
  }

  lemma {:induction false} MultipleOfFour(y: int)
    ensures (y + 4 - y % 4) % 4 == 0
    ensures y % 4 == 0 ==> (y + 4) % 4 == 0
  {
  }

  lemma {:induction false} NextToCentury(a: int)
    requires a % 100 == 0
    ensures Leap(a + 4) && Leap(a - 4)
  {
    LeapByCentury(a);
    FourOff(a / 100);
    assert a == 100 * (a / 100);
  }

  lemma {:induction false} FourOff(c: int)
    ensures (100 * c + 4) % 100 == 4 && (100 * c - 4) % 100 == 96
  {
  }

  /** The next leap year is at most eight years on, and at most seven after a common year. */
  lemma {:induction false} NextLeap(y: int) returns (l: int)
    ensures Leap(l) && y < l <= y + 8 && (!Leap(y) ==> l <= y + 7)
    ensures forall x :: y < x < l ==> !Leap(x)
  {
    var b := LeapSoon(y);
    l := y + 1;
    while !Leap(l)
      invariant y < l <= b
      invariant forall x :: y < x < l ==> !Leap(x)
      decreases b - l
    {
      l := l + 1;
    }
  }

  lemma {:induction false} CommonYears(y: int, l: int)
    requires y <= l && forall x :: y <= x < l ==> !Leap(x)
    ensures YearStart(l) == YearStart(y) + 365 * (l - y)
    decreases l - y
  {
    if y < l {
      CommonYears(y, l - 1);
      YearStep(l - 1);
    }
  }

  lemma {:induction false} LeapDayOf(y: int) returns (n: int)
    requires Leap(y)
    ensures n == YearStart(y) + 59 && DateOf(n).month == 2 && DateOf(n).day == 29
  {
    hide YearStart, DateOf;
    n := DayNumber(Date(y, 2, 29));
    MonthsFillYear(y, 2);
    DayOfDate(Date(y, 2, 29));
  }

  /** 29 February comes back within 2921 days, the gap around a common century year. */
  lemma {:induction false} LeapDayWithinEightYears(start: int) returns (n: int)
    ensures start <= n < start + 2921 && DateOf(n).month == 2 && DateOf(n).day == 29
  {
    hide YearStart, YearOf, DateOf, Leap;
    var y := YearOf(start);
    YearOfIsRight(start);
    YearStep(y);
    if Leap(y) && YearStart(y) + 59 >= start {
      n := LeapDayOf(y);
    } else {
      var l := NextLeap(y);
      CommonYears(y + 1, l);
      n := LeapDayOf(l);
    }
  }
}
