/**
 Calendar days as the UTC date algorithms of ECMA-262 section 21.4.1 count them, and the
 date-key arithmetic built on them. A day is an integer, day 0 being 1 January 1970. A date key
 `YYYY-MM-DD` is the triple it spells. Months are numbered through: month 12*y + m is the
 zero-based month m of year y.
 */
module Calendar {
  const MS_PER_DAY := 86_400_000

  datatype DateKey = DateKey(year: int, month: int, day: int)

  const EPOCH := 12 * 1970

  predicate Leap(y: int) {
    y % 4 == 0 && (y % 100 != 0 || y % 400 == 0)
  }

  function DaysInMonth(leap: bool, m: int): (r: int)
    ensures 28 <= r <= 31
  {
    if m == 1 then (if leap then 29 else 28) else if m == 3 || m == 5 || m == 8 || m == 10 then 30 else 31
  }

  function MonthLength(month: int): (r: int)
    ensures 28 <= r <= 31
  {
    DaysInMonth(Leap(month / 12), month % 12)
  }

  /** The day number of the first day of a numbered-through month, counted out from the epoch. */
  function FirstDay(month: int): int
    decreases if month < EPOCH then EPOCH - month else month - EPOCH
  {
    if month < EPOCH then FirstDay(month + 1) - MonthLength(month)
    else if month == EPOCH then 0
    else FirstDay(month - 1) + MonthLength(month - 1)
  }

  lemma FirstDayStep(month: int)
    ensures FirstDay(month + 1) == FirstDay(month) + MonthLength(month)
  {
  }

  /** The days a span of n months covers: between 28 and 31 for each. */
  lemma {:induction false} SpanBounds(month: int, n: nat)
    ensures 28 * n <= FirstDay(month + n) - FirstDay(month) <= 31 * n
    decreases n
  {
    hide FirstDay;
    if n > 0 {
      SpanBounds(month, n - 1);
      FirstDayStep(month + n - 1);
    }
  }

  /** MakeDay of ECMA-262: `month` is zero-based, and both it and `date` may be out of range. */
  function MakeDay(year: int, month: int, date: int): int {
    FirstDay(12 * year + month) + date - 1
  }

  predicate Valid(k: DateKey) {
    1 <= k.month <= 12 && 1 <= k.day <= MonthLength(12 * k.year + k.month - 1)
  }

  /** The day number a date key denotes. */
  function ToDay(k: DateKey): int {
    MakeDay(k.year, k.month - 1, k.day)
  }

  /** The month that contains a day, searched for from a month at or before it. */
  function MonthOnward(day: int, from: int): (month: int)
    requires FirstDay(from) <= day
    ensures FirstDay(month) <= day < FirstDay(month + 1)
    decreases day - FirstDay(from)
  {
    FirstDayStep(from);
    if FirstDay(from + 1) <= day then MonthOnward(day, from + 1) else from
  }

  /** The month that contains a day, searched for from a month at or after it. */
  function MonthBack(day: int, from: int): (month: int)
    requires day < FirstDay(from + 1)
    ensures FirstDay(month) <= day < FirstDay(month + 1)
    decreases FirstDay(from + 1) - day
  {
    FirstDayStep(from);
    if day < FirstDay(from) then MonthBack(day, from - 1) else from
  }

  /** The date key of a day: what `toISOString` spells in its first ten characters. */
  function FromDay(day: int): (k: DateKey)
    ensures Valid(k) && ToDay(k) == day
  {
    var month := if day < 0 then MonthBack(day, EPOCH - 1) else MonthOnward(day, EPOCH);
    DateKey(month / 12, month % 12 + 1, day - FirstDay(month) + 1)
  }

  lemma LaterMonth(a: int, b: int)
    requires a < b
    ensures FirstDay(a + 1) <= FirstDay(b)
  {
    hide FirstDay;
    SpanBounds(a + 1, b - a - 1);
  }

  /** Date keys and day numbers are the same thing written twice. */
  lemma KeyRoundTrip(k: DateKey)
    requires Valid(k)
    ensures FromDay(ToDay(k)) == k
  {
    SameKey(FromDay(ToDay(k)), k);
  }

  lemma SameKey(a: DateKey, b: DateKey)
    requires Valid(a) && Valid(b) && ToDay(a) == ToDay(b)
    ensures a == b
  {
    hide FirstDay;
    var ma, mb := 12 * a.year + a.month - 1, 12 * b.year + b.month - 1;
    FirstDayStep(ma);
    FirstDayStep(mb);
    if ma < mb {
      LaterMonth(ma, mb);
    } else if mb < ma {
      LaterMonth(mb, ma);
    }
  }

  /** Keys sort as text exactly as their days sort in time. */
  lemma KeyOrder(a: DateKey, b: DateKey)
    requires Valid(a) && Valid(b)
    ensures ToDay(a) < ToDay(b) <==>
            a.year < b.year || (a.year == b.year && (a.month < b.month || (a.month == b.month && a.day < b.day)))
  {
    hide FirstDay;
    var ma, mb := 12 * a.year + a.month - 1, 12 * b.year + b.month - 1;
    if ma < mb {
      EarlierMonth(a, b);
    } else if mb < ma {
      EarlierMonth(b, a);
    } else {
      assert a.year == b.year && a.month == b.month;
    }
  }

  lemma EarlierMonth(a: DateKey, b: DateKey)
    requires Valid(a) && Valid(b) && 12 * a.year + a.month < 12 * b.year + b.month
    ensures ToDay(a) < ToDay(b)
  {
    FirstDayStep(12 * a.year + a.month - 1);
    LaterMonth(12 * a.year + a.month - 1, 12 * b.year + b.month - 1);
  }

  /** The UTC midnight a date key names, in milliseconds. */
  function DateKeyToUtcDate(k: DateKey): int {
    ToDay(k) * MS_PER_DAY
  }

  /** WeekDay of ECMA-262; 0 is Sunday. */
  function WeekDay(day: int): int {
    (day + 4) % 7
  }

  /** setUTCDate moves the day of the month, overflowing into other months and years. */
  function AddDaysToDateKey(k: DateKey, days: int): (r: DateKey)
    ensures Valid(r) && ToDay(r) == ToDay(k) + days
  {
    hide FirstDay;
    FromDay(MakeDay(k.year, k.month - 1, k.day + days))
  }

  function StartOfIsoWeekDateKey(k: DateKey): (r: DateKey)
    ensures Valid(r) && WeekDay(ToDay(r)) == 1 && 0 <= ToDay(k) - ToDay(r) <= 6
  {
    var dayOfWeek := WeekDay(ToDay(k));
    var daysFromMonday := if dayOfWeek == 0 then 6 else dayOfWeek - 1;
    AddDaysToDateKey(k, -daysFromMonday)
  }

  function CalendarDayDifference(later: DateKey, earlier: DateKey): (n: int)
    ensures n == ToDay(later) - ToDay(earlier)
  {
    (DateKeyToUtcDate(later) - DateKeyToUtcDate(earlier)) / MS_PER_DAY
  }

  /** Adding a days and then b days is adding a + b days; adding none changes nothing. */
  lemma AddDaysComposes(k: DateKey, a: int, b: int)
    requires Valid(k)
    ensures AddDaysToDateKey(AddDaysToDateKey(k, a), b) == AddDaysToDateKey(k, a + b)
    ensures AddDaysToDateKey(k, 0) == k
    ensures CalendarDayDifference(AddDaysToDateKey(k, a), k) == a
  {
    hide FirstDay, FromDay;
    KeyRoundTrip(AddDaysToDateKey(AddDaysToDateKey(k, a), b));
    KeyRoundTrip(AddDaysToDateKey(k, a + b));
    KeyRoundTrip(AddDaysToDateKey(k, 0));
    KeyRoundTrip(k);
  }

  lemma OneMondayInSeven(s: int, t: int, d: int)
    requires WeekDay(s) == WeekDay(t) == 1 && 0 <= d - s < 7 && 0 <= d - t < 7
    ensures s == t
  {
  }

  lemma SameWeekStart(k: DateKey, j: DateKey)
    requires Valid(k) && Valid(j)
    ensures StartOfIsoWeekDateKey(j) == StartOfIsoWeekDateKey(k) <==>
            0 <= ToDay(j) - ToDay(StartOfIsoWeekDateKey(k)) < 7
  {
    var s, t := StartOfIsoWeekDateKey(k), StartOfIsoWeekDateKey(j);
    if 0 <= ToDay(j) - ToDay(s) < 7 {
      OneMondayInSeven(ToDay(s), ToDay(t), ToDay(j));
      SameKey(t, s);
    }
  }

  /** Weeks partition the calendar: two days share a week start exactly when one lies in the other's seven. */
  lemma IsoWeeksPartition(k: DateKey, j: DateKey)
    requires Valid(k) && Valid(j)
    ensures StartOfIsoWeekDateKey(StartOfIsoWeekDateKey(k)) == StartOfIsoWeekDateKey(k)
    ensures StartOfIsoWeekDateKey(j) == StartOfIsoWeekDateKey(k) <==>
            exists i :: 0 <= i < 7 && j == AddDaysToDateKey(StartOfIsoWeekDateKey(k), i)
  {
    var s := StartOfIsoWeekDateKey(k);
    SameWeekStart(k, j);
    SameWeekStart(k, s);
    var i := ToDay(j) - ToDay(s);
    SameKey(AddDaysToDateKey(s, i), j);
  }

  /** DayFromYear of ECMA-262: the closed form for the day number of 1 January of a year. */
  function DayFromYear(y: int): int {
    365 * (y - 1970) + (y - 1969) / 4 - (y - 1901) / 100 + (y - 1601) / 400
  }

  lemma FourthStep(y: int)
    ensures (y - 1968) / 4 == (y - 1969) / 4 + if y % 4 == 0 then 1 else 0
  {
  }

  lemma HundredthStep(y: int)
    ensures (y - 1900) / 100 == (y - 1901) / 100 + if y % 100 == 0 then 1 else 0
  {
  }

  lemma FourHundredthStep(y: int)
    ensures (y - 1600) / 400 == (y - 1601) / 400 + if y % 400 == 0 then 1 else 0
  {
  }

  lemma DivisorsOf400(y: int)
    ensures y % 400 == 0 ==> y % 100 == 0
    ensures y % 100 == 0 ==> y % 4 == 0
  {
  }

  lemma ClosedFormStep(y: int)
    ensures DayFromYear(y + 1) - DayFromYear(y) == if Leap(y) then 366 else 365
  {
    FourthStep(y);
    HundredthStep(y);
    FourHundredthStep(y);
    DivisorsOf400(y);
  }

  /** Days of a year that precede its zero-based month m. */
  function DaysBefore(leap: bool, m: nat): int {
    if m == 0 then 0 else DaysBefore(leap, m - 1) + DaysInMonth(leap, m - 1)
  }

  lemma {:induction false} MonthInYear(y: int, m: nat)
    requires m <= 12
    ensures FirstDay(12 * y + m) == FirstDay(12 * y) + DaysBefore(Leap(y), m)
  {
    hide FirstDay;
    if m > 0 {
      MonthInYear(y, m - 1);
      assert (12 * y + m - 1) / 12 == y && (12 * y + m - 1) % 12 == m - 1;
      FirstDayStep(12 * y + m - 1);
    }
  }

  /** The months as the calendar has them, and the days before each as ECMA-262 tabulates them. */
  lemma MonthTable(leap: bool)
    ensures DaysInMonth(leap, 0) == 31 && DaysInMonth(leap, 1) == (if leap then 29 else 28) && DaysInMonth(leap, 2) == 31
    ensures DaysInMonth(leap, 3) == 30 && DaysInMonth(leap, 4) == 31 && DaysInMonth(leap, 5) == 30
    ensures DaysInMonth(leap, 6) == 31 && DaysInMonth(leap, 7) == 31 && DaysInMonth(leap, 8) == 30
    ensures DaysInMonth(leap, 9) == 31 && DaysInMonth(leap, 10) == 30 && DaysInMonth(leap, 11) == 31
    ensures DaysBefore(leap, 3) == (if leap then 91 else 90) && DaysBefore(leap, 6) == (if leap then 182 else 181)
            && DaysBefore(leap, 9) == (if leap then 274 else 273)
  {
    assert DaysBefore(leap, 1) == 31;
    assert DaysBefore(leap, 2) == if leap then 60 else 59;
    assert DaysBefore(leap, 4) == if leap then 121 else 120;
    assert DaysBefore(leap, 5) == if leap then 152 else 151;
    assert DaysBefore(leap, 7) == if leap then 213 else 212;
    assert DaysBefore(leap, 8) == if leap then 244 else 243;
  }

  lemma YearTotal(leap: bool)
    ensures DaysBefore(leap, 7) == if leap then 213 else 212
    ensures DaysBefore(leap, 12) == if leap then 366 else 365
  {
    assert DaysBefore(leap, 1) == 31;
    assert DaysBefore(leap, 2) == if leap then 60 else 59;
    assert DaysBefore(leap, 4) == if leap then 121 else 120;
    assert DaysBefore(leap, 6) == if leap then 182 else 181;
    assert DaysBefore(leap, 8) == if leap then 244 else 243;
    assert DaysBefore(leap, 10) == if leap then 305 else 304;
  }

  lemma YearLength(y: int)
    ensures FirstDay(12 * (y + 1)) - FirstDay(12 * y) == if Leap(y) then 366 else 365
  {
    hide FirstDay;
    MonthInYear(y, 12);
    YearTotal(Leap(y));
  }

  /** Counting months out from the epoch agrees with the closed form of ECMA-262, in every year. */
  lemma {:induction false} CountedDaysMatchClosedForm(y: int)
    ensures FirstDay(12 * y) == DayFromYear(y)
    decreases if y < 1970 then 1970 - y else y - 1970
  {
    if y < 1970 {
      CountedDaysMatchClosedForm(y + 1);
      YearLength(y);
      ClosedFormStep(y);
    } else if y > 1970 {
      CountedDaysMatchClosedForm(y - 1);
      YearLength(y - 1);
      ClosedFormStep(y - 1);
    }
  }

  lemma Summer2026()
    ensures FirstDay(24318) == 20635 && FirstDay(24319) == 20666
  {
    hide FirstDay;
    CountedDaysMatchClosedForm(2026);
    MonthInYear(2026, 6);
    MonthInYear(2026, 7);
    YearTotal(false);
  }

  /** A known week: Sunday 2 August 2026 belongs to the week of Monday 27 July. */
  lemma KnownWeek()
    ensures StartOfIsoWeekDateKey(DateKey(2026, 8, 2)) == DateKey(2026, 7, 27)
  {
    hide FirstDay, StartOfIsoWeekDateKey;
    Summer2026();
    var sunday, monday := DateKey(2026, 8, 2), DateKey(2026, 7, 27);
    assert ToDay(sunday) == FirstDay(24319) + 1 && ToDay(monday) == FirstDay(24318) + 26;
    OneMondayInSeven(ToDay(StartOfIsoWeekDateKey(sunday)), 20661, 20667);
    SameKey(StartOfIsoWeekDateKey(sunday), monday);
  }
}
