/**
 * The calendar model behind the date adapter: an instant is a day number in
 * the proleptic Gregorian calendar (day 0 is 1970-01-01) together with a
 * millisecond of that day. Everything happens in one fixed zone whose days
 * all last 86 400 000 ms.
 *
 * Civil dates are found from day numbers by walking whole years and then the
 * month table, so every fact about the conversion is proved by induction or
 * by a case split rather than by division identities.
 */
module CalendarDates {

  const MsPerDay: int := 86400000
  const LastMs: int := 86399999

  type MsOfDay = x: int | 0 <= x < 86400000

  predicate IsLeap(y: int) {
    y % 4 == 0 && (y % 100 != 0 || y % 400 == 0)
  }

  function DaysInYear(y: int): int {
    if IsLeap(y) then 366 else 365
  }

  predicate ValidMonth(m: int) { 1 <= m <= 12 }

  /** Length of month m (1 = January) of year y. */
  function DaysInMonth(y: int, m: int): (n: int)
    requires ValidMonth(m)
    ensures 28 <= n <= 31
    ensures n == 29 <==> m == 2 && IsLeap(y)
  {
    if m == 2 then (if IsLeap(y) then 29 else 28)
    else if m == 4 || m == 6 || m == 9 || m == 11 then 30
    else 31
  }

  /** Days of year y that come before the first of month m; month 13 closes the year. */
  function DaysBeforeMonth(y: int, m: int): int
    requires 1 <= m <= 13
  {
    (if m == 1 then 0 else if m == 2 then 31 else if m == 3 then 59
     else if m == 4 then 90 else if m == 5 then 120 else if m == 6 then 151
     else if m == 7 then 181 else if m == 8 then 212 else if m == 9 then 243
     else if m == 10 then 273 else if m == 11 then 304 else if m == 12 then 334
     else 365)
    + (if m > 2 && IsLeap(y) then 1 else 0)
  }

  /** The month table is the running sum of the month lengths and ends with the year length. */
  lemma MonthTable(y: int, m: int)
    requires ValidMonth(m)
    ensures DaysBeforeMonth(y, m + 1) == DaysBeforeMonth(y, m) + DaysInMonth(y, m)
    ensures DaysBeforeMonth(y, 13) == DaysInYear(y)
    ensures 0 <= DaysBeforeMonth(y, m)
  {
  }

  /** Day number of 1 January of year y. */
  function YearStart(y: int): int
    decreases if y >= 1970 then y - 1970 else 1970 - y
  {
    if y == 1970 then 0
    else if y > 1970 then YearStart(y - 1) + DaysInYear(y - 1)
    else YearStart(y + 1) - DaysInYear(y)
  }

  lemma YearStartStep(y: int)
    ensures YearStart(y + 1) == YearStart(y) + DaysInYear(y)
  {
  }

  /** Later years start later: the year spans never overlap. */
  lemma {:induction false} YearStartMono(a: int, b: int)
    requires a < b
    ensures YearStart(a) + DaysInYear(a) <= YearStart(b)
    decreases b - a
  {
    YearStartStep(a);
    if a + 1 < b {
      YearStartMono(a + 1, b);
      YearStartStep(a + 1);
    }
  }

  /** A day number lies in exactly one year span. */
  lemma YearUnique(z: int, a: int, b: int)
    requires YearStart(a) <= z < YearStart(a) + DaysInYear(a)
    requires YearStart(b) <= z < YearStart(b) + DaysInYear(b)
    ensures a == b
  {
    if a < b { YearStartMono(a, b); }
    if b < a { YearStartMono(b, a); }
  }

  function YearUp(z: int, y: int): (r: int)
    requires YearStart(y) <= z
    ensures YearStart(r) <= z < YearStart(r) + DaysInYear(r)
    decreases z - YearStart(y)
  {
    YearStartStep(y);
    if z < YearStart(y) + DaysInYear(y) then y else YearUp(z, y + 1)
  }

  function YearDown(z: int, y: int): (r: int)
    requires z < YearStart(y) + DaysInYear(y)
    ensures YearStart(r) <= z < YearStart(r) + DaysInYear(r)
    decreases YearStart(y) + DaysInYear(y) - z
  {
    YearStartStep(y - 1);
    if YearStart(y) <= z then y else YearDown(z, y - 1)
  }

  /** The year whose span holds day number z. */
  function YearOf(z: int): (y: int)
    ensures YearStart(y) <= z < YearStart(y) + DaysInYear(y)
  {
    if z >= 0 then YearUp(z, 1970) else YearDown(z, 1969)
  }

  function MonthUp(y: int, doy: int, m: int): (r: int)
    requires ValidMonth(m) && DaysBeforeMonth(y, m) <= doy < DaysInYear(y)
    ensures ValidMonth(r) && DaysBeforeMonth(y, r) <= doy < DaysBeforeMonth(y, r + 1)
    decreases 12 - m
  {
    MonthTable(y, m);
    if doy < DaysBeforeMonth(y, m + 1) then m else MonthUp(y, doy, m + 1)
  }

  datatype CivilDate = CivilDate(year: int, month: int, day: int)

  predicate ValidCivil(c: CivilDate) {
    ValidMonth(c.month) && 1 <= c.day <= DaysInMonth(c.year, c.month)
  }

  /** Day number of a civil date. */
  function DayNumber(c: CivilDate): int
    requires ValidCivil(c)
  {
    YearStart(c.year) + DaysBeforeMonth(c.year, c.month) + c.day - 1
  }

  /** The civil date of day number z; DayNumber undoes it. */
  function CivilOf(z: int): (c: CivilDate)
    ensures ValidCivil(c) && DayNumber(c) == z
  {
    var y := YearOf(z);
    MonthTable(y, 1);
    var m := MonthUp(y, z - YearStart(y), 1);
    MonthTable(y, m);
    CivilDate(y, m, z - YearStart(y) - DaysBeforeMonth(y, m) + 1)
  }

  lemma MonthUnique(y: int, doy: int, a: int, b: int)
    requires ValidMonth(a) && ValidMonth(b)
    requires DaysBeforeMonth(y, a) <= doy < DaysBeforeMonth(y, a + 1)
    requires DaysBeforeMonth(y, b) <= doy < DaysBeforeMonth(y, b + 1)
    ensures a == b
  {
  }

  /** CivilOf undoes DayNumber: distinct civil dates have distinct day numbers. */
  lemma CivilOfDayNumber(c: CivilDate)
    requires ValidCivil(c)
    ensures CivilOf(DayNumber(c)) == c
  {
    var z := DayNumber(c);
    var r := CivilOf(z);
    MonthTable(c.year, c.month);
    MonthTable(c.year, 12);
    assert DaysBeforeMonth(c.year, c.month + 1) <= DaysBeforeMonth(c.year, 13);
    YearUnique(z, c.year, r.year);
    MonthTable(r.year, r.month);
    MonthUnique(c.year, z - YearStart(c.year), c.month, r.month);
  }

  /** Day numbers of the same month are consecutive. */
  lemma DayNumberInMonth(y: int, m: int, d: int, e: int)
    requires ValidMonth(m) && 1 <= d <= DaysInMonth(y, m) && 1 <= e <= DaysInMonth(y, m)
    ensures DayNumber(CivilDate(y, m, e)) == DayNumber(CivilDate(y, m, d)) + (e - d)
  {
  }

  /** Month indices: year * 12 + (month - 1). */
  function MonthIndex(c: CivilDate): int { c.year * 12 + c.month - 1 }

  /** Later months start later. */
  lemma {:induction false} MonthStartMono(y1: int, m1: int, y2: int, m2: int)
    requires ValidMonth(m1) && ValidMonth(m2)
    requires y1 * 12 + m1 < y2 * 12 + m2
    ensures DayNumber(CivilDate(y1, m1, DaysInMonth(y1, m1))) < DayNumber(CivilDate(y2, m2, 1))
  {
    MonthTable(y1, m1);
    MonthTable(y1, 12);
    if y1 < y2 {
      YearStartMono(y1, y2);
      assert DaysBeforeMonth(y1, m1 + 1) <= DaysBeforeMonth(y1, 13);
    } else {
      assert y1 == y2 && m1 < m2;
      if m1 + 1 < m2 { MonthTable(y1, m1 + 1); MonthDays(y1, m1 + 1, m2); }
    }
  }

  lemma {:induction false} MonthDays(y: int, a: int, b: int)
    requires 1 <= a <= b <= 13
    ensures DaysBeforeMonth(y, a) <= DaysBeforeMonth(y, b)
    decreases b - a
  {
    if a < b { MonthTable(y, a); MonthDays(y, a + 1, b); }
  }

  // ---------------------------------------------------------------------
  // Instants

  datatype Date = Date(day: int, ms: MsOfDay)

  /** Milliseconds since 1970-01-01T00:00 in the fixed zone. */
  function Instant(d: Date): int { d.day * MsPerDay + d.ms }

  /**
   * The date a native Date built from a millisecond count stands for: that
   * many milliseconds from the epoch, days counted by floor division so that
   * negative counts fall on earlier days.
   */
  function FromEpochMs(n: int): (r: Date)
    ensures Instant(r) == n
  {
    Date(n / MsPerDay, n % MsPerDay)
  }

  /** Distinct instants give distinct dates, so FromEpochMs is the inverse of Instant. */
  lemma EpochMsRoundTrip(d: Date)
    ensures FromEpochMs(Instant(d)) == d
  {
  }

  predicate IsBefore(a: Date, b: Date) { Instant(a) < Instant(b) }
  predicate IsAfter(a: Date, b: Date) { Instant(a) > Instant(b) }

  /** Instants order by day first and by millisecond within a day. */
  lemma InstantOrder(a: Date, b: Date)
    ensures IsBefore(a, b) <==> a.day < b.day || (a.day == b.day && a.ms < b.ms)
    ensures IsAfter(a, b) <==> IsBefore(b, a)
    ensures !(IsBefore(a, b) && IsAfter(a, b))
    ensures !IsBefore(a, b) && !IsAfter(a, b) <==> a == b
  {
  }

  function Civil(d: Date): (c: CivilDate)
    ensures ValidCivil(c) && DayNumber(c) == d.day
  {
    CivilOf(d.day)
  }

  /** Day of the month, 1-based. */
  function DayOfMonth(d: Date): int { Civil(d).day }

  function StartOfDay(d: Date): Date { Date(d.day, 0) }
  function EndOfDay(d: Date): Date { Date(d.day, LastMs) }

  function PlusDays(d: Date, n: int): Date { Date(d.day + n, d.ms) }

  /** First millisecond of d's month. */
  function StartOfMonth(d: Date): (r: Date)
    ensures r.ms == 0 && r.day <= d.day
    ensures Civil(r) == CivilDate(Civil(d).year, Civil(d).month, 1)
  {
    var c := Civil(d);
    DayNumberInMonth(c.year, c.month, 1, c.day);
    CivilOfDayNumber(CivilDate(c.year, c.month, 1));
    Date(d.day - (c.day - 1), 0)
  }

  /** Last millisecond of d's month. */
  function EndOfMonth(d: Date): (r: Date)
    ensures r.ms == LastMs && d.day <= r.day
    ensures r.day - StartOfMonth(d).day == DaysInMonth(Civil(d).year, Civil(d).month) - 1
    ensures Civil(r) == CivilDate(Civil(d).year, Civil(d).month, DaysInMonth(Civil(d).year, Civil(d).month))
  {
    var c := Civil(d);
    var n := DaysInMonth(c.year, c.month);
    var last := CivilDate(c.year, c.month, n);
    DayNumberInMonth(c.year, c.month, c.day, n);
    assert CivilDate(c.year, c.month, c.day) == c;
    assert DayNumber(last) == d.day + (n - c.day);
    CivilOfDayNumber(last);
    assert StartOfMonth(d).day == d.day - (c.day - 1);
    Date(DayNumber(last), LastMs)
  }

  function Min(a: int, b: int): int { if a <= b then a else b }

  /**
   * Calendar month addition as Luxon and Moment perform it: move the month
   * index by k and clamp the day of the month to the length of the target
   * month; the time of day is kept.
   */
  function PlusMonths(d: Date, k: int): (r: Date)
    ensures r.ms == d.ms
    ensures MonthIndex(Civil(r)) == MonthIndex(Civil(d)) + k
    ensures Civil(r).day == Min(Civil(d).day, DaysInMonth(Civil(r).year, Civil(r).month))
  {
    var c := Civil(d);
    var idx := MonthIndex(c) + k;
    var y, m := idx / 12, idx % 12 + 1;
    var t := CivilDate(y, m, Min(c.day, DaysInMonth(y, m)));
    CivilOfDayNumber(t);
    Date(DayNumber(t), d.ms)
  }

  /** Year addition is addition of twelve months (29 February clamps to the 28th). */
  function PlusYears(d: Date, k: int): Date { PlusMonths(d, 12 * k) }

  /** ISO 8601 weekday: Monday = 1 ... Sunday = 7; 1970-01-01 was a Thursday. */
  function IsoWeekday(d: Date): (w: int)
    ensures 1 <= w <= 7
  {
    (d.day + 3) % 7 + 1
  }

  predicate HasSameDay(a: Date, b: Date) { a.day == b.day }

  predicate HasSameMonth(a: Date, b: Date) {
    Civil(a).year == Civil(b).year && Civil(a).month == Civil(b).month
  }

  /** Adding k days moves the ISO weekday k steps round the week. */
  lemma WeekdayPlusDays(d: Date, k: int)
    ensures IsoWeekday(PlusDays(d, k)) - 1 == (IsoWeekday(d) - 1 + k) % 7
  {
  }

  /** Day navigation: going k days forward and k days back is the identity. */
  lemma PlusDaysInverse(d: Date, k: int)
    ensures PlusDays(PlusDays(d, k), -k) == d
  {
  }

  /** Two first-of-month instants with the same month index are equal. */
  lemma FirstOfMonthUnique(a: Date, b: Date)
    requires Civil(a).day == 1 && Civil(b).day == 1 && a.ms == b.ms
    requires MonthIndex(Civil(a)) == MonthIndex(Civil(b))
    ensures a == b
  {
    var ca, cb := Civil(a), Civil(b);
    assert ca.year * 12 + ca.month == cb.year * 12 + cb.month;
    if ca.year < cb.year { assert false; }
    if cb.year < ca.year { assert false; }
  }

  /**
   * Month navigation: k months forward to the start of that month, then k
   * months back to the start of that month, returns to the start of the
   * original month; so does going back first and then forward.
   */
  lemma MonthsRoundTrip(d: Date, k: int)
    ensures StartOfMonth(PlusMonths(StartOfMonth(PlusMonths(d, k)), -k)) == StartOfMonth(d)
    ensures StartOfMonth(PlusMonths(StartOfMonth(PlusMonths(d, -k)), k)) == StartOfMonth(d)
  {
    var a := StartOfMonth(PlusMonths(StartOfMonth(PlusMonths(d, k)), -k));
    FirstOfMonthUnique(a, StartOfMonth(d));
    var b := StartOfMonth(PlusMonths(StartOfMonth(PlusMonths(d, -k)), k));
    FirstOfMonthUnique(b, StartOfMonth(d));
  }

  /** The last day of the month before c's. */
  function PreviousMonthEnd(c: CivilDate): CivilDate
    requires ValidMonth(c.month)
  {
    if c.month > 1 then CivilDate(c.year, c.month - 1, DaysInMonth(c.year, c.month - 1))
    else CivilDate(c.year - 1, 12, 31)
  }

  /** The last day of the previous month is numbered one below the first of this month. */
  lemma PreviousMonthEndNumber(c: CivilDate)
    requires ValidCivil(c) && c.day == 1
    ensures var p := PreviousMonthEnd(c);
      ValidCivil(p) && DayNumber(p) == DayNumber(c) - 1 &&
      MonthIndex(p) == MonthIndex(c) - 1 && p.day == DaysInMonth(p.year, p.month)
  {
    if c.month > 1 {
      MonthTable(c.year, c.month - 1);
    } else {
      MonthTable(c.year - 1, 12);
      YearStartStep(c.year - 1);
    }
  }

  /** The day before the first of a month is the last day of the previous month. */
  lemma DayBeforeFirstOfMonth(f: Date)
    requires Civil(f).day == 1
    ensures ValidCivil(Civil(PlusDays(f, -1)))
    ensures MonthIndex(Civil(PlusDays(f, -1))) == MonthIndex(Civil(f)) - 1
    ensures Civil(PlusDays(f, -1)).day == DaysInMonth(Civil(PlusDays(f, -1)).year, Civil(PlusDays(f, -1)).month)
  {
    var c := Civil(f);
    var p := PreviousMonthEnd(c);
    PreviousMonthEndNumber(c);
    assert DayNumber(p) == f.day - 1;
    CivilOfDayNumber(p);
    assert Civil(PlusDays(f, -1)) == p;
  }

  /** Adding at least one month lands after the end of the current month. */
  lemma PlusMonthsLater(d: Date, k: int)
    requires k >= 1
    ensures PlusMonths(d, k).day > EndOfMonth(d).day
  {
    var c, r := Civil(d), Civil(PlusMonths(d, k));
    MonthStartMono(c.year, c.month, r.year, r.month);
    DayNumberInMonth(r.year, r.month, 1, r.day);
  }

  /**
   * A span of k months from the first of a month ends on the last day of
   * the month k - 1 months later; taking the end of that day or of that
   * month is the same instant.
   */
  lemma MonthSpanEnd(f: Date, k: int)
    requires Civil(f).day == 1
    ensures var e := PlusDays(PlusMonths(f, k), -1);
      MonthIndex(Civil(e)) == MonthIndex(Civil(f)) + k - 1 &&
      Civil(e).day == DaysInMonth(Civil(e).year, Civil(e).month) &&
      EndOfMonth(e) == EndOfDay(e) &&
      (k >= 1 ==> f.day <= e.day)
  {
    var p := PlusMonths(f, k);
    assert Civil(p).day == 1;
    DayBeforeFirstOfMonth(p);
    if k >= 1 { PlusMonthsLater(f, k); }
  }

  /** Equal month indices of valid civil dates name the same year and month. */
  lemma MonthIndexInjective(a: CivilDate, b: CivilDate)
    requires ValidMonth(a.month) && ValidMonth(b.month)
    requires MonthIndex(a) == MonthIndex(b)
    ensures a.year == b.year && a.month == b.month
  {
    if a.year < b.year { assert false; }
    if b.year < a.year { assert false; }
  }

  /** A day in an earlier month comes before a day in a later month. */
  lemma MonthIndexOrder(a: Date, b: Date)
    requires MonthIndex(Civil(a)) < MonthIndex(Civil(b))
    ensures a.day < b.day
  {
    var ca, cb := Civil(a), Civil(b);
    MonthStartMono(ca.year, ca.month, cb.year, cb.month);
    DayNumberInMonth(ca.year, ca.month, ca.day, DaysInMonth(ca.year, ca.month));
    DayNumberInMonth(cb.year, cb.month, 1, cb.day);
  }

  /** Dates with the same civil date and time of day are equal. */
  lemma CivilUnique(a: Date, b: Date)
    requires Civil(a) == Civil(b) && a.ms == b.ms
    ensures a == b
  {
  }

  /** The first of a month at midnight is its own start of month. */
  lemma StartOfMonthFixed(d: Date)
    requires Civil(d).day == 1 && d.ms == 0
    ensures StartOfMonth(d) == d
  {
  }

  /**
   * A year forward and a year back returns to the same instant when the
   * day of the month is at most 28, so that no clamping happens.
   */
  lemma YearsRoundTrip(d: Date)
    requires Civil(d).day <= 28
    ensures PlusYears(PlusYears(d, 1), -1) == d
  {
    var p := PlusYears(d, 1);
    var q := PlusYears(p, -1);
    assert Civil(p).day == Civil(d).day;
    MonthIndexInjective(Civil(q), Civil(d));
    CivilUnique(q, d);
  }

  /**
   * 29 February does not come back: a year later is 28 February of a
   * common year, and a year before that is 28 February again.
   */
  lemma LeapDayNotRestored(d: Date)
    requires Civil(d).month == 2 && Civil(d).day == 29
    ensures Civil(PlusYears(d, 1)) == CivilDate(Civil(d).year + 1, 2, 28)
    ensures Civil(PlusYears(PlusYears(d, 1), -1)) == CivilDate(Civil(d).year, 2, 28)
    ensures PlusYears(PlusYears(d, 1), -1) != d
  {
    var c := Civil(d);
    assert DaysInMonth(c.year, 2) == 29;
    LeapYearFollowedByCommon(c.year);
    var p := PlusYears(d, 1);
    var cp := Civil(p);
    assert MonthIndex(cp) == MonthIndex(CivilDate(c.year + 1, 2, 28));
    MonthIndexInjective(cp, CivilDate(c.year + 1, 2, 28));
    assert cp.day == 28;
    var q := PlusYears(p, -1);
    var cq := Civil(q);
    MonthIndexInjective(cq, c);
    assert cq.day == 28;
  }

  /** A day is in x's month exactly when it lies between the first and the last day of that month. */
  lemma SameMonthByDays(d: Date, x: Date)
    ensures HasSameMonth(d, x) <==> StartOfMonth(x).day <= d.day <= EndOfMonth(x).day
  {
    var cd, cx := Civil(d), Civil(x);
    var f, l := StartOfMonth(x), EndOfMonth(x);
    if HasSameMonth(d, x) {
      DayNumberInMonth(cx.year, cx.month, 1, cd.day);
      DayNumberInMonth(cx.year, cx.month, cd.day, DaysInMonth(cx.year, cx.month));
    } else {
      if MonthIndex(cd) == MonthIndex(cx) { MonthIndexInjective(cd, cx); }
      if MonthIndex(cd) < MonthIndex(cx) { MonthIndexOrder(d, f); }
      if MonthIndex(cd) > MonthIndex(cx) { MonthIndexOrder(l, d); }
    }
  }

  lemma LeapYearFollowedByCommon(y: int)
    requires IsLeap(y)
    ensures !IsLeap(y + 1) && DaysInMonth(y + 1, 2) == 28
  {
    assert (y + 1) % 4 == 1 by {
      assert y == (y / 4) * 4;
    }
  }
}
