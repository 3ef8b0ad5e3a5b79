/**
 * The navigation transitions of the calendar core as functions from the
 * old timing state to the new one (forward, back, nextYear, previousYear,
 * today, setMonth, setYear, setIntervalStart), and the five constraint
 * flags that gate them.
 */
module Navigation {
  import opened Wrappers
  import opened CalendarDates
  import opened Adapter
  import opened LuxonAdapter
  import opened Formatting
  import opened ClndrTypes
  import opened State
  import opened CoreHelpers

  // ---------------------------------------------------------------------
  // Modes and spans

  /** `Boolean(lengthOfTime?.days)`: the core tests days before months. */
  predicate UsesDays(lot: LengthOfTime) { lot.days != 0 }

  predicate UsesMonths(lot: LengthOfTime) { lot.months != 0 }

  /**
   * The end of a block of `span` months from `start`: the end of the month
   * holding the day before start + span months.
   */
  function BlockEnd(start: Date, span: int): Date {
    EndOfMonth(PlusDays(PlusMonths(start, span), -1))
  }

  /** `step ?? lengthOfTime.interval ?? 1` (0 is kept). */
  function StepOf(lot: LengthOfTime, step: Option<int>): int {
    step.GetOr(lot.interval.GetOr(1))
  }

  /** `lengthOfTime.months || lengthOfTime.interval || 1` (0 falls through). */
  function SpanOf(lot: LengthOfTime): (r: int)
    ensures r != 0
  {
    if lot.months != 0 then lot.months
    else if lot.interval.Some? && lot.interval.value != 0 then lot.interval.value
    else 1
  }

  /** Days-mode shape: the view starts at midnight and spans `days` days. */
  predicate DaysAligned(lot: LengthOfTime, st: CalendarState) {
    st.intervalStart.ms == 0 && st.month == st.intervalStart &&
    st.intervalEnd == DaysEnd(st.intervalStart, lot.days)
  }

  /** Month-mode shape: the view starts on the first of a month and spans `span` months. */
  predicate MonthAligned(st: CalendarState, span: int) {
    Civil(st.intervalStart).day == 1 && st.intervalStart.ms == 0 && st.month == st.intervalStart &&
    st.intervalEnd == BlockEnd(st.intervalStart, span)
  }

  // ---------------------------------------------------------------------
  // forward and back

  /**
   * Move the view: in days mode by `move` days, to the start of that day,
   * spanning lengthOfTime.days days; otherwise by `move` months, to the
   * start of that month, spanning lengthOfTime.months months or else
   * `interval` months.
   */
  function MoveState(lot: LengthOfTime, st: CalendarState, move: int, interval: int): (r: CalendarState)
    ensures r.selectedDate == st.selectedDate && r.month == r.intervalStart
  {
    if UsesDays(lot) then
      var start := StartOfDay(PlusDays(st.intervalStart, move));
      st.(month := start, intervalStart := start, intervalEnd := DaysEnd(start, lot.days))
    else
      var start := StartOfMonth(PlusMonths(st.intervalStart, move));
      st.(month := start, intervalStart := start, intervalEnd := BlockEnd(start, MoveSpan(lot, interval)))
  }

  /** forward: move ahead by the resolved step (`step ?? interval ?? 1`). */
  function ForwardState(lot: LengthOfTime, st: CalendarState, interval: int): CalendarState {
    MoveState(lot, st, interval, interval)
  }

  /** back: move back by the resolved step. */
  function BackState(lot: LengthOfTime, st: CalendarState, interval: int): CalendarState {
    MoveState(lot, st, -interval, interval)
  }

  /** The span of a month-mode move with this step. */
  function MoveSpan(lot: LengthOfTime, interval: int): int {
    if UsesMonths(lot) then lot.months else interval
  }

  /**
   * Days mode: forward and back move the start by exactly the step in
   * days, and always leave a days-aligned view.
   */
  lemma MoveDays(lot: LengthOfTime, st: CalendarState, interval: int)
    requires UsesDays(lot)
    ensures var f := ForwardState(lot, st, interval);
      DaysAligned(lot, f) && f.intervalStart.day == st.intervalStart.day + interval &&
      f.intervalEnd.day == f.intervalStart.day + lot.days - 1 && f.intervalEnd.ms == LastMs
    ensures var b := BackState(lot, st, interval);
      DaysAligned(lot, b) && b.intervalStart.day == st.intervalStart.day - interval
  {
  }

  /** Days mode: forward then back, or back then forward, restores an aligned view. */
  lemma DaysRoundTrip(lot: LengthOfTime, st: CalendarState, interval: int)
    requires UsesDays(lot) && DaysAligned(lot, st)
    ensures BackState(lot, ForwardState(lot, st, interval), interval) == st
    ensures ForwardState(lot, BackState(lot, st, interval), interval) == st
  {
  }

  /**
   * Month modes: the new start is the first of the month `move` months
   * away, and the end is the last day of the month span - 1 months later,
   * not before the start when the span is at least 1.
   */
  lemma MoveMonths(lot: LengthOfTime, st: CalendarState, move: int, interval: int)
    requires !UsesDays(lot)
    ensures var r := MoveState(lot, st, move, interval);
      var span := MoveSpan(lot, interval);
      MonthAligned(r, span) &&
      MonthIndex(Civil(r.intervalStart)) == MonthIndex(Civil(st.intervalStart)) + move &&
      MonthIndex(Civil(r.intervalEnd)) == MonthIndex(Civil(r.intervalStart)) + span - 1 &&
      Civil(r.intervalEnd).day == DaysInMonth(Civil(r.intervalEnd).year, Civil(r.intervalEnd).month) &&
      r.intervalEnd.ms == LastMs &&
      (span >= 1 ==> r.intervalStart.day <= r.intervalEnd.day)
  {
    var start := StartOfMonth(PlusMonths(st.intervalStart, move));
    MonthSpanEnd(start, MoveSpan(lot, interval));
  }

  /** Month modes: forward then back restores a month-aligned view. */
  lemma MonthForwardBack(lot: LengthOfTime, st: CalendarState, interval: int)
    requires !UsesDays(lot) && MonthAligned(st, MoveSpan(lot, interval))
    ensures BackState(lot, ForwardState(lot, st, interval), interval) == st
  {
    StartOfMonthFixed(st.intervalStart);
    MonthsRoundTrip(st.intervalStart, interval);
  }

  /** Month modes: back then forward restores a month-aligned view. */
  lemma MonthBackForward(lot: LengthOfTime, st: CalendarState, interval: int)
    requires !UsesDays(lot) && MonthAligned(st, MoveSpan(lot, interval))
    ensures ForwardState(lot, BackState(lot, st, interval), interval) == st
  {
    StartOfMonthFixed(st.intervalStart);
    MonthsRoundTrip(st.intervalStart, interval);
  }

  // ---------------------------------------------------------------------
  // nextYear and previousYear

  /** Shift the shown month and both interval bounds by k years together. */
  function ShiftYears(st: CalendarState, k: int): (r: CalendarState)
    ensures r.selectedDate == st.selectedDate
  {
    st.(month := PlusYears(st.month, k), intervalStart := PlusYears(st.intervalStart, k), intervalEnd := PlusYears(st.intervalEnd, k))
  }

  function NextYearState(st: CalendarState): CalendarState { ShiftYears(st, 1) }

  function PreviousYearState(st: CalendarState): CalendarState { ShiftYears(st, -1) }

  /**
   * A year forward moves each of the three dates to the same calendar
   * month one year later, keeping the time of day.
   */
  lemma NextYearMonths(st: CalendarState)
    ensures var r := NextYearState(st);
      MonthIndex(Civil(r.month)) == MonthIndex(Civil(st.month)) + 12 &&
      MonthIndex(Civil(r.intervalStart)) == MonthIndex(Civil(st.intervalStart)) + 12 &&
      MonthIndex(Civil(r.intervalEnd)) == MonthIndex(Civil(st.intervalEnd)) + 12 &&
      Civil(r.intervalStart).month == Civil(st.intervalStart).month &&
      Civil(r.intervalStart).year == Civil(st.intervalStart).year + 1 &&
      r.intervalEnd.ms == st.intervalEnd.ms
  {
    var c := Civil(st.intervalStart);
    MonthIndexInjective(Civil(PlusYears(st.intervalStart, 1)), CivilDate(c.year + 1, c.month, 1));
  }

  /**
   * nextYear then previousYear restores the view when no date needs
   * clamping (days of month at most 28, as for month-aligned starts).
   */
  lemma YearRoundTrip(st: CalendarState)
    requires Civil(st.month).day <= 28 && Civil(st.intervalStart).day <= 28 && Civil(st.intervalEnd).day <= 28
    ensures PreviousYearState(NextYearState(st)) == st
  {
    YearsRoundTrip(st.month);
    YearsRoundTrip(st.intervalStart);
    YearsRoundTrip(st.intervalEnd);
  }

  /** A view ending on 29 February does not come back to it after nextYear then previousYear. */
  lemma YearRoundTripLeapEnd(st: CalendarState)
    requires Civil(st.intervalEnd).month == 2 && Civil(st.intervalEnd).day == 29
    ensures Civil(PreviousYearState(NextYearState(st)).intervalEnd).day == 28
    ensures PreviousYearState(NextYearState(st)) != st
  {
    LeapDayNotRestored(st.intervalEnd);
  }

  // ---------------------------------------------------------------------
  // today

  /**
   * Jump to now: in days mode to the day of now's locale week at the
   * weekday index of lengthOfTime.startDate when that is set, else at
   * weekOffset; otherwise to the start of now's month, spanning
   * months || interval || 1 months.
   */
  function TodayState(env: Env, lot: LengthOfTime, weekOffset: Option<int>, st: CalendarState, now: Date): (r: CalendarState)
    ensures r.selectedDate == st.selectedDate && r.month == r.intervalStart
  {
    if UsesDays(lot) then
      var base := StartOfWeek(now, env.fdow);
      var index :=
        if Truthy(lot.startDate) then WeekdayIndex(ParseDateInput(env, now, lot.startDate), env.fdow)
        else weekOffset.GetOr(0);
      var start := SetWeekday(base, index, env.fdow);
      st.(month := start, intervalStart := start, intervalEnd := DaysEnd(start, lot.days))
    else
      var start := StartOfMonth(now);
      st.(month := start, intervalStart := start, intervalEnd := BlockEnd(start, SpanOf(lot)))
  }

  /**
   * Days mode: the view starts in now's locale week, on the weekday of
   * lengthOfTime.startDate when set and at place weekOffset mod 7 otherwise.
   */
  lemma TodayDays(env: Env, lot: LengthOfTime, weekOffset: Option<int>, st: CalendarState, now: Date)
    requires UsesDays(lot)
    ensures var r := TodayState(env, lot, weekOffset, st, now);
      DaysAligned(lot, r) &&
      StartOfWeek(r.intervalStart, env.fdow) == StartOfWeek(now, env.fdow) &&
      (Truthy(lot.startDate) ==>
        LocaleIndex(r.intervalStart, env.fdow) == LocaleIndex(ParseDateInput(env, now, lot.startDate), env.fdow)) &&
      (!Truthy(lot.startDate) ==> LocaleIndex(r.intervalStart, env.fdow) == weekOffset.GetOr(0) % 7)
  {
    var base := StartOfWeek(now, env.fdow);
    StartOfWeekConstant(now, base, env.fdow);
  }

  /** Month modes: the view starts on the first of now's month and holds now. */
  lemma TodayMonths(env: Env, lot: LengthOfTime, weekOffset: Option<int>, st: CalendarState, now: Date)
    requires !UsesDays(lot) && SpanOf(lot) >= 1
    ensures var r := TodayState(env, lot, weekOffset, st, now);
      MonthAligned(r, SpanOf(lot)) && r.intervalStart == StartOfMonth(now) &&
      r.intervalStart.day <= now.day <= r.intervalEnd.day &&
      MonthIndex(Civil(r.intervalEnd)) == MonthIndex(Civil(now)) + SpanOf(lot) - 1
  {
    var f := StartOfMonth(now);
    var span := SpanOf(lot);
    MonthSpanEnd(f, span);
    PlusMonthsLater(f, span);
    CivilUnique(EndOfMonth(f), EndOfMonth(now));
  }

  // ---------------------------------------------------------------------
  // setMonth, setYear, setIntervalStart

  /** The whole month of `target` as the view. */
  function WholeMonth(st: CalendarState, target: Date): (r: CalendarState)
    ensures r.selectedDate == st.selectedDate
  {
    var start := StartOfMonth(target);
    st.(month := start, intervalStart := start, intervalEnd := EndOfMonth(start))
  }

  /**
   * setMonth: refused (None) in days or months mode; otherwise the whole
   * month the input resolves to in the year of the shown month.
   */
  function SetMonthState(env: Env, lot: LengthOfTime, input: MonthInput, st: CalendarState): (r: Option<CalendarState>)
    ensures r.None? <==> UsesDays(lot) || UsesMonths(lot)
  {
    if UsesDays(lot) || UsesMonths(lot) then None
    else Some(WholeMonth(st, ResolveMonthDate(env, input, Civil(st.month).year)))
  }

  /**
   * With an ISO parser that reads ISO dates, setMonth(n) for n in 0..11
   * shows month n + 1 of the shown year, from its first to its last day.
   */
  lemma SetMonthNumber(env: Env, lot: LengthOfTime, n: int, st: CalendarState)
    requires ParsesIsoDates(env)
    requires !UsesDays(lot) && !UsesMonths(lot)
    requires 0 <= n <= 11 && 1000 <= Civil(st.month).year <= 9999
    ensures var r := SetMonthState(env, lot, MonthNumber(n), st).value;
      var y := Civil(st.month).year;
      Civil(r.month) == CivilDate(y, n + 1, 1) && r.month.ms == 0 && r.intervalStart == r.month &&
      Civil(r.intervalEnd) == CivilDate(y, n + 1, DaysInMonth(y, n + 1)) && r.intervalEnd.ms == LastMs
  {
    var y := Civil(st.month).year;
    ResolveMonthNumber(env, n, y);
    StartOfMonthFixed(FirstOfMonth(y, n + 1));
  }

  /** setYear: the whole month with the shown month's number in the new year, through the ISO parser. */
  function SetYearState(env: Env, newYear: int, st: CalendarState): (r: CalendarState)
    ensures r.selectedDate == st.selectedDate && r.month == r.intervalStart
  {
    WholeMonth(st, env.fromISO(FirstOfMonthText(newYear, Civil(st.month).month)))
  }

  /** With an ISO parser that reads ISO dates, setYear keeps the month and replaces the year. */
  lemma SetYearKeepsMonth(env: Env, newYear: int, st: CalendarState)
    requires ParsesIsoDates(env)
    requires 1000 <= newYear <= 9999
    ensures var r := SetYearState(env, newYear, st);
      var m := Civil(st.month).month;
      Civil(r.month) == CivilDate(newYear, m, 1) && r.month.ms == 0 &&
      Civil(r.intervalEnd) == CivilDate(newYear, m, DaysInMonth(newYear, m)) && r.intervalEnd.ms == LastMs
  {
    var m := Civil(st.month).month;
    var f := FirstOfMonth(newYear, m);
    ParseFirstOfMonth(env, newYear, m);
    WholeMonthOfFirst(st, f);
  }

  /** The whole month of a month's first day runs from that day to the month's last day. */
  lemma WholeMonthOfFirst(st: CalendarState, f: Date)
    requires Civil(f).day == 1 && f.ms == 0
    ensures var r, c := WholeMonth(st, f), Civil(f);
      r.month == f && r.intervalStart == f &&
      Civil(r.intervalEnd) == CivilDate(c.year, c.month, DaysInMonth(c.year, c.month)) && r.intervalEnd.ms == LastMs
  {
    StartOfMonthFixed(f);
  }

  /**
   * setIntervalStart: refused (None) unless days or months are set; then
   * the view restarts at the given date: at its day in days mode, at its
   * month otherwise.
   */
  function SetIntervalStartState(env: Env, lot: LengthOfTime, newDate: DateInput, st: CalendarState, now: Date): (r: Option<CalendarState>)
    ensures r.None? <==> !UsesDays(lot) && !UsesMonths(lot)
  {
    if !UsesDays(lot) && !UsesMonths(lot) then None
    else
      var parsed := ParseDateInput(env, now, newDate);
      if UsesDays(lot) then
        var start := StartOfDay(parsed);
        Some(st.(month := start, intervalStart := start, intervalEnd := DaysEnd(start, lot.days)))
      else
        var start := StartOfMonth(parsed);
        Some(st.(month := start, intervalStart := start, intervalEnd := BlockEnd(start, SpanOf(lot))))
  }

  /** The restarted view is aligned for its mode and starts at the given date's day or month. */
  lemma SetIntervalStartAligned(env: Env, lot: LengthOfTime, newDate: DateInput, st: CalendarState, now: Date)
    requires UsesDays(lot) || UsesMonths(lot)
    ensures var r := SetIntervalStartState(env, lot, newDate, st, now).value;
      var parsed := ParseDateInput(env, now, newDate);
      r.selectedDate == st.selectedDate &&
      (UsesDays(lot) ==> DaysAligned(lot, r) && r.intervalStart.day == parsed.day) &&
      (!UsesDays(lot) ==> MonthAligned(r, SpanOf(lot)) && r.intervalStart == StartOfMonth(parsed))
  {
  }

  // ---------------------------------------------------------------------
  // Constraint flags

  datatype ConstraintState = ConstraintState(next: bool, previous: bool, nextYear: bool, previousYear: bool, today: bool)

  const AllEnabled := ConstraintState(true, true, true, true, true)

  /**
   * updateConstraintState: with no bounds everything is enabled; otherwise
   * previous is off when the lower bound is after the interval start or in
   * its day (days mode) or month; next mirrors this at the upper bound;
   * the year buttons compare the bounds with the interval moved one year;
   * today is off when the start of now's month is outside the bounds.
   */
  function ConstraintFlags(usesDays: bool, st: CalendarState, cs: Option<Date>, ce: Option<Date>, now: Date): ConstraintState {
    if cs.None? && ce.None? then AllEnabled
    else
      var oneYearAgo := PlusYears(st.intervalStart, -1);
      var oneYearFromEnd := PlusYears(st.intervalEnd, 1);
      var previous := !(cs.Some? &&
        (IsAfter(cs.value, st.intervalStart) ||
         (if usesDays then HasSameDay(cs.value, st.intervalStart) else HasSameMonth(cs.value, st.intervalStart))));
      var previousYear := !(cs.Some? && IsAfter(cs.value, oneYearAgo));
      var next := !(ce.Some? &&
        (IsBefore(ce.value, st.intervalEnd) ||
         (if usesDays then HasSameDay(ce.value, st.intervalEnd) else HasSameMonth(ce.value, st.intervalEnd))));
      var nextYear := !(ce.Some? && IsBefore(ce.value, oneYearFromEnd));
      var m := StartOfMonth(now);
      var today := !((cs.Some? && IsAfter(cs.value, m)) || (ce.Some? && IsBefore(ce.value, m)));
      ConstraintState(next, previous, nextYear, previousYear, today)
  }

  /** Without bounds every flag is on. */
  lemma NoBoundsAllEnabled(usesDays: bool, st: CalendarState, now: Date)
    ensures ConstraintFlags(usesDays, st, None, None, now) == AllEnabled
  {
  }

  /** Days mode: previous is on iff the lower bound is on an earlier day; next iff the upper bound is on a later day. */
  lemma DayFlags(st: CalendarState, cs: Option<Date>, ce: Option<Date>, now: Date)
    ensures var f := ConstraintFlags(true, st, cs, ce, now);
      (f.previous <==> cs.None? || cs.value.day < st.intervalStart.day) &&
      (f.next <==> ce.None? || ce.value.day > st.intervalEnd.day)
  {
    if cs.Some? { InstantOrder(cs.value, st.intervalStart); }
    if ce.Some? { InstantOrder(ce.value, st.intervalEnd); }
  }

  /** Month modes: previous is on iff the lower bound is in an earlier month; next iff the upper bound is in a later month. */
  lemma MonthFlags(st: CalendarState, cs: Option<Date>, ce: Option<Date>, now: Date)
    ensures var f := ConstraintFlags(false, st, cs, ce, now);
      (f.previous <==> cs.None? || MonthIndex(Civil(cs.value)) < MonthIndex(Civil(st.intervalStart))) &&
      (f.next <==> ce.None? || MonthIndex(Civil(ce.value)) > MonthIndex(Civil(st.intervalEnd)))
  {
    if cs.Some? { BoundMonthOrder(cs.value, st.intervalStart); }
    if ce.Some? { BoundMonthOrder(st.intervalEnd, ce.value); }
  }

  /** How two dates compare by month: earlier month, same month, or later month and after. */
  lemma BoundMonthOrder(a: Date, b: Date)
    ensures MonthIndex(Civil(a)) < MonthIndex(Civil(b)) ==> !IsAfter(a, b) && !HasSameMonth(a, b) && IsBefore(a, b)
    ensures MonthIndex(Civil(a)) == MonthIndex(Civil(b)) ==> HasSameMonth(a, b)
    ensures MonthIndex(Civil(a)) > MonthIndex(Civil(b)) ==> IsAfter(a, b) && !HasSameMonth(a, b)
  {
    InstantOrder(a, b);
    if MonthIndex(Civil(a)) < MonthIndex(Civil(b)) { MonthIndexOrder(a, b); }
    if MonthIndex(Civil(a)) == MonthIndex(Civil(b)) { MonthIndexInjective(Civil(a), Civil(b)); }
    if MonthIndex(Civil(a)) > MonthIndex(Civil(b)) { MonthIndexOrder(b, a); }
  }

  /**
   * With bounds as the core stores them (lower at the start of a day, upper
   * at the end of one), the year and today flags compare days: previousYear
   * is on iff the lower bound is no later than the day a year before the
   * start, nextYear iff the upper bound is no earlier than the day a year
   * after the end, today iff the first of now's month lies within the bounds.
   */
  lemma YearAndTodayFlags(usesDays: bool, st: CalendarState, cs: Option<Date>, ce: Option<Date>, now: Date)
    requires cs.Some? ==> cs.value.ms == 0
    requires ce.Some? ==> ce.value.ms == LastMs
    ensures var f := ConstraintFlags(usesDays, st, cs, ce, now);
      var m := StartOfMonth(now);
      (f.previousYear <==> cs.None? || cs.value.day <= PlusYears(st.intervalStart, -1).day) &&
      (f.nextYear <==> ce.None? || ce.value.day >= PlusYears(st.intervalEnd, 1).day) &&
      (f.today <==> (cs.None? || cs.value.day <= m.day) && (ce.None? || ce.value.day >= m.day))
  {
    var m := StartOfMonth(now);
    if cs.Some? {
      InstantOrder(PlusYears(st.intervalStart, -1), cs.value);
      InstantOrder(m, cs.value);
    }
    if ce.Some? {
      InstantOrder(ce.value, PlusYears(st.intervalEnd, 1));
      InstantOrder(ce.value, m);
    }
  }
}
