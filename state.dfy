/**
 * The calendar's initial timing state, derived from the options: which
 * month is shown, where the visible interval starts and ends, and the
 * selected date.
 */
module State {
  import opened Wrappers
  import opened CalendarDates
  import opened LuxonAdapter
  import opened ClndrTypes

  /**
   * Coerce an input into a date: absent values mean now, strings go through
   * the library's ISO parser, anything else is a native value.
   */
  function ParseToAdapterDate(env: Env, now: Date, v: DateInput): (r: Date)
    ensures v.Missing? ==> r == now
    ensures v.Text? ==> r == env.fromISO(v.s)
    ensures v.Native? ==> r == v.d
  {
    match v
    case Missing => now
    case Text(s) => env.fromISO(s)
    case Millis(n) => env.fromNumber(n)
    case Native(d) => d
  }

  /** The lengthOfTime option, or an empty one when none is given. */
  function LengthOrEmpty(opts: Options): LengthOfTime {
    if opts.lengthOfTime.Some? then opts.lengthOfTime.value else LengthOfTime(0, 0, None, Missing)
  }

  /** The end of a span of `months` months starting at `start`: the day before, at its end. */
  function MonthsEnd(start: Date, months: int): Date {
    EndOfDay(PlusDays(PlusMonths(start, months), -1))
  }

  /** The end of a span of `days` days starting at `start`, at the end of its last day. */
  function DaysEnd(start: Date, days: int): Date {
    EndOfDay(PlusDays(start, days - 1))
  }

  /** The month and interval each mode picks before a start month is applied. */
  function ModeInterval(env: Env, lot: LengthOfTime, startWithMonth: DateInput, weekOffset: Option<int>, now: Date): CalendarState {
    if lot.months != 0 || lot.days != 0 then
      if lot.months != 0 then
        var startMonth := StartOfMonth(
          if Truthy(lot.startDate) then ParseToAdapterDate(env, now, lot.startDate)
          else if Truthy(startWithMonth) then ParseToAdapterDate(env, now, startWithMonth)
          else now);
        CalendarState(startMonth, startMonth, MonthsEnd(startMonth, lot.months), None)
      else
        var startDay := StartOfDay(if Truthy(lot.startDate) then ParseToAdapterDate(env, now, lot.startDate) else now);
        var base := StartOfWeek(startDay, env.fdow);
        var intervalStart := SetWeekday(base, weekOffset.GetOr(0), env.fdow);
        CalendarState(intervalStart, intervalStart, DaysEnd(intervalStart, lot.days), None)
    else
      var m := StartOfMonth(now);
      CalendarState(m, m, EndOfMonth(m), None)
  }

  /** The month and interval a start month imposes, whatever the mode. */
  function StartMonthInterval(env: Env, lot: LengthOfTime, startWithMonth: DateInput, now: Date): CalendarState {
    var m := StartOfMonth(ParseToAdapterDate(env, now, startWithMonth));
    var end :=
      if lot.days != 0 then DaysEnd(m, lot.days)
      else if lot.months != 0 then MonthsEnd(m, lot.months)
      else EndOfMonth(m);
    CalendarState(m, m, end, None)
  }

  /** The initial state: the mode's interval, overridden by a start month, and the selection. */
  function InitState(env: Env, opts: Options, now: Date): CalendarState {
    var lot := LengthOrEmpty(opts);
    var base :=
      if Truthy(opts.startWithMonth) then StartMonthInterval(env, lot, opts.startWithMonth, now)
      else ModeInterval(env, lot, opts.startWithMonth, opts.weekOffset, now);
    base.(selectedDate := if Truthy(opts.selectedDate) then Some(ParseToAdapterDate(env, now, opts.selectedDate)) else None)
  }

  /**
   * With no length of time and no start month the calendar shows the
   * current month: from its first millisecond to its last, which holds now.
   */
  lemma InitStateDefault(env: Env, opts: Options, now: Date)
    requires LengthOrEmpty(opts).months == 0 && LengthOrEmpty(opts).days == 0
    requires !Truthy(opts.startWithMonth)
    ensures var s := InitState(env, opts, now);
      s.month == s.intervalStart &&
      Civil(s.intervalStart) == CivilDate(Civil(now).year, Civil(now).month, 1) && s.intervalStart.ms == 0 &&
      Civil(s.intervalEnd) == CivilDate(Civil(now).year, Civil(now).month, DaysInMonth(Civil(now).year, Civil(now).month)) &&
      s.intervalEnd.ms == LastMs &&
      !IsBefore(now, s.intervalStart) && !IsAfter(now, s.intervalEnd)
  {
    var m := StartOfMonth(now);
    assert Civil(m).year == Civil(now).year && Civil(m).month == Civil(now).month;
  }

  /**
   * Months mode: the interval runs from the first of the anchor's month to
   * the last day of the month `months - 1` later, and is not empty.
   */
  lemma InitStateMonths(env: Env, opts: Options, now: Date)
    requires LengthOrEmpty(opts).months >= 1
    requires !Truthy(opts.startWithMonth)
    ensures var lot := LengthOrEmpty(opts);
      var s := InitState(env, opts, now);
      var anchor := if Truthy(lot.startDate) then ParseToAdapterDate(env, now, lot.startDate) else now;
      s.month == s.intervalStart && s.intervalStart == StartOfMonth(anchor) &&
      MonthIndex(Civil(s.intervalEnd)) == MonthIndex(Civil(anchor)) + lot.months - 1 &&
      Civil(s.intervalEnd).day == DaysInMonth(Civil(s.intervalEnd).year, Civil(s.intervalEnd).month) &&
      s.intervalEnd.ms == LastMs && s.intervalStart.day <= s.intervalEnd.day
  {
    var lot := LengthOrEmpty(opts);
    var anchor := if Truthy(lot.startDate) then ParseToAdapterDate(env, now, lot.startDate) else now;
    MonthSpanEnd(StartOfMonth(anchor), lot.months);
  }

  /**
   * Days mode: the interval starts on the day of the anchor's week whose
   * place in the locale week is weekOffset (mod 7) and covers `days` days.
   */
  lemma InitStateDays(env: Env, opts: Options, now: Date)
    requires LengthOrEmpty(opts).months == 0 && LengthOrEmpty(opts).days != 0
    requires !Truthy(opts.startWithMonth)
    ensures var lot := LengthOrEmpty(opts);
      var s := InitState(env, opts, now);
      var anchor := if Truthy(lot.startDate) then ParseToAdapterDate(env, now, lot.startDate) else now;
      s.month == s.intervalStart && s.intervalStart.ms == 0 &&
      StartOfWeek(s.intervalStart, env.fdow) == StartOfWeek(anchor, env.fdow) &&
      LocaleIndex(s.intervalStart, env.fdow) == opts.weekOffset.GetOr(0) % 7 &&
      s.intervalEnd.day == s.intervalStart.day + lot.days - 1 && s.intervalEnd.ms == LastMs
  {
    var lot := LengthOrEmpty(opts);
    var anchor := if Truthy(lot.startDate) then ParseToAdapterDate(env, now, lot.startDate) else now;
    var startDay := StartOfDay(anchor);
    StartOfWeekConstant(anchor, startDay, env.fdow);
    var base := StartOfWeek(startDay, env.fdow);
    StartOfWeekConstant(startDay, base, env.fdow);
  }

  /**
   * A start month overrides every mode's anchor, lengthOfTime.startDate
   * included: the interval starts on the first of that month and its end
   * follows the days length, else the months length, else the month's end.
   */
  lemma InitStateStartWithMonth(env: Env, opts: Options, now: Date)
    requires Truthy(opts.startWithMonth)
    ensures var lot := LengthOrEmpty(opts);
      var s := InitState(env, opts, now);
      var m := StartOfMonth(ParseToAdapterDate(env, now, opts.startWithMonth));
      s.month == m && s.intervalStart == m && Civil(m).day == 1 && s.intervalEnd.ms == LastMs &&
      (lot.days != 0 ==> s.intervalEnd.day == m.day + lot.days - 1) &&
      (lot.days == 0 && lot.months != 0 ==>
        MonthIndex(Civil(s.intervalEnd)) == MonthIndex(Civil(m)) + lot.months - 1 &&
        Civil(s.intervalEnd).day == DaysInMonth(Civil(s.intervalEnd).year, Civil(s.intervalEnd).month)) &&
      (lot.days == 0 && lot.months == 0 ==> s.intervalEnd == EndOfMonth(m))
  {
    var lot := LengthOrEmpty(opts);
    var m := StartOfMonth(ParseToAdapterDate(env, now, opts.startWithMonth));
    MonthSpanEnd(m, lot.months);
  }

  /**
   * The selected date is parsed exactly when it is truthy, and it has no
   * influence on the month or the interval.
   */
  lemma InitStateSelection(env: Env, opts: Options, now: Date, other: DateInput)
    ensures var s := InitState(env, opts, now);
      s.selectedDate.Some? <==> Truthy(opts.selectedDate)
    ensures var s := InitState(env, opts, now);
      s.selectedDate.Some? ==> s.selectedDate.value == ParseToAdapterDate(env, now, opts.selectedDate)
    ensures var s, t := InitState(env, opts, now), InitState(env, opts.(selectedDate := other), now);
      s.month == t.month && s.intervalStart == t.intervalStart && s.intervalEnd == t.intervalEnd
  {
  }
}
