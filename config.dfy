/**
 * Option normalisation: the default target and class tables, the defaults
 * filled into a user's options, and the seven weekday header labels.
 */
module Config {
  import opened Wrappers
  import opened CalendarDates
  import opened Adapter
  import opened LuxonAdapter
  import opened ClndrTypes

  /** Default names of the elements the calendar looks for. */
  const DefaultTargets: map<string, string> := map[
    "day" := "day",
    "empty" := "empty",
    "nextButton" := "clndr-next-button",
    "todayButton" := "clndr-today-button",
    "previousButton" := "clndr-previous-button",
    "nextYearButton" := "clndr-next-year-button",
    "previousYearButton" := "clndr-previous-year-button"]

  /** Default class names for the states of a day. */
  const DefaultClasses: map<string, string> := map[
    "past" := "past",
    "today" := "today",
    "event" := "event",
    "inactive" := "inactive",
    "selected" := "selected",
    "lastMonth" := "last-month",
    "nextMonth" := "next-month",
    "adjacentMonth" := "adjacent-month"]

  /**
   * Spread the given table over the defaults: given keys win, every other
   * default survives, and no other key appears.
   */
  function Merge(defaults: map<string, string>, given: Option<map<string, string>>): (r: map<string, string>)
    ensures r.Keys == defaults.Keys + (if given.Some? then given.value.Keys else {})
    ensures given.Some? ==> forall k :: k in given.value ==> r[k] == given.value[k]
    ensures forall k :: k in defaults && (given.None? || k !in given.value) ==> r[k] == defaults[k]
  {
    if given.Some? then defaults + given.value else defaults
  }

  /** First character of a string, "" for "" (String.prototype.charAt(0)). */
  function FirstChar(s: string): (r: string)
    ensures |r| == if s == [] then 0 else 1
    ensures s != [] ==> r[0] == s[0]
  {
    if s == [] then [] else s[..1]
  }

  /** The day of now's locale week whose locale index is `index` mod 7. */
  function WeekDay(env: Env, now: Date, index: int): Date {
    SetWeekday(StartOfWeek(now, env.fdow), index, env.fdow)
  }

  /** The default label of the weekday at `index`: first letter of its two-letter name. */
  function DefaultLabel(env: Env, now: Date, index: int): string {
    var d := WeekDay(env, now, index);
    FirstChar(FormatTwoLetterWeekday(d, env.shortWeekdayNames, env.weekdayFormat(d)))
  }

  /**
   * The weekday header labels: the user's seven labels rotated by the week
   * offset; else one callback label per weekday; else the first letters of
   * the locale's two-letter names, rotated by the week offset.
   */
  function ComputeWeekdayLabels(env: Env, opts: Options, now: Date): (r: seq<string>)
    ensures |r| == 7
  {
    var weekOffset := opts.weekOffset.GetOr(0);
    if opts.daysOfTheWeek.Some? && |opts.daysOfTheWeek.value| == 7 then
      Rotate(opts.daysOfTheWeek.value, weekOffset)
    else if opts.formatWeekdayHeader.Some? then
      var header := opts.formatWeekdayHeader.value;
      seq(7, idx => header(WeekDay(env, now, JsRem(idx + weekOffset, 7))))
    else
      Rotate(seq(7, idx => DefaultLabel(env, now, idx)), weekOffset)
  }

  /** Seven user labels win over everything else and are rotated left by the week offset. */
  lemma UserLabelsWin(env: Env, opts: Options, now: Date, i: int)
    requires opts.daysOfTheWeek.Some? && |opts.daysOfTheWeek.value| == 7
    requires 0 <= i < 7
    ensures ComputeWeekdayLabels(env, opts, now)[i] == opts.daysOfTheWeek.value[(i + opts.weekOffset.GetOr(0)) % 7]
  {
    RotateAt(opts.daysOfTheWeek.value, opts.weekOffset.GetOr(0), i);
  }

  /**
   * Without seven user labels, a header callback gives label i for the day
   * of now's locale week at place (i + weekOffset) mod 7.
   */
  lemma CallbackLabels(env: Env, opts: Options, now: Date, i: int)
    requires !(opts.daysOfTheWeek.Some? && |opts.daysOfTheWeek.value| == 7)
    requires opts.formatWeekdayHeader.Some?
    requires 0 <= i < 7
    ensures var d := WeekDay(env, now, JsRem(i + opts.weekOffset.GetOr(0), 7));
      ComputeWeekdayLabels(env, opts, now)[i] == opts.formatWeekdayHeader.value(d) &&
      LocaleIndex(d, env.fdow) == (i + opts.weekOffset.GetOr(0)) % 7 &&
      StartOfWeek(d, env.fdow) == StartOfWeek(now, env.fdow)
  {
    var w := opts.weekOffset.GetOr(0);
    JsRemMod(i + w, 7);
    StartOfWeekConstant(now, StartOfWeek(now, env.fdow), env.fdow);
  }

  /**
   * With neither user labels nor a callback, label i is the default label of
   * the day at place (i + weekOffset) mod 7 of now's locale week.
   */
  lemma DefaultLabels(env: Env, opts: Options, now: Date, i: int)
    requires !(opts.daysOfTheWeek.Some? && |opts.daysOfTheWeek.value| == 7)
    requires opts.formatWeekdayHeader.None?
    requires 0 <= i < 7
    ensures ComputeWeekdayLabels(env, opts, now)[i] == DefaultLabel(env, now, (i + opts.weekOffset.GetOr(0)) % 7)
    ensures |ComputeWeekdayLabels(env, opts, now)[i]| <= 1
  {
    var labels := seq(7, idx => DefaultLabel(env, now, idx));
    RotateAt(labels, opts.weekOffset.GetOr(0), i);
  }

  /** The options as normalised, and the weekday labels computed from them. */
  datatype NormalizedConfig = NormalizedConfig(options: Options, daysOfTheWeek: seq<string>)

  /** Fill in defaults, merge the tables, and compute the weekday labels. */
  function NormalizeOptions(env: Env, now: Date, input: Options): (r: NormalizedConfig)
    ensures |r.daysOfTheWeek| == 7
    ensures r.options.dateParameter == Some("date")
  {
    var o := Options(
      Some(input.weekOffset.GetOr(0)),
      Some(input.showAdjacentMonths.GetOr(true)),
      Some(input.trackSelectedDate.GetOr(false)),
      Some("date"),
      input.template,
      input.render,
      input.startWithMonth,
      input.daysOfTheWeek,
      input.formatWeekdayHeader,
      Some(Merge(DefaultTargets, input.targets)),
      Some(Merge(DefaultClasses, input.classes)),
      Some(input.events.GetOr([])),
      input.multiDayEvents,
      Some(input.adjacentDaysChangeMonth.GetOr(false)),
      input.forceSixRows,
      input.selectedDate,
      input.ignoreInactiveDaysInSelection,
      input.lengthOfTime,
      input.extras,
      input.constraints);
    NormalizedConfig(o, ComputeWeekdayLabels(env, o, now))
  }

  /**
   * Every defaulted entry is present afterwards: a given value is kept, a
   * missing one takes its default, and the date parameter is always "date".
   */
  lemma NormalizeDefaults(env: Env, now: Date, input: Options)
    ensures var o := NormalizeOptions(env, now, input).options;
      o.weekOffset == Some(if input.weekOffset.Some? then input.weekOffset.value else 0) &&
      o.showAdjacentMonths == Some(if input.showAdjacentMonths.Some? then input.showAdjacentMonths.value else true) &&
      o.trackSelectedDate == Some(if input.trackSelectedDate.Some? then input.trackSelectedDate.value else false) &&
      o.adjacentDaysChangeMonth == Some(if input.adjacentDaysChangeMonth.Some? then input.adjacentDaysChangeMonth.value else false) &&
      o.events == Some(if input.events.Some? then input.events.value else []) &&
      o.forceSixRows == input.forceSixRows && o.selectedDate == input.selectedDate &&
      o.ignoreInactiveDaysInSelection == input.ignoreInactiveDaysInSelection &&
      o.constraints == input.constraints && o.lengthOfTime == input.lengthOfTime &&
      o.startWithMonth == input.startWithMonth && o.daysOfTheWeek == input.daysOfTheWeek
  {
  }

  /**
   * Target and class tables: a given key keeps its given value, every other
   * default key keeps its default.
   */
  lemma NormalizeMergesTables(env: Env, now: Date, input: Options, key: string)
    ensures var o := NormalizeOptions(env, now, input).options;
      o.targets.Some? && o.classes.Some? &&
      (input.targets.Some? && key in input.targets.value ==> o.targets.value[key] == input.targets.value[key]) &&
      (key in DefaultTargets && (input.targets.None? || key !in input.targets.value) ==> o.targets.value[key] == DefaultTargets[key]) &&
      (input.classes.Some? && key in input.classes.value ==> o.classes.value[key] == input.classes.value[key]) &&
      (key in DefaultClasses && (input.classes.None? || key !in input.classes.value) ==> o.classes.value[key] == DefaultClasses[key])
  {
  }

  /** Normalising normalised options changes nothing. */
  lemma NormalizeIdempotent(env: Env, now: Date, input: Options)
    ensures var n := NormalizeOptions(env, now, input);
      NormalizeOptions(env, now, n.options) == n
  {
    var n := NormalizeOptions(env, now, input);
    assert Merge(DefaultTargets, n.options.targets) == n.options.targets.value;
    assert Merge(DefaultClasses, n.options.classes) == n.options.classes.value;
  }
}
