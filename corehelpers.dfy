/**
 * Small pieces of the calendar core used by navigation, events and the
 * grid: the core's own date coercion, the locale weekday index, the
 * lengthOfTime defaults, option lookups with `||` fallbacks, and the month
 * resolution behind setMonth and setYear.
 */
module CoreHelpers {
  import opened Wrappers
  import opened CalendarDates
  import opened Adapter
  import opened LuxonAdapter
  import opened Formatting
  import opened ClndrTypes
  import opened State

  // ---------------------------------------------------------------------
  // Date coercion

  /**
   * The core's parseDateInput: every falsy value (null, undefined, "", 0)
   * means now; otherwise strings go to the ISO parser, a number becomes the
   * native Date at that many epoch milliseconds, and date objects stand for
   * their instant.
   */
  function ParseDateInput(env: Env, now: Date, v: DateInput): (r: Date)
    ensures !Truthy(v) ==> r == now
    ensures v.Text? && v.s != "" ==> r == env.fromISO(v.s)
    ensures v.Millis? && v.n != 0 ==> Instant(r) == v.n
    ensures v.Native? ==> r == v.d
  {
    if !Truthy(v) then now
    else if v.Millis? then FromEpochMs(v.n)
    else ParseToAdapterDate(env, now, v)
  }

  /**
   * The core's coercion and the initialiser's agree on strings and date
   * objects, except on "", which the initialiser hands to the ISO parser and
   * the core reads as now. On numbers they differ: the core builds the
   * epoch-millisecond instant, the initialiser hands the raw number to
   * fromNative.
   */
  lemma ParseDateInputAgrees(env: Env, now: Date, v: DateInput)
    ensures !v.Millis? && v != Text("") ==> ParseDateInput(env, now, v) == ParseToAdapterDate(env, now, v)
    ensures v == Text("") ==> ParseDateInput(env, now, v) == now && ParseToAdapterDate(env, now, v) == env.fromISO("")
    ensures v.Millis? && v.n != 0 ==>
      Instant(ParseDateInput(env, now, v)) == v.n && ParseToAdapterDate(env, now, v) == env.fromNumber(v.n)
    ensures v == Millis(0) ==> ParseDateInput(env, now, v) == now && ParseToAdapterDate(env, now, v) == env.fromNumber(0)
  {
  }

  // ---------------------------------------------------------------------
  // Weekday index

  /**
   * The place of d in its locale week: its Sunday-based weekday minus the
   * locale's first day, brought into 0..6 by one addition of 7.
   */
  function WeekdayIndex(d: Date, fdow: WeekStart): (r: int)
    ensures 0 <= r <= 6
    ensures r == LocaleIndex(d, fdow)
    ensures r == d.day - StartOfWeek(d, fdow).day
  {
    LocaleIndexIsDistance(d, fdow);
    var isoZero := IsoWeekday(d) % 7;
    var relative := isoZero - fdow;
    if relative < 0 then relative + 7 else relative
  }

  // ---------------------------------------------------------------------
  // Length defaults

  /**
   * ensureLengthDefaults: without a lengthOfTime the calendar gets one with
   * no days, no months and an interval of 1; a given one gets interval 1
   * when its interval is missing. Nothing else changes.
   */
  function EnsureLengthDefaults(opts: Options): (r: Options)
    ensures r.lengthOfTime.Some? && r.lengthOfTime.value.interval.Some?
    ensures opts.lengthOfTime.None? ==> r.lengthOfTime.value == LengthOfTime(0, 0, Some(1), Missing)
    ensures opts.lengthOfTime.Some? ==>
      var given, lot := opts.lengthOfTime.value, r.lengthOfTime.value;
      lot.days == given.days && lot.months == given.months && lot.startDate == given.startDate &&
      lot.interval == Some(if given.interval.Some? then given.interval.value else 1)
    ensures r.(lengthOfTime := opts.lengthOfTime) == opts
  {
    if opts.lengthOfTime.None? then
      opts.(lengthOfTime := Some(LengthOfTime(0, 0, Some(1), Missing)))
    else
      var lot := opts.lengthOfTime.value;
      if lot.interval.None? then opts.(lengthOfTime := Some(lot.(interval := Some(1)))) else opts
  }

  /** Applying the defaults twice is applying them once. */
  lemma EnsureLengthDefaultsIdempotent(opts: Options)
    ensures EnsureLengthDefaults(EnsureLengthDefaults(opts)) == EnsureLengthDefaults(opts)
  {
  }

  // ---------------------------------------------------------------------
  // Option lookups

  /**
   * `table?.[key] || fallback`: the entry when it is present and not empty,
   * else the fallback.
   */
  function NameOr(table: Option<map<string, string>>, key: string, fallback: string): (r: string)
    ensures table.Some? && key in table.value && table.value[key] != "" ==> r == table.value[key]
    ensures !(table.Some? && key in table.value && table.value[key] != "") ==> r == fallback
    ensures fallback != "" ==> r != ""
  {
    if table.Some? && key in table.value && table.value[key] != "" then table.value[key] else fallback
  }

  // ---------------------------------------------------------------------
  // Month resolution

  /** What setMonth accepts: a 0-based month number or a month name. */
  datatype MonthInput = MonthNumber(n: int) | MonthName(name: string)

  /** `${year}-${padMonth(month)}-01`. */
  function FirstOfMonthText(year: int, month: int): string {
    IntToString(year) + "-" + PadMonth(month) + "-01"
  }

  /**
   * resolveMonthDate: a number is read as a 0-based month of the year
   * through the ISO parser; a name is parsed with the long-month format.
   */
  function ResolveMonthDate(env: Env, input: MonthInput, year: int): (r: Date)
    ensures input.MonthNumber? ==> r == env.fromISO(FirstOfMonthText(year, input.n + 1))
    ensures input.MonthName? ==> r == env.fromFormat(input.name + " " + IntToString(year), "MMMM YYYY")
  {
    match input
    case MonthNumber(n) => env.fromISO(FirstOfMonthText(year, n + 1))
    case MonthName(name) => env.fromFormat(name + " " + IntToString(year), "MMMM YYYY")
  }

  /** The first day of a calendar month, at midnight. */
  function FirstOfMonth(year: int, month: int): (r: Date)
    requires ValidMonth(month)
    ensures Civil(r) == CivilDate(year, month, 1) && r.ms == 0
  {
    CivilOfDayNumber(CivilDate(year, month, 1));
    Date(DayNumber(CivilDate(year, month, 1)), 0)
  }

  /**
   * An ISO parser that reads every four-digit-year YYYY-MM-DD text as
   * midnight of that day.
   */
  ghost predicate ParsesIsoDates(env: Env) {
    forall d: Date {:trigger IsoDate(d)} :: 1000 <= Civil(d).year <= 9999 ==> env.fromISO(IsoDate(d)) == StartOfDay(d)
  }

  /** A number of at least 1000 has at least four digits. */
  lemma {:induction false} DigitsAtLeast(n: nat, w: nat)
    requires n >= Pow10(w)
    ensures |DecimalDigits(n)| >= w + 1
  {
    if w > 0 {
      DigitsAtLeast(n / 10, w - 1);
    }
  }

  /**
   * For a four-digit year and a calendar month, the text built for the
   * parser is exactly the ISO 8601 calendar date of the first of that month.
   */
  lemma FirstOfMonthTextIsIso(year: int, month: int)
    requires 1000 <= year <= 9999 && ValidMonth(month)
    ensures FirstOfMonthText(year, month) == IsoDate(FirstOfMonth(year, month))
  {
    var f := FirstOfMonth(year, month);
    FourDigitYear(year);
    PadMonthCalendar(month);
    DayOneText();
    var y, m := IntToString(year), PadMonth(month);
    assert IsoDate(f) == y + "-" + m + "-" + "01" by {
      IsoDateParts(f, y, m, "01");
    }
    JoinDateParts(y, m);
  }

  /** Unfolds IsoDate into its three padded parts, for FirstOfMonthTextIsIso. */
  lemma IsoDateParts(d: Date, y: string, m: string, dd: string)
    requires PadStart(Civil(d).year, 4) == y && PadStart(Civil(d).month, 2) == m && PadStart(Civil(d).day, 2) == dd
    ensures IsoDate(d) == y + "-" + m + "-" + dd
  {
  }

  /** Regroups the dashes of the built text, for FirstOfMonthTextIsIso. */
  lemma JoinDateParts(y: string, m: string)
    ensures y + "-" + m + "-" + "01" == y + "-" + m + "-01"
  {
    assert "-" + "01" == "-01";
  }

  lemma FourDigitYear(year: int)
    requires 1000 <= year <= 9999
    ensures PadStart(year, 4) == IntToString(year)
  {
    assert Pow10(3) == 1000 && Pow10(4) == 10000;
    DigitsAtLeast(year, 3);
    DigitsBelowPow10(year, 4);
  }

  /** The padded day of a first of the month, for FirstOfMonthTextIsIso. */
  lemma DayOneText()
    ensures PadStart(1, 2) == "01"
  {
    assert Zeros(1) == "0";
  }

  /**
   * With such a parser, month number n (0-based, 0..11) of a four-digit
   * year resolves to midnight on the first of that month.
   */
  lemma ResolveMonthNumber(env: Env, n: int, year: int)
    requires ParsesIsoDates(env)
    requires 0 <= n <= 11 && 1000 <= year <= 9999
    ensures ResolveMonthDate(env, MonthNumber(n), year) == FirstOfMonth(year, n + 1)
  {
    ParseFirstOfMonth(env, year, n + 1);
  }

  /** An ISO parser reads the text built for a month's first day as midnight of that day. */
  lemma ParseFirstOfMonth(env: Env, year: int, month: int)
    requires ParsesIsoDates(env)
    requires 1000 <= year <= 9999 && ValidMonth(month)
    ensures env.fromISO(FirstOfMonthText(year, month)) == FirstOfMonth(year, month)
  {
    var f := FirstOfMonth(year, month);
    FirstOfMonthTextIsIso(year, month);
    assert env.fromISO(IsoDate(f)) == StartOfDay(f);
  }
}
