/**
 * The option, event and environment records shared by the calendar core,
 * the state initialiser, option normalisation and the templates.
 */
module ClndrTypes {
  import opened Wrappers
  import opened CalendarDates
  import opened Adapter

  /**
   * A date as callers hand it in: absent (null or undefined), a string, a
   * number of milliseconds, or a date object (a JavaScript Date or an
   * adapter date), which stands for its instant.
   */
  datatype DateInput = Missing | Text(s: string) | Millis(n: int) | Native(d: Date)

  /** JavaScript truthiness of such a value: null, "", 0 are falsy. */
  predicate Truthy(v: DateInput) {
    match v
    case Missing => false
    case Text(s) => s != ""
    case Millis(n) => n != 0
    case Native(_) => true
  }

  /**
   * lengthOfTime: `days` and `months` are 0 when absent (null, undefined
   * and 0 are all falsy wherever the source reads them).
   */
  datatype LengthOfTime = LengthOfTime(days: int, months: int, interval: Option<int>, startDate: DateInput)

  datatype Constraints = Constraints(startDate: DateInput, endDate: DateInput)

  /** Field names of multi-day events; an empty `singleDay` means none. */
  datatype MultiDayConfig = MultiDayConfig(startDate: string, endDate: string, singleDay: string)

  /** A user event: its date-valued fields by name; other user data is opaque. */
  datatype ClndrEvent = ClndrEvent(fields: map<string, DateInput>, tag: int)

  /** The value of a field, undefined when the event has no such field. */
  function Field(ev: ClndrEvent, key: string): DateInput {
    if key in ev.fields then ev.fields[key] else Missing
  }

  /** An event with its parsed start and end instants attached. */
  datatype RuntimeEvent = RuntimeEvent(source: ClndrEvent, start: Date, end: Date)

  /** JavaScript values as templates see them. */
  datatype Value =
    | Undefined
    | Null
    | Str(s: string)
    | Num(n: int)
    | Bool(b: bool)
    | Arr(elems: seq<Value>)
    | Obj(props: map<string, Value>)

  /** The options object; optional entries are `None` when not given. */
  datatype Options = Options(
    weekOffset: Option<int>,
    showAdjacentMonths: Option<bool>,
    trackSelectedDate: Option<bool>,
    dateParameter: Option<string>,
    template: Option<string>,
    render: Option<Value -> string>,
    startWithMonth: DateInput,
    daysOfTheWeek: Option<seq<string>>,
    formatWeekdayHeader: Option<Date -> string>,
    targets: Option<map<string, string>>,
    classes: Option<map<string, string>>,
    events: Option<seq<ClndrEvent>>,
    multiDayEvents: Option<MultiDayConfig>,
    adjacentDaysChangeMonth: Option<bool>,
    forceSixRows: Option<bool>,
    selectedDate: DateInput,
    ignoreInactiveDaysInSelection: Option<bool>,
    lengthOfTime: Option<LengthOfTime>,
    extras: Value,
    constraints: Option<Constraints>)

  /** Seven weekday names, Monday first, as the library lists them. */
  type WeekNames = s: seq<string> | |s| == 7 witness ["", "", "", "", "", "", ""]

  /**
   * What the core needs from the date library: its parsers, the locale's
   * first day of the week, its month name format ('MMMM'), its short
   * weekday names and its own short weekday format ('ccc').
   * `fromNumber` is the adapter's fromNative applied to a raw number, as the
   * state initialiser does; the core itself builds a native Date first.
   */
  datatype Env = Env(
    fdow: WeekStart,
    fromISO: string -> Date,
    fromNumber: int -> Date,
    fromFormat: (string, string) -> Date,
    monthName: Date -> string,
    shortWeekdayNames: WeekNames,
    weekdayFormat: Date -> string)

  /** The calendar's timing state. */
  datatype CalendarState = CalendarState(month: Date, intervalStart: Date, intervalEnd: Date, selectedDate: Option<Date>)

  datatype DayProperties = DayProperties(isToday: bool, isInactive: bool, isAdjacentMonth: bool)

  /**
   * One cell of the grid: a dated day (day of month, its date, its events,
   * its classes and flags) or an empty placeholder (day 0, no date).
   */
  datatype ClndrDay = ClndrDay(day: int, date: Option<Date>, events: seq<RuntimeEvent>, classes: string, properties: Option<DayProperties>)

  /** One month of a months-mode view. */
  datatype MonthBlock = MonthBlock(days: seq<ClndrDay>, month: Date)

  /** The interval's events: absent, one list, or one list per month. */
  datatype IntervalEvents = NoIntervalEvents | Flat(events: seq<RuntimeEvent>) | PerMonth(lists: seq<seq<RuntimeEvent>>)

  /** The data handed to a template. */
  datatype TemplateData = TemplateData(
    daysOfTheWeek: seq<string>,
    extras: Value,
    days: seq<ClndrDay>,
    month: Option<string>,
    year: Option<string>,
    eventsThisMonth: seq<RuntimeEvent>,
    eventsLastMonth: seq<RuntimeEvent>,
    eventsNextMonth: seq<RuntimeEvent>,
    months: seq<MonthBlock>,
    numberOfRows: int,
    intervalStart: Option<Date>,
    intervalEnd: Option<Date>,
    eventsThisInterval: IntervalEvents)
}
