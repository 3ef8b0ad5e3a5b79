/**
 * The day grid of the calendar core: one cell per day with its events,
 * classes and flags, blank placeholders, and the layout of a whole grid
 * (leading days of the previous month, the interval's days, trailing days
 * to the end of the week, and optionally six full rows).
 */
module Grid {
  import opened Wrappers
  import opened CalendarDates
  import opened LuxonAdapter
  import opened Formatting
  import opened ClndrTypes
  import opened CoreHelpers
  import opened Events

  const WeekLength: int := 7
  const SixRows: int := 42

  // ---------------------------------------------------------------------
  // One day

  /** What a day cell depends on besides its date and its event list. */
  datatype DayContext = DayContext(
    env: Env,
    now: Date,
    classes: Option<map<string, string>>,
    targets: Option<map<string, string>>,
    usesDays: bool,
    intervalStart: Option<Date>,
    constraintStart: Option<Date>,
    constraintEnd: Option<Date>,
    selectedDate: DateInput)

  function TargetsDay(ctx: DayContext): string { NameOr(ctx.targets, "day", "day") }

  function TargetsEmpty(ctx: DayContext): string { NameOr(ctx.targets, "empty", "empty") }

  function ClassName(ctx: DayContext, key: string, default: string): string { NameOr(ctx.classes, key, default) }

  /**
   * Outside days and months mode, with an interval start recorded: -1 for
   * a day before the first of the interval's month, 1 for a day after its
   * last day, 0 otherwise.
   */
  function AdjacentSide(ctx: DayContext, day: Date): (r: int)
    ensures -1 <= r <= 1
  {
    if !ctx.usesDays && ctx.intervalStart.Some? then
      var monthStart := StartOfMonth(ctx.intervalStart.value);
      var monthEnd := EndOfMonth(monthStart);
      if IsBefore(day, monthStart) then -1 else if IsAfter(day, monthEnd) then 1 else 0
    else 0
  }

  predicate BeforeConstraint(ctx: DayContext, day: Date) {
    ctx.constraintStart.Some? && IsBefore(day, ctx.constraintStart.value)
  }

  predicate AfterConstraint(ctx: DayContext, day: Date) {
    ctx.constraintEnd.Some? && IsAfter(day, ctx.constraintEnd.value)
  }

  predicate IsSelected(ctx: DayContext, day: Date) {
    Truthy(ctx.selectedDate) && HasSameDay(day, ParseDateInput(ctx.env, ctx.now, ctx.selectedDate))
  }

  /** Include `s` when `c` holds. */
  function When(c: bool, s: seq<string>): seq<string> { if c then s else [] }

  /**
   * The classes between the day target and the date classes, in order:
   * today, past, event, adjacent month with its side, inactive once per
   * violated bound, selected.
   */
  function FlagClasses(ctx: DayContext, day: Date, eventsToday: seq<RuntimeEvent>): seq<string> {
    var side := AdjacentSide(ctx, day);
    When(HasSameDay(day, ctx.now), [ClassName(ctx, "today", "today")])
    + When(IsBefore(EndOfDay(day), StartOfDay(ctx.now)), [ClassName(ctx, "past", "past")])
    + When(|eventsToday| > 0, [ClassName(ctx, "event", "event")])
    + When(side == -1, [ClassName(ctx, "adjacentMonth", "adjacent-month"), ClassName(ctx, "lastMonth", "last-month")])
    + When(side == 1, [ClassName(ctx, "adjacentMonth", "adjacent-month"), ClassName(ctx, "nextMonth", "next-month")])
    + When(BeforeConstraint(ctx, day), [ClassName(ctx, "inactive", "inactive")])
    + When(AfterConstraint(ctx, day), [ClassName(ctx, "inactive", "inactive")])
    + When(IsSelected(ctx, day), [ClassName(ctx, "selected", "selected")])
  }

  /**
   * The classes of a day: the day target first, the flag classes, and last
   * the day's ISO date and its weekday index.
   */
  function DayClassList(ctx: DayContext, day: Date, eventsToday: seq<RuntimeEvent>): seq<string> {
    [TargetsDay(ctx)] + FlagClasses(ctx, day, eventsToday)
    + ["calendar-day-" + IsoDate(day), "calendar-dow-" + IntToString(WeekdayIndex(day, ctx.env.fdow))]
  }

  /**
   * The day target opens the list, the flag classes follow, and the list
   * closes with the date class and then the weekday class.
   */
  lemma DayClassListShape(ctx: DayContext, day: Date, eventsToday: seq<RuntimeEvent>)
    ensures var r := DayClassList(ctx, day, eventsToday);
      |r| == |FlagClasses(ctx, day, eventsToday)| + 3 && r[0] == TargetsDay(ctx) &&
      r[|r| - 2] == "calendar-day-" + IsoDate(day) &&
      r[|r| - 1] == "calendar-dow-" + IntToString(WeekdayIndex(day, ctx.env.fdow))
  {
    var flags := FlagClasses(ctx, day, eventsToday);
    var tail := ["calendar-day-" + IsoDate(day), "calendar-dow-" + IntToString(WeekdayIndex(day, ctx.env.fdow))];
    var r := DayClassList(ctx, day, eventsToday);
    assert r == [TargetsDay(ctx)] + flags + tail;
    assert r[|r| - 2] == tail[0] && r[|r| - 1] == tail[1];
  }

  /** Each condition of a day puts its class in the day's list. */
  lemma DayClassListMentions(ctx: DayContext, day: Date, eventsToday: seq<RuntimeEvent>)
    ensures var r := DayClassList(ctx, day, eventsToday);
      (HasSameDay(day, ctx.now) ==> ClassName(ctx, "today", "today") in r) &&
      (|eventsToday| > 0 ==> ClassName(ctx, "event", "event") in r) &&
      (AdjacentSide(ctx, day) != 0 ==> ClassName(ctx, "adjacentMonth", "adjacent-month") in r) &&
      (AdjacentSide(ctx, day) == -1 ==> ClassName(ctx, "lastMonth", "last-month") in r) &&
      (AdjacentSide(ctx, day) == 1 ==> ClassName(ctx, "nextMonth", "next-month") in r) &&
      (BeforeConstraint(ctx, day) || AfterConstraint(ctx, day) ==> ClassName(ctx, "inactive", "inactive") in r) &&
      (IsSelected(ctx, day) ==> ClassName(ctx, "selected", "selected") in r)
  {
  }

  /**
   * createDayObject: the cell of a dated day, holding the events of
   * `monthEvents` that touch that day, its classes joined by spaces, and
   * its today / inactive / adjacent-month flags.
   */
  function DayCell(ctx: DayContext, day: Date, monthEvents: seq<RuntimeEvent>): (r: ClndrDay)
    ensures r.date == Some(day)
  {
    var eventsToday := EventsInRange(monthEvents, day, day);
    var props := DayProperties(
      HasSameDay(day, ctx.now),
      BeforeConstraint(ctx, day) || AfterConstraint(ctx, day),
      AdjacentSide(ctx, day) != 0);
    ClndrDay(DayOfMonth(day), Some(day), eventsToday, Trim(Join(DayClassList(ctx, day, eventsToday), " ")), Some(props))
  }

  /**
   * A day cell holds the day's number in its month, exactly the events of
   * the list that span the day, its flags (today, inactive outside the
   * constraints, adjacent outside the interval's month) and its class list
   * joined by spaces.
   */
  lemma DayCellSpec(ctx: DayContext, day: Date, monthEvents: seq<RuntimeEvent>)
    ensures var r := DayCell(ctx, day, monthEvents);
      r.day == DayOfMonth(day) && r.properties.Some? &&
      (forall ev :: ev in r.events <==> ev in monthEvents && ev.start.day <= day.day <= ev.end.day) &&
      (r.properties.value.isToday <==> day.day == ctx.now.day) &&
      (r.properties.value.isInactive <==> BeforeConstraint(ctx, day) || AfterConstraint(ctx, day)) &&
      (r.properties.value.isAdjacentMonth <==> AdjacentSide(ctx, day) != 0) &&
      r.classes == Trim(Join(DayClassList(ctx, day, r.events), " "))
  {
    DayCellEvents(ctx, day, monthEvents);
  }

  /** The events of a day cell are the events of the list that span its day. */
  lemma DayCellEvents(ctx: DayContext, day: Date, monthEvents: seq<RuntimeEvent>)
    ensures forall ev :: ev in DayCell(ctx, day, monthEvents).events <==> ev in monthEvents && ev.start.day <= day.day <= ev.end.day
  {
    EventsInRangeSpec(monthEvents, day, day);
  }

  /**
   * For a day at midnight and bounds as the core stores them (the lower at
   * the start of its day, the upper at the end of its day), the flags are
   * comparisons of days and months: inactive exactly outside the bounds,
   * adjacent exactly outside the interval's month in month modes.
   */
  lemma DayCellFlags(ctx: DayContext, day: Date, monthEvents: seq<RuntimeEvent>)
    requires day.ms == 0
    requires ctx.constraintStart.Some? ==> ctx.constraintStart.value.ms == 0
    requires ctx.constraintEnd.Some? ==> ctx.constraintEnd.value.ms == LastMs
    ensures var p := DayCell(ctx, day, monthEvents).properties.value;
      (p.isInactive <==>
        (ctx.constraintStart.Some? && day.day < ctx.constraintStart.value.day) ||
        (ctx.constraintEnd.Some? && day.day > ctx.constraintEnd.value.day)) &&
      (p.isAdjacentMonth <==> !ctx.usesDays && ctx.intervalStart.Some? && !HasSameMonth(day, ctx.intervalStart.value))
  {
    if ctx.constraintStart.Some? { InstantOrder(day, ctx.constraintStart.value); }
    if ctx.constraintEnd.Some? { InstantOrder(day, ctx.constraintEnd.value); }
    if !ctx.usesDays && ctx.intervalStart.Some? {
      AdjacentByMonth(day, ctx.intervalStart.value);
    }
  }

  /** A midnight day is before the first of x's month or after its last day exactly when it is in another month. */
  lemma AdjacentByMonth(day: Date, x: Date)
    requires day.ms == 0
    ensures var monthStart := StartOfMonth(x);
      IsBefore(day, monthStart) || IsAfter(day, EndOfMonth(monthStart)) <==> !HasSameMonth(day, x)
  {
    var monthStart := StartOfMonth(x);
    StartOfMonthFixed(monthStart);
    InstantOrder(day, monthStart);
    InstantOrder(day, EndOfMonth(monthStart));
    SameMonthByDays(day, x);
  }

  /** calendarDay without a date: day 0, no date, no events, no flags. */
  function BlankCell(classes: string): (r: ClndrDay)
    ensures r.day == 0 && r.date.None? && r.events == [] && r.properties.None? && r.classes == classes
  {
    ClndrDay(0, None, [], classes, None)
  }

  /** The class of a placeholder: the empty target and the class for that side, trimmed. */
  function FillerClass(ctx: DayContext, key: string): string {
    Trim(TargetsEmpty(ctx) + " " + ClassName(ctx, key, ""))
  }

  // ---------------------------------------------------------------------
  // The grid

  /**
   * Everything createDaysObject reads: the day context, the interval (its
   * first instant and its last), the options that shape the grid, and the
   * three event lists it hands to cells.
   */
  datatype GridParams = GridParams(
    ctx: DayContext,
    start: Date,
    end: Date,
    showAdjacent: bool,
    weekOffset: int,
    forceSixRows: bool,
    thisEvents: seq<RuntimeEvent>,
    lastEvents: seq<RuntimeEvent>,
    nextEvents: seq<RuntimeEvent>)

  /** The interval as the core passes it: from the start of a day to the end of a day. */
  predicate Normalized(p: GridParams) {
    p.start.ms == 0 && p.end.ms == LastMs
  }

  /** Weekday index of the start less the week offset, plus 7 once when negative. */
  function LeadDiff(p: GridParams): int {
    var diff := WeekdayIndex(p.start, p.ctx.env.fdow) - p.weekOffset;
    if diff < 0 then diff + WeekLength else diff
  }

  /** Cells before the interval's first day: none in days mode. */
  function LeadCount(p: GridParams): nat {
    if p.ctx.usesDays || LeadDiff(p) <= 0 then 0 else LeadDiff(p)
  }

  /** Cells of the interval itself: one per day from start to end. */
  function MainCount(p: GridParams): nat {
    if p.start.day <= p.end.day then p.end.day - p.start.day + 1 else 0
  }

  /** The least multiple of 7 not below n. */
  function RoundUpWeek(n: nat): (r: nat)
    ensures r % WeekLength == 0 && n <= r < n + WeekLength
  {
    if n % WeekLength == 0 then n else n + (WeekLength - n % WeekLength)
  }

  /** Length after the trailing fill: whole weeks outside days mode. */
  function FilledCount(p: GridParams): nat {
    var n := LeadCount(p) + MainCount(p);
    if p.ctx.usesDays then n else RoundUpWeek(n)
  }

  /** Length of the grid: six rows when forced and fewer were filled. */
  function GridLength(p: GridParams): nat {
    var n := FilledCount(p);
    if p.forceSixRows && n < SixRows then SixRows else n
  }

  /** The day cell i stands for: i - lead days after the start. */
  function CellDate(p: GridParams, i: int): Date {
    PlusDays(p.start, i - LeadCount(p))
  }

  /** A cell holds a day when adjacent months are shown or it belongs to the interval. */
  predicate CellDated(p: GridParams, i: int) {
    p.showAdjacent || LeadCount(p) <= i < LeadCount(p) + MainCount(p)
  }

  /** The events a dated cell draws on: last month's, the interval's or next month's. */
  function CellEvents(p: GridParams, i: int): seq<RuntimeEvent> {
    if i < LeadCount(p) then p.lastEvents
    else if i < LeadCount(p) + MainCount(p) then p.thisEvents
    else p.nextEvents
  }

  /** The class key of a placeholder: lastMonth before the interval, nextMonth after it. */
  function FillerSide(p: GridParams, i: int): string {
    if i < LeadCount(p) then "lastMonth" else "nextMonth"
  }

  /**
   * Cell i of the grid: leading cells draw on last month's events, the
   * interval's cells on the interval's, trailing cells on next month's;
   * without adjacent months the leading and trailing cells are blank.
   */
  function GridCell(p: GridParams, i: int): ClndrDay {
    if CellDated(p, i) then DayCell(p.ctx, CellDate(p, i), CellEvents(p, i))
    else BlankCell(FillerClass(p.ctx, FillerSide(p, i)))
  }

  /** The grid as a whole. */
  function GridDays(p: GridParams): (r: seq<ClndrDay>)
    ensures |r| == GridLength(p)
  {
    seq(GridLength(p), i requires 0 <= i => GridCell(p, i))
  }

  /** The cells before the interval. */
  lemma GridCellLead(p: GridParams, i: int)
    requires i < LeadCount(p)
    ensures p.showAdjacent ==> GridCell(p, i) == DayCell(p.ctx, CellDate(p, i), p.lastEvents)
    ensures !p.showAdjacent ==> GridCell(p, i) == BlankCell(FillerClass(p.ctx, "lastMonth"))
  {
  }

  /** The cells of the interval. */
  lemma GridCellMain(p: GridParams, i: int)
    requires LeadCount(p) <= i < LeadCount(p) + MainCount(p)
    ensures GridCell(p, i) == DayCell(p.ctx, CellDate(p, i), p.thisEvents)
  {
  }

  /** The cells after the interval. */
  lemma GridCellTrail(p: GridParams, i: int)
    requires LeadCount(p) + MainCount(p) <= i
    ensures p.showAdjacent ==> GridCell(p, i) == DayCell(p.ctx, CellDate(p, i), p.nextEvents)
    ensures !p.showAdjacent ==> GridCell(p, i) == BlankCell(FillerClass(p.ctx, "nextMonth"))
  {
  }

  /** The only whole number of weeks from n up to its round-up is the round-up. */
  lemma RoundUpUnique(n: nat, m: nat)
    requires m % WeekLength == 0 && n <= m <= RoundUpWeek(n)
    ensures m == RoundUpWeek(n)
  {
    var r := RoundUpWeek(n);
    var a, b := m / WeekLength, r / WeekLength;
    assert m == a * 7 && r == b * 7;
    assert (b - a) * 7 < 7;
  }

  /**
   * A cell is dated exactly when adjacent months are shown or it belongs
   * to the interval, and then it holds the day it stands for.
   */
  lemma GridCellDated(p: GridParams, i: int)
    ensures GridCell(p, i).date.Some? <==> p.showAdjacent || LeadCount(p) <= i < LeadCount(p) + MainCount(p)
    ensures GridCell(p, i).date.Some? ==> GridCell(p, i).date == Some(CellDate(p, i))
  {
  }

  /**
   * Outside days mode the grid is whole weeks, and holds at most six days
   * more than the leading days and the interval unless six rows are forced.
   */
  lemma GridWholeWeeks(p: GridParams)
    requires !p.ctx.usesDays
    ensures GridLength(p) % WeekLength == 0
    ensures LeadCount(p) + MainCount(p) <= GridLength(p)
    ensures !p.forceSixRows ==> GridLength(p) < LeadCount(p) + MainCount(p) + WeekLength
  {
  }

  /**
   * In days mode nothing precedes the interval and nothing follows it but
   * the six-row fill: cell i is day i of the interval.
   */
  lemma DaysModeGrid(p: GridParams, i: int)
    requires p.ctx.usesDays && 0 <= i < MainCount(p)
    ensures LeadCount(p) == 0
    ensures GridLength(p) == if p.forceSixRows && MainCount(p) < SixRows then SixRows else MainCount(p)
    ensures GridCell(p, i) == DayCell(p.ctx, PlusDays(p.start, i), p.thisEvents)
  {
    assert CellDate(p, i) == PlusDays(p.start, i);
  }

  /** In days mode, cell k of the grid (k within the interval) holds day k of the interval, at midnight. */
  lemma DaysModeCell(p: GridParams, k: int)
    requires p.ctx.usesDays && Normalized(p) && 0 <= k < MainCount(p)
    ensures k < |GridDays(p)| && GridDays(p)[k].date == Some(Date(p.start.day + k, 0))
  {
    var days := GridDays(p);
    assert LeadCount(p) == 0 && k < MainCount(p) <= GridLength(p) == |days|;
    GridCellDated(p, k);
    assert days[k] == GridCell(p, k);
    assert CellDate(p, k) == Date(p.start.day + k, 0);
  }

  /** The leading cells of a grid with a week offset 0..6: the start's weekday index less the offset, mod 7. */
  lemma LeadCountMod(p: GridParams)
    requires !p.ctx.usesDays && 0 <= p.weekOffset <= 6
    ensures LeadCount(p) == (WeekdayIndex(p.start, p.ctx.env.fdow) - p.weekOffset) % 7
  {
    var d := WeekdayIndex(p.start, p.ctx.env.fdow) - p.weekOffset;
    assert -6 <= d <= 6;
    if d < 0 {
      assert LeadCount(p) == d + 7;
      ModAddMultiple(d, 7, 1);
    } else {
      assert LeadCount(p) == d;
    }
  }

  /** A month's interval holds the month's days. */
  lemma MonthMainCount(p: GridParams)
    requires Normalized(p) && Civil(p.start).day == 1 && p.end == EndOfMonth(p.start)
    ensures MainCount(p) == DaysInMonth(Civil(p.start).year, Civil(p.start).month)
  {
    StartOfMonthFixed(p.start);
  }

  /**
   * A month's grid (outside days mode, a week offset 0..6, the interval one
   * calendar month) has four to six whole rows, exactly six when forced.
   */
  lemma MonthGridSize(p: GridParams)
    requires !p.ctx.usesDays && Normalized(p) && 0 <= p.weekOffset <= 6
    requires Civil(p.start).day == 1 && p.end == EndOfMonth(p.start)
    ensures 28 <= GridLength(p) <= SixRows && GridLength(p) % WeekLength == 0
    ensures p.forceSixRows ==> GridLength(p) == SixRows
  {
    MonthMainCount(p);
    MonthFilledCount(p);
  }

  /** Before the six-row fill a grid over 28 to 31 days already has four to six whole rows. */
  lemma MonthFilledCount(p: GridParams)
    requires !p.ctx.usesDays && 0 <= p.weekOffset && 28 <= MainCount(p) <= 31
    ensures 28 <= FilledCount(p) <= SixRows && FilledCount(p) % WeekLength == 0
  {
    MonthRows(LeadCount(p) + MainCount(p));
  }

  /** Up to six leading days and a month of 28 to 31 days fill four to six weeks. */
  lemma MonthRows(n: nat)
    requires 28 <= n <= 37
    ensures 28 <= RoundUpWeek(n) <= SixRows
  {
    WeeksBelow(RoundUpWeek(n), 6);
  }

  /** A whole number of weeks below seven weeks is at most six weeks. */
  lemma WeeksBelow(r: nat, k: nat)
    requires r % WeekLength == 0 && r < (k + 1) * WeekLength
    ensures r <= k * WeekLength
  {
    var q := r / WeekLength;
    assert r == q * 7;
  }

  /** Arithmetic behind the columns: shifting by the lead lines the week up with the offset. */
  lemma ColumnShift(a: int, w: int, o: int, t: int, i: int)
    requires w == a % 7 && (t == 0 || t == 1)
    ensures (a + i - (w - o + 7 * t)) % 7 == (i + o) % 7
  {
    var q := a / 7;
    assert a + i - (w - o + 7 * t) == (i + o) + (q - t) * 7;
    ModAddMultiple(i + o, 7, q - t);
  }

  /**
   * Every cell stands for a day in the column of its weekday: with a week
   * offset of at most 7, outside days mode, the day of cell i has locale
   * index (i + weekOffset) mod 7, the header label of column i mod 7.
   */
  lemma GridColumns(p: GridParams, i: int)
    requires !p.ctx.usesDays && p.weekOffset <= 7
    ensures LocaleIndex(CellDate(p, i), p.ctx.env.fdow) == (i + p.weekOffset) % 7
  {
    var fdow := p.ctx.env.fdow;
    var w := WeekdayIndex(p.start, fdow);
    var t := if w - p.weekOffset < 0 then 1 else 0;
    assert LeadCount(p) == w - p.weekOffset + 7 * t;
    LocaleIndexDay(p.start, fdow);
    LocaleIndexDay(CellDate(p, i), fdow);
    ColumnShift(p.start.day + 4 - fdow, w, p.weekOffset, t, i);
  }

  /** The leading cells and the interval's cells all fit in the grid. */
  lemma LeadMainWithinGrid(p: GridParams)
    ensures LeadCount(p) + MainCount(p) <= FilledCount(p) <= GridLength(p)
  {
  }

  /**
   * The interval's cells are its days, one each, in order: day k of the
   * interval is in cell lead + k and carries the interval's events of that day.
   */
  lemma GridCoversInterval(p: GridParams, k: int)
    requires 0 <= k < MainCount(p)
    ensures LeadCount(p) + k < GridLength(p)
    ensures var c := GridCell(p, LeadCount(p) + k);
      c.date == Some(PlusDays(p.start, k)) && p.start.day <= c.date.value.day <= p.end.day &&
      forall ev :: ev in c.events <==> ev in p.thisEvents && ev.start.day <= p.start.day + k <= ev.end.day
  {
    var i, d := LeadCount(p) + k, PlusDays(p.start, k);
    LeadMainWithinGrid(p);
    GridCellMain(p, i);
    assert CellDate(p, i) == d;
    DayCellEvents(p.ctx, d, p.thisEvents);
  }

  /**
   * With adjacent months shown, the grid is a run of consecutive days:
   * every cell is dated, each one day after the one before.
   */
  lemma GridConsecutive(p: GridParams, i: int)
    requires p.showAdjacent
    ensures GridCell(p, i).date.Some? && GridCell(p, i + 1).date.Some?
    ensures GridCell(p, i + 1).date.value.day == GridCell(p, i).date.value.day + 1
  {
    GridCellDated(p, i);
    GridCellDated(p, i + 1);
  }

  /** Without adjacent months, the cells outside the interval are the side's placeholders. */
  lemma GridBlanks(p: GridParams, i: int)
    requires !p.showAdjacent
    ensures i < LeadCount(p) ==> GridCell(p, i) == BlankCell(FillerClass(p.ctx, "lastMonth"))
    ensures LeadCount(p) + MainCount(p) <= i ==> GridCell(p, i) == BlankCell(FillerClass(p.ctx, "nextMonth"))
  {
  }

  // ---------------------------------------------------------------------
  // Building the grid

  /** The first |s| values of f, in order, are s. */
  ghost predicate PrefixOf<T>(s: seq<T>, f: int -> T) {
    forall k :: 0 <= k < |s| ==> s[k] == f(k)
  }

  /** Appending the next value of f keeps a prefix of f. */
  lemma PrefixPush<T>(s: seq<T>, f: int -> T, x: T)
    requires PrefixOf(s, f) && x == f(|s|)
    ensures PrefixOf(s + [x], f)
  {
    var next := s + [x];
    forall k | 0 <= k < |next|
      ensures next[k] == f(k)
    {
      if k < |s| {
        assert next[k] == s[k];
      }
    }
  }

  /** Cell i of grid p, as a function of i. */
  function CellAt(p: GridParams): int -> ClndrDay {
    i => GridCell(p, i)
  }

  /** The cells pushed so far are the first cells of the grid. */
  ghost predicate GridPrefix(p: GridParams, days: seq<ClndrDay>) {
    PrefixOf(days, CellAt(p))
  }

  /** Pushing the grid's next cell keeps the prefix. */
  lemma GridPrefixPush(p: GridParams, days: seq<ClndrDay>, c: ClndrDay)
    requires GridPrefix(p, days) && c == GridCell(p, |days|)
    ensures GridPrefix(p, days + [c])
  {
    PrefixPush(days, CellAt(p), c);
  }

  /**
   * The leading cells: outside days mode, the start's weekday index less
   * the week offset (plus 7 when negative) of them, either the days before
   * the start, counting down to the day before it, or placeholders.
   */
  method PushLeading(p: GridParams) returns (days: seq<ClndrDay>)
    ensures |days| == LeadCount(p) && GridPrefix(p, days)
  {
    days := [];
    if !p.ctx.usesDays {
      var diff := WeekdayIndex(p.start, p.ctx.env.fdow) - p.weekOffset;
      if diff < 0 {
        diff := diff + WeekLength;
      }
      assert diff == LeadDiff(p);
      if p.showAdjacent {
        var i := diff;
        while i > 0
          invariant i > 0 ==> |days| == diff - i
          invariant i <= 0 ==> |days| == LeadCount(p)
          invariant GridPrefix(p, days)
        {
          assert CellDate(p, |days|) == PlusDays(p.start, -i);
          GridCellLead(p, |days|);
          GridPrefixPush(p, days, DayCell(p.ctx, PlusDays(p.start, -i), p.lastEvents));
          days := days + [DayCell(p.ctx, PlusDays(p.start, -i), p.lastEvents)];
          i := i - 1;
        }
      } else {
        var i := 0;
        while i < diff
          invariant 0 <= i <= LeadCount(p) && |days| == i
          invariant GridPrefix(p, days)
        {
          GridCellLead(p, |days|);
          GridPrefixPush(p, days, BlankCell(FillerClass(p.ctx, "lastMonth")));
          days := days + [BlankCell(FillerClass(p.ctx, "lastMonth"))];
          i := i + 1;
        }
      }
    }
  }

  /** One cell per day from the start through the end, walking a cursor a day at a time. */
  method PushInterval(p: GridParams, lead: seq<ClndrDay>) returns (days: seq<ClndrDay>, cursor: Date)
    requires Normalized(p)
    requires |lead| == LeadCount(p) && GridPrefix(p, lead)
    ensures |days| == LeadCount(p) + MainCount(p) && GridPrefix(p, days)
    ensures cursor == CellDate(p, |days|)
  {
    days, cursor := lead, p.start;
    while !IsAfter(cursor, p.end)
      invariant LeadCount(p) <= |days| <= LeadCount(p) + MainCount(p)
      invariant cursor == CellDate(p, |days|) && cursor.ms == 0
      invariant GridPrefix(p, days)
      decreases p.end.day - cursor.day + 1
    {
      InstantOrder(cursor, p.end);
      GridCellMain(p, |days|);
      GridPrefixPush(p, days, DayCell(p.ctx, cursor, p.thisEvents));
      days := days + [DayCell(p.ctx, cursor, p.thisEvents)];
      cursor := PlusDays(cursor, 1);
    }
    InstantOrder(cursor, p.end);
  }

  /** A trailing cell: the cursor's day with next month's events, or a placeholder. */
  function TrailingCell(p: GridParams, cursor: Date): ClndrDay {
    if p.showAdjacent then DayCell(p.ctx, cursor, p.nextEvents) else BlankCell(FillerClass(p.ctx, "nextMonth"))
  }

  /** Pushing the trailing cell of the cursor's day keeps the prefix, and the cursor moves on with it. */
  lemma TrailingPush(p: GridParams, days: seq<ClndrDay>, cursor: Date)
    requires LeadCount(p) + MainCount(p) <= |days| && GridPrefix(p, days)
    requires cursor == CellDate(p, |days|)
    ensures GridPrefix(p, days + [TrailingCell(p, cursor)])
    ensures PlusDays(cursor, 1) == CellDate(p, |days + [TrailingCell(p, cursor)]|)
  {
    GridCellTrail(p, |days|);
    GridPrefixPush(p, days, TrailingCell(p, cursor));
  }

  /** Outside days mode, trailing cells until the grid is whole weeks. */
  method PushWeekFill(p: GridParams, filled: seq<ClndrDay>, start: Date) returns (days: seq<ClndrDay>, cursor: Date)
    requires |filled| == LeadCount(p) + MainCount(p) && GridPrefix(p, filled)
    requires start == CellDate(p, |filled|)
    ensures |days| == FilledCount(p) && GridPrefix(p, days)
    ensures cursor == CellDate(p, |days|)
  {
    days, cursor := filled, start;
    if !p.ctx.usesDays {
      var n := LeadCount(p) + MainCount(p);
      while |days| % WeekLength != 0
        invariant n <= |days| <= RoundUpWeek(n)
        invariant cursor == CellDate(p, |days|)
        invariant GridPrefix(p, days)
        decreases RoundUpWeek(n) - |days|
      {
        TrailingPush(p, days, cursor);
        days := days + [TrailingCell(p, cursor)];
        cursor := PlusDays(cursor, 1);
      }
      RoundUpUnique(n, |days|);
    }
  }

  /** With forceSixRows, trailing cells until the grid has six rows. */
  method PushSixRows(p: GridParams, filled: seq<ClndrDay>, start: Date) returns (days: seq<ClndrDay>)
    requires |filled| == FilledCount(p) && GridPrefix(p, filled)
    requires start == CellDate(p, |filled|)
    ensures |days| == GridLength(p) && GridPrefix(p, days)
  {
    days := filled;
    var cursor := start;
    if p.forceSixRows && |days| < SixRows {
      while |days| < SixRows
        invariant FilledCount(p) <= |days| <= SixRows
        invariant cursor == CellDate(p, |days|)
        invariant GridPrefix(p, days)
      {
        TrailingPush(p, days, cursor);
        days := days + [TrailingCell(p, cursor)];
        cursor := PlusDays(cursor, 1);
      }
    }
  }

  /** The cells of createDaysObject, in the order it pushes them: the whole grid. */
  method BuildGrid(p: GridParams) returns (days: seq<ClndrDay>)
    requires Normalized(p)
    ensures days == GridDays(p)
  {
    var lead := PushLeading(p);
    var cursor;
    days, cursor := PushInterval(p, lead);
    days, cursor := PushWeekFill(p, days, cursor);
    days := PushSixRows(p, days, cursor);
  }

  /** `Math.ceil(n / 7)`: the fewest rows of seven that hold n cells. */
  function Rows(n: nat): (r: nat)
    ensures r * WeekLength >= n && (r == 0 || (r - 1) * WeekLength < n)
  {
    (n + WeekLength - 1) / WeekLength
  }
}
