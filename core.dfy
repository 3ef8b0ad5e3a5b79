/**
 * The calendar runtime: an object holding the normalised options, the
 * timing state, the events with their parsed dates, the event lists of the
 * last grid built and the constraint bounds and flags, with the operations
 * that change them and the template data it builds from them.
 */
module Core {
  import opened Wrappers
  import opened CalendarDates
  import opened Formatting
  import opened ClndrTypes
  import opened State
  import opened CoreHelpers
  import opened Navigation
  import opened Events
  import opened Grid
  import opened Templates

  /** What a navigation call reports: the state before and the state after. */
  datatype StateChange = StateChange(previous: CalendarState, current: CalendarState)

  /** Every field of the runtime, as one value. */
  datatype CoreFields = CoreFields(
    options: Options,
    state: CalendarState,
    events: seq<RuntimeEvent>,
    eventsThisInterval: seq<RuntimeEvent>,
    eventsLastMonth: seq<RuntimeEvent>,
    eventsNextMonth: seq<RuntimeEvent>,
    constraintState: ConstraintState,
    constraintStart: Option<Date>,
    constraintEnd: Option<Date>,
    currentIntervalStart: Option<Date>)

  // ---------------------------------------------------------------------
  // Constraint bounds

  /** bootstrapConstraints: a truthy lower bound, parsed, from the start of its day. */
  function LowerBound(env: Env, now: Date, c: Option<Constraints>): (r: Option<Date>)
    ensures r.Some? <==> c.Some? && Truthy(c.value.startDate)
    ensures r.Some? ==> r.value.ms == 0 && r.value.day == ParseDateInput(env, now, c.value.startDate).day
  {
    if c.Some? && Truthy(c.value.startDate) then Some(StartOfDay(ParseDateInput(env, now, c.value.startDate))) else None
  }

  /** bootstrapConstraints: a truthy upper bound, parsed, to the end of its day. */
  function UpperBound(env: Env, now: Date, c: Option<Constraints>): (r: Option<Date>)
    ensures r.Some? <==> c.Some? && Truthy(c.value.endDate)
    ensures r.Some? ==> r.value.ms == LastMs && r.value.day == ParseDateInput(env, now, c.value.endDate).day
  {
    if c.Some? && Truthy(c.value.endDate) then Some(EndOfDay(ParseDateInput(env, now, c.value.endDate))) else None
  }

  // ---------------------------------------------------------------------
  // Selection

  /** What setSelectedDate accepts: null, a string, or an adapter date. */
  datatype Selection = NoSelection | IsoText(s: string) | AdapterDate(d: Date)

  /**
   * The stored selectedDate option: null for a falsy value, a string as
   * given, a date as its ISO calendar date.
   */
  function SelectedValue(v: Selection): (r: DateInput)
    ensures Truthy(r) <==> v.AdapterDate? || (v.IsoText? && v.s != "")
    ensures v.IsoText? && v.s != "" ==> r == Text(v.s)
    ensures v.AdapterDate? ==> r == Text(IsoDate(v.d))
  {
    match v
    case NoSelection => Missing
    case IsoText(s) => if s == "" then Missing else Text(s)
    case AdapterDate(d) => Text(IsoDate(d))
  }

  /**
   * A date selected through setSelectedDate reads back, through an ISO
   * parser that reads ISO dates, as the start of its own day: the day
   * cells marked selected are exactly the cells of that day.
   */
  lemma SelectedDateRoundTrip(env: Env, now: Date, d: Date, ctx: DayContext, day: Date)
    requires ParsesIsoDates(env) && 1000 <= Civil(d).year <= 9999
    requires ctx.env == env && ctx.now == now && ctx.selectedDate == SelectedValue(AdapterDate(d))
    ensures ParseDateInput(env, now, SelectedValue(AdapterDate(d))) == StartOfDay(d)
    ensures IsSelected(ctx, day) <==> day.day == d.day
  {
    assert env.fromISO(IsoDate(d)) == StartOfDay(d);
  }

  // ---------------------------------------------------------------------
  // The grid createDaysObject builds

  /**
   * The grid of the days from startDate to endDate as createDaysObject
   * lays it out for these options, events and bounds: the interval from
   * the start of the first day to the end of the last, the cells'
   * context, and the three event lists (last and next month's only
   * outside days mode with adjacent months shown).
   */
  function GridFor(env: Env, opts: Options, events: seq<RuntimeEvent>, cs: Option<Date>, ce: Option<Date>,
                   startDate: Date, endDate: Date, now: Date): (p: GridParams)
    ensures Normalized(p) && p.start.day == startDate.day && p.end.day == endDate.day
  {
    var start, end := StartOfDay(startDate), EndOfDay(endDate);
    var usesDays := UsesDays(LengthOrEmpty(opts));
    var showAdjacent := opts.showAdjacentMonths.GetOr(false);
    var ctx := DayContext(env, now, opts.classes, opts.targets, usesDays, Some(start), cs, ce, opts.selectedDate);
    GridParams(ctx, start, end, showAdjacent, opts.weekOffset.GetOr(0), opts.forceSixRows.GetOr(false),
      EventsInRange(events, start, end),
      if !usesDays && showAdjacent then MonthEvents(events, start, -1) else [],
      if !usesDays && showAdjacent then MonthEvents(events, start, 1) else [])
  }

  /** The events of the whole month `delta` months away from the one holding d. */
  function MonthEvents(events: seq<RuntimeEvent>, d: Date, delta: int): seq<RuntimeEvent> {
    var first := PlusMonths(StartOfMonth(d), delta);
    EventsInRange(events, first, EndOfMonth(first))
  }

  /** The fields after createDaysObject built grid p. */
  function AfterGrid(f: CoreFields, p: GridParams): CoreFields {
    f.(currentIntervalStart := Some(p.start), eventsThisInterval := p.thisEvents,
       eventsLastMonth := p.lastEvents, eventsNextMonth := p.nextEvents)
  }

  /** The fields after the grids that were built, if any: the last one's lists win. */
  function AfterLast(f: CoreFields, g: Option<GridParams>): CoreFields {
    if g.Some? then AfterGrid(f, g.value) else f
  }

  /** A later grid overwrites everything an earlier one left. */
  lemma AfterGridTwice(f: CoreFields, p: GridParams, q: GridParams)
    ensures AfterGrid(AfterGrid(f, p), q) == AfterGrid(f, q)
  {
  }

  // ---------------------------------------------------------------------
  // Template data

  /** First day of the i-th month of a months-mode view. */
  function BlockStart(st: CalendarState, i: int): Date {
    StartOfMonth(PlusMonths(st.intervalStart, i))
  }

  /** The grid of the i-th month of a months-mode view. */
  function BlockGrid(env: Env, opts: Options, events: seq<RuntimeEvent>, cs: Option<Date>, ce: Option<Date>,
                     st: CalendarState, i: int, now: Date): GridParams {
    GridFor(env, opts, events, cs, ce, BlockStart(st, i), EndOfMonth(BlockStart(st, i)), now)
  }

  /** The grid of the last of the first n months, if n > 0. */
  function LastBlock(env: Env, opts: Options, events: seq<RuntimeEvent>, cs: Option<Date>, ce: Option<Date>,
                     st: CalendarState, n: nat, now: Date): Option<GridParams> {
    if n == 0 then None else Some(BlockGrid(env, opts, events, cs, ce, st, n - 1, now))
  }

  /** The first n values of f, in order. */
  function Tabulate<T>(n: nat, f: int -> T): (r: seq<T>)
    ensures |r| == n
  {
    if n == 0 then [] else Tabulate(n - 1, f) + [f(n - 1)]
  }

  /** Entry i of the table is the i-th value. */
  lemma {:induction false} TabulateAt<T>(n: nat, f: int -> T, i: int)
    requires 0 <= i < n
    ensures Tabulate(n, f)[i] == f(i)
  {
    if i < n - 1 {
      TabulateAt(n - 1, f, i);
    }
  }

  /** Month block i: the grid of the i-th month with that month's first day. */
  function BlockAt(env: Env, opts: Options, events: seq<RuntimeEvent>, cs: Option<Date>, ce: Option<Date>,
                   st: CalendarState, now: Date): int -> MonthBlock {
    i => MonthBlock(GridDays(BlockGrid(env, opts, events, cs, ce, st, i, now)), BlockStart(st, i))
  }

  /** The interval events of month block i. */
  function EventsAt(env: Env, opts: Options, events: seq<RuntimeEvent>, cs: Option<Date>, ce: Option<Date>,
                    st: CalendarState, now: Date): int -> seq<RuntimeEvent> {
    i => BlockGrid(env, opts, events, cs, ce, st, i, now).thisEvents
  }

  /** The first n month blocks. */
  function MonthBlocks(env: Env, opts: Options, events: seq<RuntimeEvent>, cs: Option<Date>, ce: Option<Date>,
                       st: CalendarState, n: nat, now: Date): seq<MonthBlock> {
    Tabulate(n, BlockAt(env, opts, events, cs, ce, st, now))
  }

  /** The interval events of the first n month blocks, one list per month. */
  function BlockEvents(env: Env, opts: Options, events: seq<RuntimeEvent>, cs: Option<Date>, ce: Option<Date>,
                       st: CalendarState, n: nat, now: Date): seq<seq<RuntimeEvent>> {
    Tabulate(n, EventsAt(env, opts, events, cs, ce, st, now))
  }

  /** The rows of month blocks together: each block's cells in whole weeks. */
  function RowsOf(blocks: seq<MonthBlock>): nat {
    if blocks == [] then 0 else RowsOf(blocks[..|blocks| - 1]) + Rows(|blocks[|blocks| - 1].days|)
  }

  /** One more block adds its own rows. */
  lemma RowsOfPush(blocks: seq<MonthBlock>, b: MonthBlock)
    ensures RowsOf(blocks + [b]) == RowsOf(blocks) + Rows(|b.days|)
  {
    assert (blocks + [b])[..|blocks|] == blocks;
  }

  /** The rows of the first n month blocks together. */
  function BlockRows(env: Env, opts: Options, events: seq<RuntimeEvent>, cs: Option<Date>, ce: Option<Date>,
                     st: CalendarState, n: nat, now: Date): nat {
    RowsOf(MonthBlocks(env, opts, events, cs, ce, st, n, now))
  }

  /** One more month adds its block to the table of month blocks. */
  lemma MonthBlocksStep(env: Env, opts: Options, events: seq<RuntimeEvent>, cs: Option<Date>, ce: Option<Date>,
                        st: CalendarState, i: nat, now: Date)
    ensures MonthBlocks(env, opts, events, cs, ce, st, i + 1, now) ==
      MonthBlocks(env, opts, events, cs, ce, st, i, now) +
        [MonthBlock(GridDays(BlockGrid(env, opts, events, cs, ce, st, i, now)), BlockStart(st, i))]
  {
  }

  /** One more month adds its interval events to the table of event lists. */
  lemma BlockEventsStep(env: Env, opts: Options, events: seq<RuntimeEvent>, cs: Option<Date>, ce: Option<Date>,
                        st: CalendarState, i: nat, now: Date)
    ensures BlockEvents(env, opts, events, cs, ce, st, i + 1, now) ==
      BlockEvents(env, opts, events, cs, ce, st, i, now) + [BlockGrid(env, opts, events, cs, ce, st, i, now).thisEvents]
  {
  }

  /** One more month's grid replaces the lists the earlier grids left. */
  lemma LastBlockStep(env: Env, opts: Options, events: seq<RuntimeEvent>, cs: Option<Date>, ce: Option<Date>,
                      st: CalendarState, i: nat, now: Date, f: CoreFields)
    ensures AfterLast(f, LastBlock(env, opts, events, cs, ce, st, i + 1, now)) ==
      AfterGrid(AfterLast(f, LastBlock(env, opts, events, cs, ce, st, i, now)), BlockGrid(env, opts, events, cs, ce, st, i, now))
  {
    if i > 0 {
      AfterGridTwice(f, BlockGrid(env, opts, events, cs, ce, st, i - 1, now), BlockGrid(env, opts, events, cs, ce, st, i, now));
    }
  }

  /** How many month blocks a months-mode view has: `months || 0` iterations. */
  function BlockCount(lot: LengthOfTime): nat {
    if lot.months > 0 then lot.months else 0
  }

  /** The grid of a single-grid view: the interval in days mode, the shown month otherwise. */
  function ViewGrid(env: Env, opts: Options, events: seq<RuntimeEvent>, cs: Option<Date>, ce: Option<Date>,
                    st: CalendarState, now: Date): GridParams {
    if UsesDays(LengthOrEmpty(opts)) then GridFor(env, opts, events, cs, ce, st.intervalStart, st.intervalEnd, now)
    else
      var monthStart := StartOfMonth(st.month);
      GridFor(env, opts, events, cs, ce, monthStart, EndOfMonth(monthStart), now)
  }

  /** Template data of a days-mode view: its cells and rows, the interval's bounds and events, no heading. */
  function DaysViewData(base: TemplateData, days: seq<ClndrDay>, thisEvents: seq<RuntimeEvent>, st: CalendarState): TemplateData {
    base.(days := days, month := None, year := None,
          intervalStart := Some(st.intervalStart), intervalEnd := Some(st.intervalEnd),
          numberOfRows := Rows(|days|), eventsThisInterval := Flat(thisEvents),
          eventsLastMonth := [], eventsNextMonth := [])
  }

  /** Template data of a months-mode view: no cells of its own, the month blocks, their rows and event lists. */
  function MonthsViewData(base: TemplateData, months: seq<MonthBlock>, rows: nat, lists: seq<seq<RuntimeEvent>>,
                          st: CalendarState): TemplateData {
    base.(days := [], months := months, numberOfRows := rows, eventsThisInterval := PerMonth(lists),
          intervalStart := Some(st.intervalStart), intervalEnd := Some(st.intervalEnd))
  }

  /** Template data of a single-month view: its cells and rows, the month's name and year, three event lists. */
  function MonthViewData(env: Env, base: TemplateData, days: seq<ClndrDay>, st: CalendarState,
                         thisEvents: seq<RuntimeEvent>, lastEvents: seq<RuntimeEvent>, nextEvents: seq<RuntimeEvent>): TemplateData {
    base.(days := days, month := Some(env.monthName(st.month)), year := Some(PadStart(Civil(st.month).year, 4)),
          eventsThisMonth := thisEvents, numberOfRows := Rows(|days|),
          eventsLastMonth := lastEvents, eventsNextMonth := nextEvents)
  }

  /**
   * buildTemplateData: in days mode the interval's grid with its rows and
   * events and no month heading; in months mode one block per month with
   * the rows added up and one event list per month; otherwise the shown
   * month's grid with its name, its four-digit year and the three months'
   * events.
   */
  function TemplateFor(env: Env, opts: Options, events: seq<RuntimeEvent>, cs: Option<Date>, ce: Option<Date>,
                       st: CalendarState, now: Date): TemplateData {
    var base := BaseTemplateData(env, opts);
    var lot := LengthOrEmpty(opts);
    if UsesDays(lot) then
      var p := ViewGrid(env, opts, events, cs, ce, st, now);
      DaysViewData(base, GridDays(p), p.thisEvents, st)
    else if UsesMonths(lot) then
      var n := BlockCount(lot);
      MonthsViewData(base, MonthBlocks(env, opts, events, cs, ce, st, n, now), BlockRows(env, opts, events, cs, ce, st, n, now),
                     BlockEvents(env, opts, events, cs, ce, st, n, now), st)
    else
      var p := ViewGrid(env, opts, events, cs, ce, st, now);
      MonthViewData(env, base, GridDays(p), st, p.thisEvents, p.lastEvents, p.nextEvents)
  }

  /** Unfolds the days branch of TemplateFor, for BuildDaysView and DaysViewHeading. */
  lemma TemplateForDays(env: Env, opts: Options, events: seq<RuntimeEvent>, cs: Option<Date>, ce: Option<Date>,
                        st: CalendarState, now: Date)
    requires UsesDays(LengthOrEmpty(opts))
    ensures var p := ViewGrid(env, opts, events, cs, ce, st, now);
      TemplateFor(env, opts, events, cs, ce, st, now) == DaysViewData(BaseTemplateData(env, opts), GridDays(p), p.thisEvents, st)
  {
  }

  /** Unfolds the months branch of TemplateFor, for BuildMonthsView. */
  lemma TemplateForMonths(env: Env, opts: Options, events: seq<RuntimeEvent>, cs: Option<Date>, ce: Option<Date>,
                          st: CalendarState, now: Date)
    requires !UsesDays(LengthOrEmpty(opts)) && UsesMonths(LengthOrEmpty(opts))
    ensures var n := BlockCount(LengthOrEmpty(opts));
      TemplateFor(env, opts, events, cs, ce, st, now) ==
        MonthsViewData(BaseTemplateData(env, opts), MonthBlocks(env, opts, events, cs, ce, st, n, now),
                       BlockRows(env, opts, events, cs, ce, st, n, now), BlockEvents(env, opts, events, cs, ce, st, n, now), st)
  {
  }

  /** Unfolds the single-month branch of TemplateFor, for BuildMonthView. */
  lemma TemplateForMonth(env: Env, opts: Options, events: seq<RuntimeEvent>, cs: Option<Date>, ce: Option<Date>,
                         st: CalendarState, now: Date)
    requires !UsesDays(LengthOrEmpty(opts)) && !UsesMonths(LengthOrEmpty(opts))
    ensures var p := ViewGrid(env, opts, events, cs, ce, st, now);
      TemplateFor(env, opts, events, cs, ce, st, now) ==
        MonthViewData(env, BaseTemplateData(env, opts), GridDays(p), st, p.thisEvents, p.lastEvents, p.nextEvents)
  {
  }

  /** The last grid buildTemplateData builds, if any. */
  function LastGrid(env: Env, opts: Options, events: seq<RuntimeEvent>, cs: Option<Date>, ce: Option<Date>,
                    st: CalendarState, now: Date): Option<GridParams> {
    var lot := LengthOrEmpty(opts);
    if !UsesDays(lot) && UsesMonths(lot) then LastBlock(env, opts, events, cs, ce, st, BlockCount(lot), now)
    else Some(ViewGrid(env, opts, events, cs, ce, st, now))
  }

  /**
   * A single-month view (no days or months; a week offset 0..6) shows four
   * to six full weeks, six when forced, starting on the month's first day
   * after the leading days, with the rows counting its cells.
   */
  lemma MonthViewRows(env: Env, opts: Options, events: seq<RuntimeEvent>, cs: Option<Date>, ce: Option<Date>,
                      st: CalendarState, now: Date)
    requires !UsesDays(LengthOrEmpty(opts)) && !UsesMonths(LengthOrEmpty(opts))
    requires 0 <= opts.weekOffset.GetOr(0) <= 6
    ensures var data := TemplateFor(env, opts, events, cs, ce, st, now);
      4 <= data.numberOfRows <= 6 && |data.days| == data.numberOfRows * 7 &&
      (opts.forceSixRows.GetOr(false) ==> data.numberOfRows == 6)
  {
    var p := ViewGrid(env, opts, events, cs, ce, st, now);
    var monthStart := StartOfMonth(st.month);
    StartOfMonthFixed(monthStart);
    assert p.start == monthStart;
    MonthGridSize(p);
    var n := GridLength(p);
    assert n % 7 == 0 && 28 <= n <= 42;
    RowsOfWeeks(n);
  }

  /** Whole weeks make whole rows. */
  lemma RowsOfWeeks(n: nat)
    requires n % 7 == 0
    ensures Rows(n) * 7 == n
  {
    var q := n / 7;
    assert n == q * 7;
    assert (n + 6) / 7 == q;
  }

  /**
   * A months-mode view has one block per month of lengthOfTime.months,
   * block i showing the i-th month from the interval start, and as many
   * per-month event lists.
   */
  lemma MonthsViewBlocks(env: Env, opts: Options, events: seq<RuntimeEvent>, cs: Option<Date>, ce: Option<Date>,
                         st: CalendarState, now: Date, i: int)
    requires !UsesDays(LengthOrEmpty(opts)) && UsesMonths(LengthOrEmpty(opts))
    requires 0 <= i < BlockCount(LengthOrEmpty(opts))
    ensures var data := TemplateFor(env, opts, events, cs, ce, st, now);
      data.days == [] && |data.months| == BlockCount(LengthOrEmpty(opts)) &&
      data.eventsThisInterval.PerMonth? && |data.eventsThisInterval.lists| == |data.months| &&
      Civil(data.months[i].month).day == 1 &&
      MonthIndex(Civil(data.months[i].month)) == MonthIndex(Civil(st.intervalStart)) + i
  {
    var b := BlockStart(st, i);
    TabulateAt(BlockCount(LengthOrEmpty(opts)), BlockAt(env, opts, events, cs, ce, st, now), i);
  }

  /**
   * In days mode the template has no month heading, carries the
   * interval's bounds, and has enough rows for its cells.
   */
  lemma DaysViewHeading(env: Env, opts: Options, events: seq<RuntimeEvent>, cs: Option<Date>, ce: Option<Date>,
                        st: CalendarState, now: Date)
    requires UsesDays(LengthOrEmpty(opts))
    ensures var data := TemplateFor(env, opts, events, cs, ce, st, now);
      data.month.None? && data.year.None? &&
      data.intervalStart == Some(st.intervalStart) && data.intervalEnd == Some(st.intervalEnd) &&
      data.numberOfRows * 7 >= |data.days|
  {
    TemplateForDays(env, opts, events, cs, ce, st, now);
  }

  /** The grid of a days-mode view is in days mode and runs over the interval's days. */
  lemma DaysViewGrid(env: Env, opts: Options, events: seq<RuntimeEvent>, cs: Option<Date>, ce: Option<Date>,
                     st: CalendarState, now: Date)
    requires UsesDays(LengthOrEmpty(opts))
    ensures var p := ViewGrid(env, opts, events, cs, ce, st, now);
      p.ctx.usesDays && Normalized(p) && p.start.day == st.intervalStart.day && p.end.day == st.intervalEnd.day
  {
    assert ViewGrid(env, opts, events, cs, ce, st, now) == GridFor(env, opts, events, cs, ce, st.intervalStart, st.intervalEnd, now);
  }

  // ---------------------------------------------------------------------
  // The runtime

  class ClndrCore {
    const env: Env
    var options: Options
    var state: CalendarState
    var events: seq<RuntimeEvent>
    var eventsThisInterval: seq<RuntimeEvent>
    var eventsLastMonth: seq<RuntimeEvent>
    var eventsNextMonth: seq<RuntimeEvent>
    var constraintState: ConstraintState
    var constraintStart: Option<Date>
    var constraintEnd: Option<Date>
    var currentIntervalStart: Option<Date>

    function Fields(): CoreFields
      reads this
    {
      CoreFields(options, state, events, eventsThisInterval, eventsLastMonth, eventsNextMonth,
                 constraintState, constraintStart, constraintEnd, currentIntervalStart)
    }

    function Lot(): LengthOfTime
      reads this
    {
      LengthOrEmpty(options)
    }

    /** The constraint flags for a state, with this runtime's mode and bounds. */
    function Flags(st: CalendarState, now: Date): ConstraintState
      reads this
    {
      ConstraintFlags(UsesDays(Lot()), st, constraintStart, constraintEnd, now)
    }

    /**
     * What every operation keeps: a length of time with an interval, the
     * events option mirroring the runtime events, and bounds at the start
     * and at the end of their days.
     */
    ghost predicate Valid()
      reads this
    {
      options.lengthOfTime.Some? && options.lengthOfTime.value.interval.Some? &&
      options.events == Some(Sources(events)) &&
      (constraintStart.Some? ==> constraintStart.value.ms == 0) &&
      (constraintEnd.Some? ==> constraintEnd.value.ms == LastMs)
    }

    /**
     * Normalise the options, derive the initial state, read the bounds (and
     * the flags when constraints are given), then attach dates to the
     * given events.
     */
    constructor(env: Env, opts: Options, now: Date)
      ensures Valid() && this.env == env
      ensures var o := EnsureLengthDefaults(opts);
        options == o.(events := Some(o.events.GetOr([]))) &&
        state == InitState(env, o, now) &&
        events == AttachAll(env, now, o.multiDayEvents, DateKey(o.dateParameter), o.events.GetOr([])) &&
        eventsThisInterval == [] && eventsLastMonth == [] && eventsNextMonth == [] &&
        currentIntervalStart == None &&
        constraintStart == LowerBound(env, now, o.constraints) &&
        constraintEnd == UpperBound(env, now, o.constraints) &&
        constraintState == Flags(state, now)
    {
      this.env := env;
      var o := EnsureLengthDefaults(opts);
      options := o;
      state := InitState(env, o, now);
      events := [];
      eventsThisInterval := [];
      eventsLastMonth := [];
      eventsNextMonth := [];
      constraintState := AllEnabled;
      constraintStart := None;
      constraintEnd := None;
      currentIntervalStart := None;
      new;
      BootstrapConstraints(now);
      ghost var bootstrapped := Fields();
      assert bootstrapped == CoreFields(o, InitState(env, o, now), [], [], [], [], Flags(state, now),
        LowerBound(env, now, o.constraints), UpperBound(env, now, o.constraints), None);
      SetEvents(o.events.GetOr([]), now);
      assert Fields() == bootstrapped.(options := o.(events := Some(o.events.GetOr([]))), events := events);
    }

    /**
     * bootstrapConstraints: without constraints nothing changes; otherwise a
     * truthy start is parsed to the start of its day, a truthy end to the end
     * of its day, and the flags are computed for the current state.
     */
    method BootstrapConstraints(now: Date)
      requires constraintStart == None && constraintEnd == None && constraintState == AllEnabled
      modifies this
      ensures constraintStart == LowerBound(env, now, options.constraints)
      ensures constraintEnd == UpperBound(env, now, options.constraints)
      ensures constraintState == Flags(state, now)
      ensures Fields() == old(Fields()).(constraintStart := constraintStart, constraintEnd := constraintEnd,
                                         constraintState := constraintState)
    {
      if options.constraints.None? {
        NoBoundsAllEnabled(UsesDays(Lot()), state, now);
        return;
      }
      var c := options.constraints.value;
      if Truthy(c.startDate) {
        constraintStart := Some(StartOfDay(ParseDateInput(env, now, c.startDate)));
      }
      if Truthy(c.endDate) {
        constraintEnd := Some(EndOfDay(ParseDateInput(env, now, c.endDate)));
      }
      UpdateConstraintState(now);
    }

    /** updateConstraintState: recompute the flags for the current state. */
    method UpdateConstraintState(now: Date)
      modifies this
      ensures constraintState == Flags(state, now)
      ensures Fields() == old(Fields()).(constraintState := constraintState)
    {
      constraintState := ConstraintFlags(UsesDays(Lot()), state, constraintStart, constraintEnd, now);
    }

    /** getConstraints: the flags, recomputed. */
    method GetConstraints(now: Date) returns (flags: ConstraintState)
      modifies this
      ensures flags == Flags(state, now)
      ensures Fields() == old(Fields()).(constraintState := flags)
    {
      UpdateConstraintState(now);
      flags := constraintState;
    }

    /** updateState: move to the next state, recompute the flags, report both states. */
    method Commit(next: CalendarState, now: Date) returns (change: StateChange)
      modifies this
      ensures change == StateChange(old(state), next)
      ensures Fields() == old(Fields()).(state := next, constraintState := Flags(next, now))
    {
      var previous := state;
      state := next;
      UpdateConstraintState(now);
      change := StateChange(previous, state);
    }

    /** forward: refused when the next flag is off; else move ahead by `step ?? interval ?? 1`. */
    method Forward(step: Option<int>, now: Date) returns (r: Option<StateChange>)
      requires Valid()
      modifies this
      ensures Valid()
      ensures var gate := old(Flags(state, now));
        var next := ForwardState(Lot(), old(state), StepOf(Lot(), step));
        if gate.next then
          r == Some(StateChange(old(state), next)) &&
          Fields() == old(Fields()).(state := next, constraintState := Flags(next, now))
        else
          r.None? && Fields() == old(Fields()).(constraintState := gate)
    {
      UpdateConstraintState(now);
      if !constraintState.next {
        return None;
      }
      var change := Commit(ForwardState(Lot(), state, StepOf(Lot(), step)), now);
      r := Some(change);
    }

    /** back: refused when the previous flag is off; else move back by `step ?? interval ?? 1`. */
    method Back(step: Option<int>, now: Date) returns (r: Option<StateChange>)
      requires Valid()
      modifies this
      ensures Valid()
      ensures var gate := old(Flags(state, now));
        var next := BackState(Lot(), old(state), StepOf(Lot(), step));
        if gate.previous then
          r == Some(StateChange(old(state), next)) &&
          Fields() == old(Fields()).(state := next, constraintState := Flags(next, now))
        else
          r.None? && Fields() == old(Fields()).(constraintState := gate)
    {
      UpdateConstraintState(now);
      if !constraintState.previous {
        return None;
      }
      var change := Commit(BackState(Lot(), state, StepOf(Lot(), step)), now);
      r := Some(change);
    }

    /** nextYear: refused when the nextYear flag is off; else move a year ahead. */
    method NextYear(now: Date) returns (r: Option<StateChange>)
      requires Valid()
      modifies this
      ensures Valid()
      ensures var gate := old(Flags(state, now));
        var next := NextYearState(old(state));
        if gate.nextYear then
          r == Some(StateChange(old(state), next)) &&
          Fields() == old(Fields()).(state := next, constraintState := Flags(next, now))
        else
          r.None? && Fields() == old(Fields()).(constraintState := gate)
    {
      UpdateConstraintState(now);
      if !constraintState.nextYear {
        return None;
      }
      var change := Commit(NextYearState(state), now);
      r := Some(change);
    }

    /** previousYear: refused when the previousYear flag is off; else move a year back. */
    method PreviousYear(now: Date) returns (r: Option<StateChange>)
      requires Valid()
      modifies this
      ensures Valid()
      ensures var gate := old(Flags(state, now));
        var next := PreviousYearState(old(state));
        if gate.previousYear then
          r == Some(StateChange(old(state), next)) &&
          Fields() == old(Fields()).(state := next, constraintState := Flags(next, now))
        else
          r.None? && Fields() == old(Fields()).(constraintState := gate)
    {
      UpdateConstraintState(now);
      if !constraintState.previousYear {
        return None;
      }
      var change := Commit(PreviousYearState(state), now);
      r := Some(change);
    }

    /** today: jump to now's week or month, whatever the flags say. */
    method Today(now: Date) returns (change: StateChange)
      requires Valid()
      modifies this
      ensures Valid()
      ensures var next := TodayState(env, Lot(), options.weekOffset, old(state), now);
        change == StateChange(old(state), next) &&
        Fields() == old(Fields()).(state := next, constraintState := Flags(next, now))
    {
      change := Commit(TodayState(env, Lot(), options.weekOffset, state, now), now);
    }

    /** setMonth: refused in days or months mode, leaving everything as it was. */
    method SetMonth(input: MonthInput, now: Date) returns (r: Option<StateChange>)
      requires Valid()
      modifies this
      ensures Valid()
      ensures var next := SetMonthState(env, Lot(), input, old(state));
        if next.Some? then
          r == Some(StateChange(old(state), next.value)) &&
          Fields() == old(Fields()).(state := next.value, constraintState := Flags(next.value, now))
        else
          r.None? && Fields() == old(Fields())
    {
      var next := SetMonthState(env, Lot(), input, state);
      if next.None? {
        return None;
      }
      var change := Commit(next.value, now);
      r := Some(change);
    }

    /** setYear: the shown month's number in the new year. */
    method SetYear(newYear: int, now: Date) returns (change: StateChange)
      requires Valid()
      modifies this
      ensures Valid()
      ensures var next := SetYearState(env, newYear, old(state));
        change == StateChange(old(state), next) &&
        Fields() == old(Fields()).(state := next, constraintState := Flags(next, now))
    {
      change := Commit(SetYearState(env, newYear, state), now);
    }

    /** setIntervalStart: refused without days or months, leaving everything as it was. */
    method SetIntervalStart(newDate: DateInput, now: Date) returns (r: Option<StateChange>)
      requires Valid()
      modifies this
      ensures Valid()
      ensures var next := SetIntervalStartState(env, Lot(), newDate, old(state), now);
        if next.Some? then
          r == Some(StateChange(old(state), next.value)) &&
          Fields() == old(Fields()).(state := next.value, constraintState := Flags(next.value, now))
        else
          r.None? && Fields() == old(Fields())
    {
      var next := SetIntervalStartState(env, Lot(), newDate, state, now);
      if next.None? {
        return None;
      }
      var change := Commit(next.value, now);
      r := Some(change);
    }

    /** setEvents: replace the events, with dates attached, and point the option at them. */
    method SetEvents(evs: seq<ClndrEvent>, now: Date)
      modifies this
      ensures events == AttachAll(env, now, options.multiDayEvents, DateKey(options.dateParameter), evs)
      ensures options.events == Some(Sources(events))
      ensures Fields() == old(Fields()).(options := old(options).(events := Some(evs)), events := events)
    {
      events := AttachAll(env, now, options.multiDayEvents, DateKey(options.dateParameter), evs);
      AttachAllSources(env, now, options.multiDayEvents, DateKey(options.dateParameter), evs);
      options := options.(events := Some(Sources(events)));
    }

    /** addEvents: append the new events, with dates attached, and extend the option with them. */
    method AddEvents(evs: seq<ClndrEvent>, now: Date)
      requires Valid()
      modifies this
      ensures Valid()
      ensures events == old(events) + AttachAll(env, now, options.multiDayEvents, DateKey(options.dateParameter), evs)
      ensures Fields() == old(Fields()).(options := old(options).(events := Some(old(options.events).GetOr([]) + evs)), events := events)
    {
      var processed := AttachAll(env, now, options.multiDayEvents, DateKey(options.dateParameter), evs);
      AttachAllSources(env, now, options.multiDayEvents, DateKey(options.dateParameter), evs);
      SourcesAppend(events, processed);
      events := events + processed;
      options := options.(events := Some(Sources(events)));
    }

    /** removeEvents: keep the events the predicate does not match, in order. */
    method RemoveEvents(matches: RuntimeEvent -> bool)
      requires Valid()
      modifies this
      ensures Valid()
      ensures events == RemoveMatching(old(events), matches)
      ensures Fields() == old(Fields()).(options := old(options).(events := Some(Sources(events))), events := events)
    {
      events := RemoveMatching(events, matches);
      options := options.(events := Some(Sources(events)));
    }

    /** setSelectedDate: store the selection as an option value. */
    method SetSelectedDate(v: Selection)
      requires Valid()
      modifies this
      ensures Valid()
      ensures Fields() == old(Fields()).(options := old(options).(selectedDate := SelectedValue(v)))
    {
      options := options.(selectedDate := SelectedValue(v));
    }

    /** setExtras: replace the extras handed to templates. */
    method SetExtras(extras: Value)
      requires Valid()
      modifies this
      ensures Valid()
      ensures Fields() == old(Fields()).(options := old(options).(extras := extras))
    {
      options := options.(extras := extras);
    }

    /**
     * createDaysObject: record the interval start and the three event
     * lists, then push the leading cells, one cell per day of the interval,
     * trailing cells to the end of the week (outside days mode), and
     * trailing cells up to six rows when forced.
     */
    method CreateDaysObject(startDate: Date, endDate: Date, now: Date) returns (days: seq<ClndrDay>)
      requires Valid()
      modifies this
      ensures Valid()
      ensures var p := GridFor(env, options, events, constraintStart, constraintEnd, startDate, endDate, now);
        days == GridDays(p) && Fields() == AfterGrid(old(Fields()), p)
    {
      var p := RecordInterval(startDate, endDate, now);
      days := BuildGrid(p);
    }

    /**
     * The first half of createDaysObject: the interval start and the events
     * of the interval and of the months beside it, as the grid will use them.
     */
    method RecordInterval(startDate: Date, endDate: Date, now: Date) returns (p: GridParams)
      requires Valid()
      modifies this
      ensures Valid()
      ensures p == GridFor(env, old(options), old(events), old(constraintStart), old(constraintEnd), startDate, endDate, now)
      ensures Fields() == AfterGrid(old(Fields()), p)
    {
      var start, end := StartOfDay(startDate), EndOfDay(endDate);
      var usesDays := UsesDays(Lot());
      var showAdjacent := options.showAdjacentMonths.GetOr(false);
      currentIntervalStart := Some(start);
      eventsThisInterval := EventsInRange(events, start, end);
      if !usesDays && showAdjacent {
        eventsLastMonth := MonthEvents(events, start, -1);
        eventsNextMonth := MonthEvents(events, start, 1);
      } else {
        eventsLastMonth := [];
        eventsNextMonth := [];
      }
      var ctx := DayContext(env, now, options.classes, options.targets, usesDays, currentIntervalStart,
                            constraintStart, constraintEnd, options.selectedDate);
      p := GridParams(ctx, start, end, showAdjacent, options.weekOffset.GetOr(0), options.forceSixRows.GetOr(false),
                      eventsThisInterval, eventsLastMonth, eventsNextMonth);
    }

    /** One month of the months-mode loop: the month's grid, its interval events and its rows. */
    method BuildMonthBlock(i: nat, now: Date) returns (block: MonthBlock, list: seq<RuntimeEvent>, blockRows: nat)
      requires Valid()
      modifies this
      ensures Valid()
      ensures var g := BlockGrid(env, old(options), old(events), old(constraintStart), old(constraintEnd), old(state), i, now);
        block == MonthBlock(GridDays(g), BlockStart(old(state), i)) && list == g.thisEvents &&
        blockRows == Rows(|block.days|) && Fields() == AfterGrid(old(Fields()), g)
    {
      var start := StartOfMonth(PlusMonths(state.intervalStart, i));
      var days := CreateDaysObject(start, EndOfMonth(start), now);
      block, list, blockRows := MonthBlock(days, start), eventsThisInterval, Rows(|days|);
    }

    /**
     * The months-mode loop of buildTemplateData: for each of count months
     * from the interval start, the month's grid, its interval events and
     * its rows.
     */
    method BuildMonthBlocks(count: nat, now: Date)
      returns (months: seq<MonthBlock>, intervalEvents: seq<seq<RuntimeEvent>>, rows: nat)
      requires Valid()
      modifies this
      ensures Valid()
      ensures months == MonthBlocks(env, options, events, constraintStart, constraintEnd, state, count, now)
      ensures intervalEvents == BlockEvents(env, options, events, constraintStart, constraintEnd, state, count, now)
      ensures rows == BlockRows(env, options, events, constraintStart, constraintEnd, state, count, now)
      ensures Fields() == AfterLast(old(Fields()), LastBlock(env, options, events, constraintStart, constraintEnd, state, count, now))
    {
      ghost var f0 := Fields();
      ghost var o, evs, cs, ce, st := options, events, constraintStart, constraintEnd, state;
      months, intervalEvents, rows := [], [], 0;
      var i := 0;
      while i < count
        invariant 0 <= i <= count && Valid()
        invariant options == o && events == evs && constraintStart == cs && constraintEnd == ce && state == st
        invariant months == MonthBlocks(env, o, evs, cs, ce, st, i, now)
        invariant intervalEvents == BlockEvents(env, o, evs, cs, ce, st, i, now)
        invariant rows == RowsOf(months)
        invariant Fields() == AfterLast(f0, LastBlock(env, o, evs, cs, ce, st, i, now))
      {
        var block, list, blockRows := BuildMonthBlock(i, now);
        MonthBlocksStep(env, o, evs, cs, ce, st, i, now);
        BlockEventsStep(env, o, evs, cs, ce, st, i, now);
        LastBlockStep(env, o, evs, cs, ce, st, i, now, f0);
        RowsOfPush(months, block);
        months, intervalEvents, rows := months + [block], intervalEvents + [list], rows + blockRows;
        i := i + 1;
      }
    }

    /** buildTemplateData in days mode: the interval's grid. */
    method BuildDaysView(now: Date) returns (data: TemplateData)
      requires Valid() && UsesDays(Lot())
      modifies this
      ensures Valid()
      ensures data == TemplateFor(env, options, events, constraintStart, constraintEnd, state, now)
      ensures Fields() == AfterGrid(old(Fields()), ViewGrid(env, options, events, constraintStart, constraintEnd, state, now))
    {
      ghost var g := ViewGrid(env, options, events, constraintStart, constraintEnd, state, now);
      TemplateForDays(env, options, events, constraintStart, constraintEnd, state, now);
      var base := BaseTemplateData(env, options);
      var days := CreateDaysObject(state.intervalStart, state.intervalEnd, now);
      data := DaysViewData(base, days, eventsThisInterval, state);
    }

    /** buildTemplateData in months mode: one grid per month. */
    method BuildMonthsView(now: Date) returns (data: TemplateData)
      requires Valid() && !UsesDays(Lot()) && UsesMonths(Lot())
      modifies this
      ensures Valid()
      ensures data == TemplateFor(env, options, events, constraintStart, constraintEnd, state, now)
      ensures Fields() == AfterLast(old(Fields()), LastGrid(env, options, events, constraintStart, constraintEnd, state, now))
    {
      ghost var o, evs, cs, ce, st := options, events, constraintStart, constraintEnd, state;
      TemplateForMonths(env, o, evs, cs, ce, st, now);
      var base := BaseTemplateData(env, options);
      var count := BlockCount(Lot());
      var months, intervalEvents, rows := BuildMonthBlocks(count, now);
      assert options == o && events == evs && constraintStart == cs && constraintEnd == ce && state == st;
      assert LastGrid(env, o, evs, cs, ce, st, now) == LastBlock(env, o, evs, cs, ce, st, count, now);
      data := MonthsViewData(base, months, rows, intervalEvents, state);
    }

    /** buildTemplateData for a single month: the shown month's grid. */
    method BuildMonthView(now: Date) returns (data: TemplateData)
      requires Valid() && !UsesDays(Lot()) && !UsesMonths(Lot())
      modifies this
      ensures Valid()
      ensures data == TemplateFor(env, options, events, constraintStart, constraintEnd, state, now)
      ensures Fields() == AfterGrid(old(Fields()), ViewGrid(env, options, events, constraintStart, constraintEnd, state, now))
    {
      ghost var g := ViewGrid(env, options, events, constraintStart, constraintEnd, state, now);
      TemplateForMonth(env, options, events, constraintStart, constraintEnd, state, now);
      var base := BaseTemplateData(env, options);
      var monthStart := StartOfMonth(state.month);
      var days := CreateDaysObject(monthStart, EndOfMonth(monthStart), now);
      data := MonthViewData(env, base, days, state, eventsThisInterval, eventsLastMonth, eventsNextMonth);
    }

    /**
     * buildTemplateData: build the grid (or one grid per month in months
     * mode) and fill the template data from it, leaving the event lists of
     * the last grid built in the runtime.
     */
    method BuildTemplateData(now: Date) returns (data: TemplateData)
      requires Valid()
      modifies this
      ensures Valid()
      ensures data == TemplateFor(env, options, events, constraintStart, constraintEnd, state, now)
      ensures Fields() == AfterLast(old(Fields()), LastGrid(env, options, events, constraintStart, constraintEnd, state, now))
    {
      if UsesDays(Lot()) {
        data := BuildDaysView(now);
      } else if UsesMonths(Lot()) {
        data := BuildMonthsView(now);
      } else {
        data := BuildMonthView(now);
      }
    }
  }

  /** The user events behind a concatenation are those behind each part. */
  lemma SourcesAppend(a: seq<RuntimeEvent>, b: seq<RuntimeEvent>)
    ensures Sources(a + b) == Sources(a) + Sources(b)
  {
    assert forall i :: 0 <= i < |a| + |b| ==> (a + b)[i].source == (Sources(a) + Sources(b))[i];
  }
}
