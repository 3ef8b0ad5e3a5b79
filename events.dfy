/**
 * Events in the calendar core: attaching parsed start and end instants to
 * user events (single-day and multi-day), filtering the events that touch
 * a range of days, and removing events by a predicate.
 */
module Events {
  import opened Wrappers
  import opened CalendarDates
  import opened ClndrTypes
  import opened CoreHelpers

  // ---------------------------------------------------------------------
  // Filtering

  /** `Array.prototype.filter`: the elements that pass, in their order. */
  function Filter<T(!new)>(s: seq<T>, keep: T -> bool): (r: seq<T>)
    ensures |r| <= |s|
    ensures forall x :: x in r <==> x in s && keep(x)
    decreases |s|
  {
    if s == [] then []
    else
      var rest := Filter(s[1..], keep);
      assert forall x :: x in s <==> x == s[0] || x in s[1..];
      if keep(s[0]) then [s[0]] + rest else rest
  }

  /** Filtering a concatenation filters each part. */
  lemma {:induction false} FilterAppend<T(!new)>(a: seq<T>, b: seq<T>, keep: T -> bool)
    ensures Filter(a + b, keep) == Filter(a, keep) + Filter(b, keep)
    decreases |a|
  {
    if a == [] {
      assert a + b == b;
    } else {
      assert (a + b)[1..] == a[1..] + b;
      FilterAppend(a[1..], b, keep);
    }
  }

  /** Filtering keeps everything exactly when every element passes. */
  lemma {:induction false} FilterAllKept<T(!new)>(s: seq<T>, keep: T -> bool)
    ensures Filter(s, keep) == s <==> forall i :: 0 <= i < |s| ==> keep(s[i])
    decreases |s|
  {
    if s != [] {
      FilterAllKept(s[1..], keep);
      if !keep(s[0]) {
        assert |Filter(s, keep)| < |s| by { FilterShorter(s[1..], keep); }
      }
      if keep(s[0]) {
        assert forall i :: 1 <= i < |s| ==> s[i] == s[1..][i - 1];
      }
    }
  }

  lemma {:induction false} FilterShorter<T(!new)>(s: seq<T>, keep: T -> bool)
    ensures |Filter(s, keep)| <= |s|
  {
  }

  // ---------------------------------------------------------------------
  // Range filter

  /**
   * An event touches the days from s to e unless it ends before the start
   * of s's day or starts after the end of e's day.
   */
  predicate Touches(ev: RuntimeEvent, s: Date, e: Date) {
    !(IsBefore(ev.end, StartOfDay(s)) || IsAfter(ev.start, EndOfDay(e)))
  }

  /** Touching the range is a comparison of days: the event's days meet s..e. */
  lemma TouchesByDay(ev: RuntimeEvent, s: Date, e: Date)
    ensures Touches(ev, s, e) <==> ev.end.day >= s.day && ev.start.day <= e.day
  {
    InstantOrder(ev.end, StartOfDay(s));
    InstantOrder(ev.start, EndOfDay(e));
  }

  /** eventsInRange: the events that touch the days from s to e, in order. */
  function EventsInRange(events: seq<RuntimeEvent>, s: Date, e: Date): seq<RuntimeEvent> {
    Filter(events, ev => Touches(ev, s, e))
  }

  /** The events in range are those of the list whose days meet s..e, and no more than the list. */
  lemma EventsInRangeSpec(events: seq<RuntimeEvent>, s: Date, e: Date)
    ensures var r := EventsInRange(events, s, e);
      |r| <= |events| &&
      forall ev :: ev in r <==> ev in events && ev.end.day >= s.day && ev.start.day <= e.day
  {
    forall ev | ev in events {
      TouchesByDay(ev, s, e);
    }
  }

  /** A range that holds another keeps at least its events. */
  lemma EventsInRangeWiden(events: seq<RuntimeEvent>, s: Date, e: Date, s2: Date, e2: Date)
    requires s2.day <= s.day && e.day <= e2.day
    ensures forall ev :: ev in EventsInRange(events, s, e) ==> ev in EventsInRange(events, s2, e2)
  {
    EventsInRangeSpec(events, s, e);
    EventsInRangeSpec(events, s2, e2);
  }

  // ---------------------------------------------------------------------
  // Attaching dates

  /** `a ?? b`: a unless it is null or undefined. */
  function Coalesce(a: DateInput, b: DateInput): (r: DateInput)
    ensures a.Missing? ==> r == b
    ensures !a.Missing? ==> r == a
  {
    if a.Missing? then b else a
  }

  /** `a || b`: a when it is truthy. */
  function Or(a: DateInput, b: DateInput): (r: DateInput)
    ensures Truthy(a) ==> r == a
    ensures !Truthy(a) ==> r == b
  {
    if Truthy(a) then a else b
  }

  /** The field a single-day event's date is read from: `dateParameter || 'date'`. */
  function DateKey(dateParameter: Option<string>): (r: string)
    ensures r != ""
  {
    if dateParameter.Some? && dateParameter.value != "" then dateParameter.value else "date"
  }

  /** addDateObjects for one event: its date field, parsed, is both its start and its end. */
  function AttachSingle(env: Env, now: Date, key: string, ev: ClndrEvent): (r: RuntimeEvent)
    ensures r.source == ev && r.start == r.end
    ensures r.start == ParseDateInput(env, now, Field(ev, key))
  {
    var start := ParseDateInput(env, now, Field(ev, key));
    RuntimeEvent(ev, start, start)
  }

  /**
   * The raw start (or end) value: the named field unless it is null or
   * undefined, and then the single-day field when one is configured.
   */
  function RawBound(ev: ClndrEvent, field: string, singleDay: string): (r: DateInput)
    ensures !Field(ev, field).Missing? ==> r == Field(ev, field)
    ensures Field(ev, field).Missing? && singleDay != "" ==> r == Field(ev, singleDay)
    ensures Field(ev, field).Missing? && singleDay == "" ==> r.Missing?
  {
    Coalesce(Field(ev, field), if singleDay != "" then Field(ev, singleDay) else Missing)
  }

  /**
   * addMultiDayDateObjects for one event: each side takes its own field,
   * else the single-day field; a side left falsy borrows the other side,
   * so the event then starts and ends on the same date; with neither side
   * usable it spans now.
   */
  function AttachMulti(env: Env, now: Date, cfg: MultiDayConfig, ev: ClndrEvent): (r: RuntimeEvent)
    ensures r.source == ev
    ensures var s, e := RawBound(ev, cfg.startDate, cfg.singleDay), RawBound(ev, cfg.endDate, cfg.singleDay);
      (Truthy(s) ==> r.start == ParseDateInput(env, now, s)) &&
      (Truthy(e) ==> r.end == ParseDateInput(env, now, e)) &&
      (!Truthy(s) ==> r.start == r.end == ParseDateInput(env, now, e)) &&
      (!Truthy(e) ==> r.start == r.end == ParseDateInput(env, now, s))
  {
    var startRaw := RawBound(ev, cfg.startDate, cfg.singleDay);
    var endRaw := RawBound(ev, cfg.endDate, cfg.singleDay);
    RuntimeEvent(ev, ParseDateInput(env, now, Or(startRaw, endRaw)), ParseDateInput(env, now, Or(endRaw, startRaw)))
  }

  /** A multi-day event with both bounds set is parsed bound by bound. */
  lemma MultiBothBounds(env: Env, now: Date, cfg: MultiDayConfig, ev: ClndrEvent)
    requires Truthy(Field(ev, cfg.startDate)) && Truthy(Field(ev, cfg.endDate))
    ensures AttachMulti(env, now, cfg, ev).start == ParseDateInput(env, now, Field(ev, cfg.startDate))
    ensures AttachMulti(env, now, cfg, ev).end == ParseDateInput(env, now, Field(ev, cfg.endDate))
  {
  }

  /** An event with only a start (and no single-day field) lasts one instant. */
  lemma MultiStartOnly(env: Env, now: Date, cfg: MultiDayConfig, ev: ClndrEvent)
    requires Truthy(Field(ev, cfg.startDate)) && Field(ev, cfg.endDate).Missing? && cfg.singleDay == ""
    ensures var r := AttachMulti(env, now, cfg, ev);
      r.start == r.end && r.start == ParseDateInput(env, now, Field(ev, cfg.startDate))
  {
  }

  /** An event with only an end (and no single-day field) lasts one instant. */
  lemma MultiEndOnly(env: Env, now: Date, cfg: MultiDayConfig, ev: ClndrEvent)
    requires Field(ev, cfg.startDate).Missing? && Truthy(Field(ev, cfg.endDate)) && cfg.singleDay == ""
    ensures var r := AttachMulti(env, now, cfg, ev);
      r.start == r.end && r.end == ParseDateInput(env, now, Field(ev, cfg.endDate))
  {
  }

  /**
   * A null or undefined side takes a truthy single-day field before the
   * other side, whatever the other side holds.
   */
  lemma MultiNullSideTakesSingleDay(env: Env, now: Date, cfg: MultiDayConfig, ev: ClndrEvent)
    requires cfg.singleDay != "" && Truthy(Field(ev, cfg.singleDay))
    ensures Field(ev, cfg.startDate).Missing? ==>
      AttachMulti(env, now, cfg, ev).start == ParseDateInput(env, now, Field(ev, cfg.singleDay))
    ensures Field(ev, cfg.endDate).Missing? ==>
      AttachMulti(env, now, cfg, ev).end == ParseDateInput(env, now, Field(ev, cfg.singleDay))
  {
  }

  /**
   * An event with neither bound but a single-day field takes that field as
   * both bounds.
   */
  lemma MultiSingleDay(env: Env, now: Date, cfg: MultiDayConfig, ev: ClndrEvent)
    requires Field(ev, cfg.startDate).Missing? && Field(ev, cfg.endDate).Missing? && cfg.singleDay != ""
    ensures var r := AttachMulti(env, now, cfg, ev);
      r.start == r.end && r.start == ParseDateInput(env, now, Field(ev, cfg.singleDay))
  {
  }

  /** An event with no usable bound at all spans the instant now. */
  lemma MultiNoBounds(env: Env, now: Date, cfg: MultiDayConfig, ev: ClndrEvent)
    requires !Truthy(RawBound(ev, cfg.startDate, cfg.singleDay)) && !Truthy(RawBound(ev, cfg.endDate, cfg.singleDay))
    ensures AttachMulti(env, now, cfg, ev) == RuntimeEvent(ev, now, now)
  {
  }

  /**
   * A start field holding "" is not null, so `??` keeps it and the
   * single-day field is never consulted; being falsy, it then gives way to
   * the end.
   */
  lemma MultiEmptyStartUsesEnd(env: Env, now: Date, cfg: MultiDayConfig, ev: ClndrEvent)
    requires Field(ev, cfg.startDate) == Text("") && Truthy(Field(ev, cfg.endDate))
    ensures AttachMulti(env, now, cfg, ev).start == ParseDateInput(env, now, Field(ev, cfg.endDate))
  {
  }

  /** Attach dates to every event, single-day or multi-day as configured. */
  function AttachAll(env: Env, now: Date, multi: Option<MultiDayConfig>, key: string, events: seq<ClndrEvent>): (r: seq<RuntimeEvent>)
    ensures |r| == |events|
    ensures forall i :: 0 <= i < |events| ==> r[i].source == events[i]
    ensures forall i :: 0 <= i < |events| ==>
      r[i] == if multi.Some? then AttachMulti(env, now, multi.value, events[i]) else AttachSingle(env, now, key, events[i])
  {
    seq(|events|, i requires 0 <= i < |events| =>
      if multi.Some? then AttachMulti(env, now, multi.value, events[i]) else AttachSingle(env, now, key, events[i]))
  }

  /** Attaching to a concatenation attaches to each part: setEvents(a) then addEvents(b) is setEvents(a + b). */
  lemma AttachAllAppend(env: Env, now: Date, multi: Option<MultiDayConfig>, key: string, a: seq<ClndrEvent>, b: seq<ClndrEvent>)
    ensures AttachAll(env, now, multi, key, a + b) == AttachAll(env, now, multi, key, a) + AttachAll(env, now, multi, key, b)
  {
  }

  /** The user events behind runtime events. */
  function Sources(events: seq<RuntimeEvent>): (r: seq<ClndrEvent>)
    ensures |r| == |events| && forall i :: 0 <= i < |events| ==> r[i] == events[i].source
  {
    seq(|events|, i requires 0 <= i < |events| => events[i].source)
  }

  /** Attaching dates keeps the user's events and their order. */
  lemma AttachAllSources(env: Env, now: Date, multi: Option<MultiDayConfig>, key: string, events: seq<ClndrEvent>)
    ensures Sources(AttachAll(env, now, multi, key, events)) == events
  {
  }

  /** removeEvents: drop every event the predicate matches, keep the rest in order. */
  function RemoveMatching(events: seq<RuntimeEvent>, matches: RuntimeEvent -> bool): (r: seq<RuntimeEvent>)
    ensures |r| <= |events|
    ensures forall ev :: ev in r <==> ev in events && !matches(ev)
  {
    Filter(events, ev => !matches(ev))
  }

  /** Removing twice with the same predicate removes nothing more. */
  lemma RemoveMatchingIdempotent(events: seq<RuntimeEvent>, matches: RuntimeEvent -> bool)
    ensures RemoveMatching(RemoveMatching(events, matches), matches) == RemoveMatching(events, matches)
  {
    var r := RemoveMatching(events, matches);
    FilterAllKept(r, ev => !matches(ev));
  }
}
