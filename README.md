# CLNDR core, modelled in Dafny

CLNDR is a calendar widget. Its framework-agnostic core, `ClndrCore`, does the following:

- keeps the calendar's timing state: the anchor month, the visible interval and the selected date;
- moves that state forward and back by days, months or years, gated by optional start and end constraints;
- attaches parsed start and end dates to user events;
- builds the grid of day cells that a template renders.

Around it sit:

- the state initialiser, which derives the first interval from the options;
- option normalisation, which fills in defaults and computes the weekday header labels;
- the date adapter interface and its Luxon implementation, which supply week starts, weekday rotation and format-token mapping;
- a small template compiler that replaces `<%= key %>` tags with values looked up by dotted path.

This project restates that core in Dafny and proves what it promises.

**Files.** Each file is one module and follows the structure of the source.

| file | module | what it holds |
|---|---|---|
| `dates.dfy` | `CalendarDates` | The calendar arithmetic the adapter delegates to its date library. An instant is a day number (day 0 is 1970-01-01) plus a millisecond of the day. Month arithmetic clamps the day of month. |
| `adapter.dfy` | `Adapter` | JavaScript's `%` and the `rotate` helper of the adapter interface. |
| `luxon.dfy` | `LuxonAdapter` | The Luxon adapter: locale first day of week, `startOf`/`endOf('week')`, `setWeekday`, `weekdayLabels`, the two-letter weekday format and `normalizeTokens` as a chain of global regular-expression replacements. |
| `formatting.dfy` | `Formatting` | Decimal numerals, zero padding, the `YYYY-MM-DD` rendering of a date, and `trim`. |
| `types.dfy` | `ClndrTypes` | Options, events, state, day cells and template data. |
| `state.dfy` | `State` | `parseToAdapterDate` and `initState`. |
| `corehelpers.dfy` | `CoreHelpers` | The core's private helpers: `parseDateInput`, `weekdayIndex`, `ensureLengthDefaults`, the `x \|\| 'default'` lookups, `resolveMonthDate` and `padMonth`. |
| `events.dfy` | `Events` | Attaching date objects to events, `eventsInRange`, and removal by predicate. |
| `grid.dfy` | `Grid` | `createDayObject` and `createDaysObject`. The grid is a specification function `GridDays`, and the four push loops of the source are methods proved to build exactly that grid. |
| `navigation.dfy` | `Navigation` | The state mutators of `forward`, `back`, `nextYear`, `previousYear`, `today`, `setMonth`, `setYear` and `setIntervalStart`, and the constraint flags of `updateConstraintState`. |
| `config.dfy` | `Config` | `computeWeekdayLabels` and `normalizeOptions`. |
| `templates.dfy` | `Templates` | `compile` (tag matching, dotted lookup as a loop), `baseTemplateData` and `createRenderer`. |
| `core.dfy` | `Core` | The `ClndrCore` class, whose fields are updated in place, with its public methods and `buildTemplateData`. |

Every state-changing method of `ClndrCore` states its entire new field record (`Fields()`) as a function of the old one. It also keeps the class invariant `Valid()`: the length of time has an interval, the event list agrees with `options.events`, and the constraint bounds sit at the start and at the end of their days. The constructor sets the bounds from `LowerBound` and `UpperBound`, and no later method changes them, as each method's `Fields()` ensures shows.

## Model

| member | source | states |
|---|---|---|
| `CalendarDates.DaysInMonth` | src/ts/date-adapter/adapter.ts:77-81 | A month has 28 to 31 days, and exactly 29 only for February of a leap year. |
| `CalendarDates.MonthTable` | src/ts/date-adapter/adapter.ts:77-81 | Month starts within a year advance by the month's length, and the thirteenth entry is the year's length. |
| `CalendarDates.CivilOf` | src/ts/date-adapter/adapter.ts:73-81 | Every day number has a valid year/month/day that encodes back to it. |
| `CalendarDates.CivilOfDayNumber` | src/ts/date-adapter/adapter.ts:73-81 | Decoding the day number of a valid calendar date returns that date, so day numbers and calendar dates correspond one to one. |
| `CalendarDates.DayNumberInMonth` | src/ts/date-adapter/adapter.ts:76-81 | The days of one month have consecutive day numbers. |
| `CalendarDates.InstantOrder` | src/ts/date-adapter/luxon-adapter.ts:85-91 | `isBefore` and `isAfter` are strict orders on instants and mirror each other. They never both hold, and neither holds exactly when the instants are equal. |
| `CalendarDates.FromEpochMs` | src/ts/core.ts:340-341 | `new Date(value)` of a millisecond count is the date at exactly that instant after the epoch. |
| `CalendarDates.EpochMsRoundTrip` | src/ts/core.ts:340-341 | Every date is the `new Date` of its own instant, so the millisecond reading loses nothing. |
| `CalendarDates.StartOfMonth` | src/ts/date-adapter/luxon-adapter.ts:50 | `startOf('month')` is midnight of day 1 of the same month and is never later than the date. |
| `CalendarDates.EndOfMonth` | src/ts/date-adapter/luxon-adapter.ts:61 | `endOf('month')` is the last millisecond of the month's last day. It lies the month's length minus one days after the month start. |
| `CalendarDates.PlusMonths` | src/ts/date-adapter/luxon-adapter.ts:64-70 | Adding k months moves the month index by exactly k, keeps the time of day, and clamps the day of month to the target month's length. |
| `CalendarDates.IsoWeekday` | src/ts/date-adapter/luxon-adapter.ts:72-75 | `weekday()` is an ISO weekday from 1 to 7. |
| `CalendarDates.WeekdayPlusDays` | src/ts/date-adapter/luxon-adapter.ts:64-75 | Adding k days advances the weekday by k modulo 7. |
| `CalendarDates.PlusDaysInverse` | src/ts/date-adapter/luxon-adapter.ts:64-70 | `minus({days: k})` undoes `plus({days: k})`. |
| `CalendarDates.MonthsRoundTrip` | src/ts/date-adapter/luxon-adapter.ts:50-70 | Moving k months one way and back, taking month starts, returns the original month start, in both orders. |
| `CalendarDates.DayBeforeFirstOfMonth` | src/ts/date-adapter/luxon-adapter.ts:64-70 | The day before the first of a month is the last day of the previous month. |
| `CalendarDates.PlusMonthsLater` | src/ts/date-adapter/luxon-adapter.ts:53-70 | A date one or more months later lies after the end of the current month. |
| `CalendarDates.MonthSpanEnd` | src/ts/core.ts:138 | Take the first of a month, add k months and step back one day. The result is the last day of the (k-1)-th month after it, is its own month end, and is not before the start when k ≥ 1. |
| `CalendarDates.MonthIndexOrder` | src/ts/date-adapter/luxon-adapter.ts:85-91 | A date in an earlier month is on an earlier day. |
| `CalendarDates.StartOfMonthFixed` | src/ts/date-adapter/luxon-adapter.ts:50 | `startOf('month')` leaves a month start unchanged. |
| `CalendarDates.YearsRoundTrip` | src/ts/core.ts:165-185 | One year forward and one back restores any date whose day of month is at most 28. |
| `CalendarDates.LeapDayNotRestored` | src/ts/core.ts:165-185 | From 29 February, one year forward gives 28 February, and one year back then gives 28 February of the original year, so the date is not restored. |
| `CalendarDates.SameMonthByDays` | src/ts/date-adapter/luxon-adapter.ts:93-95 | `hasSame(x, 'month')` holds exactly when the date lies between the start and end of x's month. |
| `Adapter.JsRem` | src/ts/date-adapter/adapter.ts:125 | JavaScript `%`: the remainder has the dividend's sign and is smaller than the divisor in magnitude. It agrees with the mathematical modulus on non-negative dividends. |
| `Adapter.JsRemNormalizes` | src/ts/date-adapter/adapter.ts:125 | `((by % n) + n) % n` is the mathematical modulus of `by`, for negative `by` too. |
| `Adapter.JsRemMod` | src/ts/date-adapter/adapter.ts:125 | JavaScript `%` stays in the dividend's residue class. |
| `Adapter.Rotate` | src/ts/date-adapter/adapter.ts:124-127 | Rotation keeps the length. |
| `Adapter.RotateAt` | src/ts/date-adapter/adapter.ts:121-127 | Element i of the rotation is element (i + by) mod n of the input: a left rotation, and a right rotation for negative `by`. |
| `Adapter.RotateMultiple` | src/ts/date-adapter/adapter.ts:124-127 | Rotating by a multiple of the length is the identity. |
| `Adapter.RotateInverse` | src/ts/date-adapter/adapter.ts:121-127 | Rotating by -k undoes rotating by k. |
| `Adapter.RotatePermutes` | src/ts/date-adapter/adapter.ts:124-127 | Rotation is a permutation: the multiset of elements is unchanged. |
| `LuxonAdapter.ToLowerAscii` | src/ts/date-adapter/luxon-adapter.ts:170 | Lower-casing keeps the length. |
| `LuxonAdapter.ToLowerIdempotent` | src/ts/date-adapter/luxon-adapter.ts:170 | Lower-casing twice is lower-casing once. |
| `LuxonAdapter.FirstDayOfWeek` | src/ts/date-adapter/luxon-adapter.ts:169-179 | The first day of the week is Sunday (0) or Monday (1). |
| `LuxonAdapter.FirstDayOfWeekMonday` | src/ts/date-adapter/luxon-adapter.ts:169-177 | `fr`, `de-DE` and `en-GB` start the week on Monday. |
| `LuxonAdapter.FirstDayOfWeekSunday` | src/ts/date-adapter/luxon-adapter.ts:169-179 | `en`, `en-US` and the empty locale (read as `en`) start the week on Sunday. |
| `LuxonAdapter.FirstDayOfWeekIgnoresCase` | src/ts/date-adapter/luxon-adapter.ts:169-179 | The locale's case does not matter. |
| `LuxonAdapter.StartOfWeek` | src/ts/date-adapter/luxon-adapter.ts:39-49 | `startOf('week')` is midnight of the locale's first weekday, within the seven days ending at the date. |
| `LuxonAdapter.StepBackToWeekday` | src/ts/date-adapter/luxon-adapter.ts:43-47 | `daysBack` is between 0 and 6, and stepping back that far lands on the desired ISO weekday. |
| `LuxonAdapter.StartOfWeekConstant` | src/ts/date-adapter/luxon-adapter.ts:39-49 | Every day of a week has the same week start. |
| `LuxonAdapter.LocaleIndexIsDistance` | src/ts/date-adapter/luxon-adapter.ts:39-49 | A date's locale-relative weekday index is its distance in days from its week start. |
| `LuxonAdapter.EndOfWeek` | src/ts/date-adapter/luxon-adapter.ts:53-62 | `endOf('week')` is the last millisecond of the sixth day after the week start, and the date lies between the two. |
| `LuxonAdapter.SetWeekday` | src/ts/date-adapter/luxon-adapter.ts:181-192 | `setWeekday(d, i)` stays in d's week, at midnight, on locale index i mod 7, for negative i too. |
| `LuxonAdapter.WeekdayLabels` | src/ts/date-adapter/luxon-adapter.ts:194-200 | The seven Monday-first labels are rotated so that the list starts at the locale's first weekday. |
| `LuxonAdapter.EnglishShortLabels` | src/ts/date-adapter/luxon-adapter.ts:194-200 | For `en`, Mon…Sun becomes Sun, Mon, …, Sat. |
| `LuxonAdapter.FormatTwoLetterWeekday` | src/ts/date-adapter/luxon-adapter.ts:26-33 | The `dd` format has at most two characters, and is the first two characters of the locale's short weekday name, or of the library's own short format when that name is empty. |
| `LuxonAdapter.ReplaceAllSkip` | src/ts/date-adapter/luxon-adapter.ts:209-216 | A global replace copies unchanged a prefix that cannot start a match. |
| `LuxonAdapter.ReplaceAllAbsent` | src/ts/date-adapter/luxon-adapter.ts:209-216 | A global replace leaves a string without the pattern unchanged. |
| `LuxonAdapter.ReplaceAllHit` | src/ts/date-adapter/luxon-adapter.ts:209-216 | A match at the front is replaced, and scanning resumes after the match. |
| `LuxonAdapter.ReplaceAllLead` | src/ts/date-adapter/luxon-adapter.ts:209-216 | A leading occurrence of the pattern is replaced unless the look-ahead guard rejects it. |
| `LuxonAdapter.ReplaceAllMiss` | src/ts/date-adapter/luxon-adapter.ts:209-216 | Where no match starts, one character is copied. |
| `LuxonAdapter.NormalizeTokensNoTokens` | src/ts/date-adapter/luxon-adapter.ts:206-218 | A format without Y, M, D or d is unchanged by token mapping. |
| `LuxonAdapter.NormalizeTokensIsoDate` | src/ts/date-adapter/luxon-adapter.ts:206-218 | `YYYY-MM-DD` maps to Luxon's `yyyy-LL-dd`. |
| `LuxonAdapter.NormalizeTokensMonthHeading` | src/ts/date-adapter/luxon-adapter.ts:206-218 | `MMMM YYYY` maps to `LLLL yyyy`. |
| `Formatting.DecimalDigitsShape` | src/ts/core.ts:659 | `String(n)` of a natural number is a non-empty run of digits, one digit exactly below ten. |
| `Formatting.ParseDecimalDigits` | src/ts/core.ts:225 | Reading back `String(n)` with `Number` gives n. |
| `Formatting.PadStartReads` | src/ts/core.ts:684-686 | Zero padding to width w gives at least w digits that still read as the number, and exactly w when the number fits. |
| `Formatting.IsoDateShape` | src/ts/core.ts:23 | `YYYY-MM-DD` of a date in years 0–9999 has ten characters, dashes at positions 4 and 7, digits elsewhere, and fields that read back as the year, month and day. |
| `Formatting.IsoDateInjective` | src/ts/core.ts:554 | Different days have different ISO texts, so the `calendar-day-…` class names one day. |
| `Formatting.PadMonthCalendar` | src/ts/core.ts:684-686 | `padMonth` of 1…12 is two digits that read back as the month. |
| `Formatting.TrimSpec` | src/ts/core.ts:562 | `trim` leaves no white space at either end and changes nothing that is already trimmed. |
| `Formatting.TrimStartSpec` | src/ts/core.ts:442 | Trimming the start drops a leading run of white space only and leaves a suffix that starts with a non-space character. |
| `Formatting.TrimEndSpec` | src/ts/core.ts:442 | Trimming the end drops a trailing run of white space only and leaves a prefix that ends with a non-space character. |
| `State.ParseToAdapterDate` | src/ts/state.ts:28-35 | null or undefined gives now, a string goes through `fromISO`, and a native date is taken as is. |
| `State.InitStateDefault` | src/ts/state.ts:107-112 | Without a length of time, the interval is the whole current month, from midnight of day 1 to the last millisecond, and contains now. |
| `State.InitStateMonths` | src/ts/state.ts:74-89 | Months mode starts at the anchor's month start and ends on the last day of the month `months - 1` later. |
| `State.InitStateDays` | src/ts/state.ts:90-106 | Days mode starts in the anchor's week, on locale weekday `weekOffset` mod 7, and spans `days` days. |
| `State.InitStateStartWithMonth` | src/ts/state.ts:114-131 | `startWithMonth` overrides the anchor. The interval starts at its month start and ends after `days` days, after `months` months, or at the month's end. |
| `State.InitStateSelection` | src/ts/state.ts:133-137 | A selected date is present exactly when the option is truthy and is then the parsed option. It does not affect the interval. |
| `CoreHelpers.ParseDateInput` | src/ts/core.ts:337-352 | A falsy input gives now, a non-empty string goes through `fromISO`, a non-zero number becomes the instant that many milliseconds after the epoch (`new Date(value)`), and a date object is taken as is. |
| `CoreHelpers.ParseDateInputAgrees` | src/ts/core.ts:337-341 | The core's parser and the initialiser's `parseToAdapterDate` agree on strings other than `""` and on date objects. On `""` and `0` the core uses now while the initialiser calls the library. On a non-zero number the core builds the epoch-millisecond instant while the initialiser passes the raw number to `fromNative`. |
| `CoreHelpers.WeekdayIndex` | src/ts/core.ts:584-590 | `weekdayIndex` is between 0 and 6 and equals the day's distance from its locale week start. |
| `CoreHelpers.EnsureLengthDefaults` | src/ts/core.ts:675-682 | A missing length of time becomes `{days: 0, months: 0, interval: 1}`, and a missing interval becomes 1. Everything else is unchanged. |
| `CoreHelpers.EnsureLengthDefaultsIdempotent` | src/ts/core.ts:675-682 | Applying the defaults twice is applying them once. |
| `CoreHelpers.NameOr` | src/ts/core.ts:576-582 | A configured non-empty name wins, otherwise the default is used. The result is non-empty when the default is. |
| `CoreHelpers.ResolveMonthDate` | src/ts/core.ts:654-672 | A month number n is parsed as the ISO text of the first of month n+1. A month name is parsed with `MMMM YYYY`. |
| `CoreHelpers.FirstOfMonthTextIsIso` | src/ts/core.ts:659 | For four-digit years, the text built for month n is the `YYYY-MM-DD` of that month's first day. |
| `CoreHelpers.ResolveMonthNumber` | src/ts/core.ts:658-661 | With an ISO parser, a month number resolves to midnight on the first of that month of the year. |
| `Events.Filter` | src/ts/core.ts:390-394 | `filter` keeps exactly the elements that satisfy the predicate and is never longer. |
| `Events.FilterAppend` | src/ts/core.ts:390-394 | Filtering distributes over concatenation. |
| `Events.FilterAllKept` | src/ts/core.ts:105 | Filtering changes nothing exactly when every element is kept. |
| `Events.TouchesByDay` | src/ts/core.ts:388-394 | The test "does not end before the first day begins and does not start after the last day ends" is overlap of day ranges. |
| `Events.EventsInRangeSpec` | src/ts/core.ts:383-395 | `eventsInRange` keeps exactly the events whose days overlap the range. |
| `Events.EventsInRangeWiden` | src/ts/core.ts:383-395 | Widening the range never loses an event. |
| `Events.Coalesce` | src/ts/core.ts:370-374 | `a ?? b` is b exactly when a is null or undefined. |
| `Events.Or` | src/ts/core.ts:375-376 | `a \|\| b` is b exactly when a is falsy. |
| `Events.DateKey` | src/ts/core.ts:355 | The date field name is never empty, since it defaults to `date`. |
| `Events.AttachSingle` | src/ts/core.ts:354-363 | A single-day event starts and ends on its parsed date field. |
| `Events.RawBound` | src/ts/core.ts:369-374 | A side's raw value is its own field unless that is null or undefined, then the single-day field when one is configured, else nothing. |
| `Events.AttachMulti` | src/ts/core.ts:365-381 | A multi-day event keeps its source event. A side with a truthy raw value is parsed from it. A side whose raw value is falsy borrows the other side, so both bounds are then the other side's parsed date, or now when neither side is usable. |
| `Events.MultiBothBounds` | src/ts/core.ts:369-378 | With both fields set, start and end are the parsed start and end fields. |
| `Events.MultiStartOnly` | src/ts/core.ts:369-376 | With only a start field, the event starts and ends on it. |
| `Events.MultiEndOnly` | src/ts/core.ts:369-376 | With only an end field, the event starts and ends on it. |
| `Events.MultiNullSideTakesSingleDay` | src/ts/core.ts:369-374 | A null or undefined side takes a truthy single-day field, whatever the other side holds. |
| `Events.MultiSingleDay` | src/ts/core.ts:369-376 | With neither bound but a `singleDay` field, the event starts and ends on it. |
| `Events.MultiNoBounds` | src/ts/core.ts:375-376 | With no usable field, the event starts and ends now. |
| `Events.MultiEmptyStartUsesEnd` | src/ts/core.ts:375 | An empty start string falls back to the end field. |
| `Events.AttachAll` | src/ts/core.ts:88-101 | One runtime event per event, in order, each made by the single-day or multi-day rule. |
| `Events.AttachAllAppend` | src/ts/core.ts:96-101 | Processing a concatenation is concatenating the processed parts. |
| `Events.AttachAllSources` | src/ts/core.ts:356-380 | The processed list consists of the caller's events themselves, in order. |
| `Events.RemoveMatching` | src/ts/core.ts:104-107 | `removeEvents` keeps exactly the events that do not match and is never longer. |
| `Events.RemoveMatchingIdempotent` | src/ts/core.ts:104-107 | Removing twice with the same predicate is removing once. |
| `Grid.AdjacentSide` | src/ts/core.ts:524-536 | A day is before the interval's month, in it, or after it. |
| `Grid.DayClassListShape` | src/ts/core.ts:502-555 | The class list starts with the day target and ends with `calendar-day-<ISO date>` and `calendar-dow-<weekday index>`. |
| `Grid.DayClassListMentions` | src/ts/core.ts:509-552 | The today, event, adjacent/last/next month, inactive and selected classes appear whenever their conditions hold. |
| `Grid.DayCell` | src/ts/core.ts:557-563 | A day cell carries its date. |
| `Grid.DayCellSpec` | src/ts/core.ts:490-564 | A day cell has these parts: the day of month; exactly the events covering the day; `isToday`, `isInactive` and `isAdjacentMonth` each holding exactly when its condition does; and classes that are the trimmed, space-joined class list. |
| `Grid.DayCellEvents` | src/ts/core.ts:494-500 | A day's events are exactly the given events that start on or before it and end on or after it. |
| `Grid.DayCellFlags` | src/ts/core.ts:524-545 | A day is inactive exactly when it is before the start bound's day or after the end bound's day. It is adjacent exactly when it is outside the interval's month in month views. |
| `Grid.AdjacentByMonth` | src/ts/core.ts:524-535 | Being before the month start or after the month end is being in a different month. |
| `Grid.BlankCell` | src/ts/core.ts:566-574 | A filler cell has day 0, no date, no events, no properties and the given classes. |
| `Grid.RoundUpWeek` | src/ts/core.ts:455-456 | The fill loop stops at the first multiple of seven not below the count. |
| `Grid.GridCellLead` | src/ts/core.ts:428-447 | The leading cells are the days before the start, or blank `last-month` fillers without adjacent months. |
| `Grid.GridCellMain` | src/ts/core.ts:449-453 | The interval's cells are its days with the interval's events. |
| `Grid.GridCellTrail` | src/ts/core.ts:455-485 | The trailing cells are the following days, or blank `next-month` fillers without adjacent months. |
| `Grid.GridCellDated` | src/ts/core.ts:428-485 | A cell has a date exactly when it is in the interval or adjacent months are shown. The date is its position's date. |
| `Grid.GridWholeWeeks` | src/ts/core.ts:455-469 | Month grids hold whole weeks, cover lead plus interval, and add less than one extra week unless six rows are forced. |
| `Grid.DaysModeGrid` | src/ts/core.ts:449-485 | Days mode has no leading cells. It has one cell per day, padded to 42 only when six rows are forced. |
| `Grid.DaysModeCell` | src/ts/core.ts:449-453 | In days mode, cell k is the k-th day of the interval at midnight. |
| `Grid.LeadCountMod` | src/ts/core.ts:429-431 | The number of leading cells is (weekday index − week offset) mod 7. |
| `Grid.MonthMainCount` | src/ts/core.ts:449-453 | A whole month contributes one cell per day of the month. |
| `Grid.MonthGridSize` | src/ts/core.ts:397-488 | A month grid has 28 to 42 cells in whole weeks, and exactly 42 when six rows are forced. |
| `Grid.MonthFilledCount` | src/ts/core.ts:455-469 | After the week fill, a month has 28 to 42 cells in whole weeks. |
| `Grid.GridColumns` | src/ts/core.ts:428-469 | Every cell sits in the column of its weekday, shifted by the week offset. |
| `Grid.LeadMainWithinGrid` | src/ts/core.ts:455-485 | Filling never drops a leading or interval cell. |
| `Grid.GridCoversInterval` | src/ts/core.ts:449-453 | Every day of the interval has its cell, inside the interval, with exactly the interval events that cover it. |
| `Grid.GridConsecutive` | src/ts/core.ts:433-484 | With adjacent months shown, neighbouring cells are consecutive days. |
| `Grid.GridBlanks` | src/ts/core.ts:437-481 | Without adjacent months, the cells before and after the interval are blank fillers. |
| `Grid.PushLeading` | src/ts/core.ts:428-447 | The leading loop pushes exactly the grid's leading cells. |
| `Grid.PushInterval` | src/ts/core.ts:449-453 | The interval loop pushes exactly the interval's cells and leaves the cursor on the next grid date. |
| `Grid.PushWeekFill` | src/ts/core.ts:455-469 | The week fill pushes the grid's cells up to the next whole week. |
| `Grid.PushSixRows` | src/ts/core.ts:471-485 | The six-row fill pushes the remaining cells up to 42. |
| `Grid.BuildGrid` | src/ts/core.ts:428-487 | The four loops together build exactly the specified grid. |
| `Grid.Rows` | src/ts/core.ts:285 | `Math.ceil(n / 7)` is the smallest number of rows holding n cells. |
| `Navigation.SpanOf` | src/ts/core.ts:208-211 | The month span `months \|\| interval \|\| 1` is never 0. |
| `Navigation.MoveState` | src/ts/core.ts:127-161 | Moving keeps the selected date and sets the month to the new interval start. |
| `Navigation.MoveDays` | src/ts/core.ts:128-155 | In days mode, forward and back shift the start by the step and keep a `days`-long interval ending at its last millisecond. |
| `Navigation.DaysRoundTrip` | src/ts/core.ts:123-163 | In days mode, forward then back, or back then forward, restores the state. |
| `Navigation.MoveMonths` | src/ts/core.ts:134-161 | In month modes, a move shifts the start month by the step and ends the interval on the last day of the month `span - 1` later. |
| `Navigation.MonthForwardBack` | src/ts/core.ts:123-163 | In month modes, forward then back restores an aligned state. |
| `Navigation.MonthBackForward` | src/ts/core.ts:123-163 | In month modes, back then forward restores an aligned state. |
| `Navigation.ShiftYears` | src/ts/core.ts:165-185 | Year moves keep the selected date. |
| `Navigation.NextYearMonths` | src/ts/core.ts:165-174 | `nextYear` moves month, start and end by twelve months, and the start keeps its month in the next year. |
| `Navigation.YearRoundTrip` | src/ts/core.ts:165-185 | `nextYear` then `previousYear` restores any state whose days are at most the 28th. |
| `Navigation.YearRoundTripLeapEnd` | src/ts/core.ts:165-185 | An interval ending on 29 February comes back ending on the 28th, so the state is not restored. |
| `Navigation.TodayState` | src/ts/core.ts:187-215 | `today` keeps the selected date and sets the month to the new interval start. |
| `Navigation.TodayDays` | src/ts/core.ts:190-205 | In days mode, `today` starts in now's week. It starts on the start date's weekday, or on `weekOffset` mod 7 without one, and spans `days` days. |
| `Navigation.TodayMonths` | src/ts/core.ts:207-213 | In month modes, `today` starts at the current month's start, contains now, and spans the month span. |
| `Navigation.SetMonthState` | src/ts/core.ts:217-231 | `setMonth` is refused exactly in days or months mode. |
| `Navigation.SetMonthNumber` | src/ts/core.ts:224-230 | `setMonth(n)` shows the whole month n+1 of the current year. |
| `Navigation.SetYearState` | src/ts/core.ts:233-241 | `setYear` keeps the selected date and sets the month to the interval start. |
| `Navigation.SetYearKeepsMonth` | src/ts/core.ts:233-241 | `setYear` shows the same month, whole, in the new year. |
| `Navigation.SetIntervalStartState` | src/ts/core.ts:243-252 | `setIntervalStart` is refused exactly when neither days nor months mode is on. |
| `Navigation.SetIntervalStartAligned` | src/ts/core.ts:253-268 | The new interval starts on the parsed day in days mode, or at its month start otherwise, and spans the mode's length. |
| `Navigation.NoBoundsAllEnabled` | src/ts/core.ts:616-619 | Without constraints every control is enabled. |
| `Navigation.DayFlags` | src/ts/core.ts:626-642 | In days mode, previous is enabled exactly when the start bound is on an earlier day. Next is enabled exactly when the end bound is on a later day. |
| `Navigation.MonthFlags` | src/ts/core.ts:626-642 | In month modes, the same holds with months in place of days. |
| `Navigation.YearAndTodayFlags` | src/ts/core.ts:623-649 | Previous year is enabled exactly when the start bound is not after a year before the interval start. Next year is enabled exactly when the end bound is not before a year after the interval end. Today is enabled exactly when the current month start lies within the bounds. |
| `Config.Merge` | src/ts/config.ts:95-96 | The merged table has both key sets. Given entries win, and defaults fill the rest. |
| `Config.FirstChar` | src/ts/config.ts:68 | `charAt(0)` is the first character, or empty for an empty string. |
| `Config.ComputeWeekdayLabels` | src/ts/config.ts:46-72 | There are always seven header labels. |
| `Config.UserLabelsWin` | src/ts/config.ts:51-53 | Seven user labels are rotated by the week offset. |
| `Config.CallbackLabels` | src/ts/config.ts:55-62 | Header i is the callback applied to the day of now's week at locale index (i + offset) mod 7. |
| `Config.DefaultLabels` | src/ts/config.ts:64-71 | Default header i is the first letter of the two-letter name of weekday (i + offset) mod 7. |
| `Config.NormalizeOptions` | src/ts/config.ts:81-116 | Normalisation yields seven header labels and the date field name `date`. |
| `Config.NormalizeDefaults` | src/ts/config.ts:85-111 | The defaults are: `weekOffset` 0, `showAdjacentMonths` true, `trackSelectedDate` false, `adjacentDaysChangeMonth` false and `events` []. Constraints, length of time, selection, six rows, `startWithMonth` and `daysOfTheWeek` are passed through. |
| `Config.NormalizeMergesTables` | src/ts/config.ts:95-96 | Targets and classes are the defaults overridden by the given entries. |
| `Config.NormalizeIdempotent` | src/ts/config.ts:81-116 | Normalising normalised options changes nothing. |
| `Templates.Split` | src/ts/templates.ts:55 | `split('.')` gives at least one part, and no part contains a dot. |
| `Templates.SplitJoin` | src/ts/templates.ts:55 | Joining the parts with the separator gives back the key. |
| `Templates.SplitNone` | src/ts/templates.ts:55 | A key without a dot is one part. |
| `Templates.SplitFirst` | src/ts/templates.ts:55 | The first dot separates the first part from the split of the rest. |
| `Templates.Lookup` | src/ts/templates.ts:55-57 | The `cur = cur?.[p]` loop computes the dotted-path lookup. |
| `Templates.LookupPathNullish` | src/ts/templates.ts:57 | Looking anything up in null or undefined gives undefined. |
| `Templates.LookupPathAppend` | src/ts/templates.ts:55-57 | Looking up a longer path is looking up its tail in the result for its head. |
| `Templates.Interpolate` | src/ts/templates.ts:54-58 | A tag whose path reaches a string becomes that string, and one whose path reaches null or undefined becomes empty. |
| `Templates.ArrayString` | src/ts/templates.ts:58 | `String()` of an array of strings is the strings joined by commas. When no string holds a comma, splitting that text at the commas gives the strings back. |
| `Templates.SkipSpaces` | src/ts/templates.ts:52 | `\s*` consumes exactly the maximal run of white space. |
| `Templates.SkipKeyChars` | src/ts/templates.ts:52 | `[\w.]+` consumes exactly the maximal run of key characters. |
| `Templates.MatchTag` | src/ts/templates.ts:52 | A match starts with `<%=`, has a non-empty key and ends inside the text. |
| `Templates.MatchTagShape` | src/ts/templates.ts:52 | A well-formed tag with optional spaces is matched, with its key and its end. |
| `Templates.RenderNoTags` | src/ts/templates.ts:51-60 | Text without tags renders as itself. |
| `Templates.RenderCopies` | src/ts/templates.ts:51-60 | Where no tag starts, one character is copied. |
| `Templates.RenderPlainPrefix` | src/ts/templates.ts:51-60 | A prefix without `<` is copied through. |
| `Templates.RenderTag` | src/ts/templates.ts:51-60 | A tag at the front is replaced by its interpolation, and rendering goes on after it. |
| `Templates.InterpolateDotted` | src/ts/templates.ts:55-58 | `a.b` looks up b in the value of a. |
| `Templates.RenderSimpleTag` | src/ts/templates.ts:51-60 | `<%= key %>` followed by text renders as the key's value followed by that text's rendering. |
| `Templates.BaseTemplateData` | src/ts/templates.ts:67-86 | The base data is empty lists, null headings, no intervals, the user's extras, and the user's weekday names or the locale's short labels from its first weekday. |
| `Templates.CreateRenderer` | src/ts/templates.ts:96-117 | The order is: a user `render` wins; otherwise Underscore when present; otherwise the internal compiler. The user's template is used when given, otherwise the default. |
| `Core.LowerBound` | src/ts/core.ts:594-598 | A start bound exists exactly for a truthy start constraint, at midnight of its parsed day. |
| `Core.UpperBound` | src/ts/core.ts:599-603 | An end bound exists exactly for a truthy end constraint, at the last millisecond of its parsed day. |
| `Core.SelectedValue` | src/ts/core.ts:109-121 | A falsy value clears the selection, a string is stored as is, and a date is stored as its `YYYY-MM-DD` text. |
| `Core.SelectedDateRoundTrip` | src/ts/core.ts:547-551 | A date stored by `setSelectedDate` parses back to its own day, and exactly that day gets the `selected` class. |
| `Core.GridFor` | src/ts/core.ts:402-426 | A grid request starts at the start day and ends at the end day. |
| `Core.MonthViewRows` | src/ts/core.ts:310-320 | A month view has 4 to 6 rows of seven cells, and six when forced. |
| `Core.MonthsViewBlocks` | src/ts/core.ts:289-309 | Block i of a months view is the first of the i-th month after the interval start. There is one event list per block and no flat day list. |
| `Core.DaysViewHeading` | src/ts/core.ts:280-285 | A days view has no month or year heading, carries the interval, and has enough rows for its cells. |
| `Core.DaysViewGrid` | src/ts/core.ts:275-279 | A days view's grid covers exactly the interval's days. |
| `Core.ClndrCore.constructor` | src/ts/core.ts:55-61 | The constructor applies the length defaults, initialises the state, parses the constraint bounds, computes the flags and attaches the events. |
| `Core.ClndrCore.BootstrapConstraints` | src/ts/core.ts:592-605 | The bounds are the parsed constraints, and the flags are recomputed. Nothing else changes. |
| `Core.ClndrCore.UpdateConstraintState` | src/ts/core.ts:607-652 | The flags are recomputed from the state and the bounds. Nothing else changes. |
| `Core.ClndrCore.GetConstraints` | src/ts/core.ts:71-74 | It returns the freshly recomputed flags. |
| `Core.ClndrCore.Commit` | src/ts/core.ts:328-335 | `updateState` installs the new state, recomputes the flags and returns the previous and current states. |
| `Core.ClndrCore.Forward` | src/ts/core.ts:123-141 | When next is allowed, `forward` moves by the step (or the interval) and reports the change. Otherwise it returns null and changes only the flags. |
| `Core.ClndrCore.Back` | src/ts/core.ts:143-163 | When previous is allowed, `back` moves back by the step (or the interval) and reports the change. Otherwise it returns null and changes only the flags. |
| `Core.ClndrCore.NextYear` | src/ts/core.ts:165-174 | When next year is allowed, `nextYear` moves a year forward. Otherwise it returns null and changes only the flags. |
| `Core.ClndrCore.PreviousYear` | src/ts/core.ts:176-185 | When previous year is allowed, `previousYear` moves a year back. Otherwise it returns null and changes only the flags. |
| `Core.ClndrCore.Today` | src/ts/core.ts:187-215 | `today` always moves to the interval holding now and reports the change. |
| `Core.ClndrCore.SetMonth` | src/ts/core.ts:217-231 | `setMonth` shows the resolved month, or returns null and changes nothing in days or months mode. |
| `Core.ClndrCore.SetYear` | src/ts/core.ts:233-241 | `setYear` shows the same month in the new year and reports the change. |
| `Core.ClndrCore.SetIntervalStart` | src/ts/core.ts:243-269 | `setIntervalStart` restarts the interval at the parsed date, or returns null and changes nothing without a length of time. |
| `Core.ClndrCore.SetEvents` | src/ts/core.ts:88-94 | The events become the processed list, and `options.events` holds the same events. |
| `Core.ClndrCore.AddEvents` | src/ts/core.ts:96-102 | The processed new events are appended to the old ones, and to `options.events`. |
| `Core.ClndrCore.RemoveEvents` | src/ts/core.ts:104-107 | Exactly the matching events are removed, from both lists. |
| `Core.ClndrCore.SetSelectedDate` | src/ts/core.ts:109-121 | Only the selected-date option changes, to the stored form of the value. |
| `Core.ClndrCore.SetExtras` | src/ts/core.ts:84-86 | Only the extras option changes. |
| `Core.ClndrCore.CreateDaysObject` | src/ts/core.ts:397-488 | `createDaysObject` returns exactly the specified grid for the range and records the interval's bookkeeping. |
| `Core.ClndrCore.RecordInterval` | src/ts/core.ts:401-426 | The interval start and the event lists of this, last and next month are recorded for the range. |
| `Core.ClndrCore.BuildMonthBlock` | src/ts/core.ts:294-303 | One pass of the months loop builds the block of month i, its event list and its row count. |
| `Core.ClndrCore.BuildMonthBlocks` | src/ts/core.ts:289-303 | The months loop builds every block, event list and row total of the specification, leaving the last block's bookkeeping. |
| `Core.ClndrCore.BuildDaysView` | src/ts/core.ts:275-288 | The days branch returns the specified template data. |
| `Core.ClndrCore.BuildMonthsView` | src/ts/core.ts:289-309 | The months branch returns the specified template data. |
| `Core.ClndrCore.BuildMonthView` | src/ts/core.ts:310-323 | The single-month branch returns the specified template data. |
| `Core.ClndrCore.BuildTemplateData` | src/ts/core.ts:271-326 | `buildTemplateData` returns the template data for the current mode and leaves the last grid's bookkeeping. |

## Left out

- Date library parsing (`fromISO`, `fromFormat`, `fromNative` on a number), month names, weekday names and Luxon's own `ccc` format are parameters of an `Env` record. They are not defined here. Lemmas that need ISO parsing assume the parser reads `YYYY-MM-DD` correctly (`ParsesIsoDates`).
- The adapter's `now()` is a parameter `now` of every operation that reads the clock. `createDayObject` and `updateConstraintState` call `now()` afresh, and the model uses the same instant throughout one call.
- Time zones, daylight-saving days, invalid dates, and dates before year 0 or after 9999 in text form are not modelled. Every day lasts 86 400 000 ms in one fixed zone.
- Luxon's month addition is taken to clamp the day of month to the target month's length, as Luxon documents. This is why 29 February does not survive `nextYear` then `previousYear` (see `LeapDayNotRestored`).
- `console.warn` in `setMonth` and `setIntervalStart` is not modelled; only the null result is.
- The DOM layer (`dom.ts`), the facade, the jQuery plugin, render scheduling, click events and the Moment adapter are not part of this model.
- Underscore's `_.template` is not part of this model. `CreateRenderer` only says when it is chosen, and its presence is a parameter.
- `value()`, `toISO()` and `format` with tokens other than `YYYY-MM-DD`, `MMMM YYYY` and `dd` are library calls outside the model.
- `getOptions()` and `getState()` are plain field reads and have no member of their own.
- `compile`'s `String(cur)` is `ToJsString`. It covers digits, `true`/`false`, arrays joined with commas and `[object Object]` for plain objects. It does not cover JavaScript's full number formatting, functions, or arrays that contain themselves. Array properties other than indices and `length` (such as `map`) read as undefined.
- A number given as a date differs between the two parsers. The core builds `new Date(value)`, the epoch-millisecond instant, but JavaScript's limit of ±8.64e15 ms is not modelled. `initState` passes the raw number to `fromNative`, which Luxon reads through `fromJSDate` as an invalid date. The model has no invalid dates, so that result is the parameter `fromNumber` of `Env`.
- `parseDateInput`'s object branches (`value()` and `toISOString()`) are all represented by one date-object case.
- `resolveMonthDate` tries `MMM YYYY` and the `YYYY-01-01` fallback only when `fromFormat` throws. Luxon's `fromFormat` returns an invalid date instead of throwing, so these paths are not modelled.
- Aliasing is not modelled. `addDateObjects` writes the parsed dates into the caller's event objects and `ensureLengthDefaults` mutates the caller's options. The model has values: `Events.AttachSingle`, `Events.AttachMulti` and `CoreHelpers.EnsureLengthDefaults` return new records with the source event or options inside.
- `LuxonAdapter.ToLowerAscii`: lower-cases ASCII letters only. JavaScript's `toLowerCase` also maps other scripts, which does not change which locales start on Monday.
- `State.InitStateMonths` and the other `initState` lemmas cover the mode order of `state.ts`, where months mode wins when both `days` and `months` are set. The core's navigation checks days first. The model keeps each file's own order, and the two disagree when both are set.
- `Grid.AdjacentSide`: states only the range of the result. Its meaning is stated by `Grid.DayCellFlags` and `Grid.AdjacentByMonth`.
- `Grid.DayCell`: states only that the cell carries its date. Its other fields are stated by `Grid.DayCellSpec`.
- `Core.GridFor`: states only the grid's range. The cells are stated by the `Grid` lemmas about `GridDays`.
