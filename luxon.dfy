/**
 * The week logic and token rewriting that the Luxon adapter adds on top of
 * the calendar: locale first day of the week, start and end of the locale
 * week, weekday selection inside a week, weekday label order and the
 * translation of Moment-style format tokens to Luxon tokens.
 */
module LuxonAdapter {
  import opened CalendarDates
  import opened Adapter

  // ---------------------------------------------------------------------
  // Locale first day of the week

  function ToLowerAscii(s: string): (r: string)
    ensures |r| == |s|
  {
    if s == [] then []
    else
      var c := s[0];
      [if 'A' <= c <= 'Z' then (c - 'A' + 'a') as char else c] + ToLowerAscii(s[1..])
  }

  predicate StartsWith(s: string, prefix: string) {
    |prefix| <= |s| && s[..|prefix|] == prefix
  }

  /**
   * Monday (1) for locales whose lower-cased tag starts with "fr", "de" or
   * "en-gb", Sunday (0) for every other locale; an empty tag reads as "en".
   */
  function FirstDayOfWeek(locale: string): (r: WeekStart)
    ensures r == 0 || r == 1
  {
    var loc := ToLowerAscii(if locale == "" then "en" else locale);
    if StartsWith(loc, "fr") || StartsWith(loc, "de") || StartsWith(loc, "en-gb") then 1 else 0
  }

  /** French, German and British English locales start the week on Monday. */
  lemma FirstDayOfWeekMonday()
    ensures FirstDayOfWeek("fr") == 1 && FirstDayOfWeek("de-DE") == 1 && FirstDayOfWeek("en-GB") == 1
  {
    assert ToLowerAscii("fr") == "fr";
    assert ToLowerAscii("de-DE") == "de-de";
    assert ToLowerAscii("en-GB") == "en-gb";
  }

  /** English, American English and an empty tag start the week on Sunday. */
  lemma FirstDayOfWeekSunday()
    ensures FirstDayOfWeek("en") == 0 && FirstDayOfWeek("en-US") == 0 && FirstDayOfWeek("") == 0
  {
    assert ToLowerAscii("en") == "en";
    assert ToLowerAscii("en-US") == "en-us";
    assert !StartsWith("en", "fr") && !StartsWith("en", "de") && !StartsWith("en", "en-gb");
    assert "en-us"[..5][3] != "en-gb"[3];
  }

  lemma {:induction false} ToLowerIdempotent(s: string)
    ensures ToLowerAscii(ToLowerAscii(s)) == ToLowerAscii(s)
  {
    if s != [] {
      ToLowerIdempotent(s[1..]);
      var t := ToLowerAscii(s);
      assert t[1..] == ToLowerAscii(s[1..]);
    }
  }

  /** The locale tag is compared without regard to letter case. */
  lemma FirstDayOfWeekIgnoresCase(locale: string)
    ensures FirstDayOfWeek(ToLowerAscii(locale)) == FirstDayOfWeek(locale)
  {
    ToLowerIdempotent(locale);
  }

  // ---------------------------------------------------------------------
  // Locale weeks

  /** Sunday-based weekday number 0..6 of a date (ISO Sunday 7 becomes 0). */
  function SundayBased(d: Date): int { IsoWeekday(d) % 7 }

  /** Position of d inside its locale week: 0 for the locale's first day. */
  function LocaleIndex(d: Date, fdow: WeekStart): (i: int)
    ensures 0 <= i <= 6
  {
    (SundayBased(d) - fdow) % 7
  }

  /**
   * Start of the locale week holding d: step back as many days as d lies
   * past the locale's first day, then take the start of that day.
   */
  function StartOfWeek(d: Date, fdow: WeekStart): (r: Date)
    ensures r.ms == 0 && r.day <= d.day < r.day + 7
    ensures SundayBased(r) == fdow
  {
    var isoDesired := if fdow == 0 then 7 else fdow;
    var daysBack := JsRem(IsoWeekday(d) - isoDesired + 7, 7);
    StepBackToWeekday(d, isoDesired);
    StartOfDay(PlusDays(d, -daysBack))
  }

  /** Stepping back (weekday - desired + 7) % 7 days, at most six, lands on the desired ISO weekday. */
  lemma StepBackToWeekday(d: Date, isoDesired: int)
    requires 1 <= isoDesired <= 7
    ensures var daysBack := JsRem(IsoWeekday(d) - isoDesired + 7, 7);
      0 <= daysBack <= 6 && IsoWeekday(PlusDays(d, -daysBack)) == isoDesired
  {
    var w := IsoWeekday(d);
    var k := JsRem(w - isoDesired + 7, 7);
    WeekdayPlusDays(d, -k);
    if w - isoDesired + 7 >= 7 {
      assert k == w - isoDesired;
      assert w - 1 - k == isoDesired - 1;
    } else {
      assert k == w - isoDesired + 7;
      assert w - 1 - k == isoDesired - 8;
    }
  }

  /** Two days whose Sunday-based weekdays agree and that lie less than a week apart are the same day. */
  lemma SameWeekdayClose(a: Date, b: Date)
    requires SundayBased(a) == SundayBased(b)
    requires a.day <= b.day < a.day + 7
    ensures a.day == b.day
  {
    WeekdayPlusDays(a, b.day - a.day);
    assert PlusDays(a, b.day - a.day).day == b.day;
  }

  /** Every day of a locale week has the same start of week; the start is its own start. */
  lemma StartOfWeekConstant(d: Date, e: Date, fdow: WeekStart)
    requires StartOfWeek(d, fdow).day <= e.day < StartOfWeek(d, fdow).day + 7
    ensures StartOfWeek(e, fdow) == StartOfWeek(d, fdow)
  {
    var a, b := StartOfWeek(d, fdow), StartOfWeek(e, fdow);
    if a.day <= b.day { SameWeekdayClose(a, b); } else { SameWeekdayClose(b, a); }
  }

  /** Adding a multiple of the divisor does not change a remainder. */
  lemma ModAddMultiple(x: int, b: int, k: int)
    requires b > 0
    ensures (x + k * b) % b == x % b
  {
    assert x + k * b == (x / b + k) * b + x % b;
    ModUnique(x + k * b, b, x / b + k, x % b);
  }

  /** The Sunday-based weekday read straight off the day number. */
  lemma SundayBasedDay(d: Date)
    ensures SundayBased(d) == (d.day + 4) % 7
  {
    var q, r := (d.day + 3) / 7, (d.day + 3) % 7;
    if r < 6 {
      ModUnique(d.day + 4, 7, q, r + 1);
    } else {
      ModUnique(d.day + 4, 7, q + 1, 0);
    }
  }

  lemma LocaleIndexDay(d: Date, fdow: WeekStart)
    ensures LocaleIndex(d, fdow) == (d.day + 4 - fdow) % 7
  {
    SundayBasedDay(d);
    var q := (d.day + 4) / 7;
    assert SundayBased(d) - fdow == (d.day + 4 - fdow) + (-q) * 7;
    ModAddMultiple(d.day + 4 - fdow, 7, -q);
  }

  /** d's place in its week is its distance from the start of the week. */
  lemma LocaleIndexIsDistance(d: Date, fdow: WeekStart)
    ensures LocaleIndex(d, fdow) == d.day - StartOfWeek(d, fdow).day
  {
    var s := StartOfWeek(d, fdow);
    var k := d.day - s.day;
    SundayBasedDay(s);
    LocaleIndexDay(d, fdow);
    var q := (s.day + 4) / 7;
    assert d.day + 4 - fdow == k + q * 7;
    ModAddMultiple(k, 7, q);
  }

  /** Six days after the start of the week, at the end of that day. */
  function EndOfWeek(d: Date, fdow: WeekStart): (r: Date)
    ensures r.ms == LastMs && r.day == StartOfWeek(d, fdow).day + 6
    ensures !IsAfter(d, r) && !IsBefore(d, StartOfWeek(d, fdow))
  {
    EndOfDay(PlusDays(StartOfWeek(d, fdow), 6))
  }

  /**
   * The day with locale-relative index `index` (taken modulo 7, with
   * JavaScript remainders) in the week of d.
   */
  function SetWeekday(d: Date, index: int, fdow: WeekStart): (r: Date)
    ensures StartOfWeek(r, fdow) == StartOfWeek(d, fdow)
    ensures LocaleIndex(r, fdow) == index % 7
    ensures r.ms == 0
  {
    JsRemNormalizes(index, 7);
    var s := StartOfWeek(d, fdow);
    var r := PlusDays(s, JsRem(JsRem(index, 7) + 7, 7));
    StartOfWeekConstant(d, r, fdow);
    LocaleIndexIsDistance(r, fdow);
    r
  }

  // ---------------------------------------------------------------------
  // Labels

  /**
   * Reorder the library's Monday-first list of seven weekday names so that
   * it starts with the locale's first day.
   */
  function WeekdayLabels(mondayFirst: seq<string>, fdow: WeekStart): (r: seq<string>)
    requires |mondayFirst| == 7
    ensures |r| == 7
    ensures forall i :: 0 <= i < 7 ==> r[i] == mondayFirst[(i + fdow + 6) % 7]
  {
    var startIndex := if fdow == 0 then 6 else fdow - 1;
    var r := mondayFirst[startIndex..] + mondayFirst[..startIndex];
    assert forall i :: 0 <= i < 7 ==> r[i] == mondayFirst[(i + fdow + 6) % 7] by {
      forall i | 0 <= i < 7 ensures r[i] == mondayFirst[(i + fdow + 6) % 7] {
        if i < 7 - startIndex {
          ModUnique(i + fdow + 6, 7, if fdow == 0 then 0 else 1, i + startIndex);
        } else {
          ModUnique(i + fdow + 6, 7, if fdow == 0 then 1 else 2, i + startIndex - 7);
        }
      }
    }
    r
  }

  /** For an English locale the short labels run Sunday to Saturday. */
  lemma EnglishShortLabels()
    ensures WeekdayLabels(["Mon", "Tue", "Wed", "Thu", "Fri", "Sat", "Sun"], FirstDayOfWeek("en"))
         == ["Sun", "Mon", "Tue", "Wed", "Thu", "Fri", "Sat"]
  {
    FirstDayOfWeekSunday();
    var r := WeekdayLabels(["Mon", "Tue", "Wed", "Thu", "Fri", "Sat", "Sun"], 0);
    assert r[0] == "Sun" && r[1] == "Mon" && r[2] == "Tue" && r[3] == "Wed";
    assert r[4] == "Thu" && r[5] == "Fri" && r[6] == "Sat";
  }

  function Prefix(s: string, n: nat): (r: string)
    ensures |r| == if |s| < n then |s| else n
  {
    if |s| <= n then s else s[..n]
  }

  /**
   * The two-letter weekday token "dd": the first two characters of the
   * locale's short name of d's weekday (Monday-first list), or of the
   * library's own short format when that name is empty.
   */
  function FormatTwoLetterWeekday(d: Date, shortNames: seq<string>, libraryShort: string): (r: string)
    requires |shortNames| == 7
    ensures |r| <= 2
    ensures shortNames[IsoWeekday(d) - 1] != "" ==> r == Prefix(shortNames[IsoWeekday(d) - 1], 2)
    ensures shortNames[IsoWeekday(d) - 1] == "" ==> r == Prefix(libraryShort, 2)
  {
    var name := shortNames[IsoWeekday(d) - 1];
    Prefix(if name != "" then name else libraryShort, 2)
  }

  // ---------------------------------------------------------------------
  // Token rewriting

  datatype Lookahead = AnyNext | NotFollowedBy(c: char)

  /** Does `pat` occur at position i of s, with the lookahead satisfied after it? */
  predicate MatchAt(s: string, i: nat, pat: string, guard: Lookahead)
    requires i <= |s|
  {
    i + |pat| <= |s| && s[i..i + |pat|] == pat &&
    (guard.NotFollowedBy? ==> i + |pat| == |s| || s[i + |pat|] != guard.c)
  }

  /**
   * A global regular-expression replacement of a literal pattern with an
   * optional one-character negative lookahead: scan left to right, replace
   * each match and resume after it, otherwise copy one character.
   */
  function ReplaceAll(s: string, pat: string, rep: string, guard: Lookahead): (r: string)
    requires pat != []
    decreases |s|
  {
    if s == [] then []
    else if MatchAt(s, 0, pat, guard) then rep + ReplaceAll(s[|pat|..], pat, rep, guard)
    else [s[0]] + ReplaceAll(s[1..], pat, rep, guard)
  }

  /** Text before the first possible start of a match is copied unchanged. */
  lemma {:induction false} ReplaceAllSkip(a: string, b: string, pat: string, rep: string, guard: Lookahead)
    requires pat != [] && pat[0] !in a
    ensures ReplaceAll(a + b, pat, rep, guard) == a + ReplaceAll(b, pat, rep, guard)
    decreases |a|
  {
    if a != [] {
      var s := a + b;
      assert s[0] == a[0] != pat[0];
      assert !MatchAt(s, 0, pat, guard) by {
        if |pat| <= |s| { assert s[..|pat|][0] == s[0]; }
      }
      assert s[1..] == a[1..] + b;
      assert forall c :: c in a[1..] ==> c in a;
      ReplaceAllSkip(a[1..], b, pat, rep, guard);
      assert a == [a[0]] + a[1..];
    } else {
      assert a + b == b;
    }
  }

  /** A string that does not contain the first letter of the pattern is left as it is. */
  lemma ReplaceAllAbsent(s: string, pat: string, rep: string, guard: Lookahead)
    requires pat != [] && pat[0] !in s
    ensures ReplaceAll(s, pat, rep, guard) == s
  {
    ReplaceAllSkip(s, [], pat, rep, guard);
    assert s + [] == s;
  }

  lemma ReplaceAllHit(s: string, pat: string, rep: string, guard: Lookahead)
    requires pat != [] && MatchAt(s, 0, pat, guard)
    ensures ReplaceAll(s, pat, rep, guard) == rep + ReplaceAll(s[|pat|..], pat, rep, guard)
  {
  }

  /** A match at the front is replaced and the scan resumes after it. */
  lemma ReplaceAllLead(b: string, pat: string, rep: string, guard: Lookahead)
    requires pat != [] && (guard.NotFollowedBy? && b != [] ==> b[0] != guard.c)
    ensures ReplaceAll(pat + b, pat, rep, guard) == rep + ReplaceAll(b, pat, rep, guard)
  {
    var s := pat + b;
    assert s[..|pat|] == pat && s[|pat|..] == b;
    assert MatchAt(s, 0, pat, guard);
  }

  lemma ReplaceAllMiss(s: string, pat: string, rep: string, guard: Lookahead)
    requires pat != [] && s != [] && !MatchAt(s, 0, pat, guard)
    ensures ReplaceAll(s, pat, rep, guard) == [s[0]] + ReplaceAll(s[1..], pat, rep, guard)
  {
  }

  /**
   * Moment tokens to Luxon tokens: years and weekday names first, then
   * month names and numbers and days of the month, each longer token before
   * its prefixes.
   */
  function NormalizeTokens(fmt: string): string {
    MonthDayTokens(YearWeekdayTokens(fmt))
  }

  /** The year and weekday-name passes. */
  function YearWeekdayTokens(fmt: string): string {
    var out := ReplaceAll(fmt, "YYYY", "yyyy", AnyNext);
    var out := ReplaceAll(out, "YY", "yy", AnyNext);
    var out := ReplaceAll(out, "dddd", "cccc", AnyNext);
    ReplaceAll(out, "ddd", "ccc", NotFollowedBy('d'))
  }

  /** The month and day-of-month passes. */
  function MonthDayTokens(fmt: string): string {
    var out := ReplaceAll(fmt, "MMMM", "LLLL", AnyNext);
    var out := ReplaceAll(out, "MMM", "LLL", NotFollowedBy('M'));
    var out := ReplaceAll(out, "MM", "LL", NotFollowedBy('M'));
    var out := ReplaceAll(out, "M", "L", NotFollowedBy('M'));
    var out := ReplaceAll(out, "DD", "dd", NotFollowedBy('D'));
    ReplaceAll(out, "D", "d", NotFollowedBy('D'))
  }

  /** A format without any Y, M, D or d is not rewritten. */
  lemma NormalizeTokensNoTokens(fmt: string)
    requires 'Y' !in fmt && 'M' !in fmt && 'D' !in fmt && 'd' !in fmt
    ensures NormalizeTokens(fmt) == fmt
  {
    ReplaceAllAbsent(fmt, "YYYY", "yyyy", AnyNext);
    ReplaceAllAbsent(fmt, "YY", "yy", AnyNext);
    ReplaceAllAbsent(fmt, "dddd", "cccc", AnyNext);
    ReplaceAllAbsent(fmt, "ddd", "ccc", NotFollowedBy('d'));
    ReplaceAllAbsent(fmt, "MMMM", "LLLL", AnyNext);
    ReplaceAllAbsent(fmt, "MMM", "LLL", NotFollowedBy('M'));
    ReplaceAllAbsent(fmt, "MM", "LL", NotFollowedBy('M'));
    ReplaceAllAbsent(fmt, "M", "L", NotFollowedBy('M'));
    ReplaceAllAbsent(fmt, "DD", "dd", NotFollowedBy('D'));
    ReplaceAllAbsent(fmt, "D", "d", NotFollowedBy('D'));
  }

  // The passes of NormalizeTokens over the ISO date format, one at a time.

  lemma IsoDateYears()
    ensures ReplaceAll("YYYY-MM-DD", "YYYY", "yyyy", AnyNext) == "yyyy-MM-DD"
  {
    ReplaceAllLead("-MM-DD", "YYYY", "yyyy", AnyNext);
    ReplaceAllAbsent("-MM-DD", "YYYY", "yyyy", AnyNext);
    assert "YYYY" + "-MM-DD" == "YYYY-MM-DD" && "yyyy" + "-MM-DD" == "yyyy-MM-DD";
  }

  lemma IsoDateNoLongMonth(pat: string, rep: string, g: Lookahead)
    requires pat == "MMMM" || pat == "MMM"
    ensures ReplaceAll("yyyy-MM-DD", pat, rep, g) == "yyyy-MM-DD"
  {
    var s, t, u := "yyyy-MM-DD", "MM-DD", "M-DD";
    assert s == "yyyy-" + t;
    assert t[1..] == u && u[1..] == "-DD";
    assert !MatchAt(t, 0, pat, g) by { assert t[2] != 'M'; }
    assert !MatchAt(u, 0, pat, g) by { assert u[1] != 'M'; }
    ReplaceAllSkip("yyyy-", t, pat, rep, g);
    ReplaceAllMiss(t, pat, rep, g);
    ReplaceAllMiss(u, pat, rep, g);
    ReplaceAllAbsent("-DD", pat, rep, g);
  }

  lemma IsoDateMonth()
    ensures ReplaceAll("yyyy-MM-DD", "MM", "LL", NotFollowedBy('M')) == "yyyy-LL-DD"
  {
    ReplaceAllSkip("yyyy-", "MM" + "-DD", "MM", "LL", NotFollowedBy('M'));
    ReplaceAllLead("-DD", "MM", "LL", NotFollowedBy('M'));
    ReplaceAllAbsent("-DD", "MM", "LL", NotFollowedBy('M'));
    assert "yyyy-" + ("MM" + "-DD") == "yyyy-MM-DD" && "yyyy-" + ("LL" + "-DD") == "yyyy-LL-DD";
  }

  lemma IsoDateDay()
    ensures ReplaceAll("yyyy-LL-DD", "DD", "dd", NotFollowedBy('D')) == "yyyy-LL-dd"
  {
    ReplaceAllSkip("yyyy-LL-", "DD" + [], "DD", "dd", NotFollowedBy('D'));
    ReplaceAllLead([], "DD", "dd", NotFollowedBy('D'));
    assert "yyyy-LL-" + ("DD" + []) == "yyyy-LL-DD" && "yyyy-LL-" + ("dd" + []) == "yyyy-LL-dd";
  }

  lemma IsoDateYearWeekday()
    ensures YearWeekdayTokens("YYYY-MM-DD") == "yyyy-MM-DD"
  {
    var o1 := ReplaceAll("YYYY-MM-DD", "YYYY", "yyyy", AnyNext);
    assert o1 == "yyyy-MM-DD" by { IsoDateYears(); }
    var o2 := ReplaceAll(o1, "YY", "yy", AnyNext);
    assert o2 == o1 by { ReplaceAllAbsent(o1, "YY", "yy", AnyNext); }
    var o3 := ReplaceAll(o2, "dddd", "cccc", AnyNext);
    assert o3 == o1 by { ReplaceAllAbsent(o1, "dddd", "cccc", AnyNext); }
    var o4 := ReplaceAll(o3, "ddd", "ccc", NotFollowedBy('d'));
    assert o4 == o1 by { ReplaceAllAbsent(o1, "ddd", "ccc", NotFollowedBy('d')); }
  }

  lemma IsoDateMonthDay()
    ensures MonthDayTokens("yyyy-MM-DD") == "yyyy-LL-dd"
  {
    var o1 := "yyyy-MM-DD";
    var o5 := ReplaceAll(o1, "MMMM", "LLLL", AnyNext);
    assert o5 == o1 by { IsoDateNoLongMonth("MMMM", "LLLL", AnyNext); }
    var o6 := ReplaceAll(o5, "MMM", "LLL", NotFollowedBy('M'));
    assert o6 == o1 by { IsoDateNoLongMonth("MMM", "LLL", NotFollowedBy('M')); }
    var o7 := ReplaceAll(o6, "MM", "LL", NotFollowedBy('M'));
    assert o7 == "yyyy-LL-DD" by { IsoDateMonth(); }
    var o8 := ReplaceAll(o7, "M", "L", NotFollowedBy('M'));
    assert o8 == o7 by { ReplaceAllAbsent(o7, "M", "L", NotFollowedBy('M')); }
    var o9 := ReplaceAll(o8, "DD", "dd", NotFollowedBy('D'));
    assert o9 == "yyyy-LL-dd" by { IsoDateDay(); }
    var o10 := ReplaceAll(o9, "D", "d", NotFollowedBy('D'));
    assert o10 == o9 by { ReplaceAllAbsent(o9, "D", "d", NotFollowedBy('D')); }
  }

  /** The ISO 8601 calendar-date format becomes Luxon's yyyy-LL-dd. */
  lemma NormalizeTokensIsoDate(fmt: string)
    requires fmt == "YYYY-MM-DD"
    ensures NormalizeTokens(fmt) == "yyyy-LL-dd"
  {
    IsoDateYearWeekday();
    IsoDateMonthDay();
  }

  lemma MonthHeadingYears()
    ensures ReplaceAll("MMMM YYYY", "YYYY", "yyyy", AnyNext) == "MMMM yyyy"
  {
    ReplaceAllSkip("MMMM ", "YYYY" + [], "YYYY", "yyyy", AnyNext);
    ReplaceAllLead([], "YYYY", "yyyy", AnyNext);
    assert "MMMM " + ("YYYY" + []) == "MMMM YYYY" && "MMMM " + ("yyyy" + []) == "MMMM yyyy";
  }

  lemma MonthHeadingMonth()
    ensures ReplaceAll("MMMM yyyy", "MMMM", "LLLL", AnyNext) == "LLLL yyyy"
  {
    ReplaceAllLead(" yyyy", "MMMM", "LLLL", AnyNext);
    ReplaceAllAbsent(" yyyy", "MMMM", "LLLL", AnyNext);
    assert "MMMM" + " yyyy" == "MMMM yyyy" && "LLLL" + " yyyy" == "LLLL yyyy";
  }

  lemma MonthHeadingYearWeekday()
    ensures YearWeekdayTokens("MMMM YYYY") == "MMMM yyyy"
  {
    var o1 := ReplaceAll("MMMM YYYY", "YYYY", "yyyy", AnyNext);
    assert o1 == "MMMM yyyy" by { MonthHeadingYears(); }
    var o2 := ReplaceAll(o1, "YY", "yy", AnyNext);
    assert o2 == o1 by { ReplaceAllAbsent(o1, "YY", "yy", AnyNext); }
    var o3 := ReplaceAll(o2, "dddd", "cccc", AnyNext);
    assert o3 == o1 by { ReplaceAllAbsent(o1, "dddd", "cccc", AnyNext); }
    var o4 := ReplaceAll(o3, "ddd", "ccc", NotFollowedBy('d'));
    assert o4 == o1 by { ReplaceAllAbsent(o1, "ddd", "ccc", NotFollowedBy('d')); }
  }

  lemma MonthHeadingMonthDay()
    ensures MonthDayTokens("MMMM yyyy") == "LLLL yyyy"
  {
    var o5 := ReplaceAll("MMMM yyyy", "MMMM", "LLLL", AnyNext);
    assert o5 == "LLLL yyyy" by { MonthHeadingMonth(); }
    var o6 := ReplaceAll(o5, "MMM", "LLL", NotFollowedBy('M'));
    assert o6 == o5 by { ReplaceAllAbsent(o5, "MMM", "LLL", NotFollowedBy('M')); }
    var o7 := ReplaceAll(o6, "MM", "LL", NotFollowedBy('M'));
    assert o7 == o5 by { ReplaceAllAbsent(o5, "MM", "LL", NotFollowedBy('M')); }
    var o8 := ReplaceAll(o7, "M", "L", NotFollowedBy('M'));
    assert o8 == o5 by { ReplaceAllAbsent(o5, "M", "L", NotFollowedBy('M')); }
    var o9 := ReplaceAll(o8, "DD", "dd", NotFollowedBy('D'));
    assert o9 == o5 by { ReplaceAllAbsent(o5, "DD", "dd", NotFollowedBy('D')); }
    var o10 := ReplaceAll(o9, "D", "d", NotFollowedBy('D'));
    assert o10 == o5 by { ReplaceAllAbsent(o5, "D", "d", NotFollowedBy('D')); }
  }

  /** The month heading format becomes Luxon's "LLLL yyyy". */
  lemma NormalizeTokensMonthHeading(fmt: string)
    requires fmt == "MMMM YYYY"
    ensures NormalizeTokens(fmt) == "LLLL yyyy"
  {
    MonthHeadingYearWeekday();
    MonthHeadingMonthDay();
  }
}
