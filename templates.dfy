/**
 * The minimal template interpolator: every `<%= a.b.c %>` tag is replaced
 * by the string of the value found by walking the dotted path through the
 * data, and everything else is copied as it is. Also the empty template
 * data and the choice between a user renderer, Underscore and the
 * interpolator.
 */
module Templates {
  import opened Wrappers
  import opened Formatting
  import opened LuxonAdapter
  import opened ClndrTypes

  // ---------------------------------------------------------------------
  // Dotted paths

  /** String.prototype.split with a one-character separator. */
  function Split(s: string, sep: char): (r: seq<string>)
    ensures |r| >= 1
    ensures forall i :: 0 <= i < |r| ==> sep !in r[i]
  {
    if s == [] then [""]
    else
      var rest := Split(s[1..], sep);
      if s[0] == sep then [""] + rest else [[s[0]] + rest[0]] + rest[1..]
  }

  /** Joining the parts of a split with the separator gives the string back. */
  lemma {:induction false} SplitJoin(s: string, sep: char)
    ensures Join(Split(s, sep), [sep]) == s
  {
    if s != [] {
      var rest := Split(s[1..], sep);
      SplitJoin(s[1..], sep);
      if s[0] == sep {
        assert Split(s, sep)[1..] == rest;
      } else if |rest| > 1 {
        var parts := Split(s, sep);
        assert parts[1..] == rest[1..];
        assert Join(rest, [sep]) == rest[0] + [sep] + Join(rest[1..], [sep]);
      }
    }
  }

  /** A string without the separator splits into itself. */
  lemma {:induction false} SplitNone(s: string, sep: char)
    requires sep !in s
    ensures Split(s, sep) == [s]
  {
    if s != [] {
      SplitNone(s[1..], sep);
      assert s[0] != sep;
      assert [s[0]] + s[1..] == s;
    }
  }

  /** Splitting at the first separator: the part before it, then the split of the rest. */
  lemma {:induction false} SplitFirst(a: string, b: string, sep: char)
    requires sep !in a
    ensures Split(a + [sep] + b, sep) == [a] + Split(b, sep)
  {
    var s := a + [sep] + b;
    if a == [] {
      assert s[1..] == b;
    } else {
      assert s[0] == a[0] && a[0] != sep;
      assert s[1..] == a[1..] + [sep] + b;
      SplitFirst(a[1..], b, sep);
      assert [a[0]] + a[1..] == a;
    }
  }

  /** A canonical array index: digits without a leading zero (or "0" itself). */
  predicate IsIndex(p: string) {
    |p| >= 1 && (forall i :: 0 <= i < |p| ==> IsDigit(p[i])) && (|p| == 1 || p[0] != '0')
  }

  /** Property access `v[p]` on a value that is neither null nor undefined. */
  function Prop(v: Value, p: string): Value {
    match v
    case Obj(props) => if p in props then props[p] else Undefined
    case Arr(es) =>
      if p == "length" then Num(|es|)
      else if IsIndex(p) && 0 <= ParseDigits(p) < |es| then es[ParseDigits(p)]
      else Undefined
    case Str(s) =>
      if p == "length" then Num(|s|)
      else if IsIndex(p) && 0 <= ParseDigits(p) < |s| then Str([s[ParseDigits(p)]])
      else Undefined
    case _ => Undefined
  }

  /** Walk the path with optional chaining: a null or undefined step yields undefined. */
  function LookupPath(v: Value, parts: seq<string>): Value
    decreases |parts|
  {
    if parts == [] then v
    else LookupPath(if v.Null? || v.Undefined? then Undefined else Prop(v, parts[0]), parts[1..])
  }

  /** The lookup loop: walk the parts of the key left to right. */
  method Lookup(data: Value, key: string) returns (cur: Value)
    ensures cur == LookupPath(data, Split(key, '.'))
  {
    var parts := Split(key, '.');
    cur := data;
    var i := 0;
    while i < |parts|
      invariant 0 <= i <= |parts|
      invariant LookupPath(cur, parts[i..]) == LookupPath(data, parts)
    {
      assert parts[i..][1..] == parts[i + 1..];
      cur := if cur.Null? || cur.Undefined? then Undefined else Prop(cur, parts[i]);
      i := i + 1;
    }
  }

  /** Once a step is null or undefined, the rest of the path is undefined. */
  lemma {:induction false} LookupPathNullish(v: Value, parts: seq<string>)
    requires v.Null? || v.Undefined?
    requires parts != []
    ensures LookupPath(v, parts) == Undefined
    decreases |parts|
  {
    if |parts| > 1 {
      LookupPathNullish(Undefined, parts[1..]);
    }
  }

  /** Walking a path in two pieces is walking it in one. */
  lemma {:induction false} LookupPathAppend(v: Value, a: seq<string>, b: seq<string>)
    ensures LookupPath(v, a + b) == LookupPath(LookupPath(v, a), b)
    decreases |a|
  {
    if a != [] {
      var step := if v.Null? || v.Undefined? then Undefined else Prop(v, a[0]);
      assert (a + b)[0] == a[0] && (a + b)[1..] == a[1..] + b;
      assert LookupPath(v, a + b) == LookupPath(step, a[1..] + b);
      assert LookupPath(v, a) == LookupPath(step, a[1..]);
      LookupPathAppend(step, a[1..], b);
    } else {
      assert a + b == b;
    }
  }

  // ---------------------------------------------------------------------
  // Interpolation

  /**
   * JavaScript's String() of a value. An array prints as its elements joined
   * by commas, with null and undefined elements as "".
   */
  function ToJsString(v: Value): string
    decreases v
  {
    match v
    case Undefined => "undefined"
    case Null => "null"
    case Str(s) => s
    case Num(n) => IntToString(n)
    case Bool(b) => if b then "true" else "false"
    case Arr(es) => Join(seq(|es|, i requires 0 <= i < |es| => if es[i].Null? || es[i].Undefined? then "" else ToJsString(es[i])), ",")
    case Obj(_) => "[object Object]"
  }

  /** Splitting a comma-joined list of comma-free parts gives the parts back. */
  lemma {:induction false} JoinSplit(xs: seq<string>, sep: char)
    requires xs != []
    requires forall i :: 0 <= i < |xs| ==> sep !in xs[i]
    ensures Split(Join(xs, [sep]), sep) == xs
    decreases |xs|
  {
    if |xs| == 1 {
      SplitNone(xs[0], sep);
    } else {
      JoinSplit(xs[1..], sep);
      SplitFirst(xs[0], Join(xs[1..], [sep]), sep);
      assert xs == [xs[0]] + xs[1..];
    }
  }

  /**
   * An array of strings prints as the strings joined by commas, and when no
   * string holds a comma, splitting the text at the commas gives them back.
   */
  lemma ArrayString(xs: seq<string>)
    requires forall i :: 0 <= i < |xs| ==> ',' !in xs[i]
    ensures var a := Arr(seq(|xs|, i requires 0 <= i < |xs| => Str(xs[i])));
      ToJsString(a) == Join(xs, ",") && (xs != [] ==> Split(ToJsString(a), ',') == xs)
  {
    var es := seq(|xs|, i requires 0 <= i < |xs| => Str(xs[i]));
    var parts := seq(|es|, i requires 0 <= i < |es| => if es[i].Null? || es[i].Undefined? then "" else ToJsString(es[i]));
    assert parts == xs;
    if xs != [] {
      JoinSplit(xs, ',');
    }
  }

  /** The text a tag with this key becomes: "" for null or undefined, else the string of the value. */
  function Interpolate(key: string, data: Value): (r: string)
    ensures LookupPath(data, Split(key, '.')).Str? ==> r == LookupPath(data, Split(key, '.')).s
    ensures LookupPath(data, Split(key, '.')).Null? || LookupPath(data, Split(key, '.')).Undefined? ==> r == ""
  {
    var v := LookupPath(data, Split(key, '.'));
    if v.Null? || v.Undefined? then "" else ToJsString(v)
  }

  /** Word characters `\w` and the dot: what a key may be made of. */
  predicate IsKeyChar(c: char) {
    ('a' <= c <= 'z') || ('A' <= c <= 'Z') || ('0' <= c <= '9') || c == '_' || c == '.'
  }

  /** The first position at or after i that holds no white space (`\s*`). */
  function SkipSpaces(s: string, i: nat): (r: nat)
    requires i <= |s|
    ensures i <= r <= |s|
    ensures forall k :: i <= k < r ==> IsSpace(s[k])
    ensures r < |s| ==> !IsSpace(s[r])
    decreases |s| - i
  {
    if i < |s| && IsSpace(s[i]) then SkipSpaces(s, i + 1) else i
  }

  /** The first position at or after i that holds no key character (`[\w.]*`). */
  function SkipKeyChars(s: string, i: nat): (r: nat)
    requires i <= |s|
    ensures i <= r <= |s|
    ensures forall k :: i <= k < r ==> IsKeyChar(s[k])
    ensures r < |s| ==> !IsKeyChar(s[r])
    decreases |s| - i
  {
    if i < |s| && IsKeyChar(s[i]) then SkipKeyChars(s, i + 1) else i
  }

  /** Skipping white space from i stops at j when s[i..j] is white space and s[j] is not. */
  lemma {:induction false} SkipSpacesExact(s: string, i: nat, j: nat)
    requires i <= j <= |s|
    requires forall k :: i <= k < j ==> IsSpace(s[k])
    requires j == |s| || !IsSpace(s[j])
    ensures SkipSpaces(s, i) == j
    decreases j - i
  {
    if i < j {
      SkipSpacesExact(s, i + 1, j);
    }
  }

  /** Skipping key characters from i stops at j when s[i..j] are key characters and s[j] is not. */
  lemma {:induction false} SkipKeyCharsExact(s: string, i: nat, j: nat)
    requires i <= j <= |s|
    requires forall k :: i <= k < j ==> IsKeyChar(s[k])
    requires j == |s| || !IsKeyChar(s[j])
    ensures SkipKeyChars(s, i) == j
    decreases j - i
  {
    if i < j {
      SkipKeyCharsExact(s, i + 1, j);
    }
  }

  /** An opening "<%=" starts at position i. */
  predicate TagStartAt(s: string, i: int) {
    0 <= i && i + 3 <= |s| && s[i] == '<' && s[i + 1] == '%' && s[i + 2] == '='
  }

  datatype Tag = Tag(key: string, end: nat)

  /**
   * A tag at the front of s: "<%=", white space, one or more key
   * characters, white space, "%>". The key is captured and `end` is the
   * length of the tag.
   */
  function MatchTag(s: string): (r: Option<Tag>)
    ensures r.Some? ==> 5 < r.value.end <= |s| && r.value.key != []
    ensures r.Some? ==> TagStartAt(s, 0)
  {
    if TagStartAt(s, 0) then
      var a := SkipSpaces(s, 3);
      var b := SkipKeyChars(s, a);
      var c := SkipSpaces(s, b);
      if b > a && c + 2 <= |s| && s[c] == '%' && s[c + 1] == '>' then Some(Tag(s[a..b], c + 2)) else None
    else None
  }

  /** Replace every tag, scanning left to right; other characters are copied. */
  function Render(s: string, data: Value): string
    decreases |s|
  {
    if s == [] then []
    else
      match MatchTag(s)
      case Some(t) => Interpolate(t.key, data) + Render(s[t.end..], data)
      case None => [s[0]] + Render(s[1..], data)
  }

  /** The renderer `compile` returns. */
  function Compile(template: string): Value -> string {
    (data: Value) => Render(template, data)
  }

  /** A template with no "<%=" in it, control tags such as "<% } %>" included, renders as itself. */
  lemma {:induction false} RenderNoTags(s: string, data: Value)
    requires forall i :: 0 <= i < |s| ==> !TagStartAt(s, i)
    ensures Render(s, data) == s
    decreases |s|
  {
    if s != [] {
      RenderCopies(s, data);
      forall i | 0 <= i < |s[1..]| ensures !TagStartAt(s[1..], i) {
        TagStartShift(s, i);
      }
      RenderNoTags(s[1..], data);
    }
  }

  /** Where no tag starts, the first character is copied. */
  lemma RenderCopies(s: string, data: Value)
    requires s != [] && !TagStartAt(s, 0)
    ensures Render(s, data) == [s[0]] + Render(s[1..], data)
  {
  }

  lemma TagStartShift(s: string, i: int)
    requires s != [] && 0 <= i
    ensures TagStartAt(s[1..], i) ==> TagStartAt(s, i + 1)
  {
  }

  /** Text without '<' is copied unchanged in front of whatever follows. */
  lemma {:induction false} RenderPlainPrefix(a: string, b: string, data: Value)
    requires '<' !in a
    ensures Render(a + b, data) == a + Render(b, data)
    decreases |a|
  {
    if a != [] {
      var s := a + b;
      assert s[0] == a[0];
      RenderCopies(s, data);
      assert s[1..] == a[1..] + b;
      RenderPlainPrefix(a[1..], b, data);
      calc {
        Render(s, data);
        [a[0]] + Render(a[1..] + b, data);
        [a[0]] + (a[1..] + Render(b, data));
        ([a[0]] + a[1..]) + Render(b, data);
        { assert [a[0]] + a[1..] == a; }
        a + Render(b, data);
      }
    } else {
      assert a + b == b;
    }
  }

  /**
   * A tag at the front: "<%=", white space up to a, key characters up to
   * e, white space up to c, then "%>".
   */
  predicate TagShape(s: string, a: nat, e: nat, c: nat) {
    TagStartAt(s, 0) && 3 <= a < e <= c && c + 2 <= |s| &&
    (forall k :: 3 <= k < a ==> IsSpace(s[k])) &&
    (forall k :: a <= k < e ==> IsKeyChar(s[k])) &&
    (forall k :: e <= k < c ==> IsSpace(s[k])) &&
    s[c] == '%' && s[c + 1] == '>'
  }

  lemma MatchTagShape(s: string, a: nat, e: nat, c: nat)
    requires TagShape(s, a, e, c)
    ensures MatchTag(s) == Some(Tag(s[a..e], c + 2))
  {
    KeyCharNotSpace(s[a]);
    SkipSpacesExact(s, 3, a);
    if e < c { KeyCharNotSpace(s[e]); }
    SkipKeyCharsExact(s, a, e);
    SkipSpacesExact(s, e, c);
  }

  lemma KeyCharNotSpace(ch: char)
    ensures IsKeyChar(ch) ==> !IsSpace(ch)
  {
  }

  /** A tag is replaced by the interpolation of its key, and rendering resumes after it. */
  lemma RenderTag(s: string, a: nat, e: nat, c: nat, data: Value)
    requires TagShape(s, a, e, c)
    ensures Render(s, data) == Interpolate(s[a..e], data) + Render(s[c + 2..], data)
  {
    MatchTagShape(s, a, e, c);
  }

  /**
   * A key `a.b` interpolates as the key b in the value of property a, and
   * as "" when that value is null or undefined.
   */
  lemma InterpolateDotted(a: string, b: string, data: Value)
    requires '.' !in a && '.' !in b
    requires !(data.Null? || data.Undefined?)
    ensures Interpolate(a + "." + b, data) == Interpolate(b, Prop(data, a))
  {
    SplitNone(b, '.');
    SplitFirst(a, b, '.');
    assert Split(a + "." + b, '.') == [a, b];
    var v := Prop(data, a);
    assert LookupPath(data, [a, b]) == LookupPath(v, [b]) by {
      assert [a, b][1..] == [b];
    }
    if v.Null? || v.Undefined? {
      LookupPathNullish(v, [b]);
    }
  }

  /**
   * A tag written the usual way, "<%= key %>", with a key of key characters:
   * it becomes the interpolation of that key, and rendering goes on after it.
   */
  lemma RenderSimpleTag(key: string, rest: string, data: Value)
    requires key != [] && forall k :: 0 <= k < |key| ==> IsKeyChar(key[k])
    ensures Render("<%= " + key + " %>" + rest, data) == Interpolate(key, data) + Render(rest, data)
  {
    var s := "<%= " + key + " %>" + rest;
    var e := 4 + |key|;
    assert s[..4] == "<%= " && s[4..e] == key && s[e..e + 3] == " %>" && s[e + 3..] == rest;
    assert s[0] == '<' && s[1] == '%' && s[2] == '=' && s[3] == ' ';
    forall k | 4 <= k < e ensures IsKeyChar(s[k]) {
      assert s[k] == key[k - 4];
    }
    assert s[e] == ' ' && s[e + 1] == '%' && s[e + 2] == '>';
    assert TagShape(s, 4, e, e + 1);
    RenderTag(s, 4, e, e + 1, data);
  }

  // ---------------------------------------------------------------------
  // Template data and renderer choice

  /** The built-in template, trimmed. */
  const DefaultTemplate: string :=
    "<div class='clndr-controls'>\n" +
    "  <div class='clndr-control-button'>\n" +
    "    <span class='clndr-previous-button'>previous</span>\n" +
    "  </div>\n" +
    "  <div class='month'><%= month %> <%= year %></div>\n" +
    "  <div class='clndr-control-button rightalign'>\n" +
    "    <span class='clndr-next-button'>next</span>\n" +
    "  </div>\n" +
    "</div>\n" +
    "<table class='clndr-table' border='0' cellspacing='0' cellpadding='0'>\n" +
    "  <thead>\n" +
    "    <tr class='header-days'>\n" +
    "      <% for(var i = 0; i < daysOfTheWeek.length; i++) { %>\n" +
    "        <td class='header-day'><%= daysOfTheWeek[i] %></td>\n" +
    "      <% } %>\n" +
    "    </tr>\n" +
    "  </thead>\n" +
    "  <tbody>\n" +
    "    <% for(var i = 0; i < numberOfRows; i++){ %>\n" +
    "      <tr>\n" +
    "        <% for(var j = 0; j < 7; j++){ %>\n" +
    "          <% var d = j + i * 7; %>\n" +
    "          <td class='<%= days[d].classes %>'>\n" +
    "            <div class='day-contents'><%= days[d].day %></div>\n" +
    "          </td>\n" +
    "        <% } %>\n" +
    "      </tr>\n" +
    "    <% } %>\n" +
    "  </tbody>\n" +
    "</table>"

  /** Template data with every bucket empty; callers fill in the rest. */
  function BaseTemplateData(env: Env, opts: Options): (r: TemplateData)
    ensures r.days == [] && r.months == [] && r.numberOfRows == 0
    ensures r.eventsThisMonth == [] && r.eventsLastMonth == [] && r.eventsNextMonth == []
    ensures r.month.None? && r.year.None? && r.intervalStart.None? && r.intervalEnd.None?
    ensures r.eventsThisInterval.NoIntervalEvents? && r.extras == opts.extras
    ensures opts.daysOfTheWeek.Some? ==> r.daysOfTheWeek == opts.daysOfTheWeek.value
    ensures opts.daysOfTheWeek.None? ==>
      |r.daysOfTheWeek| == 7 && forall i :: 0 <= i < 7 ==> r.daysOfTheWeek[i] == env.shortWeekdayNames[(i + env.fdow + 6) % 7]
  {
    TemplateData(
      if opts.daysOfTheWeek.Some? then opts.daysOfTheWeek.value else WeekdayLabels(env.shortWeekdayNames, env.fdow),
      opts.extras, [], None, None, [], [], [], [], 0, None, None, NoIntervalEvents)
  }

  /** Which renderer draws the calendar. */
  datatype Renderer = UserRender(f: Value -> string) | Underscore(template: string) | Compiled(template: string)

  /**
   * A user render function wins; otherwise the user's template or else the
   * built-in one, compiled by Underscore when it is present and by the
   * interpolator otherwise.
   */
  function CreateRenderer(opts: Options, underscorePresent: bool): (r: Renderer)
    ensures r.UserRender? <==> opts.render.Some?
    ensures r.UserRender? ==> r.f == opts.render.value
    ensures r.Underscore? <==> opts.render.None? && underscorePresent
    ensures !r.UserRender? ==> r.template == (if opts.template.Some? then opts.template.value else DefaultTemplate)
  {
    if opts.render.Some? then UserRender(opts.render.value)
    else if opts.template.Some? then
      if underscorePresent then Underscore(opts.template.value) else Compiled(opts.template.value)
    else if underscorePresent then Underscore(DefaultTemplate) else Compiled(DefaultTemplate)
  }
}
