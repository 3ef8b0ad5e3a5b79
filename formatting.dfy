/**
 * Decimal rendering of integers as JavaScript's String() and Luxon's
 * zero-padding do it, the ISO 8601 extended calendar-date form
 * YYYY-MM-DD (ISO 8601:2004 section 4.1.2.2) used in day class names,
 * and the two-digit month padding used to build ISO strings.
 */
module Formatting {
  import opened CalendarDates

  function DigitChar(d: int): char
    requires 0 <= d <= 9
  {
    "0123456789"[d]
  }

  predicate IsDigit(c: char) { '0' <= c <= '9' }

  /** The value of a digit character (meaningful for digits only). */
  function DigitValue(c: char): int {
    c as int - '0' as int
  }

  /** The shortest decimal numeral of n ("0" for zero). */
  function DecimalDigits(n: nat): string {
    if n < 10 then [DigitChar(n)] else DecimalDigits(n / 10) + [DigitChar(n % 10)]
  }

  /** A numeral is a non-empty string of digits, one digit exactly for numbers below ten. */
  lemma {:induction false} DecimalDigitsShape(n: nat)
    ensures var s := DecimalDigits(n);
      |s| >= 1 && (forall i :: 0 <= i < |s| ==> IsDigit(s[i])) && (n < 10 <==> |s| == 1)
  {
    if n >= 10 {
      DecimalDigitsShape(n / 10);
      var s, t := DecimalDigits(n), DecimalDigits(n / 10);
      assert forall i :: 0 <= i < |t| ==> s[i] == t[i];
    }
  }

  /** The value of a string of decimal digits, most significant first. */
  function ParseDigits(s: string): int {
    if s == [] then 0 else ParseDigits(s[..|s| - 1]) * 10 + DigitValue(s[|s| - 1])
  }

  /** Reading a numeral back gives the number. */
  lemma {:induction false} ParseDecimalDigits(n: nat)
    ensures ParseDigits(DecimalDigits(n)) == n
  {
    if n >= 10 {
      var s := DecimalDigits(n);
      ParseDecimalDigits(n / 10);
      assert s[..|s| - 1] == DecimalDigits(n / 10);
    }
  }

  function Zeros(k: nat): (s: string)
    ensures |s| == k
  {
    if k == 0 then [] else "0" + Zeros(k - 1)
  }

  /** Padding is made of zero digits only. */
  lemma {:induction false} ZerosDigits(k: nat)
    ensures forall i :: 0 <= i < k ==> Zeros(k)[i] == '0'
  {
    if k > 0 {
      ZerosDigits(k - 1);
      assert forall i :: 1 <= i < k ==> Zeros(k)[i] == Zeros(k - 1)[i - 1];
    }
  }

  /** Leading zeros do not change the value of a numeral. */
  lemma {:induction false} ParseLeadingZeros(k: nat, s: string)
    ensures ParseDigits(Zeros(k) + s) == ParseDigits(s)
    decreases |s|
  {
    var t := Zeros(k) + s;
    if s == [] {
      assert t == Zeros(k);
      ZerosParse(k);
    } else {
      assert t[..|t| - 1] == Zeros(k) + s[..|s| - 1];
      ParseLeadingZeros(k, s[..|s| - 1]);
    }
  }

  lemma {:induction false} ZerosParse(k: nat)
    ensures ParseDigits(Zeros(k)) == 0
  {
    if k > 0 {
      ZerosSnoc(k - 1);
      assert Zeros(k)[..k - 1] == Zeros(k - 1);
      ZerosParse(k - 1);
    }
  }

  lemma {:induction false} ZerosSnoc(k: nat)
    ensures Zeros(k + 1) == Zeros(k) + "0"
  {
    if k > 0 {
      ZerosSnoc(k - 1);
      assert Zeros(k + 1) == "0" + (Zeros(k - 1) + "0");
    }
  }

  lemma ZerosThenDigits(k: nat, s: string)
    requires forall i :: 0 <= i < |s| ==> IsDigit(s[i])
    ensures var t := Zeros(k) + s; forall i :: 0 <= i < |t| ==> IsDigit(t[i])
  {
    var t := Zeros(k) + s;
    ZerosDigits(k);
    forall i | 0 <= i < |t| ensures IsDigit(t[i]) {
      if i >= k { assert t[i] == s[i - k]; }
    }
  }

  /** JavaScript's String() of an integer. */
  function IntToString(n: int): string {
    if n < 0 then "-" + DecimalDigits(-n) else DecimalDigits(n)
  }

  /** Luxon's zero-padding: at least w digits, with a leading minus for negative numbers. */
  function PadStart(n: int, w: nat): string {
    var digits := DecimalDigits(if n < 0 then -n else n);
    var padded := if |digits| < w then Zeros(w - |digits|) + digits else digits;
    if n < 0 then "-" + padded else padded
  }

  /** A padded natural number is a numeral of at least w digits that reads back as the number. */
  lemma PadStartReads(n: nat, w: nat)
    ensures |PadStart(n, w)| >= w
    ensures forall i :: 0 <= i < |PadStart(n, w)| ==> IsDigit(PadStart(n, w)[i])
    ensures ParseDigits(PadStart(n, w)) == n
    ensures w >= 1 && n < Pow10(w) ==> |PadStart(n, w)| == w
  {
    var digits := DecimalDigits(n);
    DecimalDigitsShape(n);
    ParseDecimalDigits(n);
    if |digits| < w {
      var s := Zeros(w - |digits|) + digits;
      assert PadStart(n, w) == s;
      ZerosThenDigits(w - |digits|, digits);
      ParseLeadingZeros(w - |digits|, digits);
    } else {
      assert PadStart(n, w) == digits;
    }
    if w >= 1 && n < Pow10(w) { DigitsBelowPow10(n, w); }
  }

  function Pow10(w: nat): (p: nat)
    ensures p >= 1
  {
    if w == 0 then 1 else 10 * Pow10(w - 1)
  }

  lemma {:induction false} DigitsBelowPow10(n: nat, w: nat)
    requires w >= 1 && n < Pow10(w)
    ensures |DecimalDigits(n)| <= w
  {
    if n >= 10 {
      assert n / 10 < Pow10(w - 1);
      DigitsBelowPow10(n / 10, w - 1);
    }
  }

  /** The ISO 8601 extended calendar date of a day, as format('YYYY-MM-DD') writes it. */
  function IsoDate(d: Date): string {
    var c := Civil(d);
    PadStart(c.year, 4) + "-" + PadStart(c.month, 2) + "-" + PadStart(c.day, 2)
  }

  /**
   * For four-digit years the text is exactly ten characters, YYYY-MM-DD,
   * and its three numerals read back as the civil date of the day.
   */
  lemma IsoDateShape(d: Date)
    requires 0 <= Civil(d).year <= 9999
    ensures var s := IsoDate(d);
      |s| == 10 && s[4] == '-' && s[7] == '-' &&
      (forall i | 0 <= i < 10 && i != 4 && i != 7 :: IsDigit(s[i])) &&
      ParseDigits(s[..4]) == Civil(d).year &&
      ParseDigits(s[5..7]) == Civil(d).month &&
      ParseDigits(s[8..]) == Civil(d).day
  {
    var c := Civil(d);
    assert Pow10(4) == 10000 && Pow10(2) == 100;
    PadStartReads(c.year, 4);
    PadStartReads(c.month, 2);
    PadStartReads(c.day, 2);
    var y, m, dd := PadStart(c.year, 4), PadStart(c.month, 2), PadStart(c.day, 2);
    assert IsoDate(d) == y + "-" + m + "-" + dd;
    DashedParts(y, m, dd);
  }

  /** Numerals of four, two and two digits joined by dashes: where each one lies in the text. */
  lemma DashedParts(y: string, m: string, dd: string)
    requires |y| == 4 && |m| == 2 && |dd| == 2
    requires forall i :: 0 <= i < 4 ==> IsDigit(y[i])
    requires forall i :: 0 <= i < 2 ==> IsDigit(m[i]) && IsDigit(dd[i])
    ensures var s := y + "-" + m + "-" + dd;
      |s| == 10 && s[4] == '-' && s[7] == '-' &&
      (forall i | 0 <= i < 10 && i != 4 && i != 7 :: IsDigit(s[i])) &&
      s[..4] == y && s[5..7] == m && s[8..] == dd
  {
    var s := y + "-" + m + "-" + dd;
    forall i | 0 <= i < 10 && i != 4 && i != 7
      ensures IsDigit(s[i])
    {
      if i < 4 { assert s[i] == y[i]; }
      else if i < 7 { assert s[i] == m[i - 5]; }
      else { assert s[i] == dd[i - 8]; }
    }
  }

  /** Distinct days of four-digit years get distinct ISO texts. */
  lemma IsoDateInjective(a: Date, b: Date)
    requires 0 <= Civil(a).year <= 9999 && 0 <= Civil(b).year <= 9999
    requires IsoDate(a) == IsoDate(b)
    ensures a.day == b.day
  {
    IsoDateShape(a);
    IsoDateShape(b);
    assert Civil(a) == Civil(b);
  }

  /** Two-digit month text: single-digit values get one leading zero. */
  function PadMonth(v: int): string {
    if v < 10 then "0" + IntToString(v) else IntToString(v)
  }

  /** For calendar months the text is two digits that read back as the month. */
  lemma PadMonthCalendar(v: int)
    requires 1 <= v <= 12
    ensures |PadMonth(v)| == 2 && PadMonth(v) == PadStart(v, 2)
    ensures forall i :: 0 <= i < 2 ==> IsDigit(PadMonth(v)[i])
    ensures ParseDigits(PadMonth(v)) == v
  {
    assert Pow10(2) == 100;
    PadStartReads(v, 2);
    if v < 10 {
      assert Zeros(1) == "0";
    }
  }

  /** JavaScript white space and line terminators, as `\s` and trim() see them. */
  predicate IsSpace(c: char) {
    c == ' ' || c == '\t' || c == '\n' || c == '\r' || c == '\U{000B}' || c == '\U{000C}' ||
    c == '\U{00A0}' || c == '\U{1680}' || ('\U{2000}' <= c <= '\U{200A}') || c == '\U{2028}' ||
    c == '\U{2029}' || c == '\U{202F}' || c == '\U{205F}' || c == '\U{3000}' || c == '\U{FEFF}'
  }

  /** String.prototype.trim(): what is left after dropping white space at both ends. */
  function Trim(s: string): string {
    TrimEnd(TrimStart(s))
  }

  /**
   * The trimmed text neither starts nor ends with white space, and a text
   * that already does neither is left as it is.
   */
  lemma TrimSpec(s: string)
    ensures var r := Trim(s);
      (r != [] ==> !IsSpace(r[0]) && !IsSpace(r[|r| - 1])) &&
      (s != [] && !IsSpace(s[0]) && !IsSpace(s[|s| - 1]) ==> r == s)
  {
    var t := TrimStart(s);
    TrimStartSpec(s);
    TrimEndSpec(t);
    var r := TrimEnd(t);
    if r != [] {
      assert r[0] == t[0];
    }
  }

  /** Drop leading white space. */
  function TrimStart(s: string): string {
    if s != [] && IsSpace(s[0]) then TrimStart(s[1..]) else s
  }

  /** What trimStart leaves is a suffix of s, and everything dropped is white space. */
  lemma {:induction false} TrimStartSpec(s: string)
    ensures var r := TrimStart(s);
      |r| <= |s| && r == s[|s| - |r|..] &&
      (forall k :: 0 <= k < |s| - |r| ==> IsSpace(s[k])) &&
      (r != [] ==> !IsSpace(r[0]))
  {
    if s != [] && IsSpace(s[0]) {
      var t := s[1..];
      var r := TrimStart(t);
      assert TrimStart(s) == r;
      TrimStartSpec(t);
      assert r == s[|s| - |r|..] by {
        assert t[|t| - |r|..] == s[|s| - |r|..];
      }
      forall k | 0 <= k < |s| - |r|
        ensures IsSpace(s[k])
      {
        if k > 0 {
          assert s[k] == t[k - 1];
        }
      }
    }
  }

  /** Drop trailing white space. */
  function TrimEnd(s: string): string {
    if s != [] && IsSpace(s[|s| - 1]) then TrimEnd(s[..|s| - 1]) else s
  }

  /** What trimEnd leaves is a prefix of s, and everything dropped is white space. */
  lemma {:induction false} TrimEndSpec(s: string)
    ensures var r := TrimEnd(s);
      |r| <= |s| && r == s[..|r|] &&
      (forall k :: |r| <= k < |s| ==> IsSpace(s[k])) &&
      (r != [] ==> !IsSpace(r[|r| - 1]))
  {
    if s != [] && IsSpace(s[|s| - 1]) {
      TrimEndSpec(s[..|s| - 1]);
    }
  }

  /** Array.prototype.join: the parts with `sep` between neighbours. */
  function Join(parts: seq<string>, sep: string): string {
    if parts == [] then [] else if |parts| == 1 then parts[0] else parts[0] + sep + Join(parts[1..], sep)
  }
}
