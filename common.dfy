/**
 * Shared vocabulary of the CBCoin model: optional values, random draws,
 * clock values, calendar dates and the little string functions that the
 * JavaScript code uses (toLowerCase, trim, split, includes, parseInt).
 */
module Common {

  datatype Option<T> = None | Some(value: T)

  /** A value of `Math.random()`: a real in [0, 1). */
  type Draw = r: real | 0.0 <= r < 1.0

  /** `Math.floor(Math.random() * n)`: an index into a table of n entries. */
  function Pick(r: Draw, n: nat): (i: int)
    ensures n > 0 ==> 0 <= i < n
    ensures n == 0 ==> i == 0
  {
    FloorBelow(r, n);
    (r * n as real).Floor
  }

  lemma FloorBelow(r: Draw, n: nat)
    ensures n > 0 ==> 0 <= (r * n as real).Floor < n
    ensures n == 0 ==> (r * n as real).Floor == 0
  {
    if n > 0 {
      assert 0.0 <= r * n as real < n as real;
    }
  }

  /** Milliseconds in one day, second, minute, hour. */
  const SecondMs: int := 1000
  const MinuteMs: int := 60 * 1000
  const HourMs: int := 60 * 60 * 1000
  const DayMs: int := 24 * 60 * 60 * 1000

  /**
   * `new Date(d).getTime()` for a stored `Date | null`: a null date
   * converts to the epoch, 0.
   */
  function Millis(d: Option<int>): (t: int)
    ensures d.Some? ==> t == d.value
    ensures d.None? ==> t == 0
  {
    if d.Some? then d.value else 0
  }

  /** The local calendar date of an instant: getFullYear, getMonth, getDate. */
  datatype CivilDate = CivilDate(year: int, month: int, day: int)

  /**
   * The `shouldResetDailyCount` test shared by mining, fishing and
   * robbery: a missing reset stamp, or one whose local calendar date
   * differs from today's, starts a new day.
   */
  predicate NewCalendarDay(dateOf: int -> CivilDate, lastReset: Option<int>, now: int)
  {
    lastReset.None? || dateOf(now) != dateOf(lastReset.value)
  }

  /** JavaScript's `x || 1` on a number: a zero multiplier falls back to 1. */
  function OrOne(x: real): (y: real)
    ensures y != 0.0
    ensures x != 0.0 ==> y == x
  {
    if x == 0.0 then 1.0 else x
  }

  /** What `formatRemainingTime` shows: hours and minutes, minutes and seconds, or seconds. */
  datatype Remaining = HoursMinutes(hours: int, minutes: int) | MinutesSeconds(minutes: int, seconds: int) | Seconds(seconds: int)

  /**
   * `formatRemainingTime(ms)` of the mining, fishing and robbery modules:
   * the whole hours, the minutes past the hour and the seconds past the
   * minute, showing the two largest units that are present.
   */
  function FormatRemaining(ms: int): (d: Remaining)
    requires ms >= 0
    ensures d.HoursMinutes? <==> ms >= HourMs
    ensures d.MinutesSeconds? <==> MinuteMs <= ms < HourMs
    ensures d.HoursMinutes? ==> d.hours * HourMs + d.minutes * MinuteMs <= ms < d.hours * HourMs + (d.minutes + 1) * MinuteMs
    ensures d.HoursMinutes? ==> 0 <= d.minutes < 60
    ensures d.MinutesSeconds? ==> d.minutes * MinuteMs + d.seconds * SecondMs <= ms < d.minutes * MinuteMs + (d.seconds + 1) * SecondMs
    ensures d.MinutesSeconds? ==> 1 <= d.minutes < 60 && 0 <= d.seconds < 60
    ensures d.Seconds? ==> d.seconds * SecondMs <= ms < (d.seconds + 1) * SecondMs && 0 <= d.seconds < 60
  {
    var hours := ms / HourMs;
    var minutes := (ms % HourMs) / MinuteMs;
    var seconds := (ms % MinuteMs) / SecondMs;
    if hours > 0 then HoursMinutes(hours, minutes)
    else if minutes > 0 then MinutesSeconds(minutes, seconds)
    else Seconds(seconds)
  }

  /**
   * `formatRemainingTime(ms)` for any `ms`. Below zero JavaScript's
   * truncating `%` leaves no hours or minutes, and the seconds are the
   * floor of the negative remainder within the minute.
   */
  function FormatAnyRemaining(ms: int): (d: Remaining)
    ensures ms >= 0 ==> d == FormatRemaining(ms)
    ensures ms < 0 ==> d.Seconds? && -60 <= d.seconds <= 0
    ensures ms < 0 && -ms % MinuteMs == 0 ==> d == Seconds(0)
  {
    if ms >= 0 then FormatRemaining(ms)
    else Seconds(-(-ms % MinuteMs) / SecondMs)
  }

  /**
   * The wait shown at a daily cap: from now to the local midnight that
   * `nextReset` gives after the stored reset stamp, or after now when no
   * reset is stored (`last_reset || now`).
   */
  function UntilReset(nextReset: int -> int, lastReset: Option<int>, now: int): Remaining
  {
    var base := if lastReset.Some? then lastReset.value else now;
    FormatAnyRemaining(nextReset(base) - now)
  }

  /** floor(n / w) computed on reals is the integer (Euclidean) quotient. */
  lemma FloorOfQuotient(n: int, w: int)
    requires w > 0
    ensures (n as real / w as real).Floor == n / w
  {
    var q, r := n / w, n % w;
    var x := n as real / w as real;
    assert n == q * w + r && 0 <= r < w;
    assert x - q as real == r as real / w as real;
    assert (q + 1) as real - x == (w - r) as real / w as real;
  }

  /** No element occurs twice. */
  predicate Distinct<T(==)>(s: seq<T>)
  {
    forall i, j :: 0 <= i < j < |s| ==> s[i] != s[j]
  }

  // ---------------------------------------------------------------------
  // Characters and strings
  // ---------------------------------------------------------------------

  predicate IsDigit(c: char) { '0' <= c <= '9' }

  /**
   * The capitals `toLowerCase` maps one code point up by 32: A to Z and the
   * Latin-1 capitals À to Þ (all but the multiplication sign ×).
   */
  predicate IsUpper(c: char)
  {
    ('A' <= c <= 'Z') || ('\U{00C0}' <= c <= '\U{00DE}' && c != '\U{00D7}')
  }

  /**
   * The characters `String.prototype.trim` removes: ECMAScript's white
   * space (tab, vertical tab, form feed, the byte-order mark and every space
   * separator of Unicode 15) and its line terminators.
   */
  predicate IsSpace(c: char)
  {
    || c == '\t' || c == '\U{000B}' || c == '\U{000C}' || c == ' ' || c == '\U{00A0}' || c == '\U{FEFF}'
    || c == '\U{1680}' || ('\U{2000}' <= c <= '\U{200A}') || c == '\U{202F}' || c == '\U{205F}' || c == '\U{3000}'
    || c == '\n' || c == '\r' || c == '\U{2028}' || c == '\U{2029}'
  }

  function LowerChar(c: char): (d: char)
    ensures IsUpper(c) ==> d as int == c as int + 32
    ensures !IsUpper(c) ==> d == c
    ensures !IsUpper(d)
  {
    if IsUpper(c) then (c as int + 32) as char else c
  }

  /** `toLowerCase()`, restricted to A to Z and the Latin-1 capitals À to Þ (all but ×). */
  function Lower(s: string): (t: string)
    ensures |t| == |s|
    ensures forall i :: 0 <= i < |s| ==> t[i] == LowerChar(s[i])
  {
    if s == [] then [] else [LowerChar(s[0])] + Lower(s[1..])
  }

  lemma {:induction false} LowerIdempotent(s: string)
    ensures Lower(Lower(s)) == Lower(s)
  {
    if s != [] {
      LowerIdempotent(s[1..]);
      assert Lower(s) == [LowerChar(s[0])] + Lower(s[1..]);
      assert Lower(Lower(s)) == [LowerChar(LowerChar(s[0]))] + Lower(Lower(s)[1..]);
      assert Lower(s)[1..] == Lower(s[1..]);
    }
  }

  /** `trimStart()`. */
  function TrimStart(s: string): (t: string)
    ensures |t| <= |s| && t == s[|s| - |t|..]
    ensures t == [] || !IsSpace(t[0])
    ensures forall i :: 0 <= i < |s| - |t| ==> IsSpace(s[i])
  {
    if s != [] && IsSpace(s[0]) then TrimStart(s[1..]) else s
  }

  /** `trimEnd()`. */
  function TrimEnd(s: string): (t: string)
    ensures |t| <= |s| && t == s[..|t|]
    ensures t == [] || !IsSpace(t[|t| - 1])
    ensures forall i :: |t| <= i < |s| ==> IsSpace(s[i])
  {
    if s != [] && IsSpace(s[|s| - 1]) then TrimEnd(s[..|s| - 1]) else s
  }

  /**
   * `trim()`: the middle of the text, with every space before it and after
   * it removed and none left at either end.
   */
  function Trim(s: string): (t: string)
    ensures var a := |s| - |TrimStart(s)|;
      && a + |t| <= |s| && t == s[a..a + |t|]
      && (forall k :: 0 <= k < a ==> IsSpace(s[k]))
      && (forall k :: a + |t| <= k < |s| ==> IsSpace(s[k]))
    ensures t == [] || (!IsSpace(t[0]) && !IsSpace(t[|t| - 1]))
  {
    TrimEnd(TrimStart(s))
  }

  /**
   * `s.split(sep)` for a one-character separator: the pieces between the
   * separators, in order, including empty ones; never an empty list.
   */
  function Split(s: string, sep: char): (parts: seq<string>)
    ensures |parts| >= 1
    ensures forall i :: 0 <= i < |parts| ==> sep !in parts[i]
  {
    if s == [] then [[]]
    else
      var rest := Split(s[1..], sep);
      if s[0] == sep then [[]] + rest
      else [[s[0]] + rest[0]] + rest[1..]
  }

  /** A text without the separator splits into itself alone. */
  lemma {:induction false} SplitWithoutSeparator(s: string, sep: char)
    requires sep !in s
    ensures Split(s, sep) == [s]
  {
    if s != [] {
      assert sep !in s[1..] by {
        assert forall i :: 0 <= i < |s[1..]| ==> s[1..][i] == s[i + 1];
      }
      SplitWithoutSeparator(s[1..], sep);
      assert [s[0]] + s[1..] == s;
    }
  }

  /** Joining the pieces of a split with the separator gives the text back. */
  function Join(parts: seq<string>, sep: char): string
    requires |parts| >= 1
  {
    if |parts| == 1 then parts[0] else parts[0] + [sep] + Join(parts[1..], sep)
  }

  lemma {:induction false} SplitJoin(s: string, sep: char)
    ensures Join(Split(s, sep), sep) == s
  {
    if s != [] {
      SplitJoin(s[1..], sep);
      var rest := Split(s[1..], sep);
      if s[0] != sep {
        if |rest| == 1 {
          assert Split(s, sep) == [[s[0]] + rest[0]];
        } else {
          assert Split(s, sep)[1..] == rest[1..];
        }
      } else {
        assert Split(s, sep)[1..] == rest;
      }
    }
  }

  /** `s.startsWith(p)`. */
  predicate StartsWith(s: string, p: string)
  {
    |p| <= |s| && s[..|p|] == p
  }

  /** `s.includes(p)`: p occurs at some position of s. */
  predicate Contains(s: string, p: string)
  {
    exists i :: 0 <= i <= |s| && p <= s[i..]
  }

  /** An executable form of `Contains`. */
  function IndexOf(s: string, p: string, from: nat): (k: int)
    requires from <= |s| + 1
    decreases |s| + 1 - from
    ensures k == -1 || (from <= k <= |s| && p <= s[k..])
    ensures k == -1 ==> forall i :: from <= i <= |s| ==> !(p <= s[i..])
  {
    if from > |s| then -1
    else if p <= s[from..] then from
    else IndexOf(s, p, from + 1)
  }

  function Includes(s: string, p: string): (b: bool)
    ensures b <==> Contains(s, p)
  {
    IndexOf(s, p, 0) != -1
  }

  /** `str.replace(/[^0-9]/g, '')`: the decimal digits of s, in order. */
  function OnlyDigits(s: string): (t: string)
    ensures |t| <= |s|
    ensures forall i :: 0 <= i < |t| ==> IsDigit(t[i])
  {
    if s == [] then []
    else if IsDigit(s[0]) then [s[0]] + OnlyDigits(s[1..])
    else OnlyDigits(s[1..])
  }

  lemma {:induction false} OnlyDigitsKeepsDigits(s: string)
    requires forall i :: 0 <= i < |s| ==> IsDigit(s[i])
    ensures OnlyDigits(s) == s
  {
    if s != [] {
      OnlyDigitsKeepsDigits(s[1..]);
    }
  }

  lemma {:induction false} OnlyDigitsAppend(a: string, b: string)
    ensures OnlyDigits(a + b) == OnlyDigits(a) + OnlyDigits(b)
  {
    if a == [] {
      assert a + b == b;
    } else {
      assert (a + b)[0] == a[0] && (a + b)[1..] == a[1..] + b;
      OnlyDigitsAppend(a[1..], b);
    }
  }

  /** Value of a run of decimal digits (most significant first). */
  function DecimalValue(ds: string): (n: nat)
    requires forall i :: 0 <= i < |ds| ==> IsDigit(ds[i])
  {
    if ds == [] then 0
    else
      assert IsDigit(ds[|ds| - 1]);
      DecimalValue(ds[..|ds| - 1]) * 10 + (ds[|ds| - 1] as int - '0' as int)
  }

  predicate IsHexDigit(c: char)
  {
    IsDigit(c) || 'a' <= c <= 'f' || 'A' <= c <= 'F'
  }

  function HexDigitValue(c: char): (v: nat)
    requires IsHexDigit(c)
    ensures v < 16
  {
    if IsDigit(c) then c as int - '0' as int
    else if 'a' <= c <= 'f' then c as int - 'a' as int + 10
    else c as int - 'A' as int + 10
  }

  function HexValue(ds: string): nat
    requires forall i :: 0 <= i < |ds| ==> IsHexDigit(ds[i])
  {
    if ds == [] then 0
    else HexValue(ds[..|ds| - 1]) * 16 + HexDigitValue(ds[|ds| - 1])
  }

  /** Length of the longest prefix of s made of characters satisfying p. */
  function DigitRun(s: string, hex: bool): (n: nat)
    ensures n <= |s|
    ensures forall i :: 0 <= i < n ==> (if hex then IsHexDigit(s[i]) else IsDigit(s[i]))
    ensures n < |s| ==> !(if hex then IsHexDigit(s[n]) else IsDigit(s[n]))
  {
    if s != [] && (if hex then IsHexDigit(s[0]) else IsDigit(s[0])) then 1 + DigitRun(s[1..], hex) else 0
  }

  /**
   * `parseInt(s)` with no radix: leading whitespace is skipped, one sign
   * is allowed, a `0x`/`0X` prefix selects base 16, and the longest run of
   * digits that follows is read; `NaN` (here `None`) when that run is empty.
   */
  function ParseInt(s: string): (r: Option<int>)
    ensures (forall i :: 0 <= i < |s| ==> !IsDigit(s[i])) ==> r.None?
    ensures r.Some? && r.value < 0 ==> '-' in s
  {
    ParseSigned(TrimStart(s))
  }

  function ParseSigned(t: string): (r: Option<int>)
    ensures t == [] ==> r.None?
  {
    if t != [] && t[0] == '-' then
      var m := ParseUnsigned(t[1..]);
      if m.Some? then Some(-m.value) else None
    else if t != [] && t[0] == '+' then ParseUnsigned(t[1..])
    else ParseUnsigned(t)
  }

  function ParseUnsigned(u: string): (r: Option<int>)
    ensures u == [] ==> r.None?
    ensures r.Some? ==> r.value >= 0
  {
    if |u| >= 2 && u[0] == '0' && (u[1] == 'x' || u[1] == 'X') then DigitsValue(u[2..], true)
    else DigitsValue(u, false)
  }

  /** The value of the leading run of (hex) digits, if there is one. */
  function DigitsValue(body: string, hex: bool): (r: Option<int>)
    ensures r.None? <==> DigitRun(body, hex) == 0
    ensures r.Some? ==> r.value >= 0
  {
    var n := DigitRun(body, hex);
    if n == 0 then None
    else if hex then Some(HexValue(body[..n]))
    else Some(DecimalValue(body[..n]))
  }

  /** A non-empty string made of decimal digits only. */
  predicate AllDigits(s: string)
  {
    |s| > 0 && forall i :: 0 <= i < |s| ==> IsDigit(s[i])
  }

  /** A run of decimal digits is read whole. */
  lemma DigitsValueAll(s: string)
    requires |s| > 0 && forall i :: 0 <= i < |s| ==> IsDigit(s[i])
    ensures DigitsValue(s, false) == Some(DecimalValue(s))
  {
    assert DigitRun(s, false) == |s|;
    assert s[..|s|] == s;
  }

  /** A minus sign negates the value of what follows it. */
  lemma ParseSignedMinus(t: string, v: int)
    requires t != [] && t[0] == '-' && ParseUnsigned(t[1..]) == Some(v)
    ensures ParseSigned(t).Some? && ParseSigned(t).value == -v
  {
  }

  /** A non-empty string of decimal digits parses to its decimal value. */
  lemma ParseIntDigits(s: string)
    requires AllDigits(s)
    ensures ParseInt(s) == Some(DecimalValue(s))
  {
    assert IsDigit(s[0]);
    ParseUnsignedDigits(s);
    TrimStartNoSpace(s);
    ParseSignedUnsigned(s);
  }

  lemma TrimStartNoSpace(s: string)
    requires s != [] && !IsSpace(s[0])
    ensures TrimStart(s) == s
  {
  }

  /** Without a sign, the text is read as an unsigned number. */
  lemma ParseSignedUnsigned(t: string)
    requires t != [] && t[0] != '-' && t[0] != '+'
    ensures ParseSigned(t) == ParseUnsigned(t)
  {
  }

  lemma ParseUnsignedDigits(s: string)
    requires AllDigits(s)
    ensures ParseUnsigned(s) == Some(DecimalValue(s))
  {
    DigitsValueAll(s);
    assert |s| >= 2 ==> s[1] != 'x' && s[1] != 'X';
  }

  /** The same string after a minus sign parses to that value negated. */
  lemma ParseIntNegativeDigits(s: string)
    requires AllDigits(s)
    ensures var r := ParseInt(['-'] + s); r.Some? && r.value == -(DecimalValue(s) as int)
  {
    var t := ['-'] + s;
    assert TrimStart(t) == t;
    assert t[1..] == s;
    ParseUnsignedDigits(s);
    ParseSignedMinus(t, DecimalValue(s));
  }
}
