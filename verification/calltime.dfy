/**
 Scheduled call times: the naive date-time a submission may carry, its
 ordering, the two text formats `api_submit` accepts for
 `preferred_call_time`, and the year repair for two-digit years that arrive
 as `00YY`.
 */
module CallTime {
  import opened Wrappers
  import opened Text

  /** A naive (timezone-free) `datetime`, without microseconds. */
  datatype DateTime = DateTime(year: int, month: int, day: int, hour: int, minute: int, second: int)

  /** `a < b` on `datetime`: lexicographic on (year, month, day, hour, minute, second). */
  predicate Before(a: DateTime, b: DateTime) {
    || a.year < b.year
    || (a.year == b.year && a.month < b.month)
    || (a.year == b.year && a.month == b.month && a.day < b.day)
    || (a.year == b.year && a.month == b.month && a.day == b.day && a.hour < b.hour)
    || (a.year == b.year && a.month == b.month && a.day == b.day && a.hour == b.hour && a.minute < b.minute)
    || (a.year == b.year && a.month == b.month && a.day == b.day && a.hour == b.hour && a.minute == b.minute
        && a.second < b.second)
  }

  /** `a <= b`. */
  predicate AtOrBefore(a: DateTime, b: DateTime) {
    a == b || Before(a, b)
  }

  /** `Before` is a strict total order, so `AtOrBefore` and `Before` with arguments swapped are complements. */
  lemma BeforeIsStrictTotalOrder(a: DateTime, b: DateTime, c: DateTime)
    ensures !Before(a, a)
    ensures Before(a, b) && Before(b, c) ==> Before(a, c)
    ensures Before(a, b) || a == b || Before(b, a)
    ensures AtOrBefore(a, b) <==> !Before(b, a)
  {
  }

  predicate IsLeap(y: int) {
    y % 4 == 0 && (y % 100 != 0 || y % 400 == 0)
  }

  function DaysInMonth(y: int, m: int): int {
    if m == 2 then (if IsLeap(y) then 29 else 28)
    else if m == 4 || m == 6 || m == 9 || m == 11 then 30
    else 31
  }

  /** The values `datetime(...)` accepts: years 1 through 9999 and real calendar days. */
  predicate Valid(t: DateTime) {
    && 1 <= t.year <= 9999
    && 1 <= t.month <= 12
    && 1 <= t.day <= DaysInMonth(t.year, t.month)
    && 0 <= t.hour <= 23
    && 0 <= t.minute <= 59
    && 0 <= t.second <= 59
  }

  function DigitValue(c: char): int
    requires IsDigit(c)
  {
    c as int - '0' as int
  }

  /** `s[i..i + n]` is made of `n` digits. */
  predicate DigitsAt(s: string, i: nat, n: nat) {
    i + n <= |s| && forall k :: i <= k < i + n ==> IsDigit(s[k])
  }

  /** The value of the two digits at `i`. */
  function Two(s: string, i: nat): int
    requires DigitsAt(s, i, 2)
  {
    10 * DigitValue(s[i]) + DigitValue(s[i + 1])
  }

  /** The value of the four digits at `i`. */
  function Four(s: string, i: nat): int
    requires DigitsAt(s, i, 4)
  {
    100 * Two(s, i) + Two(s, i + 2)
  }

  function Checked(t: DateTime): (r: Option<DateTime>)
    ensures r.Some? <==> Valid(t)
    ensures r.Some? ==> r.value == t
  {
    if Valid(t) then Some(t) else None
  }

  /** `YYYY-MM-DD` at the start of `s`. */
  predicate IsoDateShape(s: string) {
    DigitsAt(s, 0, 4) && |s| >= 10 && s[4] == '-' && DigitsAt(s, 5, 2) && s[7] == '-' && DigitsAt(s, 8, 2)
  }

  /**
   `datetime.fromisoformat`, for the forms every supported Python version
   accepts without fractions or offsets: `YYYY-MM-DD`, optionally followed by
   any one separator character and `HH`, `HH:MM` or `HH:MM:SS`.
   */
  function ParseIso(s: string): (r: Option<DateTime>)
    ensures r.Some? ==> Valid(r.value)
    ensures r.Some? ==> IsoDateShape(s) && r.value.year == Four(s, 0) && r.value.month == Two(s, 5) && r.value.day == Two(s, 8)
  {
    if !IsoDateShape(s) then None
    else
      var y := Four(s, 0);
      var mo := Two(s, 5);
      var d := Two(s, 8);
      if |s| == 10 then Checked(DateTime(y, mo, d, 0, 0, 0))
      else if |s| == 13 && DigitsAt(s, 11, 2) then
        Checked(DateTime(y, mo, d, Two(s, 11), 0, 0))
      else if |s| == 16 && DigitsAt(s, 11, 2) && s[13] == ':' && DigitsAt(s, 14, 2) then
        Checked(DateTime(y, mo, d, Two(s, 11), Two(s, 14), 0))
      else if |s| == 19 && DigitsAt(s, 11, 2) && s[13] == ':' && DigitsAt(s, 14, 2)
              && s[16] == ':' && DigitsAt(s, 17, 2) then
        Checked(DateTime(y, mo, d, Two(s, 11), Two(s, 14), Two(s, 17)))
      else None
  }

  /** A field matched by one alternative of a `strptime` directive: its value and the position after it. */
  datatype Token = Token(value: int, next: nat)

  /** One digit from `lo` to `9` at `p`. */
  function OneDigit(s: string, p: nat, lo: char): (r: Option<Token>)
    requires '0' <= lo
    ensures r.Some? ==> r.value.next == p + 1 <= |s| && lo as int - '0' as int <= r.value.value <= 9
  {
    if p < |s| && lo <= s[p] <= '9' then Some(Token(DigitValue(s[p]), p + 1)) else None
  }

  /** `%m`: `1[0-2]|0[1-9]|[1-9]`, first alternative that matches. */
  function MonthToken(s: string, p: nat): (r: Option<Token>)
    ensures r.Some? ==> p < r.value.next <= |s| && 1 <= r.value.value <= 12
  {
    if p + 1 < |s| && s[p] == '1' && '0' <= s[p + 1] <= '2' then Some(Token(10 + DigitValue(s[p + 1]), p + 2))
    else if p + 1 < |s| && s[p] == '0' && '1' <= s[p + 1] <= '9' then Some(Token(DigitValue(s[p + 1]), p + 2))
    else OneDigit(s, p, '1')
  }

  /** `%d`: `3[01]|[12]\d|0[1-9]|[1-9]| [1-9]`, first alternative that matches. */
  function DayToken(s: string, p: nat): (r: Option<Token>)
    ensures r.Some? ==> p < r.value.next <= |s| && 1 <= r.value.value <= 31
  {
    if p + 1 < |s| && s[p] == '3' && '0' <= s[p + 1] <= '1' then Some(Token(30 + DigitValue(s[p + 1]), p + 2))
    else if p + 1 < |s| && '1' <= s[p] <= '2' && IsDigit(s[p + 1]) then Some(Token(Two(s, p), p + 2))
    else if p + 1 < |s| && s[p] == '0' && '1' <= s[p + 1] <= '9' then Some(Token(DigitValue(s[p + 1]), p + 2))
    else if p < |s| && '1' <= s[p] <= '9' then OneDigit(s, p, '1')
    else if p + 1 < |s| && s[p] == ' ' && '1' <= s[p + 1] <= '9' then Some(Token(DigitValue(s[p + 1]), p + 2))
    else None
  }

  /** `%H`: `2[0-3]|[0-1]\d|\d`, first alternative that matches. */
  function HourToken(s: string, p: nat): (r: Option<Token>)
    ensures r.Some? ==> p < r.value.next <= |s| && 0 <= r.value.value <= 23
  {
    if p + 1 < |s| && s[p] == '2' && '0' <= s[p + 1] <= '3' then Some(Token(20 + DigitValue(s[p + 1]), p + 2))
    else if p + 1 < |s| && '0' <= s[p] <= '1' && IsDigit(s[p + 1]) then Some(Token(Two(s, p), p + 2))
    else OneDigit(s, p, '0')
  }

  /** `%M`: `[0-5]\d|\d`, first alternative that matches. */
  function MinuteToken(s: string, p: nat): (r: Option<Token>)
    ensures r.Some? ==> p < r.value.next <= |s| && 0 <= r.value.value <= 59
  {
    if p + 1 < |s| && '0' <= s[p] <= '5' && IsDigit(s[p + 1]) then Some(Token(Two(s, p), p + 2))
    else OneDigit(s, p, '0')
  }

  /** The position after the run of whitespace starting at `p`. */
  function SkipSpace(s: string, p: nat): (q: nat)
    requires p <= |s|
    ensures p <= q <= |s|
    ensures q < |s| ==> !IsSpace(s[q])
    ensures forall k :: p <= k < q ==> IsSpace(s[k])
    decreases |s| - p
  {
    if p < |s| && IsSpace(s[p]) then SkipSpace(s, p + 1) else p
  }

  /** What stands between the date and the time in a `strptime` format. */
  datatype Separator =
    | Whitespace  // a space in the format: one or more whitespace characters
    | LetterT     // a literal `T`, matched case-insensitively

  /** The position after the separator at `p`, if one is there. */
  function SeparatorEnd(s: string, p: nat, sep: Separator): (r: Option<nat>)
    requires p <= |s|
    ensures r.Some? ==> p < r.value <= |s|
  {
    match sep
    case Whitespace =>
      var q := SkipSpace(s, p);
      if q > p then Some(q) else None
    case LetterT =>
      if p < |s| && (s[p] == 'T' || s[p] == 't') then Some(p + 1) else None
  }

  /**
   `datetime.strptime(s, "%Y-%m-%d %H:%M")` (separator `Whitespace`) or
   `datetime.strptime(s, "%Y-%m-%dT%H:%M")` (separator `LetterT`): the format's
   regular expression anchored at the start, every field matched by its first
   fitting alternative, no characters left over, and a real calendar date.
   */
  function ParseFormat(s: string, sep: Separator): (r: Option<DateTime>)
    ensures r.Some? ==> Valid(r.value) && r.value.second == 0
  {
    if !(DigitsAt(s, 0, 4) && |s| > 4 && s[4] == '-') then None
    else
      var y := Four(s, 0);
      match MonthToken(s, 5)
      case None => None
      case Some(mo) =>
        if !(mo.next < |s| && s[mo.next] == '-') then None
        else
          match DayToken(s, mo.next + 1)
          case None => None
          case Some(d) =>
            match SeparatorEnd(s, d.next, sep)
            case None => None
            case Some(q) =>
              match HourToken(s, q)
              case None => None
              case Some(h) =>
                if !(h.next < |s| && s[h.next] == ':') then None
                else
                  match MinuteToken(s, h.next + 1)
                  case None => None
                  case Some(mi) =>
                    if mi.next != |s| then None
                    else Checked(DateTime(y, mo.value, d.value, h.value, mi.value, 0))
  }

  /**
   `api_submit`'s reading of `preferred_call_time`: nothing for a missing or
   empty value; otherwise ISO format, then `%Y-%m-%d %H:%M`; a value neither
   accepts is ignored.
   */
  function ParseCallTime(value: Option<string>): (r: Option<DateTime>)
    ensures r.Some? ==> Valid(r.value)
    ensures value.None? || value.value == "" ==> r.None?
    ensures value.Some? && ParseIso(value.value).Some? ==> r == ParseIso(value.value)
    ensures value.Some? && value.value != "" && ParseIso(value.value).None? ==> r == ParseFormat(value.value, Whitespace)
  {
    if value.None? || value.value == "" then None
    else
      match ParseIso(value.value)
      case Some(t) => Some(t)
      case None => ParseFormat(value.value, Whitespace)
  }

  // ---------------------------------------------------------------------------
  // The texts the parsers accept back: `isoformat()`, the `datetime-local`
  // value `YYYY-MM-DDTHH:MM`, and the `%Y-%m-%d %H:%M` text.
  // ---------------------------------------------------------------------------

  function DigitChar(n: int): (c: char)
    requires 0 <= n <= 9
    ensures IsDigit(c) && DigitValue(c) == n
  {
    ('0' as int + n) as char
  }

  /** The tens digit of a two-digit number. */
  function Tens(n: int): char
    requires 0 <= n <= 99
  {
    DigitChar(n / 10)
  }

  /** The units digit of a two-digit number. */
  function Units(n: int): char
    requires 0 <= n <= 99
  {
    DigitChar(n % 10)
  }

  /** The date and time of `t` written zero-padded as `YYYY-MM-DD?HH:MM`, with `sep` between date and time. */
  function MinuteText(t: DateTime, sep: char): (s: string)
    requires Valid(t)
    ensures |s| == 16
  {
    var hi, lo := t.year / 100, t.year % 100;
    [Tens(hi), Units(hi), Tens(lo), Units(lo), '-', Tens(t.month), Units(t.month), '-', Tens(t.day), Units(t.day),
     sep, Tens(t.hour), Units(t.hour), ':', Tens(t.minute), Units(t.minute)]
  }

  /** `t.isoformat()` for a time without microseconds: `YYYY-MM-DDTHH:MM:SS`. */
  function IsoText(t: DateTime): (s: string)
    requires Valid(t)
    ensures |s| == 19
  {
    MinuteText(t, 'T') + [':', Tens(t.second), Units(t.second)]
  }

  lemma TwoAt(s: string, i: nat, n: int)
    requires 0 <= n <= 99 && i + 2 <= |s|
    requires s[i] == Tens(n) && s[i + 1] == Units(n)
    ensures DigitsAt(s, i, 2) && Two(s, i) == n
  {
  }

  lemma YearAt(s: string, y: int)
    requires 0 <= y <= 9999 && 4 <= |s|
    requires s[0] == Tens(y / 100) && s[1] == Units(y / 100) && s[2] == Tens(y % 100) && s[3] == Units(y % 100)
    ensures DigitsAt(s, 0, 4) && Four(s, 0) == y
  {
    TwoAt(s, 0, y / 100);
    TwoAt(s, 2, y % 100);
  }

  /** The fields of a minute text read back as the fields of `t`. */
  lemma MinuteTextFields(t: DateTime, sep: char, s: string)
    requires Valid(t) && |s| >= 16 && s[..16] == MinuteText(t, sep)
    ensures DigitsAt(s, 0, 4) && Four(s, 0) == t.year
    ensures s[4] == '-' && s[7] == '-' && s[10] == sep && s[13] == ':'
    ensures DigitsAt(s, 5, 2) && Two(s, 5) == t.month
    ensures DigitsAt(s, 8, 2) && Two(s, 8) == t.day
    ensures DigitsAt(s, 11, 2) && Two(s, 11) == t.hour
    ensures DigitsAt(s, 14, 2) && Two(s, 14) == t.minute
  {
    DateFields(t, sep, s);
    ClockFields(t, sep, s);
  }

  lemma DateFields(t: DateTime, sep: char, s: string)
    requires Valid(t) && |s| >= 16 && s[..16] == MinuteText(t, sep)
    ensures DigitsAt(s, 0, 4) && Four(s, 0) == t.year
    ensures s[4] == '-' && s[7] == '-'
    ensures DigitsAt(s, 5, 2) && Two(s, 5) == t.month
    ensures DigitsAt(s, 8, 2) && Two(s, 8) == t.day
  {
    var m := MinuteText(t, sep);
    assert forall k :: 0 <= k < 10 ==> s[k] == m[k];
    YearAt(s, t.year);
    TwoAt(s, 5, t.month);
    TwoAt(s, 8, t.day);
  }

  lemma ClockFields(t: DateTime, sep: char, s: string)
    requires Valid(t) && |s| >= 16 && s[..16] == MinuteText(t, sep)
    ensures s[10] == sep && s[13] == ':'
    ensures DigitsAt(s, 11, 2) && Two(s, 11) == t.hour
    ensures DigitsAt(s, 14, 2) && Two(s, 14) == t.minute
  {
    var m := MinuteText(t, sep);
    assert forall k :: 10 <= k < 16 ==> s[k] == m[k];
    TwoAt(s, 11, t.hour);
    TwoAt(s, 14, t.minute);
  }

  /** `fromisoformat` reads back what `isoformat` writes. */
  lemma ParseIsoRoundTrip(t: DateTime)
    requires Valid(t)
    ensures ParseIso(IsoText(t)) == Some(t)
  {
    var s := IsoText(t);
    assert s[..16] == MinuteText(t, 'T');
    MinuteTextFields(t, 'T', s);
    assert s[16] == ':';
    TwoAt(s, 17, t.second);
  }

  /** `fromisoformat` reads a `datetime-local` value `YYYY-MM-DDTHH:MM` to the minute. */
  lemma ParseIsoLocalRoundTrip(t: DateTime)
    requires Valid(t) && t.second == 0
    ensures ParseIso(MinuteText(t, 'T')) == Some(t)
  {
    var s := MinuteText(t, 'T');
    assert s[..16] == s;
    MinuteTextFields(t, 'T', s);
  }

  /** The character a format writes for its separator. */
  function SeparatorChar(sep: Separator): char {
    match sep
    case Whitespace => ' '
    case LetterT => 'T'
  }

  /**
   `strptime` with `%Y-%m-%d %H:%M` or `%Y-%m-%dT%H:%M` reads back the
   zero-padded text of a time to the minute.
   */
  lemma ParseFormatRoundTrip(t: DateTime, sep: Separator)
    requires Valid(t) && t.second == 0
    ensures ParseFormat(MinuteText(t, SeparatorChar(sep)), sep) == Some(t)
  {
    var s := MinuteText(t, SeparatorChar(sep));
    assert s[..16] == s;
    MinuteTextFields(t, SeparatorChar(sep), s);
    assert MonthToken(s, 5) == Some(Token(t.month, 7));
    assert DayToken(s, 8) == Some(Token(t.day, 10));
    if sep == Whitespace {
      assert SkipSpace(s, 11) == 11;
    }
    assert SeparatorEnd(s, 10, sep) == Some(11);
    assert HourToken(s, 11) == Some(Token(t.hour, 13));
    assert MinuteToken(s, 14) == Some(Token(t.minute, 16));
  }

  /** The year a sub-2000 year is repaired to: 26 means 2026, anything else the current year. */
  function RepairedYear(year: int, currentYear: int): int {
    if year == 26 then 2026 else currentYear
  }

  /**
   The year repair: a year from 2000 on is kept; year 26 becomes 2026 and any
   other year below 2000 becomes the current year, keeping every other field.
   `datetime.replace` raises when the day does not exist in the new year
   (29 February into a common year); the handler does not catch it.
   */
  function FixYear(t: DateTime, currentYear: int): (r: Result<DateTime>)
    ensures t.year >= 2000 ==> r == Ok(t)
    ensures r.Ok? ==> r.value.(year := t.year) == t
    ensures r.Ok? && t.year < 2000 ==> r.value.year == RepairedYear(t.year, currentYear)
    ensures r.Ok? && currentYear >= 2000 ==> r.value.year >= 2000
    ensures Valid(t) && 1 <= currentYear <= 9999 ==>
      (r.Err? <==> t.year < 2000 && t.month == 2 && t.day == 29 && !IsLeap(RepairedYear(t.year, currentYear)))
    ensures r.Err? ==> r.code == 500
    ensures r.Ok? && Valid(t) ==> Valid(r.value)
  {
    if t.year >= 2000 then Ok(t)
    else
      var moved := t.(year := RepairedYear(t.year, currentYear));
      if Valid(moved) then Ok(moved) else Err(500, "day is out of range for month")
  }

  /** The repair is idempotent: a repaired time needs no further repair. */
  lemma FixYearIdempotent(t: DateTime, currentYear: int)
    requires currentYear >= 2000
    requires FixYear(t, currentYear).Ok?
    ensures FixYear(FixYear(t, currentYear).value, currentYear) == FixYear(t, currentYear)
  {
  }

  /** The malformed year the submission form produces, `0026`, is read and repaired to 2026. */
  lemma TwoDigitYearExample(currentYear: int)
    ensures ParseCallTime(Some("0026-05-01T10:00")) == Some(DateTime(26, 5, 1, 10, 0, 0))
    ensures FixYear(DateTime(26, 5, 1, 10, 0, 0), currentYear) == Ok(DateTime(2026, 5, 1, 10, 0, 0))
  {
    var s := "0026-05-01T10:00";
    assert DigitsAt(s, 0, 4) && DigitsAt(s, 5, 2) && DigitsAt(s, 8, 2) && DigitsAt(s, 11, 2) && DigitsAt(s, 14, 2);
    assert Four(s, 0) == 26 && Two(s, 5) == 5 && Two(s, 8) == 1 && Two(s, 11) == 10 && Two(s, 14) == 0;
    assert ParseIso(s) == Some(DateTime(26, 5, 1, 10, 0, 0));
  }

  /** `strptime` accepts unpadded fields that `fromisoformat` rejects. */
  lemma UnpaddedExample()
    ensures ParseIso("2026-5-1 9:05") == None
    ensures ParseCallTime(Some("2026-5-1 9:05")) == Some(DateTime(2026, 5, 1, 9, 5, 0))
  {
    var s := "2026-5-1 9:05";
    assert !IsoDateShape(s) by {
      assert !IsDigit(s[6]);
    }
    assert DigitsAt(s, 0, 4) && Four(s, 0) == 2026;
    assert MonthToken(s, 5) == Some(Token(5, 6));
    assert DayToken(s, 7) == Some(Token(1, 8));
    assert SkipSpace(s, 9) == 9;
    assert SeparatorEnd(s, 8, Whitespace) == Some(9);
    assert HourToken(s, 9) == Some(Token(9, 10));
    assert MinuteToken(s, 11) == Some(Token(5, 13));
  }
}
