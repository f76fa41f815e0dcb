/**
 * The two layouts of Go's `time.Parse` that the service uses: the date layout
 * "2006-01-02" (a four-digit year, a two-digit month and a two-digit day that
 * must exist in the calendar) and the clock layout "15:04" (a one- or two-digit
 * hour below 24 and a two-digit minute below 60). Nothing may follow the layout.
 */
module Clock {
  import opened Wrappers
  import opened Text
  import opened Numbers

  datatype Date = Date(year: nat, month: nat, day: nat)

  datatype TimeOfDay = TimeOfDay(hour: nat, minute: nat)

  /** Gregorian leap years, as in Go's `isLeap`. */
  predicate IsLeap(year: int) {
    year % 4 == 0 && (year % 100 != 0 || year % 400 == 0)
  }

  /** Number of days in a month of a given year, as in Go's `daysIn`. */
  function DaysIn(month: nat, year: int): (n: nat)
    requires 1 <= month <= 12
    ensures 28 <= n <= 31
    ensures n == 29 <==> month == 2 && IsLeap(year)
  {
    if month == 2 then (if IsLeap(year) then 29 else 28)
    else if month == 4 || month == 6 || month == 9 || month == 11 then 30
    else 31
  }

  /** A calendar date the "2006-01-02" layout can denote. */
  predicate ValidDate(d: Date) {
    d.year < 10000 && 1 <= d.month <= 12 && 1 <= d.day <= DaysIn(d.month, d.year)
  }

  predicate ValidTime(t: TimeOfDay) {
    t.hour < 24 && t.minute < 60
  }

  /** Minutes since midnight, the order in which Go's `After` and `Before` compare clock times. */
  function MinuteOfDay(t: TimeOfDay): nat {
    t.hour * 60 + t.minute
  }

  /** `time.Parse("2006-01-02", s)`. */
  function ParseDate(s: string): (r: Option<Date>)
    ensures r.Some? ==> ValidDate(r.value)
  {
    if |s| == 10 && AllDigits(s[..4]) && s[4] == '-' && AllDigits(s[5..7]) && s[7] == '-' && AllDigits(s[8..]) then
      var d := Date(DigitsValue(s[..4]), DigitsValue(s[5..7]), DigitsValue(s[8..]));
      if ValidDate(d) then Some(d) else None
    else
      None
  }

  /** The "2006-01-02" rendering of a date. */
  function FormatDate(d: Date): (s: string)
    requires ValidDate(d)
  {
    Pad(d.year, 4) + "-" + Pad(d.month, 2) + "-" + Pad(d.day, 2)
  }

  /** Every valid date survives formatting and parsing. */
  lemma ParseFormatDate(d: Date)
    requires ValidDate(d)
    ensures ParseDate(FormatDate(d)) == Some(d)
  {
    var s := FormatDate(d);
    assert s[..4] == Pad(d.year, 4);
    assert s[5..7] == Pad(d.month, 2);
    assert s[8..] == Pad(d.day, 2);
    DigitsValueOfPad(d.year, 4);
    DigitsValueOfPad(d.month, 2);
    DigitsValueOfPad(d.day, 2);
  }

  /** A string the date layout accepts is the rendering of the date it denotes. */
  lemma FormatParseDate(s: string)
    requires ParseDate(s).Some?
    ensures FormatDate(ParseDate(s).value) == s
  {
    PadOfDigitsValue(s[..4]);
    PadOfDigitsValue(s[5..7]);
    PadOfDigitsValue(s[8..]);
    assert s == s[..4] + "-" + s[5..7] + "-" + s[8..];
  }

  /**
   * `time.Parse("15:04", s)`: the hour element takes two digits when two are
   * present and one otherwise; the minute element takes exactly two.
   */
  function ParseTime(s: string): (r: Option<TimeOfDay>)
    ensures r.Some? ==> ValidTime(r.value)
  {
    if |s| == 0 || !IsAsciiDigit(s[0]) then None
    else
      var hourWidth := if |s| > 1 && IsAsciiDigit(s[1]) then 2 else 1;
      var rest := s[hourWidth..];
      if |rest| == 3 && rest[0] == ':' && AllDigits(rest[1..]) then
        var t := TimeOfDay(DigitsValue(s[..hourWidth]), DigitsValue(rest[1..]));
        if ValidTime(t) then Some(t) else None
      else
        None
  }

  /** The zero-padded "15:04" rendering of a clock time. */
  function FormatTime(t: TimeOfDay): (s: string)
    requires ValidTime(t)
  {
    Pad(t.hour, 2) + ":" + Pad(t.minute, 2)
  }

  /** The rendering with a one-digit hour, which the "15" element also accepts. */
  function FormatTimeShortHour(t: TimeOfDay): (s: string)
    requires ValidTime(t) && t.hour < 10
  {
    Pad(t.hour, 1) + ":" + Pad(t.minute, 2)
  }

  /** Both renderings of a valid clock time parse back to it. */
  lemma ParseFormatTime(t: TimeOfDay)
    requires ValidTime(t)
    ensures ParseTime(FormatTime(t)) == Some(t)
    ensures t.hour < 10 ==> ParseTime(FormatTimeShortHour(t)) == Some(t)
  {
    var s := FormatTime(t);
    assert s[..2] == Pad(t.hour, 2);
    assert s[2..][1..] == Pad(t.minute, 2);
    DigitsValueOfPad(t.hour, 2);
    DigitsValueOfPad(t.minute, 2);
    if t.hour < 10 {
      var u := FormatTimeShortHour(t);
      assert u[..1] == Pad(t.hour, 1);
      assert u[1..][1..] == Pad(t.minute, 2);
      DigitsValueOfPad(t.hour, 1);
    }
  }

  /** A string the clock layout accepts is one of the two renderings of its time. */
  lemma FormatParseTime(s: string)
    requires ParseTime(s).Some?
    ensures var t := ParseTime(s).value;
      s == FormatTime(t) || (t.hour < 10 && s == FormatTimeShortHour(t))
  {
    var t := ParseTime(s).value;
    var w := if |s| > 1 && IsAsciiDigit(s[1]) then 2 else 1;
    RenderedFields(s, w, t);
  }

  /** A string made of an hour field of w digits, ':' and a two-digit minute is the rendering of its time. */
  lemma RenderedFields(s: string, w: nat, t: TimeOfDay)
    requires (w == 1 || w == 2) && |s| == w + 3 && s[w] == ':'
    requires AllDigits(s[..w]) && AllDigits(s[w..][1..]) && ValidTime(t)
    requires t == TimeOfDay(DigitsValue(s[..w]), DigitsValue(s[w..][1..]))
    ensures w == 2 ==> s == FormatTime(t)
    ensures w == 1 ==> t.hour < 10 && s == FormatTimeShortHour(t)
  {
    PadOfDigitsValue(s[..w]);
    PadOfDigitsValue(s[w..][1..]);
    assert s == s[..w] + ":" + s[w..][1..];
  }

}
