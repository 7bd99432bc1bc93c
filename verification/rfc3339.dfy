/** The `date-time` production of section 5.6 of RFC 3339, as rendered by
    Go's `time.RFC3339` layout `2006-01-02T15:04:05Z07:00`: a four-digit
    year, two-digit fields, no fractional seconds, and an offset written
    `Z` when it is zero and `+hh:mm` / `-hh:mm` otherwise.

    This is an extension: Go's formatter is not part of this model, so the
    renderer below is written from the layout and the RFC, and a parser is
    given as its partner. */
module Rfc3339 {
  import opened Wrappers

  /** A calendar instant broken into the fields the layout prints.
      `offsetMinutes` is the zone offset east of UTC, in minutes. */
  datatype DateTime = DateTime(
    year: int, month: int, day: int,
    hour: int, minute: int, second: int,
    offsetMinutes: int)

  predicate IsLeapYear(y: int) {
    y % 4 == 0 && (y % 100 != 0 || y % 400 == 0)
  }

  /** The `date-mday` bound of section 5.7 of RFC 3339. */
  function DaysInMonth(y: int, m: int): (d: int)
    requires 1 <= m <= 12
    ensures 28 <= d <= 31
    ensures m == 2 ==> (d == 29 <==> IsLeapYear(y))
  {
    if m == 2 then (if IsLeapYear(y) then 29 else 28)
    else if m == 4 || m == 6 || m == 9 || m == 11 then 30
    else 31
  }

  /** Largest offset magnitude `time-numoffset` can spell: 23:59. */
  const MaxOffsetMinutes := 23 * 60 + 59

  /** The fields are within the ranges the grammar allows. Seconds stop at
      59: Go's `time.Time` never carries a leap second. */
  predicate Valid(t: DateTime) {
    && 0 <= t.year <= 9999
    && 1 <= t.month <= 12
    && 1 <= t.day <= DaysInMonth(t.year, t.month)
    && 0 <= t.hour <= 23
    && 0 <= t.minute <= 59
    && 0 <= t.second <= 59
    && -MaxOffsetMinutes <= t.offsetMinutes <= MaxOffsetMinutes
  }

  predicate IsDigit(c: char) {
    '0' <= c <= '9'
  }

  function Digit(n: int): (c: char)
    requires 0 <= n <= 9
    ensures IsDigit(c)
  {
    ('0' as int + n) as char
  }

  function DigitValue(c: char): (n: int)
    requires IsDigit(c)
    ensures 0 <= n <= 9
  {
    c as int - '0' as int
  }

  /** `n` written with exactly two digits, zero-padded. */
  function Pad2(n: int): (s: string)
    requires 0 <= n <= 99
    ensures |s| == 2 && IsDigit(s[0]) && IsDigit(s[1])
  {
    [Digit(n / 10), Digit(n % 10)]
  }

  /** `n` written with exactly four digits, zero-padded. */
  function Pad4(n: int): (s: string)
    requires 0 <= n <= 9999
    ensures |s| == 4 && forall i :: 0 <= i < 4 ==> IsDigit(s[i])
  {
    Pad2(n / 100) + Pad2(n % 100)
  }

  /** The value of the two digits at `s[i]` and `s[i + 1]`. */
  function Number2(s: string, i: nat): (n: int)
    requires i + 2 <= |s| && IsDigit(s[i]) && IsDigit(s[i + 1])
    ensures 0 <= n <= 99
  {
    10 * DigitValue(s[i]) + DigitValue(s[i + 1])
  }

  /** The value of the four digits starting at `s[i]`. */
  function Number4(s: string, i: nat): (n: int)
    requires i + 4 <= |s| && forall k :: i <= k < i + 4 ==> IsDigit(s[k])
    ensures 0 <= n <= 9999
  {
    100 * Number2(s, i) + Number2(s, i + 2)
  }

  lemma Pad2Value(s: string, i: nat, n: int)
    requires 0 <= n <= 99 && i + 2 <= |s| && s[i..i + 2] == Pad2(n)
    ensures IsDigit(s[i]) && IsDigit(s[i + 1])
    ensures Number2(s, i) == n
  {
    assert s[i] == Pad2(n)[0] && s[i + 1] == Pad2(n)[1];
  }

  lemma Pad4Value(s: string, i: nat, n: int)
    requires 0 <= n <= 9999 && i + 4 <= |s| && s[i..i + 4] == Pad4(n)
    ensures forall k :: i <= k < i + 4 ==> IsDigit(s[k])
    ensures Number4(s, i) == n
  {
    assert s[i..i + 2] == s[i..i + 4][..2] == Pad2(n / 100);
    assert s[i + 2..i + 4] == s[i..i + 4][2..] == Pad2(n % 100);
    Pad2Value(s, i, n / 100);
    Pad2Value(s, i + 2, n % 100);
    forall k | i <= k < i + 4 ensures IsDigit(s[k]) {
      assert s[k] == Pad4(n)[k - i];
    }
  }

  /** `time-offset`: `Z` for UTC, otherwise a signed `hh:mm`. */
  function FormatOffset(minutes: int): (s: string)
    requires -MaxOffsetMinutes <= minutes <= MaxOffsetMinutes
    ensures minutes == 0 <==> s == "Z"
    ensures minutes != 0 ==> |s| == 6
  {
    if minutes == 0 then "Z"
    else
      var sign := if minutes > 0 then '+' else '-';
      var m := if minutes > 0 then minutes else -minutes;
      [sign] + Pad2(m / 60) + ":" + Pad2(m % 60)
  }

  /** Renders `t` as `YYYY-MM-DDThh:mm:ss` followed by its offset. */
  function Format(t: DateTime): (s: string)
    requires Valid(t)
    ensures |s| == (if t.offsetMinutes == 0 then 20 else 25)
  {
    Pad4(t.year) + "-" + Pad2(t.month) + "-" + Pad2(t.day) + "T"
    + Pad2(t.hour) + ":" + Pad2(t.minute) + ":" + Pad2(t.second)
    + FormatOffset(t.offsetMinutes)
  }

  /** The fixed `YYYY-MM-DDThh:mm:ss` part has digits and separators
      in the places the grammar puts them. */
  predicate WellShapedHead(s: string) {
    && |s| >= 19
    && (forall k :: 0 <= k < 4 ==> IsDigit(s[k]))
    && s[4] == '-' && IsDigit(s[5]) && IsDigit(s[6])
    && s[7] == '-' && IsDigit(s[8]) && IsDigit(s[9])
    && s[10] == 'T' && IsDigit(s[11]) && IsDigit(s[12])
    && s[13] == ':' && IsDigit(s[14]) && IsDigit(s[15])
    && s[16] == ':' && IsDigit(s[17]) && IsDigit(s[18])
  }

  /** Reads an offset written as `Z` or `+hh:mm` / `-hh:mm` (the text
      after the seconds), with `hh` at most 23 and `mm` at most 59. */
  function ParseOffset(s: string): (r: Option<int>)
    ensures r.Some? ==> -MaxOffsetMinutes <= r.value <= MaxOffsetMinutes
  {
    if s == "Z" then Some(0)
    else if |s| == 6 && (s[0] == '+' || s[0] == '-') && IsDigit(s[1]) && IsDigit(s[2])
         && s[3] == ':' && IsDigit(s[4]) && IsDigit(s[5])
         && Number2(s, 1) <= 23 && Number2(s, 4) <= 59 then
      var m := 60 * Number2(s, 1) + Number2(s, 4);
      Some(if s[0] == '+' then m else -m)
    else None
  }

  /** Reads a `date-time` in the shape `Format` writes; `None` for any
      string that is not one, or whose fields are out of range. */
  function Parse(s: string): (r: Option<DateTime>)
    ensures r.Some? ==> Valid(r.value)
  {
    if !WellShapedHead(s) then None
    else
      match ParseOffset(s[19..])
      case None => None
      case Some(off) =>
        var t := DateTime(Number4(s, 0), Number2(s, 5), Number2(s, 8),
                          Number2(s, 11), Number2(s, 14), Number2(s, 17), off);
        if Valid(t) then Some(t) else None
  }

  lemma FormatOffsetRoundTrip(minutes: int)
    requires -MaxOffsetMinutes <= minutes <= MaxOffsetMinutes
    ensures ParseOffset(FormatOffset(minutes)) == Some(minutes)
  {
    if minutes != 0 {
      var s := FormatOffset(minutes);
      var m := if minutes > 0 then minutes else -minutes;
      assert s[1..3] == Pad2(m / 60);
      assert s[4..6] == Pad2(m % 60);
      Pad2Value(s, 1, m / 60);
      Pad2Value(s, 4, m % 60);
    }
  }

  /** Reading back what `Format` wrote recovers every field. */
  lemma ParseFormat(t: DateTime)
    requires Valid(t)
    ensures Parse(Format(t)) == Some(t)
  {
    var s := Format(t);
    assert s[0..4] == Pad4(t.year);
    assert s[5..7] == Pad2(t.month);
    assert s[8..10] == Pad2(t.day);
    assert s[11..13] == Pad2(t.hour);
    assert s[14..16] == Pad2(t.minute);
    assert s[17..19] == Pad2(t.second);
    assert s[19..] == FormatOffset(t.offsetMinutes);
    Pad4Value(s, 0, t.year);
    Pad2Value(s, 5, t.month);
    Pad2Value(s, 8, t.day);
    Pad2Value(s, 11, t.hour);
    Pad2Value(s, 14, t.minute);
    Pad2Value(s, 17, t.second);
    FormatOffsetRoundTrip(t.offsetMinutes);
  }

  lemma Number2Pad(s: string, i: nat)
    requires i + 2 <= |s| && IsDigit(s[i]) && IsDigit(s[i + 1])
    ensures Pad2(Number2(s, i)) == s[i..i + 2]
  {
    var n := Number2(s, i);
    assert n / 10 == DigitValue(s[i]) && n % 10 == DigitValue(s[i + 1]);
  }

  lemma Number4Pad(s: string, i: nat)
    requires i + 4 <= |s| && forall k :: i <= k < i + 4 ==> IsDigit(s[k])
    ensures Pad4(Number4(s, i)) == s[i..i + 4]
  {
    var n := Number4(s, i);
    assert n / 100 == Number2(s, i) && n % 100 == Number2(s, i + 2);
    Number2Pad(s, i);
    Number2Pad(s, i + 2);
    assert s[i..i + 4] == s[i..i + 2] + s[i + 2..i + 4];
  }

  /** An offset text that reads back is the one `FormatOffset` writes,
      except that a zero offset is always written `Z`. */
  lemma ParseOffsetCanonical(s: string)
    requires ParseOffset(s).Some? && s != "+00:00" && s != "-00:00"
    ensures FormatOffset(ParseOffset(s).value) == s
  {
    if s != "Z" {
      var h, m := Number2(s, 1), Number2(s, 4);
      var mag := 60 * h + m;
      assert mag / 60 == h && mag % 60 == m;
      Number2Pad(s, 1);
      Number2Pad(s, 4);
      if mag == 0 {
        assert false;
      }
      assert s == [s[0]] + s[1..3] + ":" + s[4..6];
    }
  }

  /** The converse of `ParseFormat`: a string that reads back is exactly
      what `Format` writes for the fields read, unless it spells a zero
      offset as `+00:00` or `-00:00` rather than `Z`. */
  lemma FormatParse(s: string)
    requires Parse(s).Some?
    requires s[19..] != "+00:00" && s[19..] != "-00:00"
    ensures Format(Parse(s).value) == s
  {
    var t := Parse(s).value;
    Number4Pad(s, 0);
    Number2Pad(s, 5);
    Number2Pad(s, 8);
    Number2Pad(s, 11);
    Number2Pad(s, 14);
    Number2Pad(s, 17);
    ParseOffsetCanonical(s[19..]);
    assert s == s[0..4] + "-" + s[5..7] + "-" + s[8..10] + "T" + s[11..13] + ":"
      + s[14..16] + ":" + s[17..19] + s[19..];
  }

  /** Distinct field values are never rendered to the same string. */
  lemma FormatInjective(t1: DateTime, t2: DateTime)
    requires Valid(t1) && Valid(t2)
    ensures Format(t1) == Format(t2) ==> t1 == t2
  {
    ParseFormat(t1);
    ParseFormat(t2);
  }

  /** A rendered timestamp never contains `_`. */
  lemma FormatHasNoUnderscore(t: DateTime)
    requires Valid(t)
    ensures '_' !in Format(t)
  {
    var s := Format(t);
    assert WellShapedHead(s) by { ParseFormat(t); }
    var off := FormatOffset(t.offsetMinutes);
    assert s[19..] == off;
    forall k | 0 <= k < |s| ensures s[k] != '_' {
      if k >= 19 {
        assert s[k] == off[k - 19];
      }
    }
  }
}
