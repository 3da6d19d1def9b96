/**
 * The calendar provider's timestamps and the parse that server/helpers.py
 * performs on them with time.strptime(s, "%Y-%m-%dT%H:%M:%S-07:00").
 *
 * strptime turns the format into a regular expression and matches it from
 * the start of the text:
 *   %Y  exactly four digits
 *   %m  1[0-2] | 0[1-9] | [1-9]
 *   %d  3[01] | [12]\d | 0[1-9] | [1-9] | " "[1-9]
 *   %H  2[0-3] | [0-1]\d | \d
 *   %M  [0-5]\d | \d
 *   %S  6[0-1] | [0-5]\d | \d
 * and every other character of the format literally ('T' without regard to
 * case). Every separator that follows a field is a non-digit, so the regular
 * expression accepts a field exactly when "take two digits if there are two,
 * else one, and check the range" does; Field below is that reading. Text left
 * after the match is an error, and so is a date that does not exist
 * (year 0, or a day past the end of its month).
 */
module Timestamps {
  import opened Wrappers
  import opened Decimal

  datatype Timestamp = Timestamp(year: nat, month: nat, day: nat, hour: nat, minute: nat, second: nat)

  /** The ValueError kinds time.strptime raises for this format. */
  datatype ParseError =
    | Mismatch          // the text does not match the format
    | UnconvertedData   // the format matched a proper prefix of the text
    | YearOutOfRange    // year 0000
    | DayOutOfRange     // e.g. February 30

  /** The only offset the format admits: the literal text "-07:00". */
  const Offset: string := "-07:00"

  predicate IsLeapYear(y: nat) {
    y % 4 == 0 && (y % 100 != 0 || y % 400 == 0)
  }

  function DaysInMonth(y: nat, m: nat): (d: nat)
    requires 1 <= m <= 12
    ensures 28 <= d <= 31
  {
    if m == 2 then (if IsLeapYear(y) then 29 else 28)
    else if m == 4 || m == 6 || m == 9 || m == 11 then 30
    else 31
  }

  /** A timestamp strptime accepts: a real calendar day and in-range clock fields. */
  predicate Valid(t: Timestamp) {
    && 1 <= t.year <= 9999
    && 1 <= t.month <= 12
    && 1 <= t.day <= DaysInMonth(t.year, t.month)
    && t.hour <= 23
    && t.minute <= 59
    && t.second <= 61
  }

  /** The character c at position i. */
  function Literal(s: string, i: nat, c: char): (r: Option<nat>)
    ensures r.Some? ==> i < |s| && s[i] == c && r.value == i + 1
  {
    if i < |s| && s[i] == c then Some(i + 1) else None
  }

  /** The text lit starting at position i. */
  function LiteralText(s: string, i: nat, lit: string): (r: Option<nat>)
    ensures r.Some? ==> r.value == i + |lit| <= |s| && s[i..r.value] == lit
  {
    if i + |lit| <= |s| && s[i..i + |lit|] == lit then Some(i + |lit|) else None
  }

  /**
   * A one- or two-digit field at position i whose value lies in lo..hi; the
   * one-digit form only needs to reach lo. Gives the value and the next position.
   */
  function Field(s: string, i: nat, lo: nat, hi: nat): (r: Option<(nat, nat)>)
    requires 9 <= hi
    ensures r.Some? ==> lo <= r.value.0 <= hi && i < r.value.1 <= i + 2 && r.value.1 <= |s|
  {
    if i < |s| && IsDigit(s[i]) then
      if i + 1 < |s| && IsDigit(s[i + 1]) then
        var v := 10 * DigitValue(s[i]) + DigitValue(s[i + 1]);
        if lo <= v <= hi then Some((v, i + 2)) else None
      else
        var v := DigitValue(s[i]);
        if lo <= v then Some((v, i + 1)) else None
    else
      None
  }

  /** %d: a day field, which may also be a space followed by 1-9. */
  function DayField(s: string, i: nat): (r: Option<(nat, nat)>)
    ensures r.Some? ==> 1 <= r.value.0 <= 31 && i < r.value.1 <= i + 2 && r.value.1 <= |s|
  {
    if i + 1 < |s| && s[i] == ' ' && '1' <= s[i + 1] <= '9' then Some((DigitValue(s[i + 1]), i + 2))
    else Field(s, i, 1, 31)
  }

  /** The 'T' between date and time; strptime matches it without regard to case. */
  function DateTimeSeparator(s: string, i: nat): (r: Option<nat>)
    ensures r.Some? ==> i < |s| && r.value == i + 1
  {
    if i < |s| && (s[i] == 'T' || s[i] == 't') then Some(i + 1) else None
  }

  /** %Y: exactly four digits. */
  function YearField(s: string): (r: Option<(nat, nat)>)
    ensures r.Some? ==> r.value.0 <= 9999 && r.value.1 == 4 <= |s|
  {
    if 4 <= |s| && AllDigits(s[..4]) then
      var y := 1000 * DigitValue(s[0]) + 100 * DigitValue(s[1]) + 10 * DigitValue(s[2]) + DigitValue(s[3]);
      Some((y, 4))
    else
      None
  }

  /** The date half of the format, "%Y-%m-%dT": year, month, day and the next position. */
  function MatchDate(s: string): (r: Option<(nat, nat, nat, nat)>)
    ensures r.Some? ==> r.value.0 <= 9999 && 1 <= r.value.1 <= 12 && 1 <= r.value.2 <= 31 && r.value.3 <= |s|
  {
    var y :- YearField(s);
    var i1 :- Literal(s, y.1, '-');
    var mo :- Field(s, i1, 1, 12);
    var i2 :- Literal(s, mo.1, '-');
    var d :- DayField(s, i2);
    var i3 :- DateTimeSeparator(s, d.1);
    Some((y.0, mo.0, d.0, i3))
  }

  /**
   * The time half of the format from position i, "%H:%M:%S-07:00": hour,
   * minute, second and the position just after the offset.
   */
  function MatchTime(s: string, i: nat): (r: Option<(nat, nat, nat, nat)>)
    ensures r.Some? ==> r.value.0 <= 23 && r.value.1 <= 59 && r.value.2 <= 61
    ensures r.Some? ==> 6 <= r.value.3 <= |s| && s[r.value.3 - 6..r.value.3] == Offset
  {
    var h :- Field(s, i, 0, 23);
    var i4 :- Literal(s, h.1, ':');
    var mi :- Field(s, i4, 0, 59);
    var i5 :- Literal(s, mi.1, ':');
    var sec :- Field(s, i5, 0, 61);
    var end :- LiteralText(s, sec.1, Offset);
    Some((h.0, mi.0, sec.0, end))
  }

  /**
   * The regular-expression match of the whole format from the start of s:
   * the fields and the position just after "-07:00".
   */
  function Match(s: string): (r: Option<(Timestamp, nat)>)
    ensures r.Some? ==> 6 <= r.value.1 <= |s| && s[r.value.1 - 6..r.value.1] == Offset
    ensures r.Some? ==>
      var t := r.value.0;
      t.year <= 9999 && 1 <= t.month <= 12 && 1 <= t.day <= 31 && t.hour <= 23 && t.minute <= 59 && t.second <= 61
  {
    var date :- MatchDate(s);
    var time :- MatchTime(s, date.3);
    Some((Timestamp(date.0, date.1, date.2, time.0, time.1, time.2), time.3))
  }

  /**
   * time.strptime(s, "%Y-%m-%dT%H:%M:%S-07:00"). Whatever it accepts is a real
   * date and time, and its text ends in exactly "-07:00": any other offset is
   * rejected.
   */
  function ParseTimestamp(s: string): (r: Result<Timestamp, ParseError>)
    ensures r.Success? ==> Valid(r.value)
    ensures r.Success? ==> |s| >= 6 && s[|s| - 6..] == Offset
  {
    match Match(s)
    case None => Failure(Mismatch)
    case Some((t, end)) =>
      if end != |s| then Failure(UnconvertedData)
      else if t.year == 0 then Failure(YearOutOfRange)
      else if t.day > DaysInMonth(t.year, t.month) then Failure(DayOutOfRange)
      else Success(t)
  }

  /** The four digits of a year, "%04d". */
  function YearDigits(y: nat): (s: string)
    requires y <= 9999
    ensures |s| == 4 && AllDigits(s)
    ensures 1000 * DigitValue(s[0]) + 100 * DigitValue(s[1]) + 10 * DigitValue(s[2]) + DigitValue(s[3]) == y
  {
    assert y == 1000 * (y / 1000) + y % 1000;
    assert y % 1000 == 100 * (y % 1000 / 100) + y % 100;
    assert y % 100 == 10 * (y % 100 / 10) + y % 10;
    [DigitChar(y / 1000), DigitChar(y % 1000 / 100), DigitChar(y % 100 / 10), DigitChar(y % 10)]
  }

  /**
   * The provider's own layout of a timestamp in the fixed zone, every field
   * zero-padded: YYYY-MM-DDTHH:MM:SS-07:00.
   */
  function Render(t: Timestamp): (s: string)
    requires Valid(t)
    ensures |s| == 25 && s[19..] == Offset
  {
    YearDigits(t.year) +
    [ '-', DigitChar(t.month / 10), DigitChar(t.month % 10),
      '-', DigitChar(t.day / 10), DigitChar(t.day % 10),
      'T', DigitChar(t.hour / 10), DigitChar(t.hour % 10),
      ':', DigitChar(t.minute / 10), DigitChar(t.minute % 10),
      ':', DigitChar(t.second / 10), DigitChar(t.second % 10),
      '-', '0', '7', ':', '0', '0' ]
  }

  /** A zero-padded two-digit field is read back as its value. */
  lemma FieldOfTwoDigits(s: string, i: nat, n: nat, lo: nat, hi: nat)
    requires 9 <= hi && lo <= n <= hi && n < 100
    requires i + 2 <= |s| && s[i] == DigitChar(n / 10) && s[i + 1] == DigitChar(n % 10)
    ensures Field(s, i, lo, hi) == Some((n, i + 2))
  {
  }

  /** The date half of the layout is read back as year, month and day. */
  lemma MatchDateOfRender(t: Timestamp)
    requires Valid(t)
    ensures MatchDate(Render(t)) == Some((t.year, t.month, t.day, 11))
  {
    var s := Render(t);
    assert s[..4] == YearDigits(t.year);
    assert YearField(s) == Some((t.year, 4));
    FieldOfTwoDigits(s, 5, t.month, 1, 12);
    FieldOfTwoDigits(s, 8, t.day, 1, 31);
    assert DayField(s, 8) == Some((t.day, 10));
  }

  /** The time half of the layout is read back as hour, minute and second. */
  lemma MatchTimeOfRender(t: Timestamp)
    requires Valid(t)
    ensures MatchTime(Render(t), 11) == Some((t.hour, t.minute, t.second, 25))
  {
    var s := Render(t);
    FieldOfTwoDigits(s, 11, t.hour, 0, 23);
    FieldOfTwoDigits(s, 14, t.minute, 0, 59);
    FieldOfTwoDigits(s, 17, t.second, 0, 61);
    assert LiteralText(s, 19, Offset) == Some(25);
  }

  /** Parsing the provider's layout gives back every field. */
  lemma RenderParse(t: Timestamp)
    requires Valid(t)
    ensures ParseTimestamp(Render(t)) == Success(t)
  {
    MatchDateOfRender(t);
    MatchTimeOfRender(t);
  }
}
