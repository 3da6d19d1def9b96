/**
 * Event normalisation of the summary service (server/helpers.py): the display
 * strings process_time derives from a provider timestamp, and the fixed-shape
 * event records format_event_array builds from the provider's raw events.
 */
module Helpers {
  import opened Wrappers
  import opened Decimal
  import opened Timestamps

  /** "{}/{}".format(month, day): no zero padding. */
  function DateString(month: nat, day: nat): string {
    NatToString(month) + "/" + NatToString(day)
  }

  /**
   * "{}:{:02d}{}".format(hour, minute, setting) after the source's 12-hour
   * rule: only hours above 12 lose 12 and become "pm"; every other hour,
   * noon and midnight included, is kept as it is and marked "am".
   */
  function ClockString(hour: nat, minute: nat): string {
    var (h, setting) := if hour > 12 then (hour - 12, "pm") else (hour, "am");
    NatToString(h) + ":" + Pad2(minute) + setting
  }

  /** process_time: the (date, time) display strings of a provider timestamp. */
  function ProcessTime(googleTime: string): (r: Result<(string, string), ParseError>)
    ensures r.Success? <==> ParseTimestamp(googleTime).Success?
    ensures ParseTimestamp(googleTime).Failure? ==> r == Failure(ParseTimestamp(googleTime).error)
    ensures r.Success? ==>
      var t := ParseTimestamp(googleTime).value;
      ReadDate(r.value.0) == Some((t.month, t.day)) && ReadClock(r.value.1) == Some((t.hour, t.minute))
  {
    var t :- ParseTimestamp(googleTime);
    DateRoundTrip(t.month, t.day);
    ClockRoundTrip(t.hour, t.minute);
    Success((DateString(t.month, t.day), ClockString(t.hour, t.minute)))
  }

  /** The exact display strings of a timestamp that parses. */
  lemma ProcessTimeOfParsed(s: string, t: Timestamp)
    requires ParseTimestamp(s) == Success(t)
    ensures ProcessTime(s) == Success((DateString(t.month, t.day), ClockString(t.hour, t.minute)))
  {
  }

  // ---------------------------------------------------------------------
  // Reading the display strings back

  /** The position of the first occurrence of c in s, if any. */
  function IndexOf(s: string, c: char): (r: Option<nat>)
    ensures r.Some? ==> r.value < |s| && s[r.value] == c && c !in s[..r.value]
    ensures r.None? ==> c !in s
  {
    if s == [] then None
    else if s[0] == c then Some(0)
    else
      match IndexOf(s[1..], c)
      case None => None
      case Some(k) => assert s[..k + 1] == [s[0]] + s[1..][..k]; Some(k + 1)
  }

  lemma {:induction false} IndexOfAfter(a: string, c: char, b: string)
    requires c !in a
    ensures IndexOf(a + [c] + b, c) == Some(|a|)
    decreases |a|
  {
    if a != [] {
      assert (a + [c] + b)[1..] == a[1..] + [c] + b;
      IndexOfAfter(a[1..], c, b);
    }
  }

  /** A non-empty run of decimal digits. */
  predicate IsNumber(s: string) { |s| >= 1 && AllDigits(s) }

  /** The (month, day) that a date string "M/D" shows. */
  function ReadDate(s: string): Option<(nat, nat)> {
    var k :- IndexOf(s, '/');
    if IsNumber(s[..k]) && IsNumber(s[k + 1..]) then Some((ValueOf(s[..k]), ValueOf(s[k + 1..])))
    else None
  }

  /**
   * The 24-hour (hour, minute) that a time string "H:MMam" or "H:MMpm" shows
   * under the source's rule: "pm" adds twelve hours, "am" adds none.
   */
  function ReadClock(s: string): Option<(nat, nat)> {
    var k :- IndexOf(s, ':');
    ReadClockFields(s[..k], s[k + 1..])
  }

  /** The hour digits, and the minute digits followed by "am" or "pm". */
  function ReadClockFields(hourDigits: string, rest: string): Option<(nat, nat)> {
    if IsNumber(hourDigits) && |rest| == 4 && AllDigits(rest[..2]) && rest[2..] in {"am", "pm"} then
      var h := ValueOf(hourDigits);
      Some((if rest[2..] == "pm" then h + 12 else h, ValueOf(rest[..2])))
    else
      None
  }

  /** A string is split at its first colon. */
  lemma ReadClockSplit(hs: string, rest: string)
    requires ':' !in hs
    ensures ReadClock(hs + [':'] + rest) == ReadClockFields(hs, rest)
  {
    var s := hs + [':'] + rest;
    IndexOfAfter(hs, ':', rest);
    assert s[..|hs|] == hs;
    assert s[|hs| + 1..] == rest;
  }

  /** The date string shows the month and the day it was made from. */
  lemma DateRoundTrip(month: nat, day: nat)
    ensures ReadDate(DateString(month, day)) == Some((month, day))
  {
    var m, d := NatToString(month), NatToString(day);
    IndexOfAfter(m, '/', d);
    assert DateString(month, day) == m + ['/'] + d;
    assert (m + ['/'] + d)[..|m|] == m;
    assert (m + ['/'] + d)[|m| + 1..] == d;
    ValueOfNatToString(month);
    ValueOfNatToString(day);
  }

  /**
   * The shape of a date string: the month, a slash, then the day, both
   * without padding.
   */
  lemma DateShape(month: nat, day: nat)
    ensures var s := DateString(month, day); var k := IndexOf(s, '/');
      && k.Some?
      && IsNumber(s[..k.value]) && (k.value > 1 ==> s[0] != '0') && ValueOf(s[..k.value]) == month
      && IsNumber(s[k.value + 1..]) && (|s| - k.value > 2 ==> s[k.value + 1] != '0') && ValueOf(s[k.value + 1..]) == day
  {
    var m, d := NatToString(month), NatToString(day);
    IndexOfAfter(m, '/', d);
    assert DateString(month, day) == m + ['/'] + d;
    assert (m + ['/'] + d)[..|m|] == m;
    assert (m + ['/'] + d)[|m| + 1..] == d;
    ValueOfNatToString(month);
    ValueOfNatToString(day);
  }

  /**
   * The time string shows the hour and minute it was made from: no two
   * times of day share a time string.
   */
  lemma ClockRoundTrip(hour: nat, minute: nat)
    requires hour <= 23 && minute <= 59
    ensures ReadClock(ClockString(hour, minute)) == Some((hour, minute))
  {
    var h := if hour > 12 then hour - 12 else hour;
    var setting := if hour > 12 then "pm" else "am";
    var hs, rest := NatToString(h), Pad2(minute) + setting;
    assert ClockString(hour, minute) == hs + [':'] + rest;
    ReadClockSplit(hs, rest);
    assert rest[..2] == Pad2(minute) && rest[2..] == setting;
    ValueOfNatToString(h);
  }

  // ---------------------------------------------------------------------
  // The 12-hour rule

  /**
   * The shape of a time string: the hour without padding and never above 12,
   * a colon, exactly two minute digits, then "pm" exactly for the hours 13-23
   * (which lose 12) and "am" for 0-12 (which are kept as they are).
   */
  lemma ClockShape(hour: nat, minute: nat)
    requires hour <= 23 && minute <= 59
    ensures var c := ClockString(hour, minute); var k := |c| - 5;
      && 1 <= k && IsNumber(c[..k]) && (k > 1 ==> c[0] != '0') && c[k] == ':'
      && ValueOf(c[..k]) <= 12
      && ValueOf(c[..k]) == (if hour >= 13 then hour - 12 else hour)
      && AllDigits(c[k + 1..k + 3]) && ValueOf(c[k + 1..k + 3]) == minute
      && (c[k + 3..] == "pm" <==> hour >= 13)
      && (c[k + 3..] == "am" <==> hour <= 12)
  {
    var h := if hour > 12 then hour - 12 else hour;
    var setting := if hour > 12 then "pm" else "am";
    var c := ClockString(hour, minute);
    var hs := NatToString(h);
    assert c == hs + [':'] + Pad2(minute) + setting;
    assert |c| - 5 == |hs|;
    assert c[..|hs|] == hs;
    assert c[|hs| + 1..|hs| + 3] == Pad2(minute);
    assert c[|hs| + 3..] == setting;
    ValueOfNatToString(h);
  }

  /** Noon is shown as "12:MMam" and midnight as "0:MMam". */
  lemma NoonAndMidnight(minute: nat)
    requires minute <= 59
    ensures ClockString(12, minute) == "12:" + Pad2(minute) + "am"
    ensures ClockString(0, minute) == "0:" + Pad2(minute) + "am"
  {
    assert NatToString(12) == "12";
  }

  // ---------------------------------------------------------------------
  // format_event_array

  /**
   * A raw provider event as format_event_array reads it: the dateTime of its
   * start and of its end, and its summary. Each may be absent (an all-day
   * event has a date instead of a dateTime; an untitled one has no summary),
   * and reading an absent key raises KeyError.
   */
  datatype RawEvent = RawEvent(startDateTime: Option<string>, endDateTime: Option<string>, summary: Option<string>)

  /** The fixed-shape event record sent to the display. */
  datatype Event = Event(
    startDate: string, startTime: string,
    endDate: string, endTime: string,
    summary: string,
    timeDisplay: string, longDisplay: string)

  /** Why building an event record failed: the exception the source raises. */
  datatype EventError =
    | MissingStart               // KeyError on event['start']['dateTime']
    | MissingEnd                 // KeyError on event['end']['dateTime']
    | MissingSummary             // KeyError on event['summary']
    | UnencodableSummary         // UnicodeEncodeError from the long display's format
    | BadTimestamp(ParseError)   // ValueError from process_time

  /**
   * Python 2's str.format encodes a unicode argument as ASCII, so building
   * the long display raises UnicodeEncodeError for a summary with any
   * character outside ASCII.
   */
  predicate IsAscii(s: string) { forall i :: 0 <= i < |s| ==> s[i] < 128 as char }

  /** The two display fields are built from the others by concatenation. */
  predicate Displays(e: Event) {
    && e.timeDisplay == e.startTime + "-" + e.endTime
    && e.longDisplay == e.timeDisplay + " " + e.summary
  }

  /** The record made from one raw event, or the first exception on the way. */
  function ToEvent(raw: RawEvent): Result<Event, EventError> {
    if raw.startDateTime.None? then Failure(MissingStart)
    else match ProcessTime(raw.startDateTime.value)
    case Failure(e) => Failure(BadTimestamp(e))
    case Success((startDate, startTime)) =>
      if raw.endDateTime.None? then Failure(MissingEnd)
      else match ProcessTime(raw.endDateTime.value)
      case Failure(e) => Failure(BadTimestamp(e))
      case Success((endDate, endTime)) =>
        if raw.summary.None? then Failure(MissingSummary)
        else if !IsAscii(raw.summary.value) then Failure(UnencodableSummary)
        else
          var summary := raw.summary.value;
          var timeDisplay := startTime + "-" + endTime;
          Success(Event(startDate, startTime, endDate, endTime, summary, timeDisplay, timeDisplay + " " + summary))
  }

  /**
   * The loop body of format_event_array builds a record exactly when both
   * timestamps and the summary are present and both timestamps parse; the
   * record carries the summary and the display strings of the timestamps,
   * and its two display fields are built from them.
   */
  lemma ToEventBuilds(raw: RawEvent)
    ensures var r := ToEvent(raw);
      && (r.Success? <==>
            && raw.startDateTime.Some? && ProcessTime(raw.startDateTime.value).Success?
            && raw.endDateTime.Some? && ProcessTime(raw.endDateTime.value).Success?
            && raw.summary.Some? && IsAscii(raw.summary.value))
      && (r.Success? ==>
            && Displays(r.value)
            && r.value.summary == raw.summary.value
            && ProcessTime(raw.startDateTime.value).value == (r.value.startDate, r.value.startTime)
            && ProcessTime(raw.endDateTime.value).value == (r.value.endDate, r.value.endTime))
  {
  }

  /**
   * Which exception the loop body raises first: a missing start, an
   * unparsable start, a missing end, an unparsable end, a missing summary,
   * a summary that is not ASCII.
   */
  lemma ToEventErrors(raw: RawEvent)
    ensures raw.startDateTime.None? ==> ToEvent(raw) == Failure(MissingStart)
    ensures raw.startDateTime.Some? && ProcessTime(raw.startDateTime.value).Failure? ==>
      ToEvent(raw) == Failure(BadTimestamp(ProcessTime(raw.startDateTime.value).error))
    ensures raw.startDateTime.Some? && ProcessTime(raw.startDateTime.value).Success? && raw.endDateTime.None? ==>
      ToEvent(raw) == Failure(MissingEnd)
    ensures (raw.startDateTime.Some? && ProcessTime(raw.startDateTime.value).Success?
             && raw.endDateTime.Some? && ProcessTime(raw.endDateTime.value).Failure?) ==>
      ToEvent(raw) == Failure(BadTimestamp(ProcessTime(raw.endDateTime.value).error))
    ensures (raw.startDateTime.Some? && ProcessTime(raw.startDateTime.value).Success?
             && raw.endDateTime.Some? && ProcessTime(raw.endDateTime.value).Success? && raw.summary.None?) ==>
      ToEvent(raw) == Failure(MissingSummary)
    ensures (raw.startDateTime.Some? && ProcessTime(raw.startDateTime.value).Success?
             && raw.endDateTime.Some? && ProcessTime(raw.endDateTime.value).Success?
             && raw.summary.Some? && !IsAscii(raw.summary.value)) ==>
      ToEvent(raw) == Failure(UnencodableSummary)
  {
  }

  /** The record of a raw event whose two timestamps parse and that has an ASCII summary. */
  lemma ToEventOfParsed(raw: RawEvent, start: (string, string), end: (string, string))
    requires raw.startDateTime.Some? && ProcessTime(raw.startDateTime.value) == Success(start)
    requires raw.endDateTime.Some? && ProcessTime(raw.endDateTime.value) == Success(end)
    requires raw.summary.Some? && IsAscii(raw.summary.value)
    ensures ToEvent(raw) == Success(Event(start.0, start.1, end.0, end.1, raw.summary.value,
                                          start.1 + "-" + end.1, start.1 + "-" + end.1 + " " + raw.summary.value))
  {
  }

  /**
   * The list format_event_array returns: one record per raw event, in the
   * same order; or the exception of the first raw event that raises.
   */
  function FormatEvents(raws: seq<RawEvent>): Result<seq<Event>, EventError> {
    MapUntilFailure(ToEvent, raws)
  }

  /**
   * f applied to each element in order, stopping at the first failure: the
   * shape of a Python loop whose body may raise.
   */
  function MapUntilFailure<A, B(==), E(==)>(f: A -> Result<B, E>, xs: seq<A>): (r: Result<seq<B>, E>)
    ensures xs == [] ==> r == Success([])
    ensures r.Success? <==> forall i :: 0 <= i < |xs| ==> f(xs[i]).Success?
    ensures r.Success? ==> |r.value| == |xs| && forall i :: 0 <= i < |xs| ==> f(xs[i]) == Success(r.value[i])
    ensures r.Failure? ==> exists i: nat :: FirstFailure(f, xs, i) && f(xs[i]) == Failure(r.error)
    decreases |xs|
  {
    if xs == [] then Success([])
    else
      match f(xs[0])
      case Failure(e) => assert FirstFailure(f, xs, 0); Failure(e)
      case Success(y) =>
        match MapUntilFailure(f, xs[1..])
        case Failure(err) =>
          var i: nat :| FirstFailure(f, xs[1..], i) && f(xs[1..][i]) == Failure(err);
          assert FirstFailure(f, xs, i + 1);
          Failure(err)
        case Success(rest) =>
          assert forall i :: 1 <= i < |xs| ==> xs[i] == xs[1..][i - 1];
          Success([y] + rest)
  }

  /** Element i is the first on which f fails. */
  predicate FirstFailure<A, B, E>(f: A -> Result<B, E>, xs: seq<A>, i: nat) {
    i < |xs| && f(xs[i]).Failure? && forall j :: 0 <= j < i ==> f(xs[j]).Success?
  }

  /** Extending the input by one element extends a successful result by f of it. */
  lemma {:induction false} MapUntilFailureSnoc<A, B, E>(f: A -> Result<B, E>, xs: seq<A>, x: A)
    requires MapUntilFailure(f, xs).Success?
    ensures MapUntilFailure(f, xs + [x]) ==
      match f(x)
      case Failure(e) => Failure(e)
      case Success(y) => Success(MapUntilFailure(f, xs).value + [y])
    decreases |xs|
  {
    if xs == [] {
      assert xs + [x] == [x] && [x][1..] == [];
      assert MapUntilFailure(f, [x][1..]) == Success([]);
      match f(x)
      case Failure(e) =>
      case Success(y) =>
        assert [y] + [] == [] + [y];
    } else {
      assert (xs + [x])[0] == xs[0];
      assert (xs + [x])[1..] == xs[1..] + [x];
      var y0 := f(xs[0]).value;
      var rest := MapUntilFailure(f, xs[1..]);
      assert rest.Success? && MapUntilFailure(f, xs).value == [y0] + rest.value;
      MapUntilFailureSnoc(f, xs[1..], x);
      match f(x)
      case Failure(e) =>
      case Success(y) =>
        assert [y0] + (rest.value + [y]) == ([y0] + rest.value) + [y];
    }
  }

  /** The same, for a prefix of the input growing by one. */
  lemma MapUntilFailureStep<A, B, E>(f: A -> Result<B, E>, xs: seq<A>, k: nat)
    requires k < |xs| && MapUntilFailure(f, xs[..k]).Success?
    ensures f(xs[k]).Failure? ==> MapUntilFailure(f, xs[..k + 1]) == Failure(f(xs[k]).error)
    ensures f(xs[k]).Success? ==> MapUntilFailure(f, xs[..k + 1]) == Success(MapUntilFailure(f, xs[..k]).value + [f(xs[k]).value])
  {
    assert xs[..k + 1] == xs[..k] + [xs[k]];
    MapUntilFailureSnoc(f, xs[..k], xs[k]);
  }

  /** Once a prefix fails, the whole input fails the same way. */
  lemma {:induction false} MapUntilFailurePrefix<A, B, E>(f: A -> Result<B, E>, xs: seq<A>, k: nat)
    requires k <= |xs| && MapUntilFailure(f, xs[..k]).Failure?
    ensures MapUntilFailure(f, xs) == MapUntilFailure(f, xs[..k])
    decreases k
  {
    assert k > 0;
    if f(xs[0]).Success? {
      assert xs[..k][1..] == xs[1..][..k - 1];
      MapUntilFailurePrefix(f, xs[1..], k - 1);
    }
  }

  /**
   * What format_event_array promises of a list it returns: one record per
   * raw event, in order, each carrying the raw summary, the display strings
   * of its two timestamps and the two display fields built from them; and
   * when it raises, the exception is that of the first raw event that fails.
   */
  lemma FormattedEvents(raws: seq<RawEvent>)
    ensures var r := FormatEvents(raws);
      && (r.Success? <==> forall i :: 0 <= i < |raws| ==> ToEvent(raws[i]).Success?)
      && (r.Success? ==>
            && |r.value| == |raws|
            && forall i :: 0 <= i < |raws| ==>
                 var e := r.value[i];
                 && Displays(e)
                 && raws[i].summary == Some(e.summary) && IsAscii(e.summary)
                 && raws[i].startDateTime.Some?
                 && ProcessTime(raws[i].startDateTime.value) == Success((e.startDate, e.startTime))
                 && raws[i].endDateTime.Some?
                 && ProcessTime(raws[i].endDateTime.value) == Success((e.endDate, e.endTime)))
      && (r.Failure? ==> exists i: nat :: FirstFailure(ToEvent, raws, i) && ToEvent(raws[i]) == Failure(r.error))
  {
    var r := FormatEvents(raws);
    if r.Success? {
      forall i | 0 <= i < |raws|
        ensures var e := r.value[i];
          && Displays(e)
          && raws[i].summary == Some(e.summary) && IsAscii(e.summary)
          && raws[i].startDateTime.Some?
          && ProcessTime(raws[i].startDateTime.value) == Success((e.startDate, e.startTime))
          && raws[i].endDateTime.Some?
          && ProcessTime(raws[i].endDateTime.value) == Success((e.endDate, e.endTime))
      {
        assert ToEvent(raws[i]) == Success(r.value[i]);
        ToEventBuilds(raws[i]);
      }
    }
  }

  /** format_event_array: builds the records one by one and appends them. */
  method FormatEventArray(events: seq<RawEvent>) returns (r: Result<seq<Event>, EventError>)
    ensures r == FormatEvents(events)
  {
    var results: seq<Event> := [];
    for i := 0 to |events|
      invariant MapUntilFailure(ToEvent, events[..i]) == Success(results)
    {
      var eventObj := ToEvent(events[i]);
      MapUntilFailureStep(ToEvent, events, i);
      if eventObj.Failure? {
        MapUntilFailurePrefix(ToEvent, events, i + 1);
        return Failure(eventObj.error);
      }
      results := results + [eventObj.value];
    }
    assert events[..|events|] == events;
    r := Success(results);
  }
}
