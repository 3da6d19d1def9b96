# esp8266-iot-door: the event normalisation and the display cycle

This project models the two pieces of logic in the meeting-room door sign:

- The server's event normalisation (`server/helpers.py`). `process_time` turns a Google Calendar timestamp such as
  `2017-12-25T08:00:00-07:00` into a display date `12/25` and a 12-hour clock time `8:00am`. `format_event_array` turns
  each raw calendar event into the fixed record the device shows: start and end date and time, summary, `time_display`
  (`start-end`) and `long_display` (`start-end summary`).
- The device's wake cycle (`device/display_deep_sleep.py`). `display_data` fetches the room summary and compares it with
  `ROOM_DATA`, the last payload drawn. Only when they differ does it store the new payload and call `room_display`, which
  lays the summary out on the e-paper panel. Every path then ends in a 60-second deep sleep.

Modules:

- `Wrappers` — `Option` and `Result`.
- `Decimal` — the decimal renderings `"{}"` and `"{:02d}"` used by `process_time`.
- `Timestamps` — `time.strptime` with the format `%Y-%m-%dT%H:%M:%S-07:00`. It follows Python's `_strptime` rules:
  - a field may have one or two digits, within the format directive's range;
  - `%d` also accepts a space and one digit;
  - `T` matches either case;
  - text after the offset raises "unconverted data remains";
  - year 0, or a day past the end of the month, is rejected.
- `Helpers` — `process_time` (`ProcessTime`) and `format_event_array`.
  - `FormatEventArray` is the loop, proved equal to the function `FormatEvents`.
  - Both stop at the first event that raises, as the Python loop does.
  - The readers `ReadDate` and `ReadClock` invert the display strings. The round trips prove that the month, day,
    hour and minute can be read back from what `process_time` returns. The year and the seconds are dropped.
- `WorkedInputs` — concrete timestamps: the example in the source's comment, noon, the single-digit fields strptime
  accepts, and three inputs it rejects.
- `Display` — the device. The e-paper primitives are modelled as a `Surface` object that logs every operation asked of
  it. `Agent` holds `ROOM_DATA` and the armed alarm. `RoomDisplay`, `DisplayData` and `PowerOn` are proved against the
  specification functions `RenderOps` (the layout) and `Decide` (the redraw decision).

The server code is Python 2.7. The `from __future__ import print_function` at server/helpers.py:2 and the Python 2.6
branch at server/helpers.py:63-64 indicate this. The model follows Python 2.7's string behaviour:

- `time.strptime` works on the byte string `str(google_time)`, so a digit is an ASCII digit.
- `str.format` encodes a unicode argument as ASCII. Building `long_display` (server/helpers.py:112) therefore raises
  UnicodeEncodeError for a summary with a character outside ASCII. `ToEvent` fails with `UnencodableSummary` then.

Two properties of the code worth knowing:

- **Number of strings drawn.** `room_display` draws `2 + 2·min(1,n) + max(0,n−1)` strings for n events
  (`DrawCountOfRoom`).
- **Noon and midnight.** The 12-hour conversion changes only hours above 12. Noon is therefore shown as `12:MMam` and
  midnight as `0:MMam` (`NoonAndMidnight`, `NoonExample`).

## Model

| member | source | states |
|---|---|---|
| Decimal.NatToString | server/helpers.py:29 | `"{}".format(n)`: a non-empty run of digits with no leading zero, a single digit exactly when n < 10 |
| Decimal.ValueOfNatToString | server/helpers.py:29 | reading back the decimal rendering of n gives n |
| Decimal.NatToStringInjective | server/helpers.py:29 | distinct numbers render to distinct strings |
| Decimal.Pad2 | server/helpers.py:37 | `"{:02d}".format(n)`: digits whose value is n, at least two of them, exactly two when n < 100, and no leading zero from 10 on |
| Decimal.Pad2Digits | server/helpers.py:37 | below 100 the padded form is the tens digit followed by the units digit |
| Timestamps.DaysInMonth | server/helpers.py:27 | the length of a Gregorian month, which strptime checks the day against, is 28 to 31 |
| Timestamps.Field | server/helpers.py:27 | a one- or two-digit strptime field is accepted only within the directive's range and takes one or two characters |
| Timestamps.DayField | server/helpers.py:27 | `%d` yields a day in 1..31, from one or two characters (a leading space allowed) |
| Timestamps.YearField | server/helpers.py:27 | `%Y` takes exactly four digits |
| Timestamps.MatchDate | server/helpers.py:27 | the date half of the format yields year ≤ 9999, month 1..12, day 1..31 |
| Timestamps.Match | server/helpers.py:27 | the whole format matches a prefix that ends in `-07:00`, yielding a timestamp within the directives' ranges |
| Timestamps.MatchTime | server/helpers.py:27 | the time half yields hour ≤ 23, minute ≤ 59, second ≤ 61, and the literal `-07:00` occupies the six characters before the end position |
| Timestamps.ParseTimestamp | server/helpers.py:27 | a timestamp strptime accepts is a valid calendar time, and the input ends in `-07:00` |
| Timestamps.FieldOfTwoDigits | server/helpers.py:27 | two digits of an in-range value are read back as that value |
| Timestamps.MatchDateOfRender | server/helpers.py:27 | the date half of a rendered valid timestamp matches with its own year, month and day |
| Timestamps.MatchTimeOfRender | server/helpers.py:27 | the time half of a rendered valid timestamp matches with its own hour, minute and second, ending the string |
| Timestamps.RenderParse | server/helpers.py:27 | every valid timestamp written in the calendar's form parses back to itself |
| Helpers.ProcessTime | server/helpers.py:25-38 | it succeeds exactly when strptime accepts the timestamp, and a parse error propagates; on success, the date string reads back as the timestamp's month and day and the time string as its hour and minute |
| Helpers.ProcessTimeOfParsed | server/helpers.py:25-38 | for a timestamp that parses, the result is exactly the date string and the clock string of its fields |
| Helpers.DateString | server/helpers.py:29 | `"{}/{}".format(month, day)`; its properties are stated by `DateShape` and `DateRoundTrip` |
| Helpers.DateShape | server/helpers.py:29 | the date string is the month without padding, a slash, then the day without padding |
| Helpers.ClockString | server/helpers.py:31-37 | the 12-hour rule and `"{}:{:02d}{}"`; its properties are stated by `ClockShape`, `ClockRoundTrip` and `NoonAndMidnight` |
| Helpers.DateRoundTrip | server/helpers.py:29 | the `month/day` string reads back as the month and the day |
| Helpers.ClockRoundTrip | server/helpers.py:31-37 | the 12-hour string with its am/pm suffix reads back as the 24-hour hour and the minute |
| Helpers.ClockShape | server/helpers.py:31-37 | the clock string is an unpadded hour ≤ 12 (hour − 12 after noon), a colon, two minute digits, then `pm` exactly when hour > 12 and `am` otherwise |
| Helpers.NoonAndMidnight | server/helpers.py:32-35 | 12:MM is shown as `12:MMam` and 00:MM as `0:MMam` |
| Helpers.ToEvent | server/helpers.py:107-112 | the loop body for one raw event; its properties are stated by `ToEventBuilds` and `ToEventErrors` |
| Helpers.ToEventBuilds | server/helpers.py:106-113 | a record is built iff both dateTimes and the summary are present, both parse and the summary is ASCII; the record carries the summary and both `process_time` results, with `time_display` = start-end and `long_display` = time_display + " " + summary |
| Helpers.ToEventErrors | server/helpers.py:108-112 | the exception raised is the first one in source order: missing start, bad start, missing end, bad end, missing summary, then a summary that is not ASCII |
| Helpers.ToEventOfParsed | server/helpers.py:108-112 | the record of an event whose timestamps parse, field by field |
| Helpers.MapUntilFailure | server/helpers.py:106-114 | the loop fails iff some element fails, and then with the first failing element's error; on success there is one result per element, in order |
| Helpers.MapUntilFailureSnoc | server/helpers.py:106-113 | one more iteration appends that element's result or stops with its error |
| Helpers.MapUntilFailurePrefix | server/helpers.py:106-113 | once a prefix of the input raises, the whole loop raises the same error |
| Helpers.FormatEvents | server/helpers.py:104-114 | `format_event_array` as a function; its properties are stated by `FormattedEvents` and `MapUntilFailure` |
| Helpers.FormattedEvents | server/helpers.py:104-114 | `format_event_array` returns one record per raw event, in order, each holding the event's summary and timestamps with its two display fields built from them; otherwise it raises the first event's error |
| Helpers.FormatEventArray | server/helpers.py:104-114 | the loop that appends records returns exactly `FormatEvents` |
| WorkedInputs.MorningExample | server/helpers.py:23-24 | `2017-12-25T08:00:00-07:00` gives `("12/25", "8:00am")` |
| WorkedInputs.EveningExample | server/helpers.py:31-37 | `2017-12-25T20:00:00-07:00` gives `("12/25", "8:00pm")` |
| WorkedInputs.NoonExample | server/helpers.py:32-35 | `2017-12-25T12:30:00-07:00` gives `("12/25", "12:30am")` |
| WorkedInputs.SingleDigitFieldsExample | server/helpers.py:27-37 | `2017-1-5T8:05:00-07:00` is accepted and gives `("1/5", "8:05am")` |
| WorkedInputs.StandardTimeOffsetRejected | server/helpers.py:27 | an offset other than `-07:00` does not match the format |
| WorkedInputs.TrailingTextRejected | server/helpers.py:27 | text after the offset is rejected as unconverted data |
| WorkedInputs.NonexistentDayRejected | server/helpers.py:27 | `2017-02-30` matches the format but is rejected as a day past the month's end |
| WorkedInputs.ChristmasParty | server/helpers.py:104-113 | an event from 08:00 to 20:00 titled Party gets `time_display` `8:00am-8:00pm` and `long_display` `8:00am-8:00pm Party` |
| WorkedInputs.UnicodeSummaryRejected | server/helpers.py:112 | an event titled `Café` raises UnicodeEncodeError instead of yielding a record |
| Display.Surface.Init | device/display_deep_sleep.py:101 | the panel log grows by an initialisation |
| Display.Surface.SetEnColor | device/display_deep_sleep.py:102 | the panel log grows by a colour setting |
| Display.Surface.Clear | device/display_deep_sleep.py:53 | the panel log grows by a clear |
| Display.Surface.SetEnFont | device/display_deep_sleep.py:55 | the panel log grows by a font change |
| Display.Surface.DispString | device/display_deep_sleep.py:56 | the panel log grows by a draw of the text at (x, y) |
| Display.Surface.Update | device/display_deep_sleep.py:73 | the panel log grows by a flush |
| Display.Agent.constructor | device/display_deep_sleep.py:14 | at power-on `ROOM_DATA` is `{}` and no alarm is armed |
| Display.Agent.RoomDisplay | device/display_deep_sleep.py:52-73 | the operations appended to the panel are exactly `RenderOps` of the payload |
| Display.Agent.DrawHeader | device/display_deep_sleep.py:53-59 | clear, the name in ASCII64 at (50,50), then the date in ASCII48 at (50,125) |
| Display.Agent.DrawList | device/display_deep_sleep.py:68-71 | the loop draws each later event's long display, starting at y = 425 and moving down 50 each time |
| Display.Agent.DeepSleep | device/display_deep_sleep.py:40-50 | the alarm is armed for the requested time |
| Display.Agent.DisplayData | device/display_deep_sleep.py:16-38 | `ROOM_DATA` and the panel change exactly as `Decide` says, and the 60000 ms alarm is always armed |
| Display.PowerOn | device/display_deep_sleep.py:98-109 | each wake starts from `ROOM_DATA = {}`, initialises the panel black on white, flashes "Unable to connect to WiFi" when connecting raises, runs one cycle and arms the 60000 ms alarm |
| Display.TextFlash | device/display_deep_sleep.py:76-81 | the panel log grows by the flash of the text: clear, ASCII64, the text at (100,250), update |
| Display.FlashFrame | device/display_deep_sleep.py:76-80 | a flash opens with a clear, draws exactly one string, the message, and ends with its one update |
| Display.RenderOps | device/display_deep_sleep.py:52-73 | the layout as a list of panel operations; its properties are stated by `RenderFrame`, `RoomLayout` and `DrawCountOfRoom` |
| Display.Decide | device/display_deep_sleep.py:28-30 | the redraw decision; its properties are stated by `DecideRedrawsOnChange`, `FailedFetchChangesNothing`, `RepeatDrawsNothing` and `ColdBootDraws` |
| Display.StackedDrawsAppend | device/display_deep_sleep.py:69-71 | one more event in the list adds one draw 50 pixels below the previous one |
| Display.StackedDrawsShape | device/display_deep_sleep.py:69-71 | the list draws each event's long display, in order, at y + 50·k, and draws nothing else |
| Display.RenderFrame | device/display_deep_sleep.py:52-73 | rendering starts with a clear and ASCII64; a room summary ends with the one and only update; `{}` (KeyError on `room_name`) draws nothing and has no update |
| Display.BlankDrawsNothing | device/display_deep_sleep.py:53-56 | on `{}` only the clear and the ASCII64 font change happen before the KeyError; no string is drawn |
| Display.RoomLayout | device/display_deep_sleep.py:52-73 | name at (50,50) in ASCII64 and date at (50,125) in ASCII48; event 0's summary at (50,225) and time display at (50,300); ASCII32, then event i at (50, 425 + 50·(i−1)); the operation count |
| Display.DrawCountOfRoom | device/display_deep_sleep.py:56-71 | a summary with n events draws 2 + 2·min(1,n) + max(0,n−1) strings |
| Display.DrawCountAppend | device/display_deep_sleep.py:56-71 | the draw count of two runs of operations is the sum of their counts |
| Display.DecideRedrawsOnChange | device/display_deep_sleep.py:28-30 | a cycle draws exactly when the fetched payload differs from `ROOM_DATA`, and then draws that payload; afterwards `ROOM_DATA` is the payload last received |
| Display.FailedFetchChangesNothing | device/display_deep_sleep.py:21-35 | a failed request or JSON decode leaves `ROOM_DATA` unchanged and draws nothing |
| Display.RepeatDrawsNothing | device/display_deep_sleep.py:28-30 | receiving the same payload again draws nothing and changes nothing |
| Display.ColdBootDraws | device/display_deep_sleep.py:14-30 | from `ROOM_DATA = {}`, any room summary is drawn in full, ending with the update; a `{}` response draws nothing |

## Left out

- `get_credentials` and `get_events` (server/helpers.py:40-91) call Google OAuth and the Calendar API. They are not part
  of this model. The raw events they return are the input of `FormatEvents`.
- `server/app.py`, the Flask route that assembles the room summary, is not part of this model. `RoomSummary` stands for
  its JSON output.
- The HTTP request, `req.json()` and `req.close()` are modelled only by the `Fetch` input, a payload or a failure.
  `close` has no observable effect on the model.
- The JSON payload is modelled as either `{}` or a well-formed room summary. Other shapes are not modelled, such as a
  summary missing a key or an event missing `summary`, `time_display` or `long_display`. The KeyError they would raise
  inside `room_display` is modelled only for `{}`.
- The e-paper primitives, `eink_init` and `eink_set_color` among them, are modelled as an operation log. Pixels and fonts
  are not modelled.
- `Display.Agent.DeepSleep`: the RTC interrupt set-up and the `machine.deepsleep()` power-down are represented only by
  the armed alarm. The restart they cause is what `PowerOn` models.
- `wifi_connect` is an unbounded busy-wait on the network hardware. Only how it ends is modelled, as the `Connect`
  input: it returns, or it raises and its handler calls `text_flash`. The `sleep(leng)` that ends `text_flash` is a
  real-time pause and is not modelled.
- `Display.PowerOn`: it describes a wake whose `wifi_connect` ends, normally or by raising. A connect that waits forever
  in the busy-wait at device/display_deep_sleep.py:91-92 never reaches `display_data`. No alarm is armed and nothing
  after the start-up is drawn. That wake is not modelled.
- `Helpers.ProcessTime`: `str(google_time)` is taken as the identity. In Python 2.7 a timestamp with a character outside
  ASCII makes it raise UnicodeEncodeError. The model reports that input as a strptime error instead: `Mismatch`, or
  `UnconvertedData` when the character comes after the offset. Either way the
  call raises; only the exception class differs. Non-string inputs are not modelled.
- Python's `time.strptime` also fills in the weekday, the day of the year and the DST flag. `process_time` does not use
  them, so they are not modelled.
