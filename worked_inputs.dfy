/**
 * Worked inputs of process_time (server/helpers.py): the example in the
 * source's comment, the noon boundary, the lenient fields strptime accepts
 * and the inputs it rejects. Each is proved in small steps (the layout, the
 * parse, the display strings), one literal fact per lemma: a lemma that
 * unfolds the parser over two or more literal facts at once is beyond
 * what the solver settles within its resource limit.
 */
module WorkedInputs {
  import opened Wrappers
  import opened Decimal
  import opened Timestamps
  import opened Helpers

  lemma ChristmasDate()
    ensures DateString(12, 25) == "12/25"
  {
    assert NatToString(12) == "12" && NatToString(25) == "25";
  }

  // --- 08:00, the example in the source's comment

  lemma MorningLayout()
    ensures Render(Timestamp(2017, 12, 25, 8, 0, 0)) == "2017-12-25T08:00:00-07:00"
  {
  }

  lemma MorningParse()
    ensures ParseTimestamp("2017-12-25T08:00:00-07:00") == Success(Timestamp(2017, 12, 25, 8, 0, 0))
  {
    MorningLayout();
    RenderParse(Timestamp(2017, 12, 25, 8, 0, 0));
  }

  lemma MorningFields()
    ensures ProcessTime("2017-12-25T08:00:00-07:00") == Success((DateString(12, 25), ClockString(8, 0)))
  {
    MorningParse();
    ProcessTimeOfParsed("2017-12-25T08:00:00-07:00", Timestamp(2017, 12, 25, 8, 0, 0));
  }

  lemma MorningClock()
    ensures ClockString(8, 0) == "8:00am"
  {
  }

  lemma MorningExample()
    ensures ProcessTime("2017-12-25T08:00:00-07:00") == Success(("12/25", "8:00am"))
  {
    MorningFields();
    ChristmasDate();
    MorningClock();
  }

  // --- 20:00

  lemma EveningLayout()
    ensures Render(Timestamp(2017, 12, 25, 20, 0, 0)) == "2017-12-25T20:00:00-07:00"
  {
  }

  lemma EveningParse()
    ensures ParseTimestamp("2017-12-25T20:00:00-07:00") == Success(Timestamp(2017, 12, 25, 20, 0, 0))
  {
    EveningLayout();
    RenderParse(Timestamp(2017, 12, 25, 20, 0, 0));
  }

  lemma EveningFields()
    ensures ProcessTime("2017-12-25T20:00:00-07:00") == Success((DateString(12, 25), ClockString(20, 0)))
  {
    EveningParse();
    ProcessTimeOfParsed("2017-12-25T20:00:00-07:00", Timestamp(2017, 12, 25, 20, 0, 0));
  }

  lemma EveningClock()
    ensures ClockString(20, 0) == "8:00pm"
  {
  }

  lemma EveningExample()
    ensures ProcessTime("2017-12-25T20:00:00-07:00") == Success(("12/25", "8:00pm"))
  {
    EveningFields();
    ChristmasDate();
    EveningClock();
  }

  // --- 12:30: noon keeps its hour and is marked "am"

  lemma NoonLayout()
    ensures Render(Timestamp(2017, 12, 25, 12, 30, 0)) == "2017-12-25T12:30:00-07:00"
  {
  }

  lemma NoonParse()
    ensures ParseTimestamp("2017-12-25T12:30:00-07:00") == Success(Timestamp(2017, 12, 25, 12, 30, 0))
  {
    NoonLayout();
    RenderParse(Timestamp(2017, 12, 25, 12, 30, 0));
  }

  lemma NoonFields()
    ensures ProcessTime("2017-12-25T12:30:00-07:00") == Success((DateString(12, 25), ClockString(12, 30)))
  {
    NoonParse();
    ProcessTimeOfParsed("2017-12-25T12:30:00-07:00", Timestamp(2017, 12, 25, 12, 30, 0));
  }

  lemma NoonClock()
    ensures ClockString(12, 30) == "12:30am"
  {
    assert NatToString(12) == "12" && Pad2(30) == "30";
  }

  lemma NoonExample()
    ensures ProcessTime("2017-12-25T12:30:00-07:00") == Success(("12/25", "12:30am"))
  {
    NoonFields();
    ChristmasDate();
    NoonClock();
  }

  // --- single-digit fields

  lemma SingleDigitDate()
    ensures MatchDate("2017-1-5T8:05:00-07:00") == Some((2017, 1, 5, 9))
  {
    var s := "2017-1-5T8:05:00-07:00";
    assert YearField(s) == Some((2017, 4));
    assert Field(s, 5, 1, 12) == Some((1, 6));
    assert DayField(s, 7) == Some((5, 8));
  }

  lemma SingleDigitTime()
    ensures MatchTime("2017-1-5T8:05:00-07:00", 9) == Some((8, 5, 0, 22))
  {
    var s := "2017-1-5T8:05:00-07:00";
    assert Field(s, 9, 0, 23) == Some((8, 10));
    assert Field(s, 11, 0, 59) == Some((5, 13));
    assert Field(s, 14, 0, 61) == Some((0, 16));
    assert LiteralText(s, 16, Offset) == Some(22);
  }

  lemma SingleDigitFieldsParse()
    ensures ParseTimestamp("2017-1-5T8:05:00-07:00") == Success(Timestamp(2017, 1, 5, 8, 5, 0))
  {
    SingleDigitDate();
    SingleDigitTime();
  }

  lemma SingleDigitStrings()
    ensures DateString(1, 5) == "1/5" && ClockString(8, 5) == "8:05am"
  {
  }

  /** strptime also accepts single-digit fields. */
  lemma SingleDigitFieldsExample()
    ensures ProcessTime("2017-1-5T8:05:00-07:00") == Success(("1/5", "8:05am"))
  {
    SingleDigitFieldsParse();
    ProcessTimeOfParsed("2017-1-5T8:05:00-07:00", Timestamp(2017, 1, 5, 8, 5, 0));
    SingleDigitStrings();
  }

  // --- rejected inputs

  lemma ChristmasMorningDate(s: string)
    requires |s| >= 11 && s[..11] == "2017-12-25T"
    ensures MatchDate(s) == Some((2017, 12, 25, 11))
  {
    assert YearField(s) == Some((2017, 4));
    assert Field(s, 5, 1, 12) == Some((12, 7));
    assert DayField(s, 8) == Some((25, 10));
  }

  lemma StandardTimeOffsetTime()
    ensures MatchTime("2017-12-25T08:00:00-08:00", 11) == None
  {
    var s := "2017-12-25T08:00:00-08:00";
    assert Field(s, 11, 0, 23) == Some((8, 13));
    assert Field(s, 14, 0, 59) == Some((0, 16));
    assert Field(s, 17, 0, 61) == Some((0, 19));
    assert s[21] != Offset[2];
    assert LiteralText(s, 19, Offset) == None;
  }

  /** The standard-time offset of the same zone, -08:00, does not match. */
  lemma StandardTimeOffsetParse()
    ensures ParseTimestamp("2017-12-25T08:00:00-08:00") == Failure(Mismatch)
  {
    ChristmasMorningDate("2017-12-25T08:00:00-08:00");
    StandardTimeOffsetTime();
  }

  lemma StandardTimeOffsetRejected()
    ensures ProcessTime("2017-12-25T08:00:00-08:00") == Failure(Mismatch)
  {
    StandardTimeOffsetParse();
  }

  lemma TrailingTextTime()
    ensures MatchTime("2017-12-25T08:00:00-07:00Z", 11) == Some((8, 0, 0, 25))
  {
    var s := "2017-12-25T08:00:00-07:00Z";
    assert Field(s, 11, 0, 23) == Some((8, 13));
    assert Field(s, 14, 0, 59) == Some((0, 16));
    assert Field(s, 17, 0, 61) == Some((0, 19));
    assert LiteralText(s, 19, Offset) == Some(25);
  }

  /** Text after the offset is left unconverted. */
  lemma TrailingTextParse()
    ensures ParseTimestamp("2017-12-25T08:00:00-07:00Z") == Failure(UnconvertedData)
  {
    ChristmasMorningDate("2017-12-25T08:00:00-07:00Z");
    TrailingTextTime();
  }

  lemma TrailingTextRejected()
    ensures ProcessTime("2017-12-25T08:00:00-07:00Z") == Failure(UnconvertedData)
  {
    TrailingTextParse();
  }

  /** February 30 matches the format but is not a day. */
  lemma NonexistentDayDate()
    ensures MatchDate("2017-02-30T08:00:00-07:00") == Some((2017, 2, 30, 11))
  {
    var s := "2017-02-30T08:00:00-07:00";
    assert s[..11] == "2017-02-30T";
    FebruaryThirtiethDate(s);
  }

  lemma FebruaryThirtiethDate(s: string)
    requires |s| >= 11 && s[..11] == "2017-02-30T"
    ensures MatchDate(s) == Some((2017, 2, 30, 11))
  {
    assert YearField(s) == Some((2017, 4));
    assert Field(s, 5, 1, 12) == Some((2, 7));
    assert DayField(s, 8) == Some((30, 10));
  }

  lemma NonexistentDayTime()
    ensures MatchTime("2017-02-30T08:00:00-07:00", 11) == Some((8, 0, 0, 25))
  {
    var s := "2017-02-30T08:00:00-07:00";
    assert Field(s, 11, 0, 23) == Some((8, 13));
    assert Field(s, 14, 0, 59) == Some((0, 16));
    assert Field(s, 17, 0, 61) == Some((0, 19));
    assert LiteralText(s, 19, Offset) == Some(25);
  }

  /** A full match whose day lies past the end of its month. */
  lemma DayPastMonthEnd(s: string, y: nat, m: nat, d: nat, i: nat, time: (nat, nat, nat, nat))
    requires MatchDate(s) == Some((y, m, d, i)) && MatchTime(s, i) == Some(time) && time.3 == |s|
    requires 1 <= y && 1 <= m <= 12 && d > DaysInMonth(y, m)
    ensures ParseTimestamp(s) == Failure(DayOutOfRange)
  {
  }

  lemma NonexistentDayParse()
    ensures ParseTimestamp("2017-02-30T08:00:00-07:00") == Failure(DayOutOfRange)
  {
    NonexistentDayDate();
    NonexistentDayTime();
    DayPastMonthEnd("2017-02-30T08:00:00-07:00", 2017, 2, 30, 11, (8, 0, 0, 25));
  }

  lemma NonexistentDayRejected()
    ensures ProcessTime("2017-02-30T08:00:00-07:00") == Failure(DayOutOfRange)
  {
    NonexistentDayParse();
  }

  // ---------------------------------------------------------------------
  // Events

  /**
   * A Christmas party from 8 in the morning to 8 in the evening: its
   * record, with the time span and the long display the panel shows.
   */
  lemma ChristmasParty()
    ensures ToEvent(RawEvent(Some("2017-12-25T08:00:00-07:00"), Some("2017-12-25T20:00:00-07:00"), Some("Party")))
         == Success(Event("12/25", "8:00am", "12/25", "8:00pm", "Party", "8:00am-8:00pm", "8:00am-8:00pm Party"))
  {
    MorningExample();
    EveningExample();
    PartyStrings();
    ToEventOfParsed(RawEvent(Some("2017-12-25T08:00:00-07:00"), Some("2017-12-25T20:00:00-07:00"), Some("Party")),
                    ("12/25", "8:00am"), ("12/25", "8:00pm"));
  }

  /**
   * An event titled "Café", whatever its (parsable) times: building its
   * long display raises UnicodeEncodeError, so no record is made.
   */
  lemma UnicodeSummaryRejected(start: string, end: string)
    requires ProcessTime(start).Success? && ProcessTime(end).Success?
    ensures ToEvent(RawEvent(Some(start), Some(end), Some("Caf\U{e9}"))) == Failure(UnencodableSummary)
  {
    assert "Caf\U{e9}"[3] == '\U{e9}';
    ToEventErrors(RawEvent(Some(start), Some(end), Some("Caf\U{e9}")));
  }

  /** The summary is ASCII, and the display fields it is joined into. */
  lemma PartyStrings()
    ensures IsAscii("Party")
    ensures "8:00am" + "-" + "8:00pm" == "8:00am-8:00pm"
    ensures "8:00am" + "-" + "8:00pm" + " " + "Party" == "8:00am-8:00pm Party"
  {
  }
}
