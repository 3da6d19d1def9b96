/**
 * The display agent (device/display_deep_sleep.py): one wake cycle fetches
 * the room summary, redraws the e-paper panel only when the summary differs
 * from the last one drawn, and always ends by arming a 60-second deep sleep.
 *
 * The e-paper primitives are modelled as a surface that records, in order,
 * every operation asked of it; the HTTP request and JSON decoding as an
 * input that is either the decoded payload or a failure.
 */
module Display {
  import opened Wrappers
  import opened Helpers

  datatype Font = ASCII32 | ASCII48 | ASCII64

  datatype Color = Black | White

  /** The operations the agent asks of the e-paper surface. */
  datatype SurfaceOp =
    | Init                                   // eink_init()
    | SetColor(fg: Color, bg: Color)         // eink_set_color(fg, bg)
    | Clear                                  // eink_clear()
    | SetFont(font: Font)                    // eink_set_en_font(font)
    | DrawString(text: string, x: int, y: int)   // eink_disp_string(text, x, y)
    | Update                                 // eink_update()

  /** The JSON document the summary service sends for one room. */
  datatype RoomSummary = RoomSummary(roomName: string, todaysDate: string, events: seq<Event>)

  /**
   * A decoded payload as the agent holds it: the empty object {} (the value
   * ROOM_DATA starts with) or a room summary.
   */
  datatype Payload = Blank | Room(summary: RoomSummary)

  /** The outcome of urequests.get(...).json(): a payload, or any exception. */
  datatype Fetch = Fetched(payload: Payload) | FetchFailed

  /** How wifi_connect ends: it returns, or its body raises and the handler flashes a message. */
  datatype Connect = Connected | ConnectFailed

  /** The deep-sleep interval display_data asks for, in milliseconds. */
  const SleepMillis: nat := 60000

  // The fixed layout of room_display.
  const Left := 50
  const NameTop := 50
  const DateTop := 125
  const SummaryTop := 225
  const TimeTop := 300
  const ListTop := 425
  const ListStep := 50

  /** The long displays of the events, one below the other from y on down. */
  function StackedDraws(events: seq<Event>, y: int): seq<SurfaceOp>
    decreases |events|
  {
    if events == [] then []
    else [DrawString(events[0].longDisplay, Left, y)] + StackedDraws(events[1..], y + ListStep)
  }

  /**
   * The operations room_display performs for a payload. For {} the lookup
   * of 'room_name' raises KeyError after the clear and the font change, so
   * nothing is drawn and the panel is not updated.
   */
  function RenderOps(p: Payload): seq<SurfaceOp> {
    match p
    case Blank => [Clear, SetFont(ASCII64)]
    case Room(room) => HeaderOps(room) + FirstEventOps(room.events) + ListOps(room.events) + [Update]
  }

  /** The room name in the large font, then the date in the medium one. */
  function HeaderOps(room: RoomSummary): seq<SurfaceOp> {
    [Clear, SetFont(ASCII64), DrawString(room.roomName, Left, NameTop),
     SetFont(ASCII48), DrawString(room.todaysDate, Left, DateTop)]
  }

  /** The next event, if any: its summary, then its time span below it. */
  function FirstEventOps(events: seq<Event>): seq<SurfaceOp> {
    if |events| > 0 then [DrawString(events[0].summary, Left, SummaryTop), DrawString(events[0].timeDisplay, Left, TimeTop)]
    else []
  }

  /** The later events, if any, in the small font from ListTop on down. */
  function ListOps(events: seq<Event>): seq<SurfaceOp> {
    if |events| > 1 then [SetFont(ASCII32)] + StackedDraws(events[1..], ListTop) else []
  }

  /** The last-drawn payload and the surface operations after one wake cycle. */
  datatype Cycle = Cycle(roomData: Payload, ops: seq<SurfaceOp>)

  /**
   * The decision display_data takes: on a fetched payload that differs from
   * the last one drawn, keep it and draw it; otherwise change nothing.
   */
  function Decide(roomData: Payload, fetch: Fetch): Cycle {
    match fetch
    case FetchFailed => Cycle(roomData, [])
    case Fetched(data) => if data != roomData then Cycle(data, RenderOps(data)) else Cycle(roomData, [])
  }

  // ---------------------------------------------------------------------
  // The surface and the agent

  /** The e-paper surface: an append-only log of the operations asked of it. */
  class Surface {
    var log: seq<SurfaceOp>

    constructor ()
      ensures log == []
    {
      log := [];
    }

    method Init()
      modifies this
      ensures log == old(log) + [SurfaceOp.Init]
    {
      log := log + [SurfaceOp.Init];
    }

    method SetEnColor(fg: Color, bg: Color)
      modifies this
      ensures log == old(log) + [SetColor(fg, bg)]
    {
      log := log + [SetColor(fg, bg)];
    }

    method Clear()
      modifies this
      ensures log == old(log) + [SurfaceOp.Clear]
    {
      log := log + [SurfaceOp.Clear];
    }

    method SetEnFont(font: Font)
      modifies this
      ensures log == old(log) + [SetFont(font)]
    {
      log := log + [SetFont(font)];
    }

    method DispString(text: string, x: int, y: int)
      modifies this
      ensures log == old(log) + [DrawString(text, x, y)]
    {
      log := log + [DrawString(text, x, y)];
    }

    method Update()
      modifies this
      ensures log == old(log) + [SurfaceOp.Update]
    {
      log := log + [SurfaceOp.Update];
    }
  }

  /**
   * The agent of one power-on: the module-level ROOM_DATA, the surface it
   * draws on, and the deep-sleep alarm it arms (None until armed).
   */
  class Agent {
    var roomData: Payload
    var alarm: Option<nat>
    const surface: Surface

    /** Power-on: ROOM_DATA = {} and no alarm armed yet. */
    constructor (surface: Surface)
      ensures this.surface == surface && roomData == Blank && alarm == None
    {
      this.surface := surface;
      roomData := Blank;
      alarm := None;
    }

    /** room_display: lays the payload out on the surface and flushes it. */
    method RoomDisplay(p: Payload)
      modifies surface
      ensures surface.log == old(surface.log) + RenderOps(p)
    {
      if p.Blank? {
        surface.Clear();
        surface.SetEnFont(ASCII64);
        return;  // room['room_name'] raises KeyError
      }
      var room := p.summary;
      DrawHeader(room);
      ghost var afterHeader := surface.log;
      var events := room.events;
      if |events| > 0 {
        surface.DispString(events[0].summary, Left, SummaryTop);
        surface.DispString(events[0].timeDisplay, Left, TimeTop);
      }
      ghost var afterFirst := surface.log;
      assert afterFirst == afterHeader + FirstEventOps(events);
      if |events| > 1 {
        surface.SetEnFont(ASCII32);
        DrawList(events);
      }
      assert surface.log == afterFirst + ListOps(events);
      surface.Update();
    }

    /** The first five steps of room_display: clear, then name and date. */
    method DrawHeader(room: RoomSummary)
      modifies surface
      ensures surface.log == old(surface.log) + HeaderOps(room)
    {
      surface.Clear();
      surface.SetEnFont(ASCII64);
      surface.DispString(room.roomName, Left, NameTop);
      surface.SetEnFont(ASCII48);
      surface.DispString(room.todaysDate, Left, DateTop);
    }

    /** The loop of room_display over events[1:], 50 pixels apart. */
    method DrawList(events: seq<Event>)
      requires |events| > 1
      modifies surface
      ensures surface.log == old(surface.log) + StackedDraws(events[1..], ListTop)
    {
      var position := ListTop;
      for i := 1 to |events|
        invariant position == ListTop + ListStep * (i - 1)
        invariant surface.log == old(surface.log) + StackedDraws(events[1..i], ListTop)
      {
        surface.DispString(events[i].longDisplay, Left, position);
        StackedDrawsSnoc(events, i, ListTop);
        position := position + ListStep;
      }
      assert events[1..|events|] == events[1..];
    }

    /** deep_sleep: arms the wake-up alarm; the hardware then powers down. */
    method DeepSleep(sleepLength: nat)
      modifies this`alarm
      ensures alarm == Some(sleepLength)
    {
      alarm := Some(sleepLength);
    }

    /**
     * display_data: one wake cycle. ROOM_DATA and the surface change exactly
     * as Decide says, and every path ends by arming the 60-second alarm.
     */
    method DisplayData(fetch: Fetch)
      modifies this, surface
      ensures roomData == Decide(old(roomData), fetch).roomData
      ensures surface.log == old(surface.log) + Decide(old(roomData), fetch).ops
      ensures alarm == Some(SleepMillis)
    {
      if fetch.Fetched? {
        var data := fetch.payload;
        if data != roomData {
          roomData := data;
          RoomDisplay(roomData);
        }
      }
      DeepSleep(SleepMillis);
    }
  }

  /** The stacked list grows by one line, 50 pixels further down. */
  lemma StackedDrawsSnoc(events: seq<Event>, i: nat, y: int)
    requires 1 <= i < |events|
    ensures StackedDraws(events[1..i + 1], y)
         == StackedDraws(events[1..i], y) + [DrawString(events[i].longDisplay, Left, y + ListStep * (i - 1))]
  {
    assert events[1..i + 1] == events[1..i] + [events[i]];
    StackedDrawsAppend(events[1..i], events[i], y);
  }

  lemma {:induction false} StackedDrawsAppend(events: seq<Event>, e: Event, y: int)
    ensures StackedDraws(events + [e], y)
         == StackedDraws(events, y) + [DrawString(e.longDisplay, Left, y + ListStep * |events|)]
    decreases |events|
  {
    if events == [] {
      assert [e][1..] == [];
    } else {
      assert (events + [e])[1..] == events[1..] + [e];
      StackedDrawsAppend(events[1..], e, y + ListStep);
    }
  }

  // ---------------------------------------------------------------------
  // Power-on

  /** What the script does to the panel before the first cycle: initialise it, black on white. */
  const StartUp := [Init, SetColor(Black, White)]

  /** The message wifi_connect flashes when connecting raises. */
  const WifiFailure := "Unable to connect to WiFi"

  /** text_flash's drawing: the text alone, in the large font, at (100, 250). */
  function FlashOps(text: string): seq<SurfaceOp> {
    [Clear, SetFont(ASCII64), DrawString(text, 100, 250), Update]
  }

  /** What wifi_connect draws: nothing when it returns, the failure flash when it raises. */
  function ConnectOps(connect: Connect): seq<SurfaceOp> {
    if connect == ConnectFailed then FlashOps(WifiFailure) else []
  }

  /** text_flash: shows one message on a cleared panel. */
  method TextFlash(surface: Surface, text: string)
    modifies surface
    ensures surface.log == old(surface.log) + FlashOps(text)
  {
    surface.Clear();
    surface.SetEnFont(ASCII64);
    surface.DispString(text, 100, 250);
    surface.Update();
  }

  /**
   * One wake of the device, from power-on to the sleep request: deep sleep
   * power-cycles the processor, so every wake starts from ROOM_DATA = {},
   * sets the panel up again, connects (flashing a message if that raises)
   * and runs one cycle.
   */
  method PowerOn(surface: Surface, connect: Connect, fetch: Fetch) returns (agent: Agent)
    modifies surface
    ensures agent.surface == surface
    ensures agent.roomData == Decide(Blank, fetch).roomData
    ensures surface.log == old(surface.log) + StartUp + ConnectOps(connect) + Decide(Blank, fetch).ops
    ensures agent.alarm == Some(SleepMillis)
  {
    agent := new Agent(surface);
    surface.Init();
    surface.SetEnColor(Black, White);
    if connect == ConnectFailed {
      TextFlash(surface, WifiFailure);
    }
    agent.DisplayData(fetch);
  }

  /**
   * A flash is a complete frame of its own: it opens with a clear, draws
   * exactly one string, the message, and ends with the update.
   */
  lemma FlashFrame(text: string)
    ensures var ops := FlashOps(text);
      && ops[0] == Clear && ops[|ops| - 1] == Update && multiset(ops)[Update] == 1
      && DrawCount(ops) == 1 && DrawString(text, 100, 250) in ops
  {
    var ops := FlashOps(text);
    assert DrawCount(ops[3..]) == 0;
    assert DrawCount(ops[2..]) == 1;
    assert DrawCount(ops[1..]) == 1;
  }

  // ---------------------------------------------------------------------
  // Properties of the layout

  /** How many strings a run of surface operations draws. */
  function DrawCount(ops: seq<SurfaceOp>): nat
    decreases |ops|
  {
    if ops == [] then 0 else (if ops[0].DrawString? then 1 else 0) + DrawCount(ops[1..])
  }

  lemma {:induction false} DrawCountAppend(a: seq<SurfaceOp>, b: seq<SurfaceOp>)
    ensures DrawCount(a + b) == DrawCount(a) + DrawCount(b)
    decreases |a|
  {
    if a == [] {
      assert a + b == b;
    } else {
      assert (a + b)[1..] == a[1..] + b;
      DrawCountAppend(a[1..], b);
    }
  }

  /** The stacked list: one draw per event, in order, ListStep apart, and nothing else. */
  lemma {:induction false} StackedDrawsShape(events: seq<Event>, y: int)
    ensures |StackedDraws(events, y)| == |events|
    ensures forall k :: 0 <= k < |events| ==>
      StackedDraws(events, y)[k] == DrawString(events[k].longDisplay, Left, y + ListStep * k)
    ensures DrawCount(StackedDraws(events, y)) == |events|
    decreases |events|
  {
    if events != [] {
      var rest := StackedDraws(events[1..], y + ListStep);
      StackedDrawsShape(events[1..], y + ListStep);
      DrawCountAppend([DrawString(events[0].longDisplay, Left, y)], rest);
      assert DrawCount([DrawString(events[0].longDisplay, Left, y)]) == 1;
      forall k | 1 <= k < |events|
        ensures StackedDraws(events, y)[k] == DrawString(events[k].longDisplay, Left, y + ListStep * k)
      {
        assert StackedDraws(events, y)[k] == rest[k - 1];
        assert events[1..][k - 1] == events[k];
      }
    }
  }

  /**
   * room_display opens with a clear and the large font and, when the
   * payload is a room summary, ends with the one and only update; the
   * KeyError on {} leaves the panel without an update.
   */
  lemma RenderFrame(p: Payload)
    ensures var ops := RenderOps(p);
      |ops| >= 2 && ops[0] == Clear && ops[1] == SetFont(ASCII64)
      && (ops[|ops| - 1] == Update <==> p.Room?)
      && multiset(ops)[Update] == (if p.Room? then 1 else 0)
    ensures p.Blank? ==> DrawCount(RenderOps(p)) == 0
  {
    if p.Blank? {
      BlankDrawsNothing();
    } else {
      var body := RoomFrame(p.summary);
      assert RenderOps(p) == body + [Update];
    }
  }

  /** On {} room_display stops at the KeyError after two operations, neither a draw. */
  lemma BlankDrawsNothing()
    ensures RenderOps(Blank) == [Clear, SetFont(ASCII64)]
    ensures DrawCount(RenderOps(Blank)) == 0
  {
    assert DrawCount([Clear, SetFont(ASCII64)][1..]) == 0;
  }

  /** A room summary renders as the header, the event blocks and one update. */
  lemma RoomFrame(room: RoomSummary) returns (body: seq<SurfaceOp>)
    ensures RenderOps(Room(room)) == body + [Update]
    ensures |body| >= 5 && body[0] == Clear && body[1] == SetFont(ASCII64)
    ensures multiset(body + [Update])[Update] == 1
  {
    body := HeaderOps(room) + FirstEventOps(room.events) + ListOps(room.events);
    BodyHasNoUpdate(room);
    assert multiset(body + [Update]) == multiset(body) + multiset{Update};
  }

  /** Nothing before the final update of room_display is an update. */
  lemma BodyHasNoUpdate(room: RoomSummary)
    ensures multiset(HeaderOps(room) + FirstEventOps(room.events) + ListOps(room.events))[Update] == 0
  {
    var events := room.events;
    if |events| > 1 {
      StackedDrawsNoUpdate(events[1..], ListTop);
      assert multiset(ListOps(events)) == multiset{SetFont(ASCII32)} + multiset(StackedDraws(events[1..], ListTop));
    }
    assert multiset(HeaderOps(room) + FirstEventOps(events) + ListOps(events))
        == multiset(HeaderOps(room)) + multiset(FirstEventOps(events)) + multiset(ListOps(events));
  }

  lemma {:induction false} StackedDrawsNoUpdate(events: seq<Event>, y: int)
    ensures multiset(StackedDraws(events, y))[Update] == 0
    decreases |events|
  {
    if events != [] {
      StackedDrawsNoUpdate(events[1..], y + ListStep);
    }
  }

  /**
   * Where everything lands: name at (50,50) in ASCII64, date at (50,125) in
   * ASCII48, the next event's summary and time span at (50,225) and
   * (50,300), and, in ASCII32, events 1..n-1 at (50, 425 + 50*(i-1)).
   */
  lemma RoomLayout(room: RoomSummary)
    ensures var ops := RenderOps(Room(room)); var n := |room.events|;
      && |ops| == 6 + (if n > 0 then 2 else 0) + (if n > 1 then n else 0)
      && ops[1] == SetFont(ASCII64) && ops[2] == DrawString(room.roomName, 50, 50)
      && ops[3] == SetFont(ASCII48) && ops[4] == DrawString(room.todaysDate, 50, 125)
      && (n > 0 ==>
            ops[5] == DrawString(room.events[0].summary, 50, 225) && ops[6] == DrawString(room.events[0].timeDisplay, 50, 300))
      && (n > 1 ==>
            ops[7] == SetFont(ASCII32)
            && forall i :: 1 <= i < n ==> ops[7 + i] == DrawString(room.events[i].longDisplay, 50, 425 + 50 * (i - 1)))
  {
    var events := room.events;
    var n := |events|;
    var ops := RenderOps(Room(room));
    var head := HeaderOps(room) + FirstEventOps(events);
    assert ops == head + ListOps(events) + [Update];
    if n > 1 {
      StackedDrawsShape(events[1..], ListTop);
      var list := StackedDraws(events[1..], ListTop);
      assert |head| == 7;
      forall i | 1 <= i < n
        ensures ops[7 + i] == DrawString(events[i].longDisplay, 50, 425 + 50 * (i - 1))
      {
        assert ops[7 + i] == list[i - 1];
        assert events[1..][i - 1] == events[i];
      }
    }
  }

  /**
   * The number of strings drawn for a room summary with n events:
   * 2 + 2*min(1, n) + max(0, n - 1), so 2, 4, 5, 6 for 0, 1, 2, 3 events.
   */
  lemma DrawCountOfRoom(room: RoomSummary)
    ensures var n := |room.events|;
      DrawCount(RenderOps(Room(room))) == 2 + 2 * (if n < 1 then n else 1) + (if n > 1 then n - 1 else 0)
  {
    var events := room.events;
    var header := HeaderOps(room);
    var first := FirstEventOps(events);
    var list := ListOps(events);
    assert RenderOps(Room(room)) == header + first + list + [Update];
    DrawCountAppend(header + first + list, [Update]);
    DrawCountAppend(header + first, list);
    DrawCountAppend(header, first);
    assert DrawCount(header[4..]) == 1;
    assert DrawCount(header[3..]) == 1;
    assert DrawCount(header[2..]) == 2;
    assert DrawCount(header[1..]) == 2;
    assert DrawCount(header) == 2;
    if |events| > 0 {
      assert DrawCount(first[1..]) == 1;
    }
    if |events| > 1 {
      StackedDrawsShape(events[1..], ListTop);
      DrawCountAppend([SetFont(ASCII32)], StackedDraws(events[1..], ListTop));
    }
  }

  // ---------------------------------------------------------------------
  // Properties of the decision

  /**
   * A cycle draws exactly when a payload arrives that differs from the
   * last one, and ROOM_DATA always ends as the last payload received.
   */
  lemma DecideRedrawsOnChange(roomData: Payload, fetch: Fetch)
    ensures var c := Decide(roomData, fetch);
      && (c.ops != [] <==> fetch.Fetched? && fetch.payload != roomData)
      && (c.ops != [] ==> c.ops == RenderOps(c.roomData))
      && c.roomData == (if fetch.Fetched? then fetch.payload else roomData)
  {
    if fetch.Fetched? && fetch.payload != roomData {
      RenderFrame(fetch.payload);
    }
  }

  /** A failed request or decode changes nothing. */
  lemma FailedFetchChangesNothing(roomData: Payload)
    ensures Decide(roomData, FetchFailed) == Cycle(roomData, [])
  {
  }

  /** The same payload twice in a row is drawn at most once. */
  lemma RepeatDrawsNothing(roomData: Payload, fetch: Fetch)
    ensures var c := Decide(roomData, fetch);
      Decide(c.roomData, fetch) == Cycle(c.roomData, [])
  {
  }

  /**
   * On a wake (ROOM_DATA = {}) every room summary received is drawn in
   * full, ending with the update; a {} response draws nothing.
   */
  lemma ColdBootDraws(fetch: Fetch)
    ensures fetch.Fetched? && fetch.payload.Room? ==>
      Decide(Blank, fetch).ops == RenderOps(fetch.payload)
      && Decide(Blank, fetch).ops[|Decide(Blank, fetch).ops| - 1] == Update
    ensures fetch == Fetched(Blank) ==> Decide(Blank, fetch).ops == []
  {
    if fetch.Fetched? && fetch.payload.Room? {
      RenderFrame(fetch.payload);
    }
  }
}
