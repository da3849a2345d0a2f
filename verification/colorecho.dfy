/**
 lego_boost_color_echo.py: switches a colour sensor to colour-index mode as
 soon as it is attached, and shows every newly detected colour on the hub's
 LED. Only a change of colour sends a command; "no colour" (0xff) turns the
 LED off.
 */
module ColorEcho {
  import opened Options
  import opened Bytes
  import opened LegoFrame
  import opened LegoCommands
  import opened LegoSensor
  import opened LegoHub
  import Fifo

  /** The session plus the last colour seen (None until the first report). */
  datatype Echo = Echo(session: Session, color: Option<int>)

  /** The state after a callback, the frames written, and what happened. */
  datatype Reaction = Reaction(echo: Echo, written: seq<seq<byte>>, notice: Notice)

  function Lift(h: Handled, color: Option<int>): Reaction
  {
    Reaction(Echo(h.session, color), h.written, h.notice)
  }

  function Same(e: Echo, n: Notice): Reaction
  {
    Reaction(e, [], n)
  }

  /** enable_color_reading(port): colour-index mode 8 in ">bbbL" layout. */
  function EnableColorReading(port: int): Option<seq<byte>>
  {
    SetModeBig(port, 8)
  }

  /** Message type 0x04: events 0 and 1 update the table; only a colour sensor gets a command.
      Other events are ignored without reading further. */
  function PortEvent(e: Echo, value: seq<byte>): Reaction
  {
    if |value| < 5 then Same(e, Fault)
    else
      var port, event := Signed8(value[3]), Signed8(value[4]);
      if event == 0 then Lift(Unchanged(e.session.(ports := e.session.ports[port := None]), Detached(port)), e.color)
      else if event == 1 then
        if |value| < 6 then Same(e, Fault)
        else
          var dev := Signed8(value[5]);
          var calls := if dev == ColorDistanceSensor then [CallOf(EnableColorReading(port))] else [];
          Lift(Queue(e.session.(ports := e.session.ports[port := Some(dev)]), calls, Attached(port, dev)), e.color)
      else Same(e, Ignored)
  }

  /** The LED colour shown for a detected colour: 0xff (nothing detected) turns the LED off. */
  function Shown(color: byte): byte
  {
    if color == 0xff then 0 else color
  }

  /** Message type 0x45: a 4-byte report from the colour sensor's port, when its colour differs
      from the last one, is remembered and shown. */
  function ColorReport(e: Echo, value: seq<byte>): Reaction
    requires |value| >= 4
  {
    var port := Signed8(value[3]);
    if port !in e.session.ports then Same(e, Fault)
    else if e.session.ports[port] != Some(ColorDistanceSensor) || |value| != 8 then Same(e, Ignored)
    else if Some(value[4] as int) == e.color then Same(e, Ignored)
    else Lift(Queue(e.session, [CallOf(LedSetColor(Shown(value[4])))], ColorSeen(value[4])), Some(value[4] as int))
  }

  /** characteristic_value_updated of the colour echo; it has branches for types 4 and 0x45 only. */
  function Notify(e: Echo, value: seq<byte>): Reaction
  {
    match Receive(value)
    case Malformed => Same(e, Fault)
    case Dropped => Same(e, Ignored)
    case Accepted(msgType) =>
      if msgType == 0x04 then PortEvent(e, value)
      else if msgType == 0x45 then (if |value| < 4 then Same(e, Fault) else ColorReport(e, value))
      else Same(e, Ignored)
  }

  /** The write callbacks act on the pipeline only. */
  function WriteSucceeded(e: Echo): Reaction
  {
    Lift(LegoHub.WriteSucceeded(e.session), e.color)
  }

  /** services_resolved: the LED starts switched off ("schwarz"). */
  function Resolved(e: Echo): Reaction
  {
    Lift(Queue(e.session, [LedSetColorArg(EchoColors, Named("schwarz"))], Ignored), e.color)
  }

  // ---------------------------------------------------------------------------
  // Properties
  // ---------------------------------------------------------------------------

  /** The same length check as the monitors: a mismatching frame changes nothing. */
  lemma MismatchedLengthIgnored(e: Echo, value: seq<byte>)
    requires |value| > 0 && Signed8(value[0]) != |value|
    ensures Notify(e, value) == Reaction(e, [], Ignored)
  {
  }

  /** The port-input-format frame of colour-index mode 8 for a port. */
  function ColorModeFrame(port: byte): seq<byte>
  {
    [10, 0, PortInputFormatSetup, port, 8, 1, 0, 0, 0, 1]
  }

  /** Attaching a colour sensor submits exactly one command, [10, 0, 0x41, port, 8, 1, 0, 0, 0, 1]. */
  lemma ColorSensorAttach(e: Echo, value: seq<byte>)
    requires Fifo.Valid(e.session.pipe)
    requires Receive(value) == Accepted(0x04) && |value| >= 6 && Signed8(value[4]) == 1
    requires Signed8(value[5]) == ColorDistanceSensor
    ensures var r := Notify(e, value);
            var port := Signed8(value[3]);
            && r.echo.session.ports == e.session.ports[port := Some(ColorDistanceSensor)]
            && r.echo.color == e.color
            && Submitted(e.session, Handled(r.echo.session, r.written, r.notice), [ColorModeFrame(value[3])])
  {
    var port := Signed8(value[3]);
    SetModeBigLayout(port, 8);
    assert ByteOf(port) == value[3];
  }

  /** Attaching anything else, and detaching, submit nothing. */
  lemma OtherPortEventsQuiet(e: Echo, value: seq<byte>)
    requires Receive(value) == Accepted(0x04) && |value| >= 6
    requires Signed8(value[4]) != 1 || Signed8(value[5]) != ColorDistanceSensor
    ensures Notify(e, value).written == []
    ensures Notify(e, value).echo.session.pipe == e.session.pipe
    ensures Notify(e, value).echo.color == e.color
  {
  }

  /** A colour report reaches ColorReport. */
  lemma NotifyReports(e: Echo, value: seq<byte>)
    requires Receive(value) == Accepted(0x45) && |value| >= 4
    ensures Notify(e, value) == ColorReport(e, value)
  {
  }

  /** The report is acted on: the port holds the colour sensor, the payload is exactly 4 bytes
      and the colour differs from the remembered one. */
  predicate Acts(e: Echo, value: seq<byte>)
    requires |value| >= 4
  {
    var port := Signed8(value[3]);
    port in e.session.ports && e.session.ports[port] == Some(ColorDistanceSensor)
    && |value| == 8 && e.color != Some(value[4] as int)
  }

  /** A colour is acted on only under Acts; then the colour is remembered and the LED command
      for it is submitted, and otherwise nothing changes. */
  lemma ColorChangeCondition(e: Echo, value: seq<byte>)
    requires Fifo.Valid(e.session.pipe)
    requires Receive(value) == Accepted(0x45) && |value| >= 4
    ensures var r := Notify(e, value);
            && (Acts(e, value) ==> r.echo.color == Some(value[4] as int) && r.notice == ColorSeen(value[4])
                                   && Submitted(e.session, Handled(r.echo.session, r.written, r.notice),
                                                [LedFrame(Shown(value[4]))]))
            && (!Acts(e, value) ==> r.echo == e && r.written == [])
  {
    NotifyReports(e, value);
    if Acts(e, value) {
      ColorShown(e, value);
    }
  }

  /** The report's reaction in terms of the LED frame it submits. */
  lemma ColorShown(e: Echo, value: seq<byte>)
    requires Fifo.Valid(e.session.pipe)
    requires |value| >= 4 && Acts(e, value)
    ensures var r := ColorReport(e, value);
            && r.echo.color == Some(value[4] as int) && r.notice == ColorSeen(value[4])
            && Submitted(e.session, Handled(r.echo.session, r.written, r.notice), [LedFrame(Shown(value[4]))])
  {
    var c := Shown(value[4]);
    LedShownCall(c);
    ColorQueued(e, value, LedFrame(c));
  }

  /** The frame led_set_color sends for a colour byte. */
  function LedFrame(color: byte): (f: seq<byte>)
    ensures |f| == 8 && f[7] == color
  {
    [8, 0, PortOutput, LedPort, 0x11, 0x51, 0, color]
  }

  lemma LedShownCall(c: byte)
    ensures CallOf(LedSetColor(c)) == Sends(LedFrame(c))
  {
    LedSetColorLayout(c as int);
  }

  lemma ColorQueued(e: Echo, value: seq<byte>, f: seq<byte>)
    requires Fifo.Valid(e.session.pipe)
    requires |value| >= 4 && Acts(e, value)
    requires CallOf(LedSetColor(Shown(value[4]))) == Sends(f)
    ensures var r := ColorReport(e, value);
            && r.echo.color == Some(value[4] as int) && r.notice == ColorSeen(value[4])
            && Submitted(e.session, Handled(r.echo.session, r.written, r.notice), [f])
  {
    assert RunCalls([Sends(f)]).frames == [f];
  }

  /** Repeating a sensor report changes nothing the second time: the LED command is idempotent. */
  lemma RepeatedReportQuiet(e: Echo, value: seq<byte>)
    requires Receive(value) == Accepted(0x45)
    ensures var r := Notify(Notify(e, value).echo, value);
            r.echo == Notify(e, value).echo && r.written == []
  {
  }

  /** "Nothing detected" (0xff) is remembered as 0xff but shown as colour 0, the LED off. */
  lemma NothingDetectedTurnsLedOff(e: Echo, value: seq<byte>)
    requires Fifo.Valid(e.session.pipe)
    requires Receive(value) == Accepted(0x45) && |value| == 8 && value[4] == 0xff
    requires Signed8(value[3]) in e.session.ports && e.session.ports[Signed8(value[3])] == Some(ColorDistanceSensor)
    requires e.color != Some(0xff)
    ensures Notify(e, value).echo.color == Some(0xff)
    ensures var r := Notify(e, value);
            Submitted(e.session, Handled(r.echo.session, r.written, r.notice), [LedFrame(0)])
  {
    NotifyReports(e, value);
    ColorShown(e, value);
    assert Shown(value[4]) == 0;
  }

  /** Frames of any other type leave everything as it is. */
  lemma OtherTypesIgnored(e: Echo, value: seq<byte>, msgType: int)
    requires Receive(value) == Accepted(msgType) && msgType != 0x04 && msgType != 0x45
    ensures Notify(e, value) == Reaction(e, [], Ignored)
  {
  }

  /** At connection the LED is switched off: [8, 0, 0x81, 0x32, 0x11, 0x51, 0, 0] is written. */
  lemma ResolvedFrames(e: Echo, f: seq<byte>)
    requires !e.session.pipe.inFlight && e.session.pipe.queue == []
    requires f == [8, 0, PortOutput, LedPort, 0x11, 0x51, 0, 0]
    ensures Resolved(e).written == [f]
    ensures Resolved(e).echo.session.pipe == Fifo.Pipe(true, [])
    ensures Resolved(e).echo.color == e.color
  {
    var black := 0;
    LedColorCall(EchoColors, "schwarz", black);
    QueueFromIdle(e.session, [Sends(f)], [f], Ignored);
  }
}
