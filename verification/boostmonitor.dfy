/**
 lego_boost_monitor.py: the Boost-only monitor. Its port-mode helpers pack
 ">bbbL" (port, mode, 1, 1), and an attach event configures the new device at
 once: motors run, sensors get their reporting mode. Sensor reports read the
 port as a signed byte, the same way attach events do.
 */
module BoostMonitor {
  import opened Options
  import opened Bytes
  import opened LegoFrame
  import opened LegoCommands
  import opened LegoSensor
  import opened LegoHub
  import Fifo

  /** The device-specific reaction to an attach event. */
  function React(port: int, dev: int): seq<Call>
  {
    (if dev == 0x01 then [CallOf(MotorRun(port, 25))] else [])
    + (if dev == 0x08 then [CallOf(MotorRun(port, 100))] else [])
    + (if dev == VoltageSensor then [CallOf(SetModeBig(port, 0))] else [])
    + (if dev == CurrentSensor then [CallOf(SetModeBig(port, 0))] else [])
    + (if dev == WedoTiltSensor then [CallOf(SetModeBig(port, 0))] else [])
    + (if dev == WedoMotionSensor then [CallOf(SetModeBig(port, 1))] else [])
    + (if dev == ColorDistanceSensor then [CallOf(SetModeBig(port, 8))] else [])
    + (if dev == InteractiveMotor then [CallOf(SetModeBig(port, 2)), CallOf(MotorRunAngle(port, 25, 360))] else [])
    + (if dev == BuiltinMotor then [CallOf(SetModeBig(port, 1))] else [])
    + (if dev == BuiltinTiltSensor then [CallOf(SetModeBig(port, 0))] else [])
  }

  /** characteristic_value_updated of the Boost monitor. */
  function Notify(s: Session, value: seq<byte>): Handled
  {
    match Receive(value)
    case Malformed => Unchanged(s, Fault)
    case Dropped => Unchanged(s, Ignored)
    case Accepted(msgType) =>
      if msgType == HubProperty then Unchanged(s, HubPropertyNotice(value))
      else if msgType == 0x04 then PortEvent(s, value, React)
      else if msgType == 0x45 then
        (if |value| < 4 then Unchanged(s, Fault)
         else Unchanged(s, SensorNotice(s.ports, Signed8(value[3]), value[4..], DecodeBoost)))
      else Unchanged(s, OtherNotice(msgType, value))
  }

  /** services_resolved: button reports on, LED orange, request the device name. */
  function Resolved(s: Session): Handled
  {
    Queue(s, [CallOf(ButtonSetConfig(2)), LedSetColorArg(MonitorColors, Named("orange")),
                    CallOf(RequestDeviceName())], Ignored)
  }

  // ---------------------------------------------------------------------------
  // Properties
  // ---------------------------------------------------------------------------

  /** A frame whose first byte, read signed, is not its length is dropped without any change. */
  lemma MismatchedLengthIgnored(s: Session, value: seq<byte>)
    requires |value| > 0 && Signed8(value[0]) != |value|
    ensures Notify(s, value) == Handled(s, [], Ignored)
  {
  }

  /** The rotation-report mode 2 frame of an interactive motor on a port ('b': a negative port
      is sent as its two's complement byte). */
  function RotationReportFrame(port: int): seq<byte>
    requires -128 <= port < 128
  {
    [10, 0, PortInputFormatSetup, ByteOf(port), 2, 1, 0, 0, 0, 1]
  }

  /** Attaching an interactive motor (0x26) submits the rotation-report mode 2 and then the
      360-degree turn at speed 25, in that order. */
  lemma InteractiveMotorAttach(s: Session, value: seq<byte>)
    requires Fifo.Valid(s.pipe)
    requires Receive(value) == Accepted(0x04) && |value| >= 6 && Signed8(value[4]) == 1
    requires 0 <= Signed8(value[3]) && value[5] == InteractiveMotor
    ensures var h := Notify(s, value);
            var port := Signed8(value[3]);
            && h.session.ports == s.ports[port := Some(InteractiveMotor)]
            && MotorRunAngle(port, 25, 360).Some?
            && Submitted(s, h, [RotationReportFrame(port), MotorRunAngle(port, 25, 360).value])
            && h.notice == Attached(port, InteractiveMotor)
  {
    var port := Signed8(value[3]);
    InteractiveMotorReaction(port);
    AttachUpdatesOnlyItsPort(s, value, React);
  }

  lemma InteractiveMotorReaction(port: int)
    requires 0 <= port < 128
    ensures MotorRunAngle(port, 25, 360).Some?
    ensures RunCalls(React(port, InteractiveMotor)).frames == [RotationReportFrame(port), MotorRunAngle(port, 25, 360).value]
    ensures !RunCalls(React(port, InteractiveMotor)).raised
  {
    SetModeBigLayout(port, 2);
    MotorRunAngleLayout(port, 25, 360);
    ReactInteractive(port);
    RunTwo(CallOf(SetModeBig(port, 2)), CallOf(MotorRunAngle(port, 25, 360)));
  }

  /** On a port read as negative, the rotation-report mode still packs ('b') and is submitted,
      then motor_run_angle's unsigned 'B' port raises: the table was updated, one frame went
      into the pipeline, and the handler ends with the exception. */
  lemma InteractiveMotorNegativePort(s: Session, value: seq<byte>)
    requires Fifo.Valid(s.pipe)
    requires Receive(value) == Accepted(0x04) && |value| >= 6 && Signed8(value[4]) == 1
    requires Signed8(value[3]) < 0 && value[5] == InteractiveMotor
    ensures var h := Notify(s, value);
            var port := Signed8(value[3]);
            && h.session.ports == s.ports[port := Some(InteractiveMotor)]
            && Submitted(s, h, [RotationReportFrame(port)])
            && h.notice == Fault
  {
    var port := Signed8(value[3]);
    SetModeBigLayout(port, 2);
    assert MotorRunAngle(port, 25, 360).None?;
    ReactInteractive(port);
    assert RunCalls(React(port, InteractiveMotor)) == Effects([RotationReportFrame(port)], true) by {
      var calls := React(port, InteractiveMotor);
      assert calls == [Sends(RotationReportFrame(port)), Raises];
      assert calls[1..] == [Raises];
    }
    AttachUpdatesOnlyItsPort(s, value, React);
  }

  lemma ReactInteractive(port: int)
    ensures React(port, InteractiveMotor) == [CallOf(SetModeBig(port, 2)), CallOf(MotorRunAngle(port, 25, 360))]
  {
  }

  /** motor_run(port, 25) for a port. */
  function WedoMotorFrame(port: int): seq<byte>
    requires 0 <= port < 128
  {
    [7, 0, PortOutput, port, 0x11, 1, 25]
  }

  /** Attaching a WeDo motor (0x01) submits motor_run(port, 25): [7, 0, 0x81, port, 0x11, 1, 25]. */
  lemma WedoMotorAttach(s: Session, value: seq<byte>)
    requires Fifo.Valid(s.pipe)
    requires Receive(value) == Accepted(0x04) && |value| >= 6 && Signed8(value[4]) == 1
    requires 0 <= Signed8(value[3]) && value[5] == 0x01
    ensures var h := Notify(s, value);
            var port := Signed8(value[3]);
            && h.session.ports == s.ports[port := Some(0x01)]
            && Submitted(s, h, [WedoMotorFrame(port)])
  {
    var port := Signed8(value[3]);
    MotorRunLayout(port, 25);
    assert React(port, 0x01) == [CallOf(MotorRun(port, 25))];
    AttachUpdatesOnlyItsPort(s, value, React);
  }

  /** A motor on a port read as negative cannot be commanded: the unsigned 'B' port raises,
      after the table was updated. */
  lemma NegativePortMotorRaises(s: Session, value: seq<byte>)
    requires Receive(value) == Accepted(0x04) && |value| >= 6 && Signed8(value[4]) == 1
    requires Signed8(value[3]) < 0 && value[5] == 0x01
    ensures Notify(s, value).notice == Fault
    ensures Notify(s, value).session.ports == s.ports[Signed8(value[3]) := Some(0x01)]
    ensures Notify(s, value).session.pipe == s.pipe
  {
    MotorRunLayout(Signed8(value[3]), 25);
    assert React(Signed8(value[3]), 0x01) == [Raises];
  }

  /** A detach event queues nothing and keeps the port's key with None. */
  lemma DetachQueuesNothing(s: Session, value: seq<byte>)
    requires Receive(value) == Accepted(0x04) && |value| >= 5 && Signed8(value[4]) == 0
    ensures Notify(s, value).session == s.(ports := s.ports[Signed8(value[3]) := None])
    ensures Notify(s, value).written == []
  {
    DetachKeepsKey(s, value, React);
  }

  /** Devices without a reaction submit nothing on attach. */
  lemma QuietAttach(port: int, dev: int)
    requires dev !in {0x01, 0x08, VoltageSensor, CurrentSensor, WedoTiltSensor, WedoMotionSensor,
                      ColorDistanceSensor, InteractiveMotor, BuiltinMotor, BuiltinTiltSensor}
    ensures React(port, dev) == []
  {
  }

  /** A sensor report reads the port signed and decodes it with the Boost decoder: a port never
      attached raises, a detached one is an unknown sensor, and nothing is submitted. */
  lemma SensorReport(s: Session, value: seq<byte>)
    requires Receive(value) == Accepted(0x45) && |value| >= 4
    ensures Notify(s, value).session == s && Notify(s, value).written == []
    ensures Signed8(value[3]) !in s.ports ==> Notify(s, value).notice == Fault
    ensures Signed8(value[3]) in s.ports && s.ports[Signed8(value[3])] == None ==>
              Notify(s, value).notice == SensorValue(Signed8(value[3]), UnknownSensor)
    ensures Notify(s, value).notice != Terminated
  {
    OnlyProbeExits(if Signed8(value[3]) in s.ports then s.ports[Signed8(value[3])] else None, value[4..]);
  }

  /** A colour report on a colour sensor's port: 4 bytes give colour and distance. */
  lemma ColorReport(s: Session, value: seq<byte>)
    requires Receive(value) == Accepted(0x45) && |value| == 8
    requires Signed8(value[3]) in s.ports && s.ports[Signed8(value[3])] == Some(ColorDistanceSensor)
    ensures Notify(s, value).notice == SensorValue(Signed8(value[3]), Color(value[4], value[5]))
  {
  }

  /** Only attach events can submit commands or change the table: every other message type
      leaves the session as it is. */
  lemma OtherTypesKeepSession(s: Session, value: seq<byte>, msgType: int)
    requires Receive(value) == Accepted(msgType) && msgType != 0x04
    ensures Notify(s, value).session == s && Notify(s, value).written == []
  {
  }

  /** At connection the Boost monitor writes the button configuration and queues the orange LED and the name
      request behind it. */
  lemma ResolvedFrames(s: Session, f1: seq<byte>, f2: seq<byte>, f3: seq<byte>)
    requires !s.pipe.inFlight && s.pipe.queue == []
    requires f1 == [5, 0, HubProperty, 2, 2] && f2 == [8, 0, PortOutput, LedPort, 0x11, 0x51, 0, 8] && f3 == [6, 0, HubProperty, 1, 2, 0]
    ensures Resolved(s).written == [f1]
    ensures Resolved(s).session.pipe == Fifo.Pipe(true, [f2, f3])
    ensures Resolved(s).notice == Ignored
  {
    ResolvedSends(s, f1, f2, f3);
    QueueThreeFromIdle(s, f1, f2, f3, Ignored);
  }

  /** services_resolved's three calls all send. */
  lemma ResolvedSends(s: Session, f1: seq<byte>, f2: seq<byte>, f3: seq<byte>)
    requires f1 == [5, 0, HubProperty, 2, 2] && f2 == [8, 0, PortOutput, LedPort, 0x11, 0x51, 0, 8] && f3 == [6, 0, HubProperty, 1, 2, 0]
    ensures Resolved(s) == Queue(s, [Sends(f1), Sends(f2), Sends(f3)], Ignored)
  {
    var two, orange := 2, 8;
    HubPropertyLayouts(two);
    LedColorCall(MonitorColors, "orange", orange);
  }
}
