/**
 lego_hub_monitor.py: switches on the reports of every device it finds on a
 Boost, Powered Up or Technic hub and prints what arrives. Its port-mode
 helpers pack "<bbLb"; on attach it asks for the port's information and, when
 that arrives, for every mode's details. The per-device auto-configuration is
 kept in the source but sits behind a test that cannot pass.
 */
module HubMonitor {
  import opened Options
  import opened Bytes
  import opened LegoFrame
  import opened LegoCommands
  import opened LegoSensor
  import opened LegoHub
  import Fifo

  /** The auto-configuration inside `if dev == 0x05`: each inner test asks for another code. */
  function DormantConfig(port: int, dev: int): seq<Call>
  {
    (if dev == 0x01 then [CallOf(MotorRun(port, 25))] else [])
    + (if dev == 0x08 then [CallOf(MotorRun(port, 100))] else [])
    + (if dev == VoltageSensor || dev == CurrentSensor then [CallOf(SetModeLittle(port, 0, 1000))] else [])
    + (if dev == WedoTiltSensor then [CallOf(SetModeLittle(port, 0, 1))] else [])
    + (if dev == WedoMotionSensor then [CallOf(SetModeLittle(port, 1, 1))] else [])
    + (if dev == ColorDistanceSensor then [CallOf(SetModeLittle(port, 8, 1))] else [])
    + (if dev == InteractiveMotor || dev == TechnicLargeMotor || dev == TechnicXLargeMotor
       then [CallOf(SetModeLittle(port, 2, 1)), CallOf(MotorRunAngle(port, 25, 360))] else [])
    + (if dev == BuiltinMotor then [CallOf(SetModeLittle(port, 1, 1))] else [])
    + (if dev == BuiltinTiltSensor then [CallOf(SetModeLittle(port, 0, 1))] else [])
    + (if dev in {ImpactSensor, Accelerometer, Gyroscope, TechnicTiltSensor, TemperatureSensor, BoostUnknownDevice}
       then [CallOf(SetModeLittle(port, 0, 1))] else [])
  }

  /** The reaction to an attach: request the port's information, then the dormant block. */
  function React(port: int, dev: int): seq<Call>
  {
    [CallOf(RequestPortInformation(port))] + (if dev == 0x05 then DormantConfig(port, dev) else [])
  }

  /** The five requests (name, raw, percent and SI range, symbol) for one mode. */
  function ModeCalls(port: int, mode: int): seq<Call>
  {
    seq(5, t => CallOf(RequestPortModeInformation(port, mode, t)))
  }

  /** The loop over all modes of a port-information reply, mode by mode. */
  function ModeRequests(port: int, count: nat): (r: seq<Call>)
    ensures |r| == 5 * count
    ensures forall k :: 0 <= k < |r| ==> r[k] == CallOf(RequestPortModeInformation(port, k / 5, k % 5))
  {
    if count == 0 then []
    else
      var prev := ModeRequests(port, count - 1);
      var last := ModeCalls(port, count - 1);
      LastModeIndices(count);
      prev + last
  }

  /** The indices of the last mode's five requests. */
  lemma LastModeIndices(count: nat)
    requires count > 0
    ensures forall k :: 5 * (count - 1) <= k < 5 * count ==> k / 5 == count - 1 && k % 5 == k - 5 * (count - 1)
  {
  }

  /** Message type 0x43: information type 1 carries capabilities, mode count and the input and
      output mode masks, and triggers the mode requests. */
  function PortInformation(s: Session, value: seq<byte>): Handled
  {
    if |value| < 5 then Unchanged(s, Fault)
    else if value[4] != 1 then Unchanged(s, UnsupportedInfo(value[3], value[4]))
    else if |value| < 11 then Unchanged(s, Fault)
    else
      Queue(s, ModeRequests(value[3], value[6]),
            PortInfo(value[3], value[5], value[6], ReadUnsigned(Little, value[7..9]), ReadUnsigned(Little, value[9..11])))
  }

  /** Python's decode('ascii') succeeds only on bytes below 0x80. */
  predicate Ascii(text: seq<byte>)
  {
    forall i :: 0 <= i < |text| ==> text[i] < 0x80
  }

  /** Message type 0x44: mode name and symbol as ASCII text, the three ranges as two
      little-endian floats ('<ff' on exactly 8 bytes; kept as raw bytes here). */
  function ModeInformation(value: seq<byte>): Notice
  {
    if |value| < 6 then Fault
    else
      var port, mode, infoType := value[3], value[4], value[5];
      if infoType == 0 || infoType == 4 then
        (if Ascii(value[6..]) then ModeText(port, mode, infoType, value[6..]) else Fault)
      else if 1 <= infoType <= 3 then
        (if |value| == 14 then ModeRange(port, mode, infoType, value[6..]) else Fault)
      else UnknownModeInfo(port, mode, infoType)
  }

  /** characteristic_value_updated of the hub monitor. The sensor branch reads its port
      unsigned ('B'), unlike the attach branch. */
  function Notify(s: Session, value: seq<byte>): Handled
  {
    match Receive(value)
    case Malformed => Unchanged(s, Fault)
    case Dropped => Unchanged(s, Ignored)
    case Accepted(msgType) =>
      if msgType == HubProperty then Unchanged(s, HubPropertyNotice(value))
      else if msgType == 0x04 then PortEvent(s, value, React)
      else if msgType == 0x43 then PortInformation(s, value)
      else if msgType == 0x44 then Unchanged(s, ModeInformation(value))
      else if msgType == 0x45 then
        (if |value| < 4 then Unchanged(s, Fault)
         else Unchanged(s, SensorNotice(s.ports, value[3], value[4..], DecodeHub)))
      else Unchanged(s, OtherNotice(msgType, value))
  }

  /** services_resolved: button reports on, LED orange, request the name. */
  function Resolved(s: Session): Handled
  {
    Queue(s, [CallOf(SetHubProperty(2, 2)), LedSetColorArg(MonitorColors, Named("orange")),
                    CallOf(SetHubProperty(1, 2))], Ignored)
  }

  // ---------------------------------------------------------------------------
  // Properties
  // ---------------------------------------------------------------------------

  /** A frame whose first byte, read signed, is not its length is dropped without any change. */
  lemma MismatchedLengthIgnored(s: Session, value: seq<byte>)
    requires |value| > 0 && Signed8(value[0]) != |value|
    ensures Notify(s, value) == Handled(s, [], Ignored)
  {
  }

  /** No code passes both `dev == 0x05` and one of the inner tests: the block never queues. */
  lemma DormantConfigNeverRuns(port: int, dev: int)
    ensures React(port, dev) == [CallOf(RequestPortInformation(port))]
  {
    if dev == 0x05 {
      assert DormantConfig(port, dev) == [];
    }
  }

  /** An attach stores the device, overwriting the entry, and the only command submitted is the
      port-information request [5, 0, 0x21, port, 1]. A negative port makes that request raise,
      after the table was updated. */
  lemma AttachRequestsPortInformation(s: Session, value: seq<byte>)
    requires Fifo.Valid(s.pipe)
    requires Receive(value) == Accepted(0x04) && |value| >= 6 && Signed8(value[4]) == 1
    ensures var h := Notify(s, value);
            var port, dev := Signed8(value[3]), Signed8(value[5]);
            && h.session.ports == s.ports[port := Some(dev)]
            && (0 <= port ==> Submitted(s, h, [[5, 0, PortInformationRequest, port, 1]]) && h.notice == Attached(port, dev))
            && (port < 0 ==> h.session.pipe == s.pipe && h.written == [] && h.notice == Fault)
  {
    var port, dev := Signed8(value[3]), Signed8(value[5]);
    DormantConfigNeverRuns(port, dev);
    PortInformationRequestLayout(port);
    AttachUpdatesOnlyItsPort(s, value, React);
  }

  /** The frames of the mode requests: mode k / 5, information type k % 5. */
  function ModeRequestFrames(port: byte, count: byte): (r: seq<seq<byte>>)
    ensures |r| == 5 * count
  {
    seq(5 * count, k requires 0 <= k < 5 * count => [6, 0, PortModeInformationRequest, port, k / 5, k % 5])
  }

  /** A port-information reply of type 1 announcing n modes submits exactly 5 n requests of type
      0x22, ordered by mode and, within a mode, by information type 0 to 4. */
  lemma PortInformationFansOut(s: Session, value: seq<byte>)
    requires Fifo.Valid(s.pipe)
    requires Receive(value) == Accepted(0x43) && |value| >= 11 && value[4] == 1
    ensures var h := Notify(s, value);
            && h.session.ports == s.ports
            && Submitted(s, h, ModeRequestFrames(value[3], value[6]))
            && h.notice.PortInfo? && h.notice.modeCount == value[6]
  {
    ModeRequestsSend(value[3], value[6]);
    assert Notify(s, value) == PortInformation(s, value);
  }

  /** Every mode request sends its frame. */
  lemma ModeRequestsSend(port: byte, count: byte)
    ensures RunCalls(ModeRequests(port, count)) == Effects(ModeRequestFrames(port, count), false)
  {
    var calls := ModeRequests(port, count);
    forall k | 0 <= k < |calls|
      ensures calls[k].Sends? && calls[k].frame == ModeRequestFrames(port, count)[k]
    {
      PortModeRequestLayout(port, k / 5, k % 5);
    }
    assert RunCalls(calls).frames == ModeRequestFrames(port, count);
  }

  /** Every key of the table was read as a signed byte. */
  ghost predicate SignedKeys(ports: PortTable)
  {
    forall k :: k in ports ==> -128 <= k < 128
  }

  /** The table only ever holds signed-byte keys. */
  lemma NotifyKeepsSignedKeys(s: Session, value: seq<byte>)
    requires SignedKeys(s.ports)
    ensures SignedKeys(Notify(s, value).session.ports)
  {
  }

  /** Consequently a sensor report whose port byte is 0x80 or more, read unsigned, is never
      found in the table and raises. */
  lemma HighSensorPortRaises(s: Session, value: seq<byte>)
    requires SignedKeys(s.ports)
    requires Receive(value) == Accepted(0x45) && |value| >= 4 && value[3] >= 0x80
    ensures Notify(s, value) == Handled(s, [], Fault)
  {
  }

  /** A sensor report reads the port's device through the hub monitor's decoder; a port without
      key raises, a detached one is an unknown sensor. */
  lemma SensorReport(s: Session, value: seq<byte>)
    requires Receive(value) == Accepted(0x45) && |value| >= 4
    ensures Notify(s, value).session == s && Notify(s, value).written == []
    ensures value[3] !in s.ports ==> Notify(s, value).notice == Fault
    ensures value[3] in s.ports && s.ports[value[3]] == None ==>
              Notify(s, value).notice == SensorValue(value[3], UnknownSensor)
    ensures value[3] in s.ports && DecodeHub(s.ports[value[3]], value[4..]).Value? ==>
              Notify(s, value).notice == SensorValue(value[3], DecodeHub(s.ports[value[3]], value[4..]).reading)
  {
  }

  /** Mode information only reports: name and symbol must be ASCII text (decode('ascii')
      raises otherwise), a range must be exactly two floats, other types are unknown. */
  lemma ModeInformationCases(s: Session, value: seq<byte>)
    requires Receive(value) == Accepted(0x44) && |value| >= 6
    ensures Notify(s, value).session == s && Notify(s, value).written == []
    ensures value[5] == 0 || value[5] == 4 ==> (Notify(s, value).notice == Fault <==> !Ascii(value[6..]))
    ensures 1 <= value[5] <= 3 ==> (Notify(s, value).notice == Fault <==> |value| != 14)
    ensures value[5] > 4 ==> Notify(s, value).notice == UnknownModeInfo(value[3], value[4], value[5])
  {
  }

  /** Only attach events and port-information replies can submit commands or change the
      table: every other message type leaves the session as it is. */
  lemma OtherTypesKeepSession(s: Session, value: seq<byte>, msgType: int)
    requires Receive(value) == Accepted(msgType) && msgType != 0x04 && msgType != 0x43
    ensures Notify(s, value).session == s && Notify(s, value).written == []
  {
  }

  /** At connection the hub monitor writes the button-report request and queues the orange LED and the name
      request behind it. */
  lemma ResolvedFrames(s: Session, f1: seq<byte>, f2: seq<byte>, f3: seq<byte>)
    requires !s.pipe.inFlight && s.pipe.queue == []
    requires f1 == [5, 0, HubProperty, 2, 2] && f2 == [8, 0, PortOutput, LedPort, 0x11, 0x51, 0, 8] && f3 == [5, 0, HubProperty, 1, 2]
    ensures Resolved(s).written == [f1]
    ensures Resolved(s).session.pipe == Fifo.Pipe(true, [f2, f3])
    ensures Resolved(s).notice == Ignored
  {
    ResolvedSends(s, f1, f2, f3);
    QueueThreeFromIdle(s, f1, f2, f3, Ignored);
  }

  /** services_resolved's three calls all send. */
  lemma ResolvedSends(s: Session, f1: seq<byte>, f2: seq<byte>, f3: seq<byte>)
    requires f1 == [5, 0, HubProperty, 2, 2] && f2 == [8, 0, PortOutput, LedPort, 0x11, 0x51, 0, 8] && f3 == [5, 0, HubProperty, 1, 2]
    ensures Resolved(s) == Queue(s, [Sends(f1), Sends(f2), Sends(f3)], Ignored)
  {
    OrangeCall(f2);
    PropertyCall(2, 2, f1);
    PropertyCall(1, 2, f3);
  }

  lemma OrangeCall(f: seq<byte>)
    requires f == [8, 0, PortOutput, LedPort, 0x11, 0x51, 0, 8]
    ensures LedSetColorArg(MonitorColors, Named("orange")) == Sends(f)
  {
    var orange := 8;
    LedColorCall(MonitorColors, "orange", orange);
  }

  lemma PropertyCall(p: int, op: int, f: seq<byte>)
    requires 0 <= p < 256 && 0 <= op < 256 && f == [5, 0, HubProperty, p, op]
    ensures CallOf(SetHubProperty(p, op)) == Sends(f)
  {
    SetHubPropertyCall(p, op);
  }
}
