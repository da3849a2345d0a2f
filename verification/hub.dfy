/**
 What the three LEGO hub programs (hub monitor, Boost monitor, colour echo) share:
 the session state of a connected hub (the port table device_on_port and the send_cmd
 pipeline), the outcome of one notification, and the parts of
 characteristic_value_updated that are written the same way in each program.
 */
module LegoHub {
  import opened Options
  import opened Bytes
  import opened LegoFrame
  import opened LegoSensor
  import Fifo

  /** device_on_port: the device type last attached to a port, None once detached. */
  type PortTable = map<int, Option<int>>

  datatype Session = Session(ports: PortTable, pipe: Fifo.Pipe<seq<byte>>)

  /** A freshly created device object: empty table, nothing in flight. */
  function Fresh(): Session
  {
    Session(map[], Fifo.Init())
  }

  /** What a handler reports (it prints it); Fault stands for the exception it raised. */
  datatype Notice =
    | Ignored                                     // dropped by the length check, or no branch
    | Fault                                       // struct.error, KeyError or ValueError
    | Terminated                                  // exit(-1)
    | DeviceName(name: seq<byte>)
    | Button(pressed: bool)
    | UnknownProperty(subtype: int)
    | Detached(port: int)
    | Attached(port: int, device: int)
    | Coupled(device: int, port1: int, port2: int)
    | UnknownPortEvent(event: int)
    | HubError(data: seq<byte>)
    | PortInfo(port: int, capabilities: int, modeCount: int, inputModes: int, outputModes: int)
    | UnsupportedInfo(port: int, infoType: int)
    | ModeText(port: int, mode: int, infoType: int, text: seq<byte>)
    | ModeRange(port: int, mode: int, infoType: int, raw: seq<byte>)
    | UnknownModeInfo(port: int, mode: int, infoType: int)
    | SensorValue(port: int, reading: Reading)
    | ConfigAck(port: int)
    | OutputAck(port: int, code: int)
    | ColorSeen(color: int)
    | UnknownMessage(msgType: int, data: seq<byte>)

  /** The session after a callback, the frames written to the characteristic, and the notice. */
  datatype Handled = Handled(session: Session, written: seq<seq<byte>>, notice: Notice)

  function Unchanged(s: Session, n: Notice): Handled
  {
    Handled(s, [], n)
  }

  /** The command helpers a branch calls run in order through send_cmd; the first one that
      raises ends the handler, after the frames before it were submitted. */
  function Queue(s: Session, calls: seq<Call>, notice: Notice): (h: Handled)
    ensures h.session.ports == s.ports
    ensures |h.written| <= 1
    ensures Fifo.Valid(s.pipe) ==>
              Fifo.Valid(h.session.pipe) && s.pipe.queue + RunCalls(calls).frames == h.written + h.session.pipe.queue
    ensures RunCalls(calls).frames == [] ==> h.session == s && h.written == []
    ensures notice != Fault ==> (h.notice == Fault <==> RunCalls(calls).raised)
  {
    var e := RunCalls(calls);
    var st := Fifo.SubmitAll(s.pipe, e.frames);
    Handled(Session(s.ports, st.pipe), st.written, if e.raised then Fault else notice)
  }

  /** The frames a handler put into the pipeline: those written now followed by those that
      joined the end of the queue. */
  ghost predicate Submitted(s: Session, h: Handled, frames: seq<seq<byte>>)
  {
    && Fifo.Valid(h.session.pipe)
    && s.pipe.queue + frames == h.written + h.session.pipe.queue
  }

  /** From an idle pipeline, a handler whose calls all send writes the first frame and
      queues the others in order. */
  lemma QueueFromIdle(s: Session, calls: seq<Call>, frames: seq<seq<byte>>, notice: Notice)
    requires !s.pipe.inFlight && s.pipe.queue == [] && notice != Fault
    requires |frames| >= 1 && |calls| == |frames|
    requires forall i :: 0 <= i < |calls| ==> calls[i] == Sends(frames[i])
    ensures Queue(s, calls, notice) == Handled(Session(s.ports, Fifo.Pipe(true, frames[1..])), [frames[0]], notice)
  {
    var e := RunCalls(calls);
    assert e.frames == frames;
    assert !e.raised;
    Fifo.SubmitAllFromIdle(s.pipe, frames);
  }

  /** The same for a handler making three calls. */
  lemma QueueThreeFromIdle(s: Session, f1: seq<byte>, f2: seq<byte>, f3: seq<byte>, notice: Notice)
    requires !s.pipe.inFlight && s.pipe.queue == [] && notice != Fault
    ensures Queue(s, [Sends(f1), Sends(f2), Sends(f3)], notice) ==
              Handled(Session(s.ports, Fifo.Pipe(true, [f2, f3])), [f1], notice)
  {
    QueueFromIdle(s, [Sends(f1), Sends(f2), Sends(f3)], [f1, f2, f3], notice);
    assert [f1, f2, f3][1..] == [f2, f3];
  }

  /** characteristic_write_value_succeeded. */
  function WriteSucceeded(s: Session): (h: Handled)
    ensures h.session.ports == s.ports && h.notice == Ignored
    ensures s.pipe.queue == h.written + h.session.pipe.queue
  {
    var st := Fifo.Ack(s.pipe);
    Handled(Session(s.ports, st.pipe), st.written, Ignored)
  }

  /** characteristic_write_value_failed only prints: the session stays as it is. */
  function WriteFailed(s: Session): (h: Handled)
    ensures h.session == s && h.written == []
  {
    Unchanged(s, Ignored)
  }

  // ---------------------------------------------------------------------------
  // Branches written alike in the programs
  // ---------------------------------------------------------------------------

  /** Message type 0x01: subtype 1 carries the device name from byte 5 on, subtype 2 the
      button state as byte 5 read with format '?'. */
  function HubPropertyNotice(value: seq<byte>): Notice
  {
    if |value| < 4 then Fault
    else if Signed8(value[3]) == 1 then DeviceName(if |value| > 5 then value[5..] else [])
    else if Signed8(value[3]) == 2 then (if |value| < 6 then Fault else Button(value[5] != 0))
    else UnknownProperty(Signed8(value[3]))
  }

  /** Message type 0x04 of the two monitors: event 0 detaches, event 1 attaches and runs the
      program's reaction to the new device, event 2 reports two coupled ports. Port, event and
      device are read as signed bytes. */
  function PortEvent(s: Session, value: seq<byte>, react: (int, int) -> seq<Call>): Handled
  {
    if |value| < 5 then Unchanged(s, Fault)
    else
      var port, event := Signed8(value[3]), Signed8(value[4]);
      if event == 0 then Unchanged(s.(ports := s.ports[port := None]), Detached(port))
      else if event == 1 then
        if |value| < 6 then Unchanged(s, Fault)
        else
          var dev := Signed8(value[5]);
          Queue(s.(ports := s.ports[port := Some(dev)]), react(port, dev), Attached(port, dev))
      else if event == 2 then
        if |value| < 9 then Unchanged(s, Fault)
        else Unchanged(s, Coupled(Signed8(value[5]), Signed8(value[7]), Signed8(value[8])))
      else Unchanged(s, UnknownPortEvent(event))
  }

  /** Message type 0x45: the port's entry picks the decoder; a port never attached is a
      failed dictionary lookup. */
  function SensorNotice(ports: PortTable, port: int, payload: seq<byte>,
                        decode: (Option<int>, seq<byte>) -> Decoded): Notice
  {
    if port !in ports then Fault
    else
      match decode(ports[port], payload)
      case Value(r) => SensorValue(port, r)
      case DecodeError => Fault
      case Exits => Terminated
  }

  /** Message types 0x05, 0x47 and 0x82, and the fall-through for any other type. */
  function OtherNotice(msgType: int, value: seq<byte>): Notice
    requires |value| >= 3
  {
    if msgType == 0x05 then HubError(value[3..])
    else if msgType == 0x47 then (if |value| < 4 then Fault else ConfigAck(Signed8(value[3])))
    else if msgType == 0x82 then (if |value| < 5 then Fault else OutputAck(value[3], value[4]))
    else UnknownMessage(msgType, value[3..])
  }

  // ---------------------------------------------------------------------------
  // Properties of the shared branches
  // ---------------------------------------------------------------------------

  /** An attach event stores the device for its port, overwriting any earlier entry, and
      touches no other entry; the reaction's frames are submitted in order. */
  lemma AttachUpdatesOnlyItsPort(s: Session, value: seq<byte>, react: (int, int) -> seq<Call>)
    requires Fifo.Valid(s.pipe)
    requires |value| >= 6 && Signed8(value[4]) == 1
    ensures var h := PortEvent(s, value, react);
            var port, dev := Signed8(value[3]), Signed8(value[5]);
            && h.session.ports == s.ports[port := Some(dev)]
            && h.session.ports[port] == Some(dev)
            && (forall q :: q != port ==> (q in h.session.ports <==> q in s.ports))
            && (forall q :: q != port && q in s.ports ==> h.session.ports[q] == s.ports[q])
            && Submitted(s, h, RunCalls(react(port, dev)).frames)
  {
  }

  /** A detach event sets the port's entry to None (it keeps the key), submits nothing and
      touches no other entry. */
  lemma DetachKeepsKey(s: Session, value: seq<byte>, react: (int, int) -> seq<Call>)
    requires |value| >= 5 && Signed8(value[4]) == 0
    ensures var h := PortEvent(s, value, react);
            var port := Signed8(value[3]);
            && h.session.ports == s.ports[port := None]
            && port in h.session.ports && h.session.ports[port] == None
            && (forall q :: q != port && q in s.ports ==> q in h.session.ports && h.session.ports[q] == s.ports[q])
            && h.session.pipe == s.pipe && h.written == []
            && h.notice == Detached(port)
  {
  }

  /** Every other port event leaves the session as it is. */
  lemma OtherPortEventsKeepSession(s: Session, value: seq<byte>, react: (int, int) -> seq<Call>)
    requires |value| < 5 || (Signed8(value[4]) != 0 && Signed8(value[4]) != 1) || (|value| < 6 && Signed8(value[4]) == 1)
    ensures PortEvent(s, value, react).session == s
    ensures PortEvent(s, value, react).written == []
  {
  }

  /** The button state is true exactly when byte 5 is not zero; the name is everything from byte 5. */
  lemma HubPropertyCases(value: seq<byte>)
    requires |value| >= 6
    ensures Signed8(value[3]) == 2 ==> HubPropertyNotice(value) == Button(value[5] != 0)
    ensures Signed8(value[3]) == 1 ==> HubPropertyNotice(value) == DeviceName(value[5..])
    ensures Signed8(value[3]) != 1 && Signed8(value[3]) != 2 ==> HubPropertyNotice(value).UnknownProperty?
  {
  }

  /** The acknowledgements: 0x47 names the port read signed, 0x82 the port and the code read
      unsigned; a frame too short for its format raises. 0x05 reports the bytes after the type. */
  lemma AcknowledgementCases(value: seq<byte>)
    requires |value| >= 3
    ensures |value| >= 4 ==> OtherNotice(0x47, value) == ConfigAck(Signed8(value[3]))
    ensures |value| >= 5 ==> OtherNotice(0x82, value) == OutputAck(value[3], value[4])
    ensures |value| < 4 ==> OtherNotice(0x47, value) == Fault
    ensures |value| < 5 ==> OtherNotice(0x82, value) == Fault
    ensures OtherNotice(0x05, value) == HubError(value[3..])
  {
  }

  /** A reading for a port the table has no key for raises; a key whose device was detached
      reads as an unknown sensor. */
  lemma SensorLookup(ports: PortTable, port: int, payload: seq<byte>)
    ensures port !in ports ==> SensorNotice(ports, port, payload, DecodeBoost) == Fault
    ensures port !in ports ==> SensorNotice(ports, port, payload, DecodeHub) == Fault
    ensures port in ports && ports[port] == None ==>
              SensorNotice(ports, port, payload, DecodeBoost) == SensorValue(port, UnknownSensor)
    ensures port in ports && ports[port] == None ==>
              SensorNotice(ports, port, payload, DecodeHub) == SensorValue(port, UnknownSensor)
  {
  }
}
