/**
 lego_dino.py: the WeDo 2.0 hub. A two-slot table records what is plugged into
 ports 1 and 2; output commands go through the FIFO pipeline on the output
 characteristic, while the motion sensor's mode command is written directly to
 the mode characteristic. The ack handler does not look at which
 characteristic was acknowledged.
 */
module WeDo {
  import opened Options
  import opened Bytes
  import Fifo

  /** The names the table stores: "motor", "tilt", "motion", "unknown". */
  datatype Kind = Motor | Tilt | Motion | Unknown

  /** self.port: one entry for port 1 (index 0) and one for port 2 (index 1). */
  type Slots = s: seq<Option<Kind>> | |s| == 2 witness [None, None]

  datatype Dino = Dino(slots: Slots, pipe: Fifo.Pipe<seq<byte>>)

  function Start(): Dino
  {
    Dino([None, None], Fifo.Init())
  }

  /** The state after a callback, the payloads written to the output characteristic and
      to the mode characteristic, and whether the callback raised. */
  datatype Reaction = Reaction(dino: Dino, output: seq<seq<byte>>, modeSet: seq<seq<byte>>, fault: bool)

  function Same(d: Dino): Reaction
  {
    Reaction(d, [], [], false)
  }

  function Raise(d: Dino): Reaction
  {
    Reaction(d, [], [], true)
  }

  /** One callback after another; the second starts from the first one's state. */
  function Then(r1: Reaction, r2: Reaction): Reaction
  {
    Reaction(r2.dino, r1.output + r2.output, r1.modeSet + r2.modeSet, r2.fault)
  }

  /** The index self.port[port - 1] refers to: Python counts negative indices from the end,
      so ports 0 and -1 name the slots of ports 2 and 1; anything else is an IndexError. */
  function SlotIndex(port: int): (r: Option<nat>)
    ensures r.Some? <==> -1 <= port <= 2
    ensures r.Some? ==> r.value < 2
    ensures 1 <= port <= 2 ==> r == Some(port - 1)
    ensures port == 0 ==> r == Some(1)
  {
    var i := port - 1;
    if 0 <= i < 2 then Some(i)
    else if -2 <= i < 0 then Some(i + 2)
    else None
  }

  /** The device type of an attach event, by its WeDo code. */
  function Classify(t: int): Kind
  {
    if t == 1 then Motor
    else if t == 34 then Tilt
    else if t == 35 then Motion
    else Unknown
  }

  /** The mode command that puts a motion sensor into motion-detect mode. */
  function MotionMode(port: byte): seq<byte>
  {
    [1, 2, port, 35, 0, 1, 0, 0, 0, 2, 1]
  }

  /** Which ports a plug or value event is looked at for. As written the test is port <= 2;
      the comment next to it says only ports 1 and 2 matter. */
  predicate Watched(port: int, fixed: bool)
  {
    if fixed then 1 <= port <= 2 else port <= 2
  }

  /** The plug_event branch of characteristic_value_updated. Port and event are the first
      two bytes read signed, the device type is byte 3 read signed. */
  function Plug(d: Dino, value: seq<byte>, fixed: bool): (r: Reaction)
    ensures r.output == [] && r.dino.pipe == d.pipe
    ensures |r.modeSet| <= 1
  {
    if |value| < 2 then Raise(d)
    else
      var port, event := Signed8(value[0]), Signed8(value[1]);
      if !Watched(port, fixed) then Same(d)
      else if event == 0 then
        match SlotIndex(port)
        case None => Raise(d)
        case Some(i) => Same(d.(slots := d.slots[i := None]))
      else if event == 1 then
        if |value| < 4 then Raise(d)
        else
          var t := Signed8(value[3]);
          match SlotIndex(port)
          case None => Raise(d)
          case Some(i) =>
            var d' := d.(slots := d.slots[i := Some(Classify(t))]);
            if t != 35 then Same(d')
            else if port < 0 then Raise(d')    // bytes() refuses a negative value
            else Reaction(d', [], [MotionMode(port)], false)
      else Same(d)
  }

  /** What one output submission promises about the pipeline, given a well-formed one. */
  ghost predicate SubmitsOne(d: Dino, r: Reaction)
  {
    Fifo.Valid(d.pipe) ==>
      && Fifo.Valid(r.dino.pipe)
      && |r.output| <= 1
      && (r.output != [] ==> !d.pipe.inFlight && r.dino.pipe.inFlight)
      && (d.pipe.inFlight ==> r.dino.pipe.inFlight)
  }

  /** set_output: the FIFO pipeline on the output characteristic. */
  function SetOutput(d: Dino, data: seq<byte>): (r: Reaction)
    ensures r.dino.slots == d.slots && r.modeSet == [] && !r.fault
    ensures Fifo.Valid(d.pipe) ==> d.pipe.queue + [data] == r.output + r.dino.pipe.queue
    ensures SubmitsOne(d, r)
  {
    var st := Fifo.Submit(d.pipe, data);
    Reaction(d.(pipe := st.pipe), st.written, [], false)
  }

  /** set_motor: the loop range(1, 2) only ever visits port 1. bytes() raises for a speed
      outside 0..255. */
  function SetMotor(d: Dino, speed: int): (r: Reaction)
    ensures r.dino.slots == d.slots && r.modeSet == []
    ensures SubmitsOne(d, r)
  {
    if d.slots[0] != Some(Motor) then Same(d)
    else if !(0 <= speed < 256) then Raise(d)
    else SetOutput(d, [1, 1, 1, speed])
  }

  /** The colour table of set_color, indexed by distance 0 (close) to 9 (far). */
  const Shades: seq<int> := [9, 9, 9, 9, 8, 8, 7, 7, 6, 6]

  /** colors[value] with Python indexing: -10..-1 count from the end. */
  function Shade(v: int): Option<byte>
  {
    if 0 <= v < |Shades| then Some(Shades[v])
    else if -|Shades| <= v < 0 then Some(Shades[v + |Shades|])
    else None
  }

  /** set_color: [6, 4, 1, colour] through the output pipeline. */
  function SetColor(d: Dino, v: int): (r: Reaction)
    ensures r.dino.slots == d.slots && r.modeSet == []
    ensures r.fault <==> Shade(v).None?
    ensures SubmitsOne(d, r)
  {
    match Shade(v)
    case None => Raise(d)
    case Some(c) => SetOutput(d, [6, 4, 1, c])
  }

  /** Python's int() of a float: truncation toward zero. */
  function Trunc(x: real): int
  {
    if x >= 0.0 then x.Floor else -((-x).Floor)
  }

  /** The value_event branch. The distance is the IEEE float in bytes 2..5; its decoding is
      not modelled, so it arrives as the parameter motion, meaningful only when there are at
      least 6 bytes. Event and port are the first two bytes, in that order. */
  function Reading(d: Dino, value: seq<byte>, motion: real, fixed: bool): (r: Reaction)
    ensures r.dino.slots == d.slots && r.modeSet == []
    ensures SubmitsOne(d, r)
  {
    if |value| < 2 then Raise(d)
    else
      var port := Signed8(value[1]);
      if !Watched(port, fixed) then Same(d)
      else
        match SlotIndex(port)
        case None => Raise(d)
        case Some(i) =>
          if d.slots[i] != Some(Motion) then Same(d)
          else if |value| < 6 then Raise(d)
          else
            var shown := SetColor(d, Trunc(motion));
            if shown.fault then shown
            else if motion < 4.0 then Then(shown, SetMotor(shown.dino, 100))
            else if motion > 8.0 then Then(shown, SetMotor(shown.dino, 0))
            else shown
  }

  /** The two characteristics written to. */
  datatype Char = Output | ModeSet

  /** characteristic_write_value_succeeded as written: whichever characteristic was
      acknowledged, the output queue is popped. Fixed: only an output ack does that. */
  function Ack(d: Dino, c: Char, fixed: bool): (r: Reaction)
    ensures r.dino.slots == d.slots && r.modeSet == [] && !r.fault
    ensures |r.output| <= 1
    ensures Fifo.Valid(d.pipe) ==> Fifo.Valid(r.dino.pipe)
    ensures fixed && c == ModeSet ==> r == Same(d)
    ensures !(fixed && c == ModeSet) ==>
              && d.pipe.queue == r.output + r.dino.pipe.queue
              && (Fifo.Valid(d.pipe) ==> (r.dino.pipe.inFlight <==> d.pipe.queue != []))
  {
    if fixed && c == ModeSet then Same(d)
    else
      var st := Fifo.Ack(d.pipe);
      Reaction(d.(pipe := st.pipe), st.written, [], false)
  }

  // ---------------------------------------------------------------------------
  // Properties of the handlers
  // ---------------------------------------------------------------------------

  /** A plug event for port 1 or 2 touches only that port's slot: event 0 empties it,
      event 1 classifies type 1/34/35/other as motor/tilt/motion/unknown. */
  lemma PlugEventSlot(d: Dino, value: seq<byte>, fixed: bool)
    requires |value| >= 4 && 1 <= Signed8(value[0]) <= 2
    ensures var r := Plug(d, value, fixed);
            var port, event := Signed8(value[0]), Signed8(value[1]);
            && !r.fault
            && r.dino.slots[2 - port] == d.slots[2 - port]
            && (event == 0 ==> r.dino.slots[port - 1] == None)
            && (event == 1 ==> r.dino.slots[port - 1] == Some(Classify(Signed8(value[3]))))
            && (event != 0 && event != 1 ==> r.dino == d)
  {
  }

  /** The slot is motion exactly when the type is 35, motor exactly when it is 1. */
  lemma ClassifyCases(t: int)
    ensures Classify(t) == Motion <==> t == 35
    ensures Classify(t) == Motor <==> t == 1
    ensures Classify(t) == Tilt <==> t == 34
  {
  }

  /** Plug events for ports above 2 change nothing, as written and fixed alike. */
  lemma HighPortsIgnored(d: Dino, value: seq<byte>, fixed: bool)
    requires |value| >= 2 && Signed8(value[0]) > 2
    ensures Plug(d, value, fixed) == Same(d)
  {
  }

  /** Attaching a motion sensor to port 1 or 2 writes the mode command directly to the mode
      characteristic; the output pipeline is bypassed and unchanged. */
  lemma MotionSensorModeWrite(d: Dino, value: seq<byte>, fixed: bool)
    requires |value| >= 4 && 1 <= Signed8(value[0]) <= 2 && Signed8(value[1]) == 1 && value[3] == 35
    ensures Plug(d, value, fixed).modeSet == [[1, 2, value[0], 35, 0, 1, 0, 0, 0, 2, 1]]
    ensures Plug(d, value, fixed).output == [] && Plug(d, value, fixed).dino.pipe == d.pipe
  {
  }

  /** set_motor consults port 1's slot only: it queues [1, 1, 1, speed] when a motor is on
      port 1, and nothing otherwise, whatever is on port 2. */
  lemma MotorOnlyOnPortOne(d: Dino, speed: int)
    requires Fifo.Valid(d.pipe) && 0 <= speed < 256
    ensures var r := SetMotor(d, speed);
            && !r.fault
            && (d.slots[0] == Some(Motor) ==> d.pipe.queue + [[1, 1, 1, speed]] == r.output + r.dino.pipe.queue)
            && (d.slots[0] != Some(Motor) ==> r == Same(d))
  {
  }

  /** A negative speed raises in bytes(): the -100 to 100 range the comment promises cannot
      be sent. */
  lemma NegativeSpeedRaises(d: Dino, speed: int)
    requires d.slots[0] == Some(Motor) && speed < 0
    ensures SetMotor(d, speed) == Raise(d)
  {
  }

  /** For a distance 0..9 the colour is one of 6..9. */
  lemma ShadeRange(v: int)
    requires 0 <= v <= 9
    ensures Shade(v).Some? && 6 <= Shade(v).value <= 9
  {
  }

  /** The colour does not increase as the distance increases. */
  lemma ShadeMonotone(v: int, w: int)
    requires 0 <= v <= w <= 9
    ensures Shade(w).value <= Shade(v).value
  {
  }

  /** set_color(v) for a distance 0..9 queues [6, 4, 1, c] with c in 6..9. */
  lemma SetColorFrame(d: Dino, v: int)
    requires Fifo.Valid(d.pipe) && 0 <= v <= 9
    ensures var r := SetColor(d, v);
            && !r.fault
            && d.pipe.queue + [[6, 4, 1, Shade(v).value]] == r.output + r.dino.pipe.queue
            && 6 <= Shade(v).value <= 9
  {
  }

  /** A close obstacle (distance below 4) on a motion sensor shows the colour and then runs
      the motor on port 1 at 100: both go through the pipeline in that order. */
  lemma CloseObstacle(d: Dino, value: seq<byte>, motion: real, fixed: bool)
    requires Fifo.Valid(d.pipe) && |value| >= 6 && 1 <= Signed8(value[1]) <= 2
    requires d.slots[Signed8(value[1]) - 1] == Some(Motion) && d.slots[0] == Some(Motor)
    requires 0.0 <= motion < 4.0
    ensures var r := Reading(d, value, motion, fixed);
            && !r.fault
            && d.pipe.queue + [[6, 4, 1, Shade(motion.Floor).value], [1, 1, 1, 100]] == r.output + r.dino.pipe.queue
  {
    var shown := SetColor(d, motion.Floor);
    var r := Then(shown, SetMotor(shown.dino, 100));
    assert Reading(d, value, motion, fixed) == r;
    calc {
      d.pipe.queue + [[6, 4, 1, Shade(motion.Floor).value], [1, 1, 1, 100]];
      (d.pipe.queue + [[6, 4, 1, Shade(motion.Floor).value]]) + [[1, 1, 1, 100]];
      (shown.output + shown.dino.pipe.queue) + [[1, 1, 1, 100]];
      shown.output + (shown.dino.pipe.queue + [[1, 1, 1, 100]]);
    }
  }

  /** Finding, as written: a plug event for port 0 passes the test port <= 2 and lands in
      port 2's slot. */
  lemma PortZeroOverwritesPortTwo(d: Dino)
    ensures Plug(d, [0, 1, 0, 1], false).dino.slots == [d.slots[0], Some(Motor)]
    ensures Plug(d, [0, 0, 0, 0], false).dino.slots == [d.slots[0], None]
  {
  }

  /** Finding, corrected: only ports 1 and 2 reach the table, each its own slot. */
  lemma FixedPlugTouchesOwnSlot(d: Dino, value: seq<byte>)
    requires |value| >= 2
    ensures var port := Signed8(value[0]);
            var r := Plug(d, value, true);
            && (!(1 <= port <= 2) ==> r == Same(d))
            && (1 <= port <= 2 ==> r.dino.slots[2 - port] == d.slots[2 - port])
  {
  }

  // ---------------------------------------------------------------------------
  // The pipeline with the transport: how many writes each characteristic holds
  // ---------------------------------------------------------------------------

  /** The callbacks: service resolution (set_color(9)), the two notifications, and the
      transport's answers per characteristic. */
  datatype Event =
    | Resolve
    | PlugEvent(value: seq<byte>)
    | ValueEvent(value: seq<byte>, motion: real)
    | Acked(c: Char)
    | Failed(c: Char)

  function Handle(d: Dino, e: Event, fixed: bool): Reaction
  {
    match e
    case Resolve => SetColor(d, 9)
    case PlugEvent(value) => Plug(d, value, fixed)
    case ValueEvent(value, motion) => Reading(d, value, motion, fixed)
    case Acked(c) => Ack(d, c, fixed)
    case Failed(_) => Same(d)
  }

  /** The device with the number of unanswered writes on each characteristic. */
  datatype Link = Link(dino: Dino, outputHeld: int, modeHeld: int)

  const Begin := Link(Start(), 0, 0)

  function Answers(e: Event, c: Char): int
  {
    if e == Acked(c) || e == Failed(c) then 1 else 0
  }

  function Deliver(l: Link, e: Event, fixed: bool): Link
  {
    var r := Handle(l.dino, e, fixed);
    Link(r.dino, l.outputHeld - Answers(e, Output) + |r.output|, l.modeHeld - Answers(e, ModeSet) + |r.modeSet|)
  }

  function Replay(l: Link, evs: seq<Event>, fixed: bool): Link
  {
    if evs == [] then l else Deliver(Replay(l, evs[..|evs| - 1], fixed), evs[|evs| - 1], fixed)
  }

  /** The transport answers only writes it holds on that characteristic. */
  ghost predicate Legal(l: Link, evs: seq<Event>, fixed: bool)
  {
    forall k :: 0 <= k < |evs| ==>
      var m := Replay(l, evs[..k], fixed);
      (evs[k].Acked? || evs[k].Failed?) ==> (if evs[k].c == Output then m.outputHeld else m.modeHeld) > 0
  }

  ghost predicate Inv(l: Link)
  {
    && Fifo.Valid(l.dino.pipe)
    && 0 <= l.outputHeld <= 1
    && (l.outputHeld == 1 ==> l.dino.pipe.inFlight)
    && l.modeHeld >= 0
  }

  lemma LegalPrefix(l: Link, evs: seq<Event>, fixed: bool)
    requires evs != [] && Legal(l, evs, fixed)
    ensures Legal(l, evs[..|evs| - 1], fixed)
  {
    var pre := evs[..|evs| - 1];
    forall k | 0 <= k < |pre|
      ensures var m := Replay(l, pre[..k], fixed);
              (pre[k].Acked? || pre[k].Failed?) ==> (if pre[k].c == Output then m.outputHeld else m.modeHeld) > 0
    {
      assert pre[..k] == evs[..k];
    }
  }

  /** One legal event keeps the invariant when the ack handler checks the characteristic. */
  lemma DeliverKeepsInv(l: Link, e: Event)
    requires Inv(l)
    requires (e.Acked? || e.Failed?) ==> (if e.c == Output then l.outputHeld else l.modeHeld) > 0
    ensures Inv(Deliver(l, e, true))
  {
    match e
    case Resolve =>
    case PlugEvent(value) =>
    case ValueEvent(value, motion) =>
    case Acked(c) =>
    case Failed(c) =>
  }

  /** Finding, corrected: with the ack handler that ignores the mode characteristic, the
      transport never holds more than one output write. */
  lemma {:induction false} FixedAtMostOneOutput(evs: seq<Event>)
    requires Legal(Begin, evs, true)
    ensures Inv(Replay(Begin, evs, true))
    ensures Replay(Begin, evs, true).outputHeld <= 1
  {
    if evs != [] {
      var pre := evs[..|evs| - 1];
      LegalPrefix(Begin, evs, true);
      FixedAtMostOneOutput(pre);
      assert evs[..|evs| - 1] == pre;
      assert Legal(Begin, evs, true);
      var k := |evs| - 1;
      assert evs[..k] == pre;
      DeliverKeepsInv(Replay(Begin, pre, true), evs[k]);
    }
  }

  /** Finding, as written: the green light at start, a motion sensor on port 1, a reading at
      distance 5 (bytes 2..5 hold 5.0 as a little-endian float; its colour command waits in
      the queue), then the ack of the mode command:
      the ack pops the queue although the first output write is still unanswered, so the
      transport holds two output writes. */
  lemma ModeAckDoublesOutput(e0: Event, e1: Event, e2: Event, e3: Event)
    requires e0 == Resolve && e1 == PlugEvent([1, 1, 0, 35])
    requires e2 == ValueEvent([0, 1, 0, 0, 0xA0, 0x40], 5.0) && e3 == Acked(ModeSet)
    ensures Legal(Begin, [e0, e1, e2, e3], false)
    ensures Replay(Begin, [e0, e1, e2, e3], false).outputHeld == 2
  {
    var l1 := Link(Dino([None, None], Fifo.Pipe(true, [])), 1, 0);
    var l2 := Link(Dino([Some(Motion), None], Fifo.Pipe(true, [])), 1, 1);
    var l3 := Link(Dino([Some(Motion), None], Fifo.Pipe(true, [[6, 4, 1, 8]])), 1, 1);
    ResolveStep(Begin, l1);
    PlugStep(l1, e1, l2);
    ValueStep(l2, e2, l3);
    AckStep(l3, e3);
    ReplayOne(Begin, e0, false);
    ReplaySnoc(Begin, [e0], e1, false);
    ReplaySnoc(Begin, [e0, e1], e2, false);
    ReplaySnoc(Begin, [e0, e1, e2], e3, false);
    Displays(e0, e1, e2, e3);
    OnlyLastAnswered(Begin, [e0, e1, e2], e3, false);
  }

  /** Replay extends by one event at the end. */
  lemma ReplaySnoc(l: Link, pre: seq<Event>, e: Event, fixed: bool)
    ensures Replay(l, pre + [e], fixed) == Deliver(Replay(l, pre, fixed), e, fixed)
  {
    assert (pre + [e])[..|pre|] == pre;
  }

  lemma ReplayOne(l: Link, e: Event, fixed: bool)
    ensures Replay(l, [e], fixed) == Deliver(l, e, fixed)
  {
    assert [e][..0] == [];
  }

  lemma Displays(e0: Event, e1: Event, e2: Event, e3: Event)
    ensures [e0] + [e1] == [e0, e1] && [e0, e1] + [e2] == [e0, e1, e2] && [e0, e1, e2] + [e3] == [e0, e1, e2, e3]
  {
  }

  /** Events that answer no write followed by one answer that finds a write held form a
      legal sequence. */
  lemma OnlyLastAnswered(l: Link, pre: seq<Event>, e: Event, fixed: bool)
    requires forall x | x in pre :: !x.Acked? && !x.Failed?
    requires var m := Replay(l, pre, fixed);
             (e.Acked? || e.Failed?) ==> (if e.c == Output then m.outputHeld else m.modeHeld) > 0
    ensures Legal(l, pre + [e], fixed)
  {
    var evs := pre + [e];
    forall k | 0 <= k < |evs|
      ensures var m := Replay(l, evs[..k], fixed);
              (evs[k].Acked? || evs[k].Failed?) ==> (if evs[k].c == Output then m.outputHeld else m.modeHeld) > 0
    {
      if k < |pre| {
        assert evs[k] == pre[k] && pre[k] in pre;
      } else {
        assert evs[..k] == pre;
      }
    }
  }

  lemma ResolveStep(l: Link, l1: Link)
    requires l == Begin && l1 == Link(Dino([None, None], Fifo.Pipe(true, [])), 1, 0)
    ensures Deliver(l, Resolve, false) == l1
  {
  }

  lemma PlugStep(l1: Link, e: Event, l2: Link)
    requires l1 == Link(Dino([None, None], Fifo.Pipe(true, [])), 1, 0)
    requires e == PlugEvent([1, 1, 0, 35])
    requires l2 == Link(Dino([Some(Motion), None], Fifo.Pipe(true, [])), 1, 1)
    ensures Deliver(l1, e, false) == l2
  {
  }

  lemma ValueStep(l2: Link, e: Event, l3: Link)
    requires l2 == Link(Dino([Some(Motion), None], Fifo.Pipe(true, [])), 1, 1)
    requires e == ValueEvent([0, 1, 0, 0, 0xA0, 0x40], 5.0)
    requires l3 == Link(Dino([Some(Motion), None], Fifo.Pipe(true, [[6, 4, 1, 8]])), 1, 1)
    ensures Deliver(l2, e, false) == l3
  {
    assert Trunc(5.0) == 5;
  }

  lemma AckStep(l3: Link, e: Event)
    requires l3 == Link(Dino([Some(Motion), None], Fifo.Pipe(true, [[6, 4, 1, 8]])), 1, 1)
    requires e == Acked(ModeSet)
    ensures Deliver(l3, e, false).outputHeld == 2
  {
  }
}
