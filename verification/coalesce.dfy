/**
 The coalescing write policy of the fischertechnik device classes: instead of a
 queue there is one slot per output that holds only the most recent value
 waiting to be written. The ack handler tests the slots for Python truthiness,
 so a waiting value of 0 is treated like an empty slot and never written.
 */
module Coalesce {
  import opened Options
  import opened Bytes

  /** Python truthiness of a waiting value: None and 0 are both false. */
  predicate Truthy(v: Option<byte>)
  {
    v.Some? && v.value != 0
  }

  // ---------------------------------------------------------------------------
  // One slot: FtBtSmartDevice (carousel), output M1
  // ---------------------------------------------------------------------------

  /** write_in_progress and outstanding_m1_value. */
  datatype Slot = Slot(inFlight: bool, pending: Option<byte>)

  /** The slot after a callback and the values written to M1. */
  datatype Step = Step(slot: Slot, written: seq<byte>)

  /** The state right after service resolution: the Channel write of [1] is in flight. */
  const Resolved := Slot(true, None)

  /** run(v): write at once when idle, otherwise overwrite the waiting value. */
  function Run(s: Slot, v: byte): (r: Step)
    ensures r.slot.inFlight && |r.written| <= 1
    ensures r.written == [] <==> s.inFlight
    ensures s.inFlight ==> r.slot.pending == Some(v)
    ensures !s.inFlight ==> r.slot.pending == s.pending && r.written == [v]
  {
    if s.inFlight then Step(Slot(true, Some(v)), [])
    else Step(Slot(true, s.pending), [v])
  }

  /** characteristic_write_value_succeeded as written: a falsy waiting value (None or 0)
      ends the write cycle and is left where it is. */
  function Ack(s: Slot): (r: Step)
    ensures |r.written| <= 1
    ensures r.written != [] <==> Truthy(s.pending)
    ensures r.written != [] ==> r.written == [s.pending.value] && r.slot == Slot(s.inFlight, None)
    ensures r.written == [] ==> r.slot == Slot(false, s.pending)
  {
    if !Truthy(s.pending) then Step(Slot(false, s.pending), [])
    else Step(Slot(s.inFlight, None), [s.pending.value])
  }

  /** The ack handler with the test the comment in run() describes ("the value is stored
      and sent once the last command is confirmed"): any stored value is sent, 0 included. */
  function AckFixed(s: Slot): (r: Step)
    ensures |r.written| <= 1
    ensures r.written != [] <==> s.pending.Some?
    ensures r.written != [] ==> r.written == [s.pending.value] && r.slot == Slot(s.inFlight, None)
    ensures r.written == [] ==> r.slot == Slot(false, None)
  {
    if s.pending.None? then Step(Slot(false, None), [])
    else Step(Slot(s.inFlight, None), [s.pending.value])
  }

  /** Calling run for each value in turn. */
  function RunAll(s: Slot, vs: seq<byte>): Step
  {
    if vs == [] then Step(s, [])
    else
      var prev := RunAll(s, vs[..|vs| - 1]);
      var r := Run(prev.slot, vs[|vs| - 1]);
      Step(r.slot, prev.written + r.written)
  }

  /** Last wins: values submitted while a write is in flight overwrite each other, and
      only the latest is kept; nothing is written. */
  lemma {:induction false} LastWins(s: Slot, vs: seq<byte>)
    requires s.inFlight && vs != []
    ensures RunAll(s, vs).written == []
    ensures RunAll(s, vs).slot == Slot(true, Some(vs[|vs| - 1]))
  {
    if |vs| > 1 {
      LastWins(s, vs[..|vs| - 1]);
    }
  }

  /** Submitting several values during one write and then receiving the ack transmits
      exactly one of them, the last, provided it is not 0. */
  lemma CoalescedToLast(s: Slot, vs: seq<byte>)
    requires s.inFlight && vs != [] && vs[|vs| - 1] != 0
    ensures Ack(RunAll(s, vs).slot).written == [vs[|vs| - 1]]
    ensures Ack(RunAll(s, vs).slot).slot.inFlight
  {
    LastWins(s, vs);
  }

  /** A waiting 0 is never transmitted: the ack clears the flag instead. */
  lemma ZeroNeverSent(s: Slot)
    requires s.pending == Some(0)
    ensures Ack(s).written == [] && !Ack(s).slot.inFlight
  {
  }

  /** Because the Channel write sets the flag, the first run after service resolution
      is held back rather than written. */
  lemma FirstRunCoalesced(v: byte)
    ensures Run(Resolved, v).written == []
    ensures Run(Resolved, v).slot.pending == Some(v)
  {
  }

  // ---------------------------------------------------------------------------
  // The slot together with the transport
  // ---------------------------------------------------------------------------

  datatype Event = Ran(v: byte) | Acked | Failed

  /** The slot, the number of its writes the transport holds unanswered, all values
      written so far, and the last value the application asked for. */
  datatype Link = Link(slot: Slot, outstanding: int, written: seq<byte>, latest: Option<byte>)

  /** One event under either ack handler (fixed selects AckFixed). A failure only reports. */
  function Deliver(l: Link, e: Event, fixed: bool): Link
  {
    match e
    case Ran(v) =>
      var r := Run(l.slot, v);
      Link(r.slot, l.outstanding + |r.written|, l.written + r.written, Some(v))
    case Acked =>
      var r := if fixed then AckFixed(l.slot) else Ack(l.slot);
      Link(r.slot, l.outstanding - 1 + |r.written|, l.written + r.written, l.latest)
    case Failed =>
      Link(l.slot, l.outstanding - 1, l.written, l.latest)
  }

  function Replay(l: Link, evs: seq<Event>, fixed: bool): Link
  {
    if evs == [] then l else Deliver(Replay(l, evs[..|evs| - 1], fixed), evs[|evs| - 1], fixed)
  }

  /** The transport answers only writes it holds. */
  ghost predicate Legal(l: Link, evs: seq<Event>, fixed: bool)
  {
    forall k :: 0 <= k < |evs| ==> evs[k].Ran? || Replay(l, evs[..k], fixed).outstanding > 0
  }

  lemma LegalPrefix(l: Link, evs: seq<Event>, fixed: bool)
    requires evs != [] && Legal(l, evs, fixed)
    ensures Legal(l, evs[..|evs| - 1], fixed)
  {
    var pre := evs[..|evs| - 1];
    forall k | 0 <= k < |pre|
      ensures pre[k].Ran? || Replay(l, pre[..k], fixed).outstanding > 0
    {
      assert pre[..k] == evs[..k];
    }
  }

  ghost predicate Inv(l: Link)
  {
    0 <= l.outstanding <= 1 && (l.outstanding == 1 ==> l.slot.inFlight)
  }

  /** Under either ack handler at most one write is outstanding at any time. */
  lemma {:induction false} AtMostOneOutstanding(l: Link, evs: seq<Event>, fixed: bool)
    requires Inv(l) && Legal(l, evs, fixed)
    ensures Inv(Replay(l, evs, fixed))
  {
    if evs != [] {
      LegalPrefix(l, evs, fixed);
      AtMostOneOutstanding(l, evs[..|evs| - 1], fixed);
    }
  }

  /** A failure leaves the flag set with nothing outstanding: every later run is only
      stored, and nothing is written again. */
  lemma {:induction false} FailureStalls(l: Link, evs: seq<Event>, fixed: bool)
    requires l.slot.inFlight && l.outstanding == 0 && Legal(l, evs, fixed)
    ensures Replay(l, evs, fixed).written == l.written
    ensures Replay(l, evs, fixed).slot.inFlight && Replay(l, evs, fixed).outstanding == 0
  {
    if evs != [] {
      LegalPrefix(l, evs, fixed);
      FailureStalls(l, evs[..|evs| - 1], fixed);
    }
  }

  /** What the fixed handler keeps true: the value last asked for is either waiting in the
      slot or was the last value written, and nothing waits once the cycle ends. */
  ghost predicate Faithful(l: Link)
  {
    && (l.slot.pending.Some? ==> l.slot.inFlight && l.latest == l.slot.pending)
    && (l.latest.Some? && l.slot.pending.None? ==> l.written != [] && l.written[|l.written| - 1] == l.latest.value)
  }

  /** With the fixed handler the output always converges to the last requested value. */
  lemma {:induction false} FixedKeepsLatest(l: Link, evs: seq<Event>)
    requires Faithful(l)
    ensures Faithful(Replay(l, evs, true))
  {
    if evs != [] {
      FixedKeepsLatest(l, evs[..|evs| - 1]);
    }
  }

  /** The handler as written loses a final 0: after 1 has been written, run(0) during that
      write and the ack leave 1 as the last value written although 0 was requested. */
  lemma LastZeroLost()
    ensures var l := Link(Slot(true, None), 1, [1], Some(1));
            var r := Replay(l, [Ran(0), Acked], false);
            r.latest == Some(0) && r.written == [1] && !r.slot.inFlight && r.outstanding == 0
  {
    var l := Link(Slot(true, None), 1, [1], Some(1));
    assert [Ran(0), Acked][..1] == [Ran(0)];
    assert [Ran(0)][..0] == [];
  }

  /** The same two events under the fixed handler write the 0. */
  lemma LastZeroSentWhenFixed()
    ensures var l := Link(Slot(true, None), 1, [1], Some(1));
            Replay(l, [Ran(0), Acked], true).written == [1, 0]
  {
    assert [Ran(0), Acked][..1] == [Ran(0)];
    assert [Ran(0)][..0] == [];
  }

  // ---------------------------------------------------------------------------
  // Two slots: FtBtCtrlRcvDevice (race car), outputs M1 and servo M4
  // ---------------------------------------------------------------------------

  /** write_in_progress, outstanding_run and outstanding_steer. */
  datatype Slots = Slots(inFlight: bool, run: Option<byte>, steer: Option<byte>)

  /** A value written to the motor output M1 or to the servo output M4. */
  datatype Output = Motor(v: byte) | Servo(v: byte)

  datatype Step2 = Step2(slots: Slots, written: seq<Output>)

  /** run(v) on the race car. */
  function RunCar(s: Slots, v: byte): (r: Step2)
    ensures r.slots.inFlight && r.slots.steer == s.steer
    ensures r.written == [] <==> s.inFlight
    ensures s.inFlight ==> r.slots.run == Some(v)
    ensures !s.inFlight ==> r.written == [Motor(v)] && r.slots.run == s.run
  {
    if s.inFlight then Step2(Slots(true, Some(v), s.steer), [])
    else Step2(Slots(true, s.run, s.steer), [Motor(v)])
  }

  /** steer(v) on the race car. */
  function Steer(s: Slots, v: byte): (r: Step2)
    ensures r.slots.inFlight && r.slots.run == s.run
    ensures r.written == [] <==> s.inFlight
    ensures s.inFlight ==> r.slots.steer == Some(v)
    ensures !s.inFlight ==> r.written == [Servo(v)] && r.slots.steer == s.steer
  {
    if s.inFlight then Step2(Slots(true, s.run, Some(v)), [])
    else Step2(Slots(true, s.run, s.steer), [Servo(v)])
  }

  /** The race car's ack handler: the run slot first, then the steer slot, one write per
      ack; the flag is cleared only when both slots are falsy. */
  function AckCar(s: Slots): (r: Step2)
    ensures |r.written| <= 1
    ensures r.written == [] <==> !Truthy(s.run) && !Truthy(s.steer)
    ensures r.written == [] ==> r.slots == Slots(false, s.run, s.steer)
    ensures Truthy(s.run) ==> r.written == [Motor(s.run.value)] && r.slots == Slots(s.inFlight, None, s.steer)
    ensures !Truthy(s.run) && Truthy(s.steer) ==>
              r.written == [Servo(s.steer.value)] && r.slots == Slots(s.inFlight, s.run, None)
  {
    if !Truthy(s.run) && !Truthy(s.steer) then Step2(Slots(false, s.run, s.steer), [])
    else if Truthy(s.run) then Step2(Slots(s.inFlight, None, s.steer), [Motor(s.run.value)])
    else Step2(Slots(s.inFlight, s.run, None), [Servo(s.steer.value)])
  }

  /** The race car's ack handler testing for a stored value instead of truthiness: a
      waiting 0 is written like any other value. */
  function AckCarFixed(s: Slots): (r: Step2)
    ensures |r.written| <= 1
    ensures r.written == [] <==> s.run.None? && s.steer.None?
    ensures r.written == [] ==> r.slots == Slots(false, None, None)
    ensures s.run.Some? ==> r.written == [Motor(s.run.value)] && r.slots == Slots(s.inFlight, None, s.steer)
    ensures s.run.None? && s.steer.Some? ==> r.written == [Servo(s.steer.value)] && r.slots == Slots(s.inFlight, None, None)
  {
    if s.run.None? && s.steer.None? then Step2(Slots(false, None, None), [])
    else if s.run.Some? then Step2(Slots(s.inFlight, None, s.steer), [Motor(s.run.value)])
    else Step2(Slots(s.inFlight, None, None), [Servo(s.steer.value)])
  }

  /** With both slots filled, three acks write the motor value, then the servo value,
      then end the cycle. */
  lemma RunBeforeSteer(a: byte, b: byte)
    requires a != 0 && b != 0
    ensures var s1 := AckCar(Slots(true, Some(a), Some(b)));
            var s2 := AckCar(s1.slots);
            var s3 := AckCar(s2.slots);
            s1.written + s2.written + s3.written == [Motor(a), Servo(b)] && !s3.slots.inFlight
  {
  }

  /** A waiting 0 in either slot is never transmitted. */
  lemma CarZeroNeverSent(s: Slots)
    requires s.run.Some? ==> s.run.value == 0
    requires s.steer.Some? ==> s.steer.value == 0
    ensures AckCar(s).written == [] && !AckCar(s).slots.inFlight
  {
  }

  /** Under the fixed handler a waiting 0 in either slot is written: the run slot first. */
  lemma CarZeroSentWhenFixed(s: Slots)
    requires s.inFlight && (s.run == Some(0) || (s.run.None? && s.steer == Some(0)))
    ensures AckCarFixed(s).written == (if s.run.Some? then [Motor(0)] else [Servo(0)])
    ensures AckCarFixed(s).slots.inFlight
  {
  }
}
