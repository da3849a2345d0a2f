/**
 ft_karussell.py: a carousel on a fischertechnik BT Smart Controller. A press of
 the switch on input I1 starts a ride; the main loop then advances the ride
 once per tick: speed up from 0 to 100 in steps of 1, run for 300 ticks, brake
 from 100 to 0, stop. Motor values go to output M1 through the single
 coalescing slot.
 */
module Karussell {
  import opened Options
  import opened Bytes
  import opened Ramps
  import Coalesce

  /** The states "starten", "fahren" and "bremsen"; None when no ride is active. */
  datatype Phase = Starting | Cruising | Braking

  datatype Ride = Ride(phase: Option<Phase>, counter: int)

  /** The ride before any press. */
  const Idle := Ride(None, 0)

  /** The counter ranges each phase keeps. */
  ghost predicate Valid(r: Ride)
  {
    match r.phase
    case None => true
    case Some(Starting) => 0 <= r.counter <= 100
    case Some(Cruising) => 0 <= r.counter <= 300
    case Some(Braking) => 0 <= r.counter <= 100
  }

  /** One main-loop tick: the ride afterwards and the value passed to run(), if any. */
  datatype Tick = Tick(ride: Ride, request: Option<int>)

  function Step(r: Ride): (t: Tick)
    ensures r.phase.None? ==> t == Tick(r, None)
    ensures Valid(r) ==> Valid(t.ride)
    ensures Valid(r) && t.request.Some? ==> 0 <= t.request.value <= 100
  {
    match r.phase
    case None => Tick(r, None)
    case Some(Starting) =>
      Tick(if r.counter < 100 then Ride(Some(Starting), r.counter + 1) else Ride(Some(Cruising), 0), Some(r.counter))
    case Some(Cruising) =>
      Tick(if r.counter < 300 then Ride(Some(Cruising), r.counter + 1) else Ride(Some(Braking), 100), None)
    case Some(Braking) =>
      Tick(if r.counter > 0 then Ride(Some(Braking), r.counter - 1) else Ride(None, r.counter), Some(r.counter))
  }

  /** The ride after n ticks. */
  function After(r: Ride, n: nat): Ride
    decreases n
  {
    if n == 0 then r else After(Step(r).ride, n - 1)
  }

  /** The values passed to run() during n ticks, in order. */
  function Requests(r: Ride, n: nat): seq<int>
    decreases n
  {
    if n == 0 then []
    else
      var t := Step(r);
      (if t.request.Some? then [t.request.value] else []) + Requests(t.ride, n - 1)
  }

  /** characteristic_value_updated: I1 as '<H' (exactly two bytes, otherwise struct.error);
      a resistance below 100 starts a ride when none is active. None stands for the error. */
  function Press(r: Ride, value: seq<byte>): (r': Option<Ride>)
    ensures r'.Some? <==> |value| == 2
    ensures Valid(r) && r'.Some? ==> Valid(r'.value)
  {
    if |value| != 2 then None
    else if ReadUnsigned(Little, value) < 100 && r.phase.None? then Some(Ride(Some(Starting), 0))
    else Some(r)
  }

  // ---------------------------------------------------------------------------
  // The device: the ride plus the M1 slot
  // ---------------------------------------------------------------------------

  datatype Carousel = Carousel(ride: Ride, slot: Coalesce.Slot)

  /** After service resolution: no ride, and the Channel write of [1] in flight. */
  const Resolved := Carousel(Idle, Coalesce.Resolved)

  /** The device after a tick, the values written to M1, and whether bytes() raised. */
  datatype Outcome = Outcome(carousel: Carousel, written: seq<byte>, fault: bool)

  /** A tick of the main loop with its run() call; bytes() raises outside 0..255. */
  function Advance(c: Carousel): (o: Outcome)
    ensures Valid(c.ride) ==> !o.fault && Valid(o.carousel.ride)
    ensures |o.written| <= 1
  {
    var t := Step(c.ride);
    match t.request
    case None => Outcome(Carousel(t.ride, c.slot), [], false)
    case Some(v) =>
      if 0 <= v < 256 then
        var s := Coalesce.Run(c.slot, v);
        Outcome(Carousel(t.ride, s.slot), s.written, false)
      else Outcome(Carousel(t.ride, c.slot), [], true)
  }

  /** characteristic_write_value_succeeded: the single-slot handler as written, or (fixed)
      the one that writes any stored value. */
  function Acknowledge(c: Carousel, fixed: bool): (o: Outcome)
    ensures o.carousel.ride == c.ride && !o.fault
    ensures !fixed ==> (o.written == [] <==> !Coalesce.Truthy(c.slot.pending))
    ensures fixed ==> (o.written == [] <==> c.slot.pending.None?)
    ensures o.written != [] ==> o.written == [c.slot.pending.value] && o.carousel.slot.pending.None?
  {
    var s := if fixed then Coalesce.AckFixed(c.slot) else Coalesce.Ack(c.slot);
    Outcome(Carousel(c.ride, s.slot), s.written, false)
  }

  // ---------------------------------------------------------------------------
  // Properties
  // ---------------------------------------------------------------------------

  /** A press starts a ride exactly when the reading is below 100 and no ride is active;
      presses while a ride runs change nothing. */
  lemma PressStartsOnlyWhenIdle(r: Ride, value: seq<byte>)
    requires |value| == 2
    ensures Press(r, value).value.phase == Some(Starting) && Press(r, value).value != r <==>
              ReadUnsigned(Little, value) < 100 && r.phase.None?
    ensures r.phase.Some? ==> Press(r, value) == Some(r)
  {
  }

  /** The reading is the little-endian unsigned value of the two bytes: byte 0 is the low one. */
  lemma PressReadsLittleEndian(r: Ride, value: seq<byte>)
    requires |value| == 2 && r.phase.None?
    ensures Press(r, value) == Some(Ride(Some(Starting), 0)) <==> value[0] as int + 256 * value[1] as int < 100
  {
    assert value[1..][1..] == [];
    assert FromLittleEndian(value[1..]) == value[1] as int;
    assert ReadUnsigned(Little, value) == value[0] as int + 256 * value[1] as int;
  }

  /** Ticks compose: n + m ticks are n ticks followed by m ticks. */
  lemma {:induction false} StepsCompose(r: Ride, n: nat, m: nat)
    ensures After(r, n + m) == After(After(r, n), m)
    ensures Requests(r, n + m) == Requests(r, n) + Requests(After(r, n), m)
    decreases n
  {
    if n > 0 {
      StepsCompose(Step(r).ride, n - 1, m);
      assert n + m - 1 == (n - 1) + m;
    }
  }

  /** Speeding up from k: 101 - k ticks request k, k + 1, ..., 100 and reach the cruise. */
  lemma {:induction false} SpeedUp(k: int)
    requires 0 <= k <= 100
    ensures After(Ride(Some(Starting), k), 101 - k) == Ride(Some(Cruising), 0)
    ensures Requests(Ride(Some(Starting), k), 101 - k) == Count(k, 1, 101 - k)
    decreases 100 - k
  {
    if k < 100 {
      SpeedUp(k + 1);
      assert 101 - k - 1 == 101 - (k + 1);
    }
  }

  /** Cruising from k: 301 - k ticks request nothing and start the braking at 100. */
  lemma {:induction false} Cruise(k: int)
    requires 0 <= k <= 300
    ensures After(Ride(Some(Cruising), k), 301 - k) == Ride(Some(Braking), 100)
    ensures Requests(Ride(Some(Cruising), k), 301 - k) == []
    decreases 300 - k
  {
    if k < 300 {
      Cruise(k + 1);
      assert 301 - k - 1 == 301 - (k + 1);
    }
  }

  /** Braking from k: k + 1 ticks request k, k - 1, ..., 0 and end the ride. */
  lemma {:induction false} Brake(k: int)
    requires 0 <= k <= 100
    ensures After(Ride(Some(Braking), k), k + 1) == Ride(None, 0)
    ensures Requests(Ride(Some(Braking), k), k + 1) == Count(k, -1, k + 1)
    decreases k
  {
    if k > 0 {
      Brake(k - 1);
    }
  }

  /** A whole ride: 503 ticks after a press the ride is over, and run() was called with
      0, 1, ..., 100 and then 100, 99, ..., 0. */
  lemma FullRide()
    ensures After(Ride(Some(Starting), 0), 503) == Ride(None, 0)
    ensures Requests(Ride(Some(Starting), 0), 503) == Count(0, 1, 101) + Count(100, -1, 101)
  {
    var start := Ride(Some(Starting), 0);
    SpeedUp(0);
    Cruise(0);
    Brake(100);
    StepsCompose(start, 101, 301);
    StepsCompose(start, 402, 101);
    assert Requests(start, 402) == Count(0, 1, 101) + [];
  }

  /** Every value a valid ride passes to run() lies in 0..100. */
  lemma {:induction false} RequestsInRange(r: Ride, n: nat)
    requires Valid(r)
    ensures forall i :: 0 <= i < |Requests(r, n)| ==> 0 <= Requests(r, n)[i] <= 100
    decreases n
  {
    if n > 0 {
      RequestsInRange(Step(r).ride, n - 1);
    }
  }

  /** Without a ride a tick does nothing. */
  lemma IdleStaysIdle(c: Carousel)
    requires c.ride.phase.None?
    ensures Advance(c) == Outcome(c, [], false)
  {
  }

  /** The first speed of a ride started before the Channel write was acknowledged is held
      in the slot; being 0 it is then dropped by the ack. */
  lemma FirstSpeedDropped()
    ensures var c := Carousel(Ride(Some(Starting), 0), Coalesce.Resolved);
            var o := Advance(c);
            var a := Acknowledge(o.carousel, false);
            && o.written == [] && o.carousel.slot.pending == Some(0)
            && a.written == [] && !a.carousel.slot.inFlight
  {
  }

  /** Finding, as written: when the last braking value 0 has to wait for a write in flight,
      the ack ends the write cycle without writing it, and the motor keeps turning at the
      speed last written. The fixed handler writes the 0. */
  lemma StopLost(s: Coalesce.Slot)
    requires s.inFlight && s.pending.None?
    ensures var o := Advance(Carousel(Ride(Some(Braking), 0), s));
            && o.written == [] && o.carousel.slot.pending == Some(0) && o.carousel.ride == Idle
            && Acknowledge(o.carousel, false).written == []
            && !Acknowledge(o.carousel, false).carousel.slot.inFlight
            && Acknowledge(o.carousel, true).written == [0]
  {
  }
}
