/**
 ft_rc_racer.py: a race car on a fischertechnik BT Control Receiver. Once the
 services are resolved the car drives a fixed course, one step per main-loop
 tick: speed up from 0 to 100 in steps of 5, drive straight for 20 ticks, steer
 to 80, drive the curve for 20 ticks, straighten to 0, brake from 100 to 0 in
 steps of 5, then stop and disconnect. Motor and servo values go through the
 two coalescing slots.
 */
module RcRacer {
  import opened Options
  import opened Bytes
  import opened Ramps
  import opened Coalesce

  /** The states "starten", "fahren", "kurve" and "bremsen"; None once the course ends. */
  datatype Phase = Starting | Straight | Curve | Braking

  datatype Ride = Ride(phase: Option<Phase>, counter: int)

  /** What a tick asks of the device: run(v), steer(v), or disconnect(). */
  datatype Action = RunAt(v: int) | SteerAt(v: int) | Hangup

  /** The counter ranges each phase keeps; the speeds stay multiples of 5. */
  ghost predicate Valid(r: Ride)
  {
    match r.phase
    case None => true
    case Some(Starting) => 0 <= r.counter <= 100 && r.counter % 5 == 0
    case Some(Straight) => 0 <= r.counter <= 20
    case Some(Curve) => 0 <= r.counter <= 20
    case Some(Braking) => 0 <= r.counter <= 100 && r.counter % 5 == 0
  }

  /** A value passed to run() or steer() that bytes() accepts and the course uses. */
  predicate InCourse(a: Action)
  {
    a.Hangup? || 0 <= a.v <= 100
  }

  datatype Tick = Tick(ride: Ride, actions: seq<Action>)

  /** One main-loop tick. */
  function Step(r: Ride): (t: Tick)
    ensures r.phase.None? ==> t == Tick(r, [])
    ensures Valid(r) ==> Valid(t.ride)
    ensures Valid(r) ==> forall i :: 0 <= i < |t.actions| ==> InCourse(t.actions[i])
  {
    match r.phase
    case None => Tick(r, [])
    case Some(Starting) =>
      Tick(if r.counter < 100 then Ride(Some(Starting), r.counter + 5) else Ride(Some(Straight), 0), [RunAt(r.counter)])
    case Some(Straight) =>
      if r.counter < 20 then Tick(Ride(Some(Straight), r.counter + 1), [])
      else Tick(Ride(Some(Curve), 0), [SteerAt(80)])
    case Some(Curve) =>
      if r.counter < 20 then Tick(Ride(Some(Curve), r.counter + 1), [])
      else Tick(Ride(Some(Braking), 100), [SteerAt(0)])
    case Some(Braking) =>
      if r.counter > 0 then Tick(Ride(Some(Braking), r.counter - 5), [RunAt(r.counter)])
      else Tick(Ride(None, r.counter), [RunAt(r.counter), Hangup])
  }

  function After(r: Ride, n: nat): Ride
    decreases n
  {
    if n == 0 then r else After(Step(r).ride, n - 1)
  }

  /** The actions of n ticks, in order. */
  function Actions(r: Ride, n: nat): seq<Action>
    decreases n
  {
    if n == 0 then [] else var t := Step(r); t.actions + Actions(t.ride, n - 1)
  }

  /** run() calls with the given speeds. */
  function Runs(vs: seq<int>): (r: seq<Action>)
    ensures |r| == |vs|
    ensures forall i :: 0 <= i < |vs| ==> r[i] == RunAt(vs[i])
  {
    if vs == [] then [] else [RunAt(vs[0])] + Runs(vs[1..])
  }

  // ---------------------------------------------------------------------------
  // The device: the course plus the two slots
  // ---------------------------------------------------------------------------

  datatype Racer = Racer(ride: Ride, slots: Slots)

  /** services_resolved: the Channel write of [1] is in flight and the course begins. */
  const Resolved := Racer(Ride(Some(Starting), 0), Slots(true, None, None))

  /** The slots after some actions, the outputs written, whether bytes() raised, and
      whether disconnect() was called. */
  datatype Applied = Applied(slots: Slots, written: seq<Output>, fault: bool, hangup: bool)

  function Apply(s: Slots, acts: seq<Action>): (a: Applied)
    ensures |a.written| <= 1
    ensures s.inFlight ==> a.written == [] && a.slots.inFlight
    ensures (forall i :: 0 <= i < |acts| ==> InCourse(acts[i])) ==> !a.fault
    decreases |acts|
  {
    if acts == [] then Applied(s, [], false, false)
    else
      match acts[0]
      case Hangup =>
        var rest := Apply(s, acts[1..]);
        rest.(hangup := true)
      case RunAt(v) =>
        if !(0 <= v < 256) then Applied(s, [], true, false)
        else
          var st := RunCar(s, v);
          var rest := Apply(st.slots, acts[1..]);
          Applied(rest.slots, st.written + rest.written, rest.fault, rest.hangup)
      case SteerAt(v) =>
        if !(0 <= v < 256) then Applied(s, [], true, false)
        else
          var st := Steer(s, v);
          var rest := Apply(st.slots, acts[1..]);
          Applied(rest.slots, st.written + rest.written, rest.fault, rest.hangup)
  }

  datatype Outcome = Outcome(racer: Racer, written: seq<Output>, fault: bool, hangup: bool)

  /** A tick of the main loop with the calls it makes. */
  function Advance(c: Racer): (o: Outcome)
    ensures Valid(c.ride) ==> !o.fault && Valid(o.racer.ride)
    ensures |o.written| <= 1
    ensures c.slots.inFlight ==> o.written == [] && o.racer.slots.inFlight
  {
    var t := Step(c.ride);
    var a := Apply(c.slots, t.actions);
    Outcome(Racer(t.ride, a.slots), a.written, a.fault, a.hangup)
  }

  /** n ticks of the main loop with no callback in between; an exception ends the loop. */
  function Ticks(c: Racer, n: nat): Outcome
    decreases n
  {
    if n == 0 then Outcome(c, [], false, false)
    else
      var first := Advance(c);
      if first.fault then first
      else
        var rest := Ticks(first.racer, n - 1);
        Outcome(rest.racer, first.written + rest.written, rest.fault, first.hangup || rest.hangup)
  }

  /** characteristic_write_value_succeeded: the two-slot handler as written, or (fixed) the
      one that writes any stored value. */
  function Acknowledge(c: Racer, fixed: bool): (o: Outcome)
    ensures o.racer.ride == c.ride && !o.fault && !o.hangup
    ensures !fixed ==> (o.written == [] <==> !Truthy(c.slots.run) && !Truthy(c.slots.steer))
    ensures fixed ==> (o.written == [] <==> c.slots.run.None? && c.slots.steer.None?)
  {
    var s := if fixed then AckCarFixed(c.slots) else AckCar(c.slots);
    Outcome(Racer(c.ride, s.slots), s.written, false, false)
  }

  // ---------------------------------------------------------------------------
  // Properties
  // ---------------------------------------------------------------------------

  lemma {:induction false} StepsCompose(r: Ride, n: nat, m: nat)
    ensures After(r, n + m) == After(After(r, n), m)
    ensures Actions(r, n + m) == Actions(r, n) + Actions(After(r, n), m)
    decreases n
  {
    if n > 0 {
      StepsCompose(Step(r).ride, n - 1, m);
      assert n + m - 1 == (n - 1) + m;
    }
  }

  lemma RunsCons(x: int, vs: seq<int>)
    ensures Runs([x] + vs) == [RunAt(x)] + Runs(vs)
  {
    assert ([x] + vs)[1..] == vs;
  }

  /** Speeding up from 5j: 21 - j ticks call run(5j), run(5j + 5), ..., run(100). */
  lemma {:induction false} SpeedUp(j: int)
    requires 0 <= j <= 20
    ensures After(Ride(Some(Starting), 5 * j), 21 - j) == Ride(Some(Straight), 0)
    ensures Actions(Ride(Some(Starting), 5 * j), 21 - j) == Runs(Count(5 * j, 5, 21 - j))
    decreases 20 - j
  {
    RunsCons(5 * j, Count(5 * j + 5, 5, 20 - j));
    if j < 20 {
      SpeedUp(j + 1);
      assert 21 - j - 1 == 21 - (j + 1);
      assert 5 * (j + 1) == 5 * j + 5;
    }
  }

  /** Driving straight from k: 21 - k ticks end with steer(80) and enter the curve. */
  lemma {:induction false} DriveStraight(k: int)
    requires 0 <= k <= 20
    ensures After(Ride(Some(Straight), k), 21 - k) == Ride(Some(Curve), 0)
    ensures Actions(Ride(Some(Straight), k), 21 - k) == [SteerAt(80)]
    decreases 20 - k
  {
    if k < 20 {
      DriveStraight(k + 1);
      assert 21 - k - 1 == 21 - (k + 1);
    }
  }

  /** Driving the curve from k: 21 - k ticks end with steer(0) and start braking at 100. */
  lemma {:induction false} DriveCurve(k: int)
    requires 0 <= k <= 20
    ensures After(Ride(Some(Curve), k), 21 - k) == Ride(Some(Braking), 100)
    ensures Actions(Ride(Some(Curve), k), 21 - k) == [SteerAt(0)]
    decreases 20 - k
  {
    if k < 20 {
      DriveCurve(k + 1);
      assert 21 - k - 1 == 21 - (k + 1);
    }
  }

  /** Braking from 5j: j + 1 ticks call run(5j), ..., run(0) and then disconnect. */
  lemma {:induction false} Brake(j: int)
    requires 0 <= j <= 20
    ensures After(Ride(Some(Braking), 5 * j), j + 1) == Ride(None, 0)
    ensures Actions(Ride(Some(Braking), 5 * j), j + 1) == Runs(Count(5 * j, -5, j + 1)) + [Hangup]
    decreases j
  {
    if j > 0 {
      BrakeStep(j);
      Brake(j - 1);
      BrakeRuns(j);
    } else {
      BrakeStop();
    }
  }

  /** One braking tick above 0: run(5j), then the braking continues from 5j - 5. */
  lemma BrakeStep(j: int)
    requires 0 < j <= 20
    ensures After(Ride(Some(Braking), 5 * j), j + 1) == After(Ride(Some(Braking), 5 * (j - 1)), j)
    ensures Actions(Ride(Some(Braking), 5 * j), j + 1) == [RunAt(5 * j)] + Actions(Ride(Some(Braking), 5 * (j - 1)), j)
  {
    assert Step(Ride(Some(Braking), 5 * j)) == Tick(Ride(Some(Braking), 5 * (j - 1)), [RunAt(5 * j)]);
  }

  lemma BrakeRuns(j: int)
    requires 0 < j <= 20
    ensures Runs(Count(5 * j, -5, j + 1)) == [RunAt(5 * j)] + Runs(Count(5 * (j - 1), -5, j))
  {
    assert Count(5 * j, -5, j + 1) == [5 * j] + Count(5 * (j - 1), -5, j);
    RunsCons(5 * j, Count(5 * (j - 1), -5, j));
  }

  /** The last braking tick: run(0) and disconnect. */
  lemma BrakeStop()
    ensures After(Ride(Some(Braking), 0), 1) == Ride(None, 0)
    ensures Actions(Ride(Some(Braking), 0), 1) == Runs(Count(0, -5, 1)) + [Hangup]
  {
    assert Count(0, -5, 1) == [0];
    RunsCons(0, []);
  }

  /** The whole course from service resolution: 84 ticks run 0, 5, ..., 100, steer to 80
      and back to 0, run 100, 95, ..., 0 and disconnect, after which nothing is left to do. */
  lemma FullCourse(start: Ride)
    requires start == Resolved.ride
    ensures After(start, 84) == Ride(None, 0)
    ensures Actions(start, 84) ==
              Runs(Count(0, 5, 21)) + [SteerAt(80)] + [SteerAt(0)] + (Runs(Count(100, -5, 21)) + [Hangup])
  {
    var zero, twenty, phase := 0, 20, 21;
    SpeedUp(zero);
    DriveStraight(zero);
    DriveCurve(zero);
    Brake(twenty);
    StepsCompose(start, phase, phase);
    StepsCompose(start, 2 * phase, phase);
    StepsCompose(start, 3 * phase, phase);
  }

  /** Every value a valid course passes to run() or steer() lies in 0..100. */
  lemma {:induction false} ActionsInCourse(r: Ride, n: nat)
    requires Valid(r)
    ensures forall i :: 0 <= i < |Actions(r, n)| ==> InCourse(Actions(r, n)[i])
    decreases n
  {
    if n > 0 {
      ActionsInCourse(Step(r).ride, n - 1);
    }
  }

  /** characteristic_write_value_failed only reports, so the flag stays set: with no ack to
      come, however many ticks pass, nothing more is written and the flag is never cleared. */
  lemma {:induction false} FailureStalls(c: Racer, n: nat)
    requires c.slots.inFlight
    ensures Ticks(c, n).written == [] && Ticks(c, n).racer.slots.inFlight
    decreases n
  {
    if n > 0 && !Advance(c).fault {
      FailureStalls(Advance(c).racer, n - 1);
    }
  }

  /** The first speed, 0, is held back by the Channel write and then dropped by its ack. */
  lemma FirstSpeedDropped()
    ensures var o := Advance(Resolved);
            var a := Acknowledge(o.racer, false);
            && o.written == [] && o.racer.slots.run == Some(0)
            && a.written == [] && !a.racer.slots.inFlight
  {
  }

  /** Finding, as written: when the straighten command steer(0) has to wait for a write in
      flight, the next ack (with no speed waiting) ends the write cycle and the servo stays
      at 80. */
  lemma StraightenLost(s: Slots)
    requires s.inFlight && s.run.None? && s.steer.None?
    ensures var o := Advance(Racer(Ride(Some(Curve), 20), s));
            && o.written == [] && o.racer.slots.steer == Some(0)
            && Acknowledge(o.racer, false).written == []
            && !Acknowledge(o.racer, false).racer.slots.inFlight
  {
  }

  /** Finding, corrected: under the fixed handler the same ack writes the servo value 0. */
  lemma StraightenSentWhenFixed(s: Slots)
    requires s.inFlight && s.run.None? && s.steer.None?
    ensures var o := Advance(Racer(Ride(Some(Curve), 20), s));
            Acknowledge(o.racer, true).written == [Servo(0)]
  {
  }
}
