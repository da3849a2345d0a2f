/**
 The FIFO write pipeline of the LEGO device classes (send_cmd with the
 write-succeeded handler) and of the WeDo class (set_output): one flag saying a
 write is in flight, plus the payloads waiting for it, oldest first. The
 transport is abstract: it acknowledges (or fails) writes it was given.
 */
module Fifo {

  /** output_in_progress and output_queue. */
  datatype Pipe<T> = Pipe(inFlight: bool, queue: seq<T>)

  function Init<T>(): Pipe<T>
  {
    Pipe(false, [])
  }

  /** The pipeline after a callback, and the payloads it wrote to the characteristic. */
  datatype Step<T> = Step(pipe: Pipe<T>, written: seq<T>)

  /** Nothing waits unless a write is in flight. */
  ghost predicate Valid<T>(p: Pipe<T>)
  {
    !p.inFlight ==> p.queue == []
  }

  /** send_cmd (set_output): write at once when idle, otherwise join the end of the queue. */
  function Submit<T>(p: Pipe<T>, x: T): (r: Step<T>)
    ensures r.pipe.inFlight && |r.written| <= 1
    ensures r.written == [] <==> p.inFlight
    ensures Valid(p) ==> p.queue + [x] == r.written + r.pipe.queue
  {
    if !p.inFlight then Step(Pipe(true, p.queue), [x])
    else Step(Pipe(true, p.queue + [x]), [])
  }

  /** characteristic_write_value_succeeded: write the oldest waiting payload, or go idle. */
  function Ack<T>(p: Pipe<T>): (r: Step<T>)
    ensures |r.written| <= 1
    ensures Valid(p) ==> Valid(r.pipe) && (r.pipe.inFlight <==> p.queue != [])
    ensures p.queue == r.written + r.pipe.queue
  {
    if |p.queue| == 0 then Step(Pipe(false, p.queue), [])
    else Step(Pipe(p.inFlight, p.queue[1..]), [p.queue[0]])
  }

  /** Several send_cmd calls in a row, as one handler makes them: at most the first is
      written, the rest join the queue in order. */
  function SubmitAll<T>(p: Pipe<T>, xs: seq<T>): (r: Step<T>)
    ensures |r.written| <= 1
    ensures xs == [] ==> r == Step(p, [])
    ensures xs != [] ==> r.pipe.inFlight && (r.written == [] <==> p.inFlight)
    ensures Valid(p) ==> Valid(r.pipe) && p.queue + xs == r.written + r.pipe.queue
    decreases |xs|
  {
    if xs == [] then Step(p, [])
    else
      var first := Submit(p, xs[0]);
      var rest := SubmitAll(first.pipe, xs[1..]);
      assert rest.written == [];
      SubmitAllOrder(p.queue, xs, first.written, first.pipe.queue, rest.pipe.queue);
      Step(rest.pipe, first.written + rest.written)
  }

  /** Sequence bookkeeping for one step of SubmitAll. */
  lemma SubmitAllOrder<T>(queue: seq<T>, xs: seq<T>, w: seq<T>, q: seq<T>, q': seq<T>)
    requires xs != []
    ensures queue + [xs[0]] == w + q && q + xs[1..] == q' ==> queue + xs == w + q'
  {
    if queue + [xs[0]] == w + q && q + xs[1..] == q' {
      calc {
      queue + xs;
      { assert xs == [xs[0]] + xs[1..]; }
      queue + ([xs[0]] + xs[1..]);
      (queue + [xs[0]]) + xs[1..];
      (w + q) + xs[1..];
        w + (q + xs[1..]);
      }
    }
  }

  /** From an idle pipeline, a handler's first payload is written and the others wait in order. */
  lemma SubmitAllFromIdle<T>(p: Pipe<T>, xs: seq<T>)
    requires !p.inFlight && p.queue == [] && xs != []
    ensures SubmitAll(p, xs).written == [xs[0]]
    ensures SubmitAll(p, xs).pipe == Pipe(true, xs[1..])
  {
    var r := SubmitAll(p, xs);
    assert xs == r.written + r.pipe.queue;
    assert |r.written| == 1;
    assert r.written[0] == xs[0];
    assert r.pipe.queue == xs[1..];
  }

  /** characteristic_write_value_failed only reports the error. */
  function Fail<T>(p: Pipe<T>): Step<T>
  {
    Step(p, [])
  }

  /** The callbacks the transport and the application drive the pipeline with. */
  datatype Event<T> = Submitted(x: T) | Acked | Failed

  function Handle<T>(p: Pipe<T>, e: Event<T>): Step<T>
  {
    match e
    case Submitted(x) => Submit(p, x)
    case Acked => Ack(p)
    case Failed => Fail(p)
  }

  /** The pipeline together with the transport: how many writes it holds unanswered,
      and every payload written so far. */
  datatype Link<T> = Link(pipe: Pipe<T>, outstanding: int, written: seq<T>)

  function Start<T>(): Link<T>
  {
    Link(Init(), 0, [])
  }

  /** One event: an answer (ack or failure) retires one outstanding write. */
  function Deliver<T>(l: Link<T>, e: Event<T>): Link<T>
  {
    var s := Handle(l.pipe, e);
    Link(s.pipe, l.outstanding - (if e.Submitted? then 0 else 1) + |s.written|, l.written + s.written)
  }

  function Replay<T>(l: Link<T>, evs: seq<Event<T>>): Link<T>
  {
    if evs == [] then l else Deliver(Replay(l, evs[..|evs| - 1]), evs[|evs| - 1])
  }

  /** The transport answers only writes it holds. */
  ghost predicate Legal<T>(l: Link<T>, evs: seq<Event<T>>)
  {
    forall k :: 0 <= k < |evs| ==> evs[k].Submitted? || Replay(l, evs[..k]).outstanding > 0
  }

  /** The payloads the application submitted, in order. */
  function Submissions<T>(evs: seq<Event<T>>): seq<T>
  {
    if evs == [] then []
    else Submissions(evs[..|evs| - 1]) + (if evs[|evs| - 1].Submitted? then [evs[|evs| - 1].x] else [])
  }

  /** A flag that is set while the transport holds nothing is a stalled pipeline. */
  ghost predicate Stalled<T>(l: Link<T>)
  {
    l.pipe.inFlight && l.outstanding == 0
  }

  /** The invariant: idle means empty and unanswered-free; at most one write is unanswered,
      and only while the flag is set. */
  ghost predicate Inv<T>(l: Link<T>)
  {
    && Valid(l.pipe)
    && 0 <= l.outstanding <= 1
    && (l.outstanding == 1 ==> l.pipe.inFlight)
  }

  lemma LegalPrefix<T>(l: Link<T>, evs: seq<Event<T>>)
    requires evs != [] && Legal(l, evs)
    ensures Legal(l, evs[..|evs| - 1])
  {
    var pre := evs[..|evs| - 1];
    forall k | 0 <= k < |pre|
      ensures pre[k].Submitted? || Replay(l, pre[..k]).outstanding > 0
    {
      assert pre[..k] == evs[..k];
    }
  }

  /** Whatever the interleaving of submissions, acks and failures, the transport never
      holds more than one write of this pipeline. */
  lemma {:induction false} AtMostOneOutstanding<T>(l: Link<T>, evs: seq<Event<T>>)
    requires Inv(l) && Legal(l, evs)
    ensures Inv(Replay(l, evs))
    ensures Replay(l, evs).outstanding <= 1
  {
    if evs != [] {
      var pre := evs[..|evs| - 1];
      LegalPrefix(l, evs);
      AtMostOneOutstanding(l, pre);
      assert evs[..|evs| - 1] == pre;
    }
  }

  /** One callback keeps the line intact: what was waiting plus what was submitted is
      what got written plus what waits now. */
  lemma HandleKeepsOrder<T>(p: Pipe<T>, e: Event<T>)
    requires Valid(p)
    ensures Valid(Handle(p, e).pipe)
    ensures p.queue + (if e.Submitted? then [e.x] else []) == Handle(p, e).written + Handle(p, e).pipe.queue
  {
  }

  /** Writes happen in submission order: the submissions are exactly the payloads
      written followed by those still queued. */
  lemma {:induction false} WritesInSubmissionOrder<T>(l: Link<T>, evs: seq<Event<T>>)
    requires Valid(l.pipe)
    ensures Valid(Replay(l, evs).pipe)
    ensures l.written + l.pipe.queue + Submissions(evs) == Replay(l, evs).written + Replay(l, evs).pipe.queue
  {
    if evs != [] {
      var pre := evs[..|evs| - 1];
      var e := evs[|evs| - 1];
      WritesInSubmissionOrder(l, pre);
      var prev := Replay(l, pre);
      HandleKeepsOrder(prev.pipe, e);
      var s := Handle(prev.pipe, e);
      var extra := if e.Submitted? then [e.x] else [];
      assert Submissions(evs) == Submissions(pre) + extra;
      Regroup(l.written + l.pipe.queue, Submissions(pre), extra, prev.written, prev.pipe.queue, s.written, s.pipe.queue);
      assert Replay(l, evs) == Deliver(prev, e);
    }
  }

  /** Sequence bookkeeping for one more event of WritesInSubmissionOrder. */
  lemma Regroup<T>(before: seq<T>, subs: seq<T>, extra: seq<T>, w: seq<T>, q: seq<T>, w': seq<T>, q': seq<T>)
    requires before + subs == w + q && q + extra == w' + q'
    ensures before + (subs + extra) == (w + w') + q'
  {
    calc {
      before + (subs + extra);
      (before + subs) + extra;
      (w + q) + extra;
      w + (q + extra);
      w + (w' + q');
    }
  }

  /** From the start, what has been written is a prefix of what was submitted. */
  lemma WrittenIsPrefix<T>(evs: seq<Event<T>>)
    ensures var w := Replay(Start(), evs).written;
            |w| <= |Submissions(evs)| && w == Submissions(evs)[..|w|]
  {
    WritesInSubmissionOrder(Start<T>(), evs);
    var l := Replay(Start<T>(), evs);
    assert Submissions(evs) == l.written + l.pipe.queue;
  }

  /** A failure changes neither the flag nor the queue and writes nothing, yet it answers
      the one outstanding write: the pipeline is left stalled. */
  lemma FailureStalls<T>(l: Link<T>)
    requires Inv(l) && l.outstanding == 1
    ensures Deliver(l, Failed).pipe == l.pipe
    ensures Deliver(l, Failed).written == l.written
    ensures Stalled(Deliver(l, Failed))
  {
  }

  /** Once stalled, nothing is ever written again: every later submission only queues. */
  lemma {:induction false} StalledForever<T>(l: Link<T>, evs: seq<Event<T>>)
    requires Stalled(l) && Legal(l, evs)
    ensures Stalled(Replay(l, evs))
    ensures Replay(l, evs).written == l.written
    ensures Replay(l, evs).pipe.queue == l.pipe.queue + Submissions(evs)
  {
    if evs != [] {
      var pre := evs[..|evs| - 1];
      var e := evs[|evs| - 1];
      LegalPrefix(l, evs);
      StalledForever(l, pre);
      assert evs[..|evs| - 1] == pre;
      var prev := Replay(l, pre);
      assert e.Submitted?;
      assert Replay(l, evs) == Deliver(prev, e);
      assert Submissions(evs) == Submissions(pre) + [e.x];
    }
  }
}
