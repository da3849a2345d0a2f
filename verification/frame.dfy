/**
 The LEGO hub frame as the Boost / Powered Up device classes build and check it:
 one length byte (packed with struct format 'b', so at most 127), the message
 type as one big-endian 16-bit field (hub id and message type of the LEGO
 Wireless Protocol 3.0 common header read together), then the payload.
 The extended two-byte length of that protocol is not implemented: longer
 frames cannot be built and are dropped on reception.
 */
module LegoFrame {
  import opened Options
  import opened Bytes

  /** The largest total length the signed length byte can carry. */
  const MaxFrameLength := 127

  /** send_cmd's framing: None where struct.pack('>bH', ...) raises. */
  function Frame(msgType: int, data: seq<byte>): (r: Option<seq<byte>>)
    ensures r.Some? <==> |data| + 3 <= MaxFrameLength && 0 <= msgType < 0x1_0000
    ensures r.Some? ==> |r.value| == |data| + 3 && r.value[0] == |r.value|
    ensures r.Some? ==> ReadUnsigned(Big, r.value[1..3]) == msgType
    ensures r.Some? ==> r.value[3..] == data
  {
    var fs := [I8(|data| + 3), U16(msgType)];
    PackDefined(Big, fs);
    match Pack(Big, fs)
    case None => None
    case Some(header) =>
      assert Pack(Big, fs[2..]).value == [];
      assert Pack(Big, fs[1..]).value == PackField(Big, fs[1]);
      assert header == [|data| + 3] + PackField(Big, fs[1]);
      UnsignedRoundTrip(Big, fs[1]);
      Some(header + data)
  }

  /** The frame byte by byte: total length, message type high byte, low byte, payload. */
  lemma FrameLayout(msgType: int, data: seq<byte>)
    requires |data| + 3 <= MaxFrameLength && 0 <= msgType < 0x1_0000
    ensures Frame(msgType, data).value == [|data| + 3, msgType / 256, msgType % 256] + data
  {
    var r := Frame(msgType, data).value;
    var hi, lo := r[1], r[2];
    assert r[1..3] == [hi, lo];
    assert Reverse([hi, lo]) == [lo, hi];
    assert FromLittleEndian([lo, hi]) == lo as int + 256 * hi as int;
    assert r == [r[0], hi, lo] + r[3..];
  }

  /** What the first lines of characteristic_value_updated make of a notification. */
  datatype Received =
    | Malformed            // struct.unpack raised on a value too short for its format
    | Dropped              // the length byte disagrees with the size: ignored
    | Accepted(msgType: int)

  /** The length check and the type read at the top of every LEGO notification handler. */
  function Receive(value: seq<byte>): Received
  {
    if |value| == 0 then Malformed
    else if Signed8(value[0]) != |value| then Dropped
    else if |value| < 3 then Malformed
    else Accepted(ReadUnsigned(Big, value[1..3]))
  }

  /** A frame survives the length check exactly when its first byte, read signed, is its size. */
  lemma DropCondition(value: seq<byte>)
    ensures Receive(value).Dropped? <==> |value| > 0 && Signed8(value[0]) != |value|
  {
  }

  /** A length byte of 0x80 or more reads as negative, so such a frame is always dropped. */
  lemma HighLengthByteDropped(value: seq<byte>)
    requires |value| > 0 && value[0] >= 0x80
    ensures Receive(value) == Dropped
  {
  }

  /** Frames longer than 127 bytes can never pass the check (no extended length). */
  lemma LongFrameDropped(value: seq<byte>)
    requires |value| > MaxFrameLength
    ensures Receive(value) == Dropped
  {
  }

  /** Every frame send_cmd builds passes the receiving check with its own message type. */
  lemma FrameAccepted(msgType: int, data: seq<byte>)
    requires Frame(msgType, data).Some?
    ensures Receive(Frame(msgType, data).value) == Accepted(msgType)
  {
  }

  // ---------------------------------------------------------------------------
  // Sequences of helper calls inside one handler
  // ---------------------------------------------------------------------------

  /** The outcome of one command helper: a frame handed to send_cmd, nothing, or a raise. */
  datatype Call = Sends(frame: seq<byte>) | Skips | Raises

  function CallOf(r: Option<seq<byte>>): (c: Call)
    ensures c.Sends? <==> r.Some?
    ensures c.Sends? ==> c.frame == r.value
    ensures !c.Skips?
  {
    match r
    case Some(f) => Sends(f)
    case None => Raises
  }

  /** The frames a run of helper calls submits, and whether one of them raised. */
  datatype Effects = Effects(frames: seq<seq<byte>>, raised: bool)

  /** The position of the first helper that raises, or the number of helpers when none does. */
  function FirstRaise(calls: seq<Call>): (k: nat)
    ensures k <= |calls|
    ensures k < |calls| ==> calls[k].Raises?
    ensures forall i :: 0 <= i < k ==> !calls[i].Raises?
  {
    if calls == [] || calls[0].Raises? then 0 else 1 + FirstRaise(calls[1..])
  }

  /** The frames of the helpers that send, in order; a helper that skips contributes nothing. */
  function SentFrames(calls: seq<Call>): (fs: seq<seq<byte>>)
    ensures |fs| <= |calls|
  {
    if calls == [] then []
    else (if calls[0].Sends? then [calls[0].frame] else []) + SentFrames(calls[1..])
  }

  /** Helpers run in order; the first one that raises ends the handler: what is submitted is
      exactly the frames of the helpers before it. */
  function RunCalls(calls: seq<Call>): (e: Effects)
    ensures e.raised <==> exists i :: 0 <= i < |calls| && calls[i].Raises?
    ensures e.raised <==> FirstRaise(calls) < |calls|
    ensures e.frames == SentFrames(calls[..FirstRaise(calls)])
    ensures |e.frames| <= |calls|
    ensures (forall i :: 0 <= i < |calls| ==> calls[i].Sends?) ==>
              |e.frames| == |calls| && forall i :: 0 <= i < |calls| ==> e.frames[i] == calls[i].frame
  {
    if calls == [] then Effects([], false)
    else
      match calls[0]
      case Raises => Effects([], true)
      case Skips =>
        assert calls[..FirstRaise(calls)][1..] == calls[1..][..FirstRaise(calls[1..])];
        RunCalls(calls[1..])
      case Sends(f) =>
        var rest := RunCalls(calls[1..]);
        assert forall i :: 1 <= i < |calls| ==> calls[1..][i - 1] == calls[i];
        assert calls[..FirstRaise(calls)][1..] == calls[1..][..FirstRaise(calls[1..])];
        Effects([f] + rest.frames, rest.raised)
  }

  /** Once a helper has raised, the helpers written after it in the handler change nothing. */
  lemma {:induction false} RaiseEndsHandler(before: seq<Call>, after: seq<Call>)
    requires exists i :: 0 <= i < |before| && before[i].Raises?
    ensures RunCalls(before + after) == RunCalls(before)
    ensures RunCalls(before + after).raised
  {
    if !before[0].Raises? {
      assert (before + after)[1..] == before[1..] + after;
      var i :| 0 <= i < |before| && before[i].Raises?;
      assert before[1..][i - 1].Raises?;
      RaiseEndsHandler(before[1..], after);
    }
  }

  /** Two calls that both send write both frames, in order. */
  lemma RunTwo(c1: Call, c2: Call)
    requires c1.Sends? && c2.Sends?
    ensures RunCalls([c1, c2]) == Effects([c1.frame, c2.frame], false)
  {
    assert [c1, c2][1..] == [c2];
  }
}
