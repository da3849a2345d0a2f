/**
 The sensor-value notification (message type 0x45) of the LEGO hubs: what the
 payload after the port byte means depends on the device recorded for that port
 and on the payload's length. The Boost monitor knows the Boost and WeDo 2.0
 devices; the hub monitor also knows the Technic hub's internal sensors.
 */
module LegoSensor {
  import opened Options
  import opened Bytes

  /** Device type codes of the attach event. */
  const VoltageSensor := 0x14
  const CurrentSensor := 0x15
  const WedoTiltSensor := 0x22
  const WedoMotionSensor := 0x23
  const ColorDistanceSensor := 0x25
  const InteractiveMotor := 0x26
  const BuiltinMotor := 0x27
  const BuiltinTiltSensor := 0x28
  const TechnicLargeMotor := 0x2e
  const TechnicXLargeMotor := 0x2f
  const ImpactSensor := 0x36
  const Accelerometer := 0x39
  const Gyroscope := 0x3a
  const TechnicTiltSensor := 0x3b
  const TemperatureSensor := 0x3c
  const BoostUnknownDevice := 0x42

  /** What a sensor report is read as. Temperatures stay in tenths of a degree. */
  datatype Reading =
    | Voltage(raw: int)
    | Current(raw: int)
    | WedoTiltDirection(direction: int)
    | WedoTiltAngles(xDegrees: int, yDegrees: int)
    | WedoTiltCounters(cx: int, cy: int, cz: int)
    | WedoDistance(distance: int)
    | WedoMotionCount(count: int)
    | Color(color: int, distance: int)
    | ColorRgb(red: int, green: int, blue: int)
    | AngleDelta(delta: int)
    | AngleTotal(total: int)
    | TiltDirection(direction: int)
    | TiltAngles(x: int, y: int)
    | Impact(impact: int)
    | Acceleration(ax: int, ay: int, az: int)
    | Rotation(gx: int, gy: int, gz: int)
    | Orientation(ox: int, oy: int, oz: int)
    | Temperature(tenths: int)
    | BoostProbe(probe: int)
    | UnknownFormat     // a known device, a payload length it does not expect
    | UnknownSensor     // no device, or one the handler has no branch for

  /** The decoder either reads a value, raises struct.error, or calls exit(-1). */
  datatype Decoded = Value(reading: Reading) | DecodeError | Exits

  function U16At(p: seq<byte>, i: nat): int
    requires i + 2 <= |p|
  {
    ReadUnsigned(Little, p[i..i + 2])
  }

  function I16At(p: seq<byte>, i: nat): int
    requires i + 2 <= |p|
  {
    ReadSigned(Little, p[i..i + 2])
  }

  /** Voltage and current: '<H' on the whole payload, which raises unless it is 2 bytes. */
  function Unsigned16(p: seq<byte>, voltage: bool): Decoded
  {
    if |p| != 2 then DecodeError
    else if voltage then Value(Voltage(U16At(p, 0)))
    else Value(Current(U16At(p, 0)))
  }

  /** WeDo 2.0 tilt sensor: direction, angles in 2-degree steps, or three counters. */
  function WedoTilt(p: seq<byte>): Decoded
  {
    if |p| == 1 then Value(WedoTiltDirection(p[0]))
    else if |p| == 2 then Value(WedoTiltAngles(2 * Signed8(p[0]), 2 * Signed8(p[1])))
    else if |p| == 3 then Value(WedoTiltCounters(Signed8(p[0]), Signed8(p[1]), Signed8(p[2])))
    else Value(UnknownFormat)
  }

  /** WeDo 2.0 motion sensor: a distance byte or a 32-bit event count. */
  function WedoMotion(p: seq<byte>): Decoded
  {
    if |p| == 1 then Value(WedoDistance(p[0]))
    else if |p| == 4 then Value(WedoMotionCount(ReadUnsigned(Little, p)))
    else Value(UnknownFormat)
  }

  /** Colour and distance sensor: 'BBxx' colour index and distance, or '<HHH' RGB. */
  function ColorSensor(p: seq<byte>): Decoded
  {
    if |p| == 4 then Value(Color(p[0], p[1]))
    else if |p| == 6 then Value(ColorRgb(U16At(p, 0), U16At(p, 2), U16At(p, 4)))
    else Value(UnknownFormat)
  }

  /** A motor as rotation sensor: signed delta since the last report, or the summed angle. */
  function MotorAngle(p: seq<byte>): Decoded
  {
    if |p| == 1 then Value(AngleDelta(Signed8(p[0])))
    else if |p| == 4 then Value(AngleTotal(ReadSigned(Little, p)))
    else Value(UnknownFormat)
  }

  /** Boost built-in tilt sensor: a direction, or two signed angles. */
  function Tilt(p: seq<byte>): Decoded
  {
    if |p| == 1 then Value(TiltDirection(p[0]))
    else if |p| == 2 then Value(TiltAngles(Signed8(p[0]), Signed8(p[1])))
    else Value(UnknownFormat)
  }

  /** The Boost monitor's dispatch on the recorded device. A detached port (None) matches no branch. */
  function DecodeBoost(dev: Option<int>, p: seq<byte>): Decoded
  {
    if dev == Some(VoltageSensor) then Unsigned16(p, true)
    else if dev == Some(CurrentSensor) then Unsigned16(p, false)
    else if dev == Some(WedoTiltSensor) then WedoTilt(p)
    else if dev == Some(WedoMotionSensor) then WedoMotion(p)
    else if dev == Some(ColorDistanceSensor) then ColorSensor(p)
    else if dev == Some(InteractiveMotor) || dev == Some(BuiltinMotor) then MotorAngle(p)
    else if dev == Some(BuiltinTiltSensor) then Tilt(p)
    else Value(UnknownSensor)
  }

  /** Three signed little-endian 16-bit axes ('<hhh' on exactly 6 bytes). */
  function Axes(p: seq<byte>, dev: int): Decoded
    requires dev in {Accelerometer, Gyroscope, TechnicTiltSensor}
  {
    if |p| != 6 then Value(UnknownFormat)
    else if dev == Accelerometer then Value(Acceleration(I16At(p, 0), I16At(p, 2), I16At(p, 4)))
    else if dev == Gyroscope then Value(Rotation(I16At(p, 0), I16At(p, 2), I16At(p, 4)))
    else Value(Orientation(I16At(p, 0), I16At(p, 2), I16At(p, 4)))
  }

  /** The hub monitor's dispatch: the Boost devices, the Technic motors as rotation sensors,
      and the Technic hub's internal sensors. Device 0x42 ends the process unless it sends one
      zero byte. */
  function DecodeHub(dev: Option<int>, p: seq<byte>): Decoded
  {
    if dev == Some(TechnicLargeMotor) || dev == Some(TechnicXLargeMotor) then MotorAngle(p)
    else if dev == Some(ImpactSensor) then
      (if |p| == 1 then Value(Impact(p[0])) else Value(UnknownFormat))
    else if dev == Some(Accelerometer) then Axes(p, Accelerometer)
    else if dev == Some(Gyroscope) then Axes(p, Gyroscope)
    else if dev == Some(TechnicTiltSensor) then Axes(p, TechnicTiltSensor)
    else if dev == Some(TemperatureSensor) then
      (if |p| == 2 then Value(Temperature(I16At(p, 0))) else Value(UnknownFormat))
    else if dev == Some(BoostUnknownDevice) then
      (if |p| == 1 && p[0] == 0 then Value(BoostProbe(0)) else Exits)
    else DecodeBoost(dev, p)
  }

  /** Devices only the hub monitor has a branch for. */
  predicate HubOnly(dev: Option<int>)
  {
    dev.Some? && dev.value in {TechnicLargeMotor, TechnicXLargeMotor, ImpactSensor, Accelerometer,
                               Gyroscope, TechnicTiltSensor, TemperatureSensor, BoostUnknownDevice}
  }

  // ---------------------------------------------------------------------------
  // Properties
  // ---------------------------------------------------------------------------

  /** The hub monitor reads every other device exactly as the Boost monitor does. */
  lemma HubExtendsBoost(dev: Option<int>, p: seq<byte>)
    ensures !HubOnly(dev) ==> DecodeHub(dev, p) == DecodeBoost(dev, p)
    ensures HubOnly(dev) ==> DecodeBoost(dev, p) == Value(UnknownSensor)
  {
  }

  /** A port whose device was detached (None) takes the unknown-sensor branch in both monitors. */
  lemma DetachedPortUnknown(p: seq<byte>)
    ensures DecodeBoost(None, p) == Value(UnknownSensor)
    ensures DecodeHub(None, p) == Value(UnknownSensor)
  {
  }

  /** Colour sensor: 4 bytes give colour and distance, 6 bytes three little-endian 16-bit values,
      anything else is reported as unexpected; it never raises. */
  lemma ColorSensorCases(p: seq<byte>)
    ensures |p| == 4 ==> DecodeBoost(Some(ColorDistanceSensor), p) == Value(Color(p[0], p[1]))
    ensures |p| == 6 ==> DecodeBoost(Some(ColorDistanceSensor), p).reading.ColorRgb?
    ensures |p| != 4 && |p| != 6 ==> DecodeBoost(Some(ColorDistanceSensor), p) == Value(UnknownFormat)
  {
  }

  /** Three colour channels packed '<HHH' are read back unchanged. */
  lemma ColorRgbRoundTrip(r: int, g: int, b: int)
    requires U16(r).InRange() && U16(g).InRange() && U16(b).InRange()
    ensures var p := PackField(Little, U16(r)) + PackField(Little, U16(g)) + PackField(Little, U16(b));
            DecodeBoost(Some(ColorDistanceSensor), p) == Value(ColorRgb(r, g, b))
  {
    var p := PackField(Little, U16(r)) + PackField(Little, U16(g)) + PackField(Little, U16(b));
    assert p[0..2] == PackField(Little, U16(r));
    assert p[2..4] == PackField(Little, U16(g));
    assert p[4..6] == PackField(Little, U16(b));
    UnsignedRoundTrip(Little, U16(r));
    UnsignedRoundTrip(Little, U16(g));
    UnsignedRoundTrip(Little, U16(b));
  }

  /** A motor's one-byte report is the signed delta; its four-byte report, a summed angle
      packed '<l', is read back unchanged. */
  lemma MotorAngleRoundTrip(dev: int, delta: int, total: int)
    requires dev in {InteractiveMotor, BuiltinMotor}
    requires I8(delta).InRange() && I32(total).InRange()
    ensures DecodeBoost(Some(dev), PackField(Little, I8(delta))) == Value(AngleDelta(delta))
    ensures DecodeBoost(Some(dev), PackField(Little, I32(total))) == Value(AngleTotal(total))
    ensures DecodeHub(Some(dev), PackField(Little, I32(total))) == Value(AngleTotal(total))
  {
    SignedRoundTrip(Little, I32(total));
    OneByteField(Little, I8(delta));
    SignedRoundTrip(Little, I8(delta));
  }

  /** The WeDo tilt sensor's two-byte report is two signed bytes doubled into degrees. */
  lemma WedoTiltAnglesDoubled(x: byte, y: byte)
    ensures DecodeBoost(Some(WedoTiltSensor), [x, y]) == Value(WedoTiltAngles(2 * Signed8(x), 2 * Signed8(y)))
    ensures DecodeBoost(Some(WedoTiltSensor), [x, y]).reading.xDegrees % 2 == 0
    ensures -256 <= DecodeBoost(Some(WedoTiltSensor), [x, y]).reading.xDegrees < 256
  {
  }

  /** Voltage and current readings raise unless the payload is exactly two bytes. */
  lemma UnsignedNeedsTwoBytes(dev: int, p: seq<byte>)
    requires dev in {VoltageSensor, CurrentSensor}
    ensures DecodeBoost(Some(dev), p) == DecodeError <==> |p| != 2
    ensures |p| == 2 ==> DecodeBoost(Some(dev), p).reading.raw == p[0] as int + 256 * p[1] as int
  {
    if |p| == 2 {
      assert p[0..2] == p;
      assert p[1..] == [p[1]];
      assert FromLittleEndian(p[1..]) == p[1];
    }
  }

  /** Only device 0x42 can end the process, and only the Technic sensors' branches are new. */
  lemma OnlyProbeExits(dev: Option<int>, p: seq<byte>)
    ensures DecodeHub(dev, p) == Exits ==> dev == Some(BoostUnknownDevice)
    ensures DecodeBoost(dev, p) != Exits
    ensures dev == Some(BoostUnknownDevice) ==> (DecodeHub(dev, p) == Exits <==> p != [0])
  {
  }

  /** A temperature report is the signed 16-bit number of tenths of a degree. */
  lemma TemperatureRoundTrip(tenths: int)
    requires I16(tenths).InRange()
    ensures DecodeHub(Some(TemperatureSensor), PackField(Little, I16(tenths))) == Value(Temperature(tenths))
  {
    var p := PackField(Little, I16(tenths));
    assert p[0..2] == p;
    SignedRoundTrip(Little, I16(tenths));
  }
}
