/**
 The command helpers of the LEGO Boost / Powered Up device classes. Each one
 packs a fixed body with struct.pack and hands it to send_cmd; here each
 returns the complete frame, or None where Python raises struct.error (or
 ValueError from bytes()). Two families of port-mode commands exist: the hub
 monitor packs "<bbLb" (port, mode, interval, 1), the Boost monitor and the
 colour echo pack ">bbbL" (port, mode, 1, 1).
 */
module LegoCommands {
  import opened Options
  import opened Bytes
  import opened LegoFrame

  /** Message types used by the commands. */
  const HubProperty := 0x01
  const PortInformationRequest := 0x21
  const PortModeInformationRequest := 0x22
  const PortInputFormatSetup := 0x41
  const PortOutput := 0x81

  /** Port of the internal RGB LED and of the coupled motors A+B. */
  const LedPort := 0x32
  const MotorPairPort := 0x39

  /** send_cmd(msgType, struct.pack(order + format, values...)). */
  function Command(msgType: int, o: Order, fs: seq<Field>): Option<seq<byte>>
  {
    match Pack(o, fs)
    case None => None
    case Some(data) => Frame(msgType, data)
  }

  /** A command whose items pack to the given payload is framed around it. */
  lemma CommandLayout(msgType: int, o: Order, fs: seq<Field>, payload: seq<byte>)
    requires Pack(o, fs).Some? && Pack(o, fs).value == payload
    requires |payload| + 3 <= MaxFrameLength && 0 <= msgType < 0x1_0000
    ensures Command(msgType, o, fs).Some?
    ensures Command(msgType, o, fs).value == [|payload| + 3, msgType / 256, msgType % 256] + payload
  {
    FrameLayout(msgType, payload);
  }

  /** set_hub_property(property, operation): bytes([property, operation]). */
  function SetHubProperty(property: int, operation: int): Option<seq<byte>>
  {
    match BytesOf([property, operation])
    case None => None
    case Some(data) => Frame(HubProperty, data)
  }

  /** button_set_config(code): bytes([2, code]) as a hub-property command. */
  function ButtonSetConfig(code: int): Option<seq<byte>>
  {
    match BytesOf([2, code])
    case None => None
    case Some(data) => Frame(HubProperty, data)
  }

  /** request_device_name(): ">bbb" (1, 2, 0). */
  function RequestDeviceName(): Option<seq<byte>>
  {
    Command(HubProperty, Big, [I8(1), I8(2), I8(0)])
  }

  /** The hub monitor's set-mode helpers: "<bbLb" (port, mode, interval, 1). */
  function SetModeLittle(port: int, mode: int, interval: int): Option<seq<byte>>
  {
    Command(PortInputFormatSetup, Little, [I8(port), I8(mode), U32(interval), I8(1)])
  }

  /** The Boost monitor's and colour echo's set-mode helpers: ">bbbL" (port, mode, 1, 1). */
  function SetModeBig(port: int, mode: int): Option<seq<byte>>
  {
    Command(PortInputFormatSetup, Big, [I8(port), I8(mode), I8(1), U32(1)])
  }

  /** led_set_color with an integer colour: ">bbbH" (0x32, 0x11, 0x51, color). */
  function LedSetColor(color: int): Option<seq<byte>>
  {
    Command(PortOutput, Big, [I8(LedPort), I8(0x11), I8(0x51), U16(color)])
  }

  /** motor_run(port, speed): "<BBBb" (port, 0x11, 1, speed). */
  function MotorRun(port: int, speed: int): Option<seq<byte>>
  {
    Command(PortOutput, Little, [U8(port), U8(0x11), U8(1), I8(speed)])
  }

  /** motor_run_time with the time already in milliseconds: "<BbbHbBBB". */
  function MotorRunTime(port: int, speed: int, millis: int): Option<seq<byte>>
  {
    Command(PortOutput, Little, [U8(port), I8(0x11), I8(9), U16(millis), I8(speed), U8(100), U8(0x7f), U8(3)])
  }

  /** motors_run_time on the coupled port: "<BbbHbBBBB"; the second speed is unsigned. */
  function MotorsRunTime(speedA: int, speedB: int, millis: int): Option<seq<byte>>
  {
    Command(PortOutput, Little,
      [U8(MotorPairPort), I8(0x11), I8(10), U16(millis), I8(speedA), U8(speedB), U8(100), U8(0x7f), U8(3)])
  }

  /** motor_run_angle(port, speed, angle): "<BbblbBBB". */
  function MotorRunAngle(port: int, speed: int, angle: int): Option<seq<byte>>
  {
    Command(PortOutput, Little, [U8(port), I8(0x11), I8(11), I32(angle), I8(speed), U8(100), U8(0x7f), U8(3)])
  }

  /** motors_run_angle on the coupled port: "<BbblbBBBB"; the second speed is unsigned. */
  function MotorsRunAngle(speedA: int, speedB: int, angle: int): Option<seq<byte>>
  {
    Command(PortOutput, Little,
      [U8(MotorPairPort), I8(0x11), I8(12), I32(angle), I8(speedA), U8(speedB), U8(100), U8(0x7f), U8(3)])
  }

  /** request_port_information(port): "<BB" (port, 1). */
  function RequestPortInformation(port: int): Option<seq<byte>>
  {
    Command(PortInformationRequest, Little, [U8(port), U8(1)])
  }

  /** request_port_mode_information(port, mode, type): "<BBB". */
  function RequestPortModeInformation(port: int, mode: int, infoType: int): Option<seq<byte>>
  {
    Command(PortModeInformationRequest, Little, [U8(port), U8(mode), U8(infoType)])
  }

  // ---------------------------------------------------------------------------
  // Colours by name
  // ---------------------------------------------------------------------------

  /** The argument of led_set_color: an int, or a colour name looked up in COLORS. */
  datatype ColorArg = Index(i: int) | Named(name: string)

  /** COLORS of the hub and Boost monitors. */
  const MonitorColors: map<string, int> :=
    map["black" := 0, "off" := 0, "pink" := 1, "purple" := 2, "blue" := 3,
        "light blue" := 4, "light green" := 5, "green" := 6, "yellow" := 7,
        "orange" := 8, "red" := 9, "white" := 10, "invalid" := 0xff]

  /** COLORS of the colour echo (German names). */
  const EchoColors: map<string, int> :=
    map["schwarz" := 0, "rosa" := 1, "lila" := 2, "blau" := 3,
        "hellblau" := 4, "hellgrün" := 5, "grün" := 6, "gelb" := 7,
        "orange" := 8, "rot" := 9, "weiss" := 10, "keine" := 0xff]

  /** led_set_color(color) with the given colour table: an unknown name queues nothing. */
  function LedSetColorArg(colors: map<string, int>, arg: ColorArg): (c: Call)
    ensures arg.Named? && arg.name !in colors ==> c == Skips
    ensures arg.Named? && arg.name in colors ==> c == CallOf(LedSetColor(colors[arg.name]))
    ensures arg.Index? ==> c == CallOf(LedSetColor(arg.i))
  {
    match arg
    case Index(i) => CallOf(LedSetColor(i))
    case Named(name) => if name in colors then CallOf(LedSetColor(colors[name])) else Skips
  }

  // ---------------------------------------------------------------------------
  // Byte layouts
  // ---------------------------------------------------------------------------

  lemma TwoByteFields(v: int)
    requires 0 <= v < 0x1_0000
    ensures PackField(Little, U16(v)) == [v % 256, v / 256]
    ensures PackField(Big, U16(v)) == [v / 256, v % 256]
  {
    assert LittleEndian(v / 256, 1) == [v / 256];
    assert LittleEndian(v, 2) == [v % 256, v / 256];
  }

  /** motor_run gives [7, 0, 0x81, port, 0x11, 1, speed] (speed as a signed byte);
      it raises exactly when the port or the speed does not fit its byte. */
  lemma MotorRunLayout(port: int, speed: int)
    ensures MotorRun(port, speed).Some? <==> 0 <= port < 256 && -128 <= speed < 128
    ensures MotorRun(port, speed).Some? ==>
              MotorRun(port, speed).value == [7, 0, PortOutput, port, 0x11, 1, ByteOf(speed)]
  {
    var fs := [U8(port), U8(0x11), U8(1), I8(speed)];
    PackDefined(Little, fs);
    if 0 <= port < 256 && -128 <= speed < 128 {
      PackBytes(Little, fs);
      var payload := [port, 0x11, 1, ByteOf(speed)];
      assert Pack(Little, fs).value == payload;
      FrameLayout(PortOutput, payload);
    } else {
      assert !fs[0].InRange() || !fs[3].InRange();
    }
  }

  /** The last four items of the timed and angled motor commands: the speed, 100 (maximum
      power), 0x7f (end state "float") and 3 (use the acceleration and deceleration profiles). */
  lemma MotorTail(speed: int)
    requires -128 <= speed < 128
    ensures Pack(Little, [I8(speed), U8(100), U8(0x7f), U8(3)]).Some?
    ensures Pack(Little, [I8(speed), U8(100), U8(0x7f), U8(3)]).value == [ByteOf(speed), 100, 0x7f, 3]
  {
    var t := [I8(speed), U8(100), U8(0x7f), U8(3)];
    PackBytes(Little, t);
  }

  /** The payload of motor_run_angle: port, 0x11, 11, the angle's four bytes, speed, 100,
      0x7f, 3. */
  lemma MotorRunAnglePayload(port: int, speed: int, angle: int)
    requires 0 <= port < 256 && -128 <= speed < 128 && -0x8000_0000 <= angle < 0x8000_0000
    ensures I32(angle).InRange()
    ensures Pack(Little, [U8(port), I8(0x11), I8(11), I32(angle), I8(speed), U8(100), U8(0x7f), U8(3)]).Some?
    ensures Pack(Little, [U8(port), I8(0x11), I8(11), I32(angle), I8(speed), U8(100), U8(0x7f), U8(3)]).value ==
              [port, 0x11, 11] + (PackField(Little, I32(angle)) + [ByteOf(speed), 100, 0x7f, 3])
  {
    Pow256Values();
    var h, m, t := [U8(port), I8(0x11), I8(11)], [I32(angle)], [I8(speed), U8(100), U8(0x7f), U8(3)];
    PackBytes(Little, h);
    assert Pack(Little, h).value == [port, 0x11, 11];
    MotorTail(speed);
    assert Pack(Little, m).Some? && Pack(Little, m).value == PackField(Little, I32(angle));
    PackAppend(Little, m, t);
    PackAppend(Little, h, m + t);
    assert h + (m + t) == [U8(port), I8(0x11), I8(11), I32(angle), I8(speed), U8(100), U8(0x7f), U8(3)];
  }

  /** motor_run_angle gives a 14-byte frame: [14, 0, 0x81, port, 0x11, 11], then the angle
      as a little-endian signed 32-bit integer, then [speed, 100, 0x7f, 3]. */
  lemma MotorRunAngleLayout(port: int, speed: int, angle: int)
    requires 0 <= port < 256 && -128 <= speed < 128 && -0x8000_0000 <= angle < 0x8000_0000
    ensures MotorRunAngle(port, speed, angle).Some?
    ensures var f := MotorRunAngle(port, speed, angle).value;
            && |f| == 14
            && f[..6] == [14, 0, PortOutput, port, 0x11, 11]
            && ReadSigned(Little, f[6..10]) == angle
            && f[10..] == [ByteOf(speed), 100, 0x7f, 3]
  {
    MotorRunAnglePayload(port, speed, angle);
    var a := PackField(Little, I32(angle));
    var payload := [port, 0x11, 11] + (a + [ByteOf(speed), 100, 0x7f, 3]);
    FrameLayout(PortOutput, payload);
    SignedRoundTrip(Little, I32(angle));
    var f := MotorRunAngle(port, speed, angle).value;
    assert f == [14, 0, PortOutput] + payload;
    assert f[6..10] == a;
  }

  /** The payload of motor_run_time: port, 0x11, 9, the time, speed, 100, 0x7f, 3. */
  lemma MotorRunTimePayload(port: int, speed: int, millis: int)
    requires 0 <= port < 256 && -128 <= speed < 128 && 0 <= millis < 0x1_0000
    ensures Pack(Little, [U8(port), I8(0x11), I8(9), U16(millis), I8(speed), U8(100), U8(0x7f), U8(3)]).Some?
    ensures Pack(Little, [U8(port), I8(0x11), I8(9), U16(millis), I8(speed), U8(100), U8(0x7f), U8(3)]).value ==
              [port, 0x11, 9, millis % 256, millis / 256, ByteOf(speed), 100, 0x7f, 3]
  {
    Pow256Values();
    var h, m, t := [U8(port), I8(0x11), I8(9)], [U16(millis)], [I8(speed), U8(100), U8(0x7f), U8(3)];
    PackBytes(Little, h);
    assert Pack(Little, h).value == [port, 0x11, 9];
    MotorTail(speed);
    TwoByteFields(millis);
    assert Pack(Little, m).Some? && Pack(Little, m).value == [millis % 256, millis / 256];
    PackAppend(Little, m, t);
    PackAppend(Little, h, m + t);
    assert h + (m + t) == [U8(port), I8(0x11), I8(9), U16(millis), I8(speed), U8(100), U8(0x7f), U8(3)];
  }

  /** motor_run_time carries the milliseconds as a little-endian unsigned 16-bit value. */
  lemma MotorRunTimeLayout(port: int, speed: int, millis: int)
    requires 0 <= port < 256 && -128 <= speed < 128 && 0 <= millis < 0x1_0000
    ensures MotorRunTime(port, speed, millis).Some?
    ensures MotorRunTime(port, speed, millis).value ==
              [12, 0, PortOutput, port, 0x11, 9, millis % 256, millis / 256, ByteOf(speed), 100, 0x7f, 3]
  {
    MotorRunTimePayload(port, speed, millis);
    FrameLayout(PortOutput, [port, 0x11, 9, millis % 256, millis / 256, ByteOf(speed), 100, 0x7f, 3]);
  }

  /** The pair commands pack the second speed unsigned, so a negative one raises. */
  lemma PairSecondSpeedUnsigned(speedA: int, speedB: int, millis: int, angle: int)
    requires speedB < 0
    ensures MotorsRunTime(speedA, speedB, millis).None?
    ensures MotorsRunAngle(speedA, speedB, angle).None?
  {
    var fs := [U8(MotorPairPort), I8(0x11), I8(10), U16(millis), I8(speedA), U8(speedB), U8(100), U8(0x7f), U8(3)];
    var gs := [U8(MotorPairPort), I8(0x11), I8(12), I32(angle), I8(speedA), U8(speedB), U8(100), U8(0x7f), U8(3)];
    PackDefined(Little, fs);
    PackDefined(Little, gs);
    assert !fs[5].InRange() && !gs[5].InRange();
  }

  /** led_set_color gives [8, 0, 0x81, 0x32, 0x11, 0x51, hi, lo], the colour big-endian,
      and raises exactly for a colour outside 0..65535. */
  lemma LedSetColorLayout(color: int)
    ensures LedSetColor(color).Some? <==> 0 <= color < 0x1_0000
    ensures LedSetColor(color).Some? ==>
              LedSetColor(color).value == [8, 0, PortOutput, LedPort, 0x11, 0x51, color / 256, color % 256]
  {
    var fs := [I8(LedPort), I8(0x11), I8(0x51), U16(color)];
    LedSetColorPayload(color);
    if 0 <= color < 0x1_0000 {
      CommandLayout(PortOutput, Big, fs, [LedPort, 0x11, 0x51, color / 256, color % 256]);
    }
  }

  /** The payload of led_set_color: 0x32, 0x11, 0x51, then the colour big-endian. */
  lemma LedSetColorPayload(color: int)
    ensures Pack(Big, [I8(LedPort), I8(0x11), I8(0x51), U16(color)]).Some? <==> 0 <= color < 0x1_0000
    ensures 0 <= color < 0x1_0000 ==>
              Pack(Big, [I8(LedPort), I8(0x11), I8(0x51), U16(color)]).value == [LedPort, 0x11, 0x51, color / 256, color % 256]
  {
    Pow256Values();
    var h, m := [I8(LedPort), I8(0x11), I8(0x51)], [U16(color)];
    PackBytes(Big, h);
    PackAppend(Big, h, m);
    assert h + m == [I8(LedPort), I8(0x11), I8(0x51), U16(color)];
    if 0 <= color < 0x1_0000 {
      TwoByteFields(color);
      assert Pack(Big, h).value == [LedPort, 0x11, 0x51];
      assert Pack(Big, m).value == [color / 256, color % 256];
    } else {
      assert !m[0].InRange();
    }
  }

  /** A colour name found in the table sends the LED command for its number. */
  lemma LedColorCall(colors: map<string, int>, name: string, color: int)
    requires name in colors && colors[name] == color && 0 <= color < 0x1_0000
    ensures LedSetColorArg(colors, Named(name)) == Sends([8, 0, PortOutput, LedPort, 0x11, 0x51, color / 256, color % 256])
  {
    LedSetColorLayout(color);
  }

  /** set_hub_property(p, op) sends [5, 0, 1, p, op]. */
  lemma SetHubPropertyCall(property: int, operation: int)
    requires 0 <= property < 256 && 0 <= operation < 256
    ensures CallOf(SetHubProperty(property, operation)) == Sends([5, 0, HubProperty, property, operation])
  {
    FrameLayout(HubProperty, [property, operation]);
  }

  /** An unknown colour name queues nothing; a known one queues the LED command. */
  lemma ColorNameLookup(colors: map<string, int>, name: string)
    ensures name !in colors ==> LedSetColorArg(colors, Named(name)) == Skips
    ensures name in colors && 0 <= colors[name] < 0x1_0000 ==>
              LedSetColorArg(colors, Named(name)).Sends?
  {
    if name in colors && 0 <= colors[name] < 0x1_0000 {
      LedSetColorLayout(colors[name]);
    }
  }

  /** The payload of "<bbLb": port, mode, the interval little-endian, then 1. */
  lemma SetModeLittlePayload(port: int, mode: int, interval: int)
    requires -128 <= port < 128 && -128 <= mode < 128 && 0 <= interval < 0x1_0000_0000
    ensures Pack(Little, [I8(port), I8(mode), U32(interval), I8(1)]).Some?
    ensures Pack(Little, [I8(port), I8(mode), U32(interval), I8(1)]).value ==
              [ByteOf(port), ByteOf(mode), interval % 256, interval / 0x100 % 256,
               interval / 0x1_0000 % 256, interval / 0x100_0000, 1]
  {
    var h, m, t := [I8(port), I8(mode)], [U32(interval)], [I8(1)];
    PackBytes(Little, h);
    PackBytes(Little, t);
    FourBytes(interval);
    assert Pack(Little, h).value == [ByteOf(port), ByteOf(mode)];
    assert Pack(Little, t).value == [1];
    assert Pack(Little, m).Some? && Pack(Little, m).value == PackField(Little, U32(interval));
    PackAppend(Little, m, t);
    PackAppend(Little, h, m + t);
    assert h + (m + t) == [I8(port), I8(mode), U32(interval), I8(1)];
  }

  /** The payload of ">bbbL" (port, mode, 1, 1). */
  lemma SetModeBigPayload(port: int, mode: int)
    requires -128 <= port < 128 && -128 <= mode < 128
    ensures Pack(Big, [I8(port), I8(mode), I8(1), U32(1)]).Some?
    ensures Pack(Big, [I8(port), I8(mode), I8(1), U32(1)]).value == [ByteOf(port), ByteOf(mode), 1, 0, 0, 0, 1]
  {
    Pow256Values();
    var h, m := [I8(port), I8(mode), I8(1)], [U32(1)];
    PackBytes(Big, h);
    assert Pack(Big, h).value == [ByteOf(port), ByteOf(mode), 1];
    FourBytes(1);
    PackAppend(Big, h, m);
    assert h + m == [I8(port), I8(mode), I8(1), U32(1)];
  }

  /** The hub monitor's set-mode command: [10, 0, 0x41, port, mode], the interval
      little-endian, then 1. */
  lemma SetModeLittleLayout(port: int, mode: int, interval: int)
    requires -128 <= port < 128 && -128 <= mode < 128 && 0 <= interval < 0x1_0000_0000
    ensures SetModeLittle(port, mode, interval).Some?
    ensures SetModeLittle(port, mode, interval).value ==
              [10, 0, PortInputFormatSetup, ByteOf(port), ByteOf(mode), interval % 256, interval / 0x100 % 256,
               interval / 0x1_0000 % 256, interval / 0x100_0000, 1]
  {
    SetModeLittlePayload(port, mode, interval);
    CommandLayout(PortInputFormatSetup, Little, [I8(port), I8(mode), U32(interval), I8(1)],
                  [ByteOf(port), ByteOf(mode), interval % 256, interval / 0x100 % 256,
                   interval / 0x1_0000 % 256, interval / 0x100_0000, 1]);
  }

  /** The Boost monitor's and colour echo's set-mode command: [10, 0, 0x41, port, mode, 1, 0, 0, 0, 1]. */
  lemma SetModeBigLayout(port: int, mode: int)
    requires -128 <= port < 128 && -128 <= mode < 128
    ensures SetModeBig(port, mode).Some?
    ensures SetModeBig(port, mode).value == [10, 0, PortInputFormatSetup, ByteOf(port), ByteOf(mode), 1, 0, 0, 0, 1]
  {
    SetModeBigPayload(port, mode);
    CommandLayout(PortInputFormatSetup, Big, [I8(port), I8(mode), I8(1), U32(1)], [ByteOf(port), ByteOf(mode), 1, 0, 0, 0, 1]);
  }

  /** The big-endian ">bbbL" (port, mode, 1, 1) layout gives the same bytes as the
      little-endian "<bbLb" layout with interval 1. */
  lemma SetModeLayoutsAgree(port: int, mode: int)
    requires -128 <= port < 128 && -128 <= mode < 128
    ensures SetModeBig(port, mode).Some? && SetModeBig(port, mode) == SetModeLittle(port, mode, 1)
  {
    var one := 1;
    SetModeBigLayout(port, mode);
    SetModeLittleLayout(port, mode, one);
  }

  /** button_set_config(c) gives [5, 0, 1, 2, c]; request_device_name gives [6, 0, 1, 1, 2, 0]. */
  lemma HubPropertyLayouts(code: int)
    requires 0 <= code < 256
    ensures ButtonSetConfig(code).Some? && ButtonSetConfig(code).value == [5, 0, HubProperty, 2, code]
    ensures RequestDeviceName().Some? && RequestDeviceName().value == [6, 0, HubProperty, 1, 2, 0]
  {
    var fs := [I8(1), I8(2), I8(0)];
    PackBytes(Big, fs);
    assert Pack(Big, fs).value == [1, 2, 0];
    FrameLayout(HubProperty, [1, 2, 0]);
    FrameLayout(HubProperty, [2, code]);
  }

  /** request_port_mode_information gives [6, 0, 0x22, port, mode, type]. */
  lemma PortModeRequestLayout(port: int, mode: int, infoType: int)
    requires 0 <= port < 256 && 0 <= mode < 256 && 0 <= infoType < 256
    ensures RequestPortModeInformation(port, mode, infoType).Some?
    ensures RequestPortModeInformation(port, mode, infoType).value == [6, 0, PortModeInformationRequest, port, mode, infoType]
  {
    var fs := [U8(port), U8(mode), U8(infoType)];
    PackBytes(Little, fs);
    assert Pack(Little, fs).value == [port, mode, infoType];
    FrameLayout(PortModeInformationRequest, [port, mode, infoType]);
  }

  /** request_port_information gives [5, 0, 0x21, port, 1]; a port outside 0..255 raises. */
  lemma PortInformationRequestLayout(port: int)
    ensures RequestPortInformation(port).Some? <==> 0 <= port < 256
    ensures RequestPortInformation(port).Some? ==>
              RequestPortInformation(port).value == [5, 0, PortInformationRequest, port, 1]
  {
    var fs := [U8(port), U8(1)];
    PackDefined(Little, fs);
    if 0 <= port < 256 {
      PackBytes(Little, fs);
      assert Pack(Little, fs).value == [port, 1];
      FrameLayout(PortInformationRequest, [port, 1]);
    } else {
      assert !fs[0].InRange();
    }
  }
}
