# RPI-BLE-toy-control in Dafny

A model of the protocol and bookkeeping code of the RPI-BLE-toy-control
scripts. These are Python programs that drive LEGO and fischertechnik toys
over Bluetooth LE. Bluetooth itself is not modelled. Writes to a
characteristic, their acknowledgements and failures, and incoming
notifications become events. The device classes become immutable state
records with one pure function per callback.

| file | module | models |
|---|---|---|
| options.dfy | `Options` | Python's `None` as `Option` |
| bytes.dfy | `Bytes` | the parts of `struct.pack`/`unpack` and `bytes()` the scripts use, including the range checks that raise |
| frame.dfy | `LegoFrame` | `send_cmd`'s framing (`>bH` header), the length check and type read at the top of every LEGO notification handler, and a run of command helpers where the first exception ends the handler |
| commands.dfy | `LegoCommands` | the command helpers: hub property, button, device name, the two set-mode layouts, LED, motors, port-information requests |
| sensors.dfy | `LegoSensor` | the sensor-value (0x45) decoders of the two monitors |
| hub.dfy | `LegoHub` | what the LEGO programs share: the port table `device_on_port`, the send queue, the write callbacks, and the hub-property, port-event, sensor and acknowledgement branches |
| hubmonitor.dfy | `HubMonitor` | `lego_hub_monitor.py` |
| boostmonitor.dfy | `BoostMonitor` | `lego_boost_monitor.py` |
| colorecho.dfy | `ColorEcho` | `lego_boost_color_echo.py` |
| fifo.dfy | `Fifo` | the FIFO write pipeline (`send_cmd`/`set_output` plus the write-succeeded handler) |
| coalesce.dfy | `Coalesce` | the fischertechnik coalescing slots (one for the carousel, two for the race car) |
| wedo.dfy | `WeDo` | `lego_dino.py` |
| ramp.dfy, karussell.dfy, rcracer.dfy | `Ramps`, `Karussell`, `RcRacer` | the ramps of `ft_karussell.py` and `ft_rc_racer.py`, one main-loop tick at a time |
| discovery.dfy | `Discovery` | every `device_discovered` filter, connect-once, and the MAC-argument check |

Python exceptions (`struct.error`, `KeyError`, `IndexError`, and `ValueError`
from `bytes()`) are an explicit outcome. Examples are `Fault` in a LEGO
handler, `Raise` in the dino, and `fault` in a tick. State changes made
before the exception are kept, as in Python. The frame-length byte, the
attach port and the attach device are read as signed bytes (`'b'`), exactly
as the code unpacks them. Python's negative list indexing is modelled where
the dino can reach it.

Some functions take a `fixed` switch: `WeDo.Handle`, `Coalesce.Deliver`,
`Karussell.Acknowledge` and `RcRacer.Acknowledge`. `false` is the code as
written. `true` is the corrected handler described under "Findings".

The LEGO frame header follows section 3.1 of the LEGO Wireless Protocol 3.0
(the common message header), except that the code reads the hub id and the
message type together as one big-endian 16-bit value. Section 3.2's extended
two-byte length is not implemented. The length is packed with format `'b'`,
so a frame holds at most 127 bytes, and longer frames are dropped on
reception.

## Model

| member | source | states |
|---|---|---|
| Bytes.PackDefined | lego_hub_monitor.py:168-170 | `struct.pack` raises exactly when some value is outside its format item's range; otherwise it writes as many bytes as the items are wide |
| Bytes.UnsignedRoundTrip | lego_hub_monitor.py:306-310 | unpacking an unsigned item's bytes with the same byte order gives its value back |
| Bytes.SignedRoundTrip | lego_boost_monitor.py:415-423 | unpacking a signed item's bytes (two's complement) with the same byte order gives its value back |
| Bytes.PackBytes | lego_hub_monitor.py:236-237 | one-byte items pack to one byte each, the two's complement byte of the value |
| Bytes.Signed8RoundTrip | lego_hub_monitor.py:322-334 | a byte read with `'b'` packs back to the same byte |
| Bytes.PackAppend | lego_hub_monitor.py:236-251 | packing a format of several items succeeds exactly when each part does, and gives the parts' bytes one after the other |
| Bytes.FourBytes | lego_hub_monitor.py:183-226 | a 32-bit unsigned item packs to its four bytes, least significant first in little-endian and most significant first in big-endian |
| Bytes.OneByteField | lego_hub_monitor.py:236-237 | an in-range one-byte item packs to the same byte whichever byte order is asked for |
| Bytes.LittleEndianInverse | lego_boost_monitor.py:415-423 | reading n bytes little-endian and writing the value back in n bytes gives the same bytes |
| Bytes.FromLittleEndianInverse | lego_boost_monitor.py:415-423 | a value below 256^n written in n little-endian bytes reads back as itself |
| LegoFrame.Frame | lego_hub_monitor.py:168-170 | a frame exists exactly when `len(data)+3 <= 127` and the type fits 16 bits; byte 0 is the total length, bytes 1-2 read big-endian are the message type, and the payload follows unchanged |
| LegoFrame.FrameLayout | lego_hub_monitor.py:168-170 | the frame byte by byte: `[len, type >> 8, type & 0xff] + data` |
| LegoFrame.DropCondition | lego_hub_monitor.py:306-307 | a notification is dropped exactly when its first byte, read signed, differs from its length |
| LegoFrame.HighLengthByteDropped | lego_hub_monitor.py:306-307 | a first byte of 0x80 or more reads negative, so such a frame is always dropped |
| LegoFrame.LongFrameDropped | lego_hub_monitor.py:306-307 | frames longer than 127 bytes can never pass (no extended length) |
| LegoFrame.FrameAccepted | lego_hub_monitor.py:306-310 | every frame `send_cmd` can build passes the receiving check and is read back with its own message type |
| LegoFrame.RunCalls | lego_boost_monitor.py:339-341 | helpers called in a row submit exactly the frames of the sending helpers before the first one that raises, in order, with skipped helpers contributing nothing; the handler raises exactly when some helper raises |
| LegoFrame.RaiseEndsHandler | lego_boost_monitor.py:339-341 | once a helper has raised, the helpers written after it change neither the frames submitted nor the outcome |
| LegoFrame.FirstRaise | lego_boost_monitor.py:339-341 | the helpers before the position found never raise, and the helper at it does |
| LegoFrame.RunTwo | lego_boost_monitor.py:339-341 | two helpers that both send submit their two frames in order and nothing raises |
| LegoCommands.MotorRunLayout | lego_hub_monitor.py:236-237 | `motor_run` gives `[7,0,0x81,port,0x11,1,speed]`; it raises exactly when port or speed does not fit its byte |
| LegoCommands.MotorRunAngleLayout | lego_hub_monitor.py:247-248 | `motor_run_angle` gives a 14-byte frame: `[14,0,0x81,port,0x11,11]`, the angle as a little-endian int32 that reads back as the angle, then `[speed,100,0x7f,3]` |
| LegoCommands.MotorRunTimeLayout | lego_hub_monitor.py:239-240 | `motor_run_time` carries the milliseconds little-endian unsigned 16-bit between the command bytes and the speed tail |
| LegoCommands.PairSecondSpeedUnsigned | lego_hub_monitor.py:242-251 | the paired-motor commands pack the second speed with `'B'`, so a negative one raises |
| LegoCommands.LedSetColorLayout | lego_hub_monitor.py:228-232 | `led_set_color` gives `[8,0,0x81,0x32,0x11,0x51,hi,lo]` with the colour big-endian; it raises exactly for a colour outside 0..65535 |
| LegoCommands.LedSetColorArg | lego_boost_color_echo.py:143-149 | an int is sent as it is, a known name is sent as its table number, and an unknown name queues nothing |
| LegoCommands.CommandLayout | lego_hub_monitor.py:168-170 | a command whose payload packs exists when the frame fits, and is the header followed by exactly the packed payload |
| LegoCommands.ColorNameLookup | lego_boost_color_echo.py:143-149 | an unknown colour name queues nothing; a known name queues an LED command |
| LegoCommands.LedColorCall | lego_hub_monitor.py:231-232 | a colour name in the table sends the LED frame for its number |
| LegoCommands.SetHubPropertyCall | lego_hub_monitor.py:178-181 | `set_hub_property(p, op)` sends `[5,0,1,p,op]` |
| LegoCommands.SetModeLittleLayout | lego_hub_monitor.py:183-226 | the hub monitor's set-mode frame is `[10,0,0x41,port,mode]`, then the interval little-endian 32-bit, then 1 |
| LegoCommands.SetModeBigLayout | lego_boost_monitor.py:172-212 | `">bbbL"(port,mode,1,1)` produces the 10-byte frame `[10,0,0x41,port,mode,1,0,0,0,1]` |
| LegoCommands.SetModeLayoutsAgree | lego_boost_monitor.py:172-212 | the Boost monitor's big-endian layout gives the same frame as the hub monitor's `"<bbLb"` layout with interval 1 |
| LegoCommands.HubPropertyLayouts | lego_boost_monitor.py:164-170 | `button_set_config(c)` gives `[5,0,1,2,c]` and `request_device_name` gives `[6,0,1,1,2,0]` |
| LegoCommands.PortModeRequestLayout | lego_hub_monitor.py:301-302 | a port-mode information request is `[6,0,0x22,port,mode,type]` |
| LegoCommands.PortInformationRequestLayout | lego_hub_monitor.py:298-299 | a port information request is `[5,0,0x21,port,1]`; a port outside 0..255 raises |
| LegoSensor.HubExtendsBoost | lego_hub_monitor.py:454-581 | the hub monitor decodes every device the Boost monitor knows exactly as the Boost monitor does; the Technic devices are new branches |
| LegoSensor.DetachedPortUnknown | lego_boost_monitor.py:436-437 | a detached port (entry None) takes the unknown-sensor branch in both monitors |
| LegoSensor.ColorSensorCases | lego_boost_monitor.py:403-412 | on a colour sensor, 4 bytes give (colour, distance), 6 bytes give three values, and any other length is reported as unexpected without raising |
| LegoSensor.ColorRgbRoundTrip | lego_boost_monitor.py:408-411 | three channels packed `'<HHH'` are read back unchanged |
| LegoSensor.MotorAngleRoundTrip | lego_boost_monitor.py:415-423 | on a motor, 1 byte is a signed delta and 4 bytes a little-endian signed 32-bit total angle, both read back unchanged |
| LegoSensor.WedoTiltAnglesDoubled | lego_boost_monitor.py:382-385 | a WeDo tilt 2-byte report is `(2x, 2y)` from signed bytes: even, within -256..254 |
| LegoSensor.UnsignedNeedsTwoBytes | lego_boost_monitor.py:369-376 | voltage and current raise unless the payload is exactly 2 bytes; then it is the little-endian unsigned value |
| LegoSensor.OnlyProbeExits | lego_hub_monitor.py:569-578 | only device 0x42 can end the process, and it does so exactly unless it sends the single byte 0; the Boost monitor never exits |
| LegoSensor.TemperatureRoundTrip | lego_hub_monitor.py:561-567 | a temperature report is the signed 16-bit number of tenths of a degree |
| LegoHub.Queue | lego_hub_monitor.py:168-176 | a handler's helper frames enter the FIFO pipeline in order; the table is untouched, at most one frame is written now, and the handler faults exactly when a helper raised |
| LegoHub.QueueFromIdle | lego_hub_monitor.py:168-176 | from an idle pipeline the first frame is written and the rest wait in order |
| LegoHub.QueueThreeFromIdle | lego_hub_monitor.py:131-144 | three sending helpers from idle: the first frame is written, the other two wait in call order |
| LegoHub.WriteSucceeded | lego_hub_monitor.py:154-162 | an ack writes the oldest waiting frame or goes idle; waiting frames = written + still waiting |
| LegoHub.WriteFailed | lego_hub_monitor.py:164-166 | a write failure changes nothing and writes nothing |
| LegoHub.AttachUpdatesOnlyItsPort | lego_hub_monitor.py:322-338 | attach sets `device_on_port[port] = dev`, overwriting any earlier entry; no other key or entry changes; the reaction's frames are submitted in order |
| LegoHub.DetachKeepsKey | lego_hub_monitor.py:322-330 | detach sets the entry to None, keeps the key, touches no other entry and submits nothing |
| LegoHub.OtherPortEventsKeepSession | lego_hub_monitor.py:400-407 | coupling events, unknown events and short frames leave the session unchanged |
| LegoHub.HubPropertyCases | lego_boost_monitor.py:286-294 | subtype 1 yields the name as the bytes from offset 5; subtype 2 yields the button state `byte5 != 0`; other subtypes are unknown |
| LegoHub.SensorLookup | lego_boost_monitor.py:363-369 | a reading for a port missing from the table raises (`KeyError`); a detached port is an unknown sensor |
| LegoHub.AcknowledgementCases | lego_hub_monitor.py:583-608 | 0x47 names the port read signed and 0x82 the port and code read unsigned, each raising on a short frame; 0x05 reports the bytes after the type |
| HubMonitor.MismatchedLengthIgnored | lego_hub_monitor.py:306-307 | a frame with a mismatching length byte is dropped with no state change and nothing written |
| HubMonitor.DormantConfigNeverRuns | lego_hub_monitor.py:338-399 | the auto-configuration sits inside `if dev == 0x05`, and every inner test asks for another code, so an attach only requests port information |
| HubMonitor.AttachRequestsPortInformation | lego_hub_monitor.py:322-338 | attach stores the device and submits exactly `[5,0,0x21,port,1]`; a negative port makes that request raise after the table was updated |
| HubMonitor.ModeRequests | lego_hub_monitor.py:425-430 | the loop makes 5·n requests, request k for mode k/5 and information type k%5 |
| HubMonitor.PortInformationFansOut | lego_hub_monitor.py:412-432 | a type-1 port-information reply announcing n modes submits exactly 5·n requests of type 0x22, ordered by mode and by type 0..4 within a mode, and leaves the table as it is |
| HubMonitor.ModeRequestsSend | lego_hub_monitor.py:425-430 | every request the loop makes sends, so the loop never raises and submits exactly its frames |
| HubMonitor.ModeInformationCases | lego_hub_monitor.py:434-452 | mode information only reports: name and symbol must be ASCII, a range must be exactly two floats (8 bytes), and other types are unknown |
| HubMonitor.OtherTypesKeepSession | lego_hub_monitor.py:312-608 | every message type except 0x04 and 0x43 leaves the table and the pipeline unchanged and writes nothing |
| HubMonitor.NotifyKeepsSignedKeys | lego_hub_monitor.py:322-334 | the table only ever holds keys read as signed bytes |
| HubMonitor.HighSensorPortRaises | lego_hub_monitor.py:454-460 | the sensor branch reads the port unsigned (`'B'`), so a port byte of 0x80 or more is never found and raises |
| HubMonitor.SensorReport | lego_hub_monitor.py:454-581 | a sensor report changes nothing and decodes the port's device with the hub monitor's decoder; a missing port raises and a detached one is unknown |
| HubMonitor.ResolvedFrames | lego_hub_monitor.py:131-144 | at connection the button-report request is written, and the orange LED and the name request wait behind it in that order |
| BoostMonitor.MismatchedLengthIgnored | lego_boost_monitor.py:278-282 | a frame with a mismatching length byte is dropped with no state change |
| BoostMonitor.InteractiveMotorAttach | lego_boost_monitor.py:307-341 | attaching 0x26 stores it and submits the rotation-report mode 2 and then `motor_run_angle(port,25,360)`, in that order |
| BoostMonitor.InteractiveMotorNegativePort | lego_boost_monitor.py:299-341 | attaching 0x26 on a port read as negative stores it and submits the rotation-report frame (`'b'` packs the port), then `motor_run_angle`'s `'B'` port raises and the handler ends with the exception |
| BoostMonitor.WedoMotorAttach | lego_boost_monitor.py:311-316 | attaching 0x01 submits `motor_run(port,25)` = `[7,0,0x81,port,0x11,1,25]` |
| BoostMonitor.NegativePortMotorRaises | lego_boost_monitor.py:299-316 | a motor on a port read as negative cannot be commanded: the `'B'` port raises after the table was updated |
| BoostMonitor.DetachQueuesNothing | lego_boost_monitor.py:303-306 | detaching only sets the entry to None and queues nothing |
| BoostMonitor.QuietAttach | lego_boost_monitor.py:315-348 | devices without a reaction submit nothing on attach |
| BoostMonitor.SensorReport | lego_boost_monitor.py:363-437 | a sensor report reads the port signed, changes nothing, raises for a port never attached, and never ends the process |
| BoostMonitor.ColorReport | lego_boost_monitor.py:403-407 | a 4-byte colour report reads as (colour, distance) |
| BoostMonitor.OtherTypesKeepSession | lego_boost_monitor.py:284-446 | every message type except 0x04 leaves the session unchanged and writes nothing |
| BoostMonitor.ResolvedFrames | lego_boost_monitor.py:113-130 | at connection the button configuration is written, and the orange LED and the name request wait behind it |
| ColorEcho.MismatchedLengthIgnored | lego_boost_color_echo.py:161-164 | the same length check as the monitors: a mismatching frame changes nothing |
| ColorEcho.ColorSensorAttach | lego_boost_color_echo.py:176-185 | attaching 0x25 submits exactly one command, `[10,0,0x41,port,8,1,0,0,0,1]` |
| ColorEcho.OtherPortEventsQuiet | lego_boost_color_echo.py:169-185 | detaching, and attaching anything else, submit nothing and keep the remembered colour |
| ColorEcho.ColorChangeCondition | lego_boost_color_echo.py:187-205 | a colour is acted on exactly when the port holds 0x25, the payload is 4 bytes and the colour differs from the remembered one; it is then remembered and its LED frame is submitted, otherwise nothing changes |
| ColorEcho.ColorShown | lego_boost_color_echo.py:199-205 | a colour that is acted on is remembered, reported, and its LED frame (0 for 0xff) is submitted |
| ColorEcho.NotifyReports | lego_boost_color_echo.py:187-205 | every well-formed 0x45 frame of at least 4 bytes reaches the colour-report branch |
| ColorEcho.RepeatedReportQuiet | lego_boost_color_echo.py:198-201 | repeating a report changes nothing the second time and queues nothing |
| ColorEcho.NothingDetectedTurnsLedOff | lego_boost_color_echo.py:203-205 | 0xff is remembered as 0xff, but the LED command sent is colour 0 |
| ColorEcho.OtherTypesIgnored | lego_boost_color_echo.py:169-187 | frames of any type other than 4 and 0x45 leave the state unchanged |
| ColorEcho.ResolvedFrames | lego_boost_color_echo.py:93-104 | at connection the LED is switched off with `[8,0,0x81,0x32,0x11,0x51,0,0]` |
| Fifo.Submit | lego_hub_monitor.py:168-176 | an idle submit writes at once and sets the flag; otherwise the payload joins the end of the queue |
| Fifo.Ack | lego_hub_monitor.py:154-162 | an ack writes the oldest waiting payload, or clears the flag when nothing waits |
| Fifo.SubmitAll | lego_hub_monitor.py:168-176 | submitting several payloads keeps them in order: old queue + payloads = written + new queue, with at most one write started and one only from idle |
| Fifo.HandleKeepsOrder | lego_hub_monitor.py:154-176 | every event keeps the order: queue before + the submitted payload = written + queue after |
| Fifo.SubmitAllFromIdle | lego_hub_monitor.py:168-176 | several submits from idle write the first and queue the rest in order |
| Fifo.AtMostOneOutstanding | lego_hub_monitor.py:154-176 | across any legal interleaving of submits, acks and failures, the transport holds at most one write |
| Fifo.WritesInSubmissionOrder | lego_hub_monitor.py:154-176 | the submissions are exactly the payloads written followed by those still queued |
| Fifo.WrittenIsPrefix | lego_hub_monitor.py:154-176 | from the start, the writes are a prefix of the submissions, in order |
| Fifo.FailureStalls | lego_hub_monitor.py:164-166 | a failure changes neither flag nor queue and writes nothing, yet answers the outstanding write: the pipeline is stalled |
| Fifo.StalledForever | lego_hub_monitor.py:164-176 | once stalled, nothing is ever written again and every submission only queues |
| Coalesce.Run | ft_karussell.py:140-150 | idle: write at once and set the flag; in flight: the value replaces the waiting one |
| Coalesce.Ack | ft_karussell.py:116-122 | a truthy waiting value is written and the slot cleared with the flag kept; a falsy one (None or 0) clears the flag and stays |
| Coalesce.AckFixed | ft_karussell.py:116-122 | the corrected ack writes any waiting value, 0 included, and clears the flag only when nothing waits |
| Coalesce.LastWins | ft_karussell.py:140-150 | values run during one write overwrite each other; only the latest is kept and nothing is written |
| Coalesce.CoalescedToLast | ft_karussell.py:116-150 | several runs during one write followed by the ack transmit exactly the last one, if it is not 0 |
| Coalesce.ZeroNeverSent | ft_karussell.py:118-119 | a waiting 0 is never transmitted: the ack clears the flag instead |
| Coalesce.FirstRunCoalesced | ft_karussell.py:89-93 | the Channel write sets the flag, so the first run after service resolution is held back |
| Coalesce.AtMostOneOutstanding | ft_karussell.py:116-150 | under either ack handler the transport holds at most one write of the slot |
| Coalesce.FailureStalls | ft_karussell.py:125-127 | after a failure the flag stays set with nothing outstanding: nothing is written again |
| Coalesce.FixedKeepsLatest | ft_karussell.py:140-150 | with the corrected handler the last value asked for is either waiting or was the last one written |
| Coalesce.LastZeroLost | ft_karussell.py:116-122 | with a write of 1 in flight, `run(0)` then the ack leaves 0 as the latest request, writes nothing more and clears the flag |
| Coalesce.LastZeroSentWhenFixed | ft_karussell.py:116-122 | the same two events under the corrected ack write the 0 |
| Coalesce.RunCar | ft_rc_racer.py:130-140 | the race car's run slot: write when idle, otherwise replace the waiting speed; the steer slot is untouched |
| Coalesce.Steer | ft_rc_racer.py:142-152 | the steer slot: write when idle, otherwise replace the waiting angle; the run slot is untouched |
| Coalesce.AckCar | ft_rc_racer.py:114-123 | the run slot is written before the steer slot, one write per ack; the flag clears only when both are falsy |
| Coalesce.AckCarFixed | ft_rc_racer.py:114-123 | the corrected ack writes any waiting value, run slot first, and clears the flag only when both slots are empty |
| Coalesce.RunBeforeSteer | ft_rc_racer.py:114-123 | with both slots filled, three acks write the speed, then the angle, then end the cycle |
| Coalesce.CarZeroNeverSent | ft_rc_racer.py:116-117 | a waiting 0 in either slot is never transmitted |
| Coalesce.CarZeroSentWhenFixed | ft_rc_racer.py:114-123 | under the corrected handler a waiting 0 is written, the run slot first |
| WeDo.SlotIndex | lego_dino.py:147-149 | `self.port[port-1]` names a slot exactly for ports -1..2; ports 1 and 2 get their own slot and port 0 gets port 2's slot |
| WeDo.PlugEventSlot | lego_dino.py:143-163 | for port 1 or 2, event 0 empties the slot, event 1 classifies type 1/34/35/other as motor/tilt/motion/unknown, and the other slot is untouched |
| WeDo.ClassifyCases | lego_dino.py:151-163 | a slot becomes motion exactly for type 35, motor exactly for 1 and tilt exactly for 34 |
| WeDo.HighPortsIgnored | lego_dino.py:146-147 | plug events for ports above 2 change nothing |
| WeDo.Plug | lego_dino.py:143-163 | a plug event touches neither the output queue nor the output characteristic, and writes at most one mode-set frame |
| WeDo.PortZeroOverwritesPortTwo | lego_dino.py:146-149 | a plug event for port 0 writes port 2's slot: `[0,1,0,1]` records a motor there and `[0,0,0,0]` empties it |
| WeDo.FixedPlugTouchesOwnSlot | lego_dino.py:146-149 | with the corrected port test only ports 1 and 2 change the table, and each leaves the other port's slot alone |
| WeDo.MotionSensorModeWrite | lego_dino.py:156-161 | attaching a motion sensor writes `[1,2,port,35,0,1,0,0,0,2,1]` directly to the mode characteristic, bypassing the output queue |
| WeDo.SetOutput | lego_dino.py:165-170 | `set_output` is the FIFO pipeline: written + queued after = queued before + the payload, with at most one write started |
| WeDo.MotorOnlyOnPortOne | lego_dino.py:172-176 | `set_motor` looks at port 1 only: it queues `[1,1,1,speed]` when a motor is there and nothing otherwise |
| WeDo.SetMotor | lego_dino.py:172-176 | `set_motor` leaves the table alone and writes no mode frame; it starts at most one output write, only from idle, and never clears the in-flight flag |
| WeDo.NegativeSpeedRaises | lego_dino.py:172-176 | a negative speed makes `bytes()` raise |
| WeDo.SetColor | lego_dino.py:178-184 | `set_color` raises exactly when the distance is not a valid index into the colour list |
| WeDo.ShadeRange | lego_dino.py:178-184 | for distances 0..9 the colour is one of 6..9 |
| WeDo.ShadeMonotone | lego_dino.py:178-184 | the colour does not increase as the distance increases |
| WeDo.SetColorFrame | lego_dino.py:178-184 | `set_color(v)` for 0..9 queues `[6,4,1,c]` with c in 6..9 |
| WeDo.CloseObstacle | lego_dino.py:128-141 | a close reading (below 4) on a motion sensor queues the colour and then the motor at 100, in that order |
| WeDo.Reading | lego_dino.py:128-141 | a reading leaves the table alone and writes no mode frame; on the output pipeline it starts at most one write, only from idle, and never leaves a write in flight unrecorded |
| WeDo.Ack | lego_dino.py:113-121 | the ack pops the output queue whichever characteristic was acknowledged; the corrected handler ignores mode-set acks |
| WeDo.FixedAtMostOneOutput | lego_dino.py:113-121 | with the corrected ack handler the transport never holds more than one output write |
| WeDo.DeliverKeepsInv | lego_dino.py:113-125 | under the corrected handler any event (an ack or failure only when it answers a held write) keeps at most one output write held, and only while the flag is set |
| WeDo.ModeAckDoublesOutput | lego_dino.py:113-121 | Resolve, a motion sensor on port 1, a reading at distance 5 and the ack of the mode write are a legal run that leaves two output writes held at once |
| Karussell.Step | ft_karussell.py:181-209 | a tick keeps the ride's counter ranges and asks only for speeds in 0..100 |
| Karussell.Advance | ft_karussell.py:181-209 | a tick of a valid ride never raises, keeps the ride valid and writes at most one byte |
| Karussell.Acknowledge | ft_karussell.py:116-122 | the ack leaves the ride alone; as written it writes exactly when the waiting value is truthy, corrected exactly when one waits, and then it writes that value |
| Karussell.StepsCompose | ft_karussell.py:181-209 | n+m ticks are n ticks then m ticks, and the speeds asked for are those of the first n followed by those of the last m |
| Karussell.SpeedUp | ft_karussell.py:182-192 | from speed k the start phase asks for k, k+1, …, 100 and then cruises with the counter at 0 |
| Karussell.Cruise | ft_karussell.py:193-201 | cruising asks for nothing and after 301 ticks from 0 starts braking at 100 |
| Karussell.Brake | ft_karussell.py:202-209 | braking from k asks for k, k-1, …, 0 and then the ride is over |
| Karussell.Press | ft_karussell.py:129-138 | I1 must be exactly two bytes (`'<H'`), otherwise the handler raises |
| Karussell.PressStartsOnlyWhenIdle | ft_karussell.py:135-138 | a press starts a ride exactly when the reading is below 100 and no ride is active; presses during a ride change nothing |
| Karussell.PressReadsLittleEndian | ft_karussell.py:131 | the reading is byte 0 plus 256 times byte 1 |
| Karussell.FullRide | ft_karussell.py:181-209 | 503 ticks after a press the ride is over, and `run` was called with 0..100 and then 100..0 |
| Karussell.RequestsInRange | ft_karussell.py:181-209 | every value a valid ride passes to `run` lies in 0..100 |
| Karussell.IdleStaysIdle | ft_karussell.py:181 | without a ride a tick does nothing |
| Karussell.FirstSpeedDropped | ft_karussell.py:89-93 | the first speed 0 waits behind the Channel write and is then dropped by its ack |
| Karussell.StopLost | ft_karussell.py:116-122 | a final 0 that has to wait is never written by the handler as written, and is written by the corrected one |
| RcRacer.Step | ft_rc_racer.py:187-231 | a tick keeps the course's counter ranges and asks only for values in 0..100 |
| RcRacer.Apply | ft_rc_racer.py:130-152 | a tick's calls write at most once, never while a write is in flight, and never raise for values in 0..100 |
| RcRacer.Runs | ft_rc_racer.py:188-198 | one `run` call per speed, in the same order |
| RcRacer.Advance | ft_rc_racer.py:187-231 | a tick of a valid course never raises, keeps it valid, writes at most once and writes nothing while a write is in flight |
| RcRacer.Acknowledge | ft_rc_racer.py:114-123 | the ack leaves the course alone; as written it writes nothing exactly when both waiting values are falsy, corrected exactly when neither slot holds one |
| RcRacer.StepsCompose | ft_rc_racer.py:187-231 | n+m ticks are n ticks then m ticks, and the calls are those of the first n followed by those of the last m |
| RcRacer.SpeedUp | ft_rc_racer.py:188-198 | from speed 5j the start phase runs 5j, 5j+5, …, 100 and then drives straight |
| RcRacer.DriveStraight | ft_rc_racer.py:199-210 | driving straight makes one call, `steer(80)`, and enters the curve |
| RcRacer.DriveCurve | ft_rc_racer.py:211-222 | the curve makes one call, `steer(0)`, and starts braking at 100 |
| RcRacer.Brake | ft_rc_racer.py:223-231 | braking from 5j runs 5j, 5j-5, …, 0 and then disconnects |
| RcRacer.FullCourse | ft_rc_racer.py:187-231 | 84 ticks from service resolution run 0,5,…,100, steer to 80 and back to 0, run 100,95,…,0 and disconnect, leaving state None |
| RcRacer.ActionsInCourse | ft_rc_racer.py:187-231 | every value passed to `run` or `steer` lies in 0..100 |
| RcRacer.FirstSpeedDropped | ft_rc_racer.py:84-88 | the Channel write holds back the first speed 0, and its ack drops it |
| RcRacer.FailureStalls | ft_rc_racer.py:126-128 | a failure leaves the flag set, so with no ack to come no tick ever writes again |
| RcRacer.StraightenLost | ft_rc_racer.py:116-123 | a waiting `steer(0)` is dropped by the next ack, so the servo stays at 80 |
| RcRacer.StraightenSentWhenFixed | ft_rc_racer.py:114-123 | the corrected handler writes the servo value 0 |
| Discovery.Split | charakteristiken.py:20-27 | `str.split` gives one more piece than there are separators, none containing one |
| Discovery.JoinSplit | charakteristiken.py:20-27 | joining the pieces of a split gives the string back |
| Discovery.SplitJoin | charakteristiken.py:20-27 | splitting the join of separator-free fields gives the fields back |
| Discovery.SplitAtSeparator | charakteristiken.py:20-27 | splitting at the first separator gives the part before it and then the split of the rest |
| Discovery.NoSeparatorOnePiece | charakteristiken.py:20-27 | a string without the separator splits into itself alone |
| Discovery.JoinPrefix | charakteristiken.py:20-27 | joining the first k fields gives a prefix of joining all of them |
| Discovery.Oui | charakteristiken.py:20-27 | the OUI compared is a prefix of the address |
| Discovery.OuiOfFields | charakteristiken.py:20-27 | the OUI of an address with at least three colons is its first three fields |
| Discovery.ToysAreTheFourPrograms | charakteristiken.py:20-27 | the toy filter accepts exactly the four (OUI, name) pairs, which are the union of the four single-toy programs' filters |
| Discovery.ToysRespectCase | charakteristiken.py:20-27 | the OUI is compared case-sensitively: an address starting with an upper-case letter is refused |
| Discovery.ToysRespectNameCase | charakteristiken.py:20-27 | names are compared exactly: "lego move hub" is refused |
| Discovery.MonitorIgnoresCase | lego_hub_monitor.py:33-34 | the monitors lower-case the OUI and match names by membership: an upper-case Technic hub address is found |
| Discovery.Lower | lego_hub_monitor.py:33-34 | `lower()` keeps the length, maps A-Z to a-z and keeps every other character |
| Discovery.BoostMonitorWithinHubMonitor | lego_boost_monitor.py:24-34 | whatever the Boost monitor accepts, the hub monitor accepts too |
| Discovery.MoveHubFoundByMonitors | lego_boost_color_echo.py:31-34 | the colour echo's Move Hub is also found by both monitors |
| Discovery.Discovered | charakteristiken.py:16-37 | a non-matching advertisement changes nothing; a match stops discovery and connects only if no device is set |
| Discovery.ConnectsOnce | charakteristiken.py:29-34 | whatever advertisements arrive, `connect` is called at most once, for the first match, and the device never changes afterwards |
| Discovery.DiscoveryStops | charakteristiken.py:29-34 | discovery keeps running exactly until the first match |
| Discovery.MacArgumentShape | charakteristiken.py:101-106 | the argument is accepted exactly when it has five colons, whatever lies between them |
| Discovery.MacArgumentFields | charakteristiken.py:101-106 | an address built from colon-free fields is accepted exactly when there are six of them |

## Left out

- The `gatt` / D-Bus library: connecting, the connect and disconnect callbacks, enabling notifications, and finding characteristics by UUID. These are foreign calls. Writes and notifications are events. `services_resolved` is modelled only for the commands it sends. The model takes `self.ch` as found.
- Threading and the `thread.join` polling loops. The main loops are modelled as one pure step per tick (`Karussell.Step`, `RcRacer.Step`), with no timing.
- `print` output and the naming helpers (`color_name`, `port_name`, `device_name`, …). These are presentation only; notices carry the values printed.
- charakteristiken.py's service dump and immediate disconnect. They only enumerate and print.
- The exit on a bad command-line address, and the call to `disconnect` at the end of the scripts. Only the shape check itself (`Discovery.MacArgument`) is modelled.
- HubMonitor.ModeInformation: keeps the float ranges of 0x44 as their raw 8 bytes, because floating point is not modelled; only the exactly-8-bytes condition under which `'<ff'` succeeds is kept.
- LegoSensor.DecodeHub: keeps the temperature in tenths of a degree rather than multiplying by 0.1 (floating point).
- LegoHub.HubPropertyNotice: keeps the device name as bytes; a name that is not valid UTF-8 would raise in `decode`, which is not modelled.
- LegoCommands.MotorRunTime: takes the time as integer milliseconds; `int(time*1000)` on a float is not modelled.
- WeDo.Reading: the distance is the IEEE float in bytes 2..5. It is passed in as the real parameter `motion`, so its bytes are not decoded, and NaN and infinity are not modelled.
- `exit(-1)` for device 0x42 is the notice `Terminated`; what happens to the process afterwards is not modelled.
- Discovery.Lower: lower-cases ASCII letters only. MAC addresses are ASCII, and Python's full Unicode case mapping is not modelled.
- Events 2 and other unknown events, and the 0x05, 0x47 and 0x82 branches, only print. They are modelled as notices that change nothing.

## Findings

| source | as written | input that shows it | evidently intended | confidence | as-written member | corrected member |
|---|---|---|---|---|---|---|
| ft_karussell.py:116-122 | the ack tests `not self.outstanding_m1_value`, so a waiting 0 counts as nothing waiting | the last braking value `run(0)` arrives while the write of 1 is in flight, then the ack comes: the 0 is never written and the motor keeps speed 1 | any stored value is sent once the last command is confirmed, as the comment in `run` says | not executed | Coalesce.LastZeroLost | Coalesce.FixedKeepsLatest |
| ft_rc_racer.py:114-123 | the ack tests both slots for truthiness, so a waiting 0 in either is dropped | `steer(0)` at the end of the curve while a write is in flight, then the ack with no speed waiting: the servo stays at 80 | any stored speed or angle is sent, run slot first | not executed | RcRacer.StraightenLost | RcRacer.StraightenSentWhenFixed |
| lego_dino.py:113-121 | the write-succeeded handler pops the output queue whichever characteristic was acknowledged, including the mode-set write of a motion sensor | the start-up colour in flight, a motion sensor on port 1 (mode write), a reading at distance 5 (colour queued), then the ack of the mode write: a second output write starts while the first is unanswered | only an ack of the output characteristic advances the output queue | not executed | WeDo.ModeAckDoublesOutput | WeDo.FixedAtMostOneOutput |
| lego_dino.py:146-149 | the test is `port <= 2`, and `self.port[port-1]` wraps a port of 0 to the last slot | plug event `[0, 1, 0, 1]` records a motor in port 2's slot | only ports 1 and 2 are recorded, as the comment says, each in its own slot | not executed | WeDo.PortZeroOverwritesPortTwo | WeDo.FixedPlugTouchesOwnSlot |
