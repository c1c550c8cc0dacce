# HDMI-CEC to MQTT bridge, modelled in Dafny

This project models the decision logic of an HDMI-CEC to MQTT bridge and
proves properties about it. The bridge has two halves.

The first half is the HDMI-CEC controller, `HdmiCec`. It decodes the frames
and log lines the libcec adapter reports, and turns each into MQTT events. It
also turns requests into operations on the bus: power, volume pulses, mute,
and raw transmits. It converges the audio system's volume on a requested
level. It enumerates the configured devices in a periodic refresh and in a
full scan.

The second half is the MQTT side, `Bridge`. It routes an inbound topic and
payload to one controller call, an error, or nothing. It puts the configured
prefix in front of outbound topics. At start-up it reads a few configuration
rules: both interfaces disabled, the device list, and the refresh delay.

The model keeps the controller's own form. `HdmiCec` is a class. Its fields
are:

- the two flags `settingVolume` and `refreshing`;
- `events`, everything sent through `_mqtt_send`, in order;
- `ops`, every state-changing adapter call, in order.

Each of its methods is proved against a specification function:

- `FrameReaction` for the command callback;
- `Pulses` and `AdjustOps` for volume pulses;
- `Converge` for the `volume_set` loop;
- `RefreshDeviceEvents` and `ScanDeviceEvents` for the enumerations.

Lemmas then state what those functions mean.

The adapter is an oracle. `Adapter` bundles the answers of its queries and
its `*ToString` helpers as uninterpreted functions. In `volume_set`, the
outcome of each wait for an answer is an input `Option<int>`: `None` is a
timeout, and `Some(status)` is the status `AudioStatus()` then returned.

The files are:

- `text.dfy` (`PyText`): the Python string and integer primitives. These are
  `split`, `join`, `replace`, slicing, `int(s, base)`, `str(n)`, `x` and `04x`.
- `codec.dfy` (`CecCodec`): the audio-status byte, the text of an addressed
  command, and the header of a rendered frame.
- `bus.dfy` (`CecBus`): events, topics, bus operations, the adapter oracle and
  tallies over an operation log.
- `volume.dfy` (`CecVolume`): pulse batching and the `volume_set` loop as
  functions, with the lemmas about whole runs.
- `hdmicec.dfy` (`Cec`): the command-callback reaction, the enumerations and
  the class `HdmiCec`.
- `bridge.dfy` (`MqttBridge`): topic prefixing and decoding, routing, the
  start-up rules and the class `Bridge`.

Source paths below are relative to the repository root.

## Model

| member | source | states |
|---|---|---|
| CecCodec.DecodeVolume | src/cec_mqtt_bridge/hdmicec.py:225-240 | mute holds iff the status is above 127; every byte 0..255 gives a level in 0..127 (correction 1, line 29); `EncodeVolume` of the result is the status again, so the decoding loses nothing |
| CecCodec.DecodeEncode | src/cec_mqtt_bridge/hdmicec.py:234-236 | decoding the byte that encodes a mute flag and a level 0..127 gives that flag and level back |
| CecCodec.TxTextAddressHeader | src/cec_mqtt_bridge/hdmicec.py:242-250 | for every pair of addresses, the text before the first colon of an addressed command reads back in hex as `device_id * 16 + device`, and the command follows that colon unchanged |
| CecCodec.TxTextNibbles | src/cec_mqtt_bridge/hdmicec.py:247 | with both addresses in 0..15 the header is the two nibbles; with own address 0 it is the destination digit alone |
| CecCodec.StatusRequestText | src/cec_mqtt_bridge/hdmicec.py:188 | from own address 1..15 the volume query reads `"<id>5:71"` |
| CecCodec.ParseHeader | src/cec_mqtt_bridge/hdmicec.py:85-87 | the header reads iff index 3 and 4 are hex digits and `cmd[6:8]` is a hex number; initiator, destination and opcode are those values |
| CecCodec.ParseOneHexDigit | src/cec_mqtt_bridge/hdmicec.py:85-86 | `int(c, 16)` of one character is its digit value when it is a hex digit, an error otherwise |
| CecCodec.ParseRenderedHeader | src/cec_mqtt_bridge/hdmicec.py:85-87 | a frame rendered as the adapter reports it decodes back to its initiator, destination and opcode |
| CecCodec.RenderedOneByte | src/cec_mqtt_bridge/hdmicec.py:85-96 | a rendered one-operand frame gives back its header, and `int(cmd[9:], 16)` is the operand byte |
| CecCodec.RenderedThreeBytes | src/cec_mqtt_bridge/hdmicec.py:85-104 | a rendered three-operand frame gives back its header; `int(cmd[9:].replace(':', ''), 16)` is the three bytes as one number, first byte highest; `int(cmd[9:14].replace(':', ''), 16)` is the first two bytes as one number |
| CecCodec.ThreeBytesUncolon | src/cec_mqtt_bridge/hdmicec.py:100 | removing the colons from three colon-separated bytes leaves their six digits in order |
| CecCodec.TwoBytesUncolon | src/cec_mqtt_bridge/hdmicec.py:104 | removing the colon from two colon-separated bytes leaves their four digits in order |
| CecCodec.ThreeBytesValue | src/cec_mqtt_bridge/hdmicec.py:100 | the six digits of three bytes read in hex as `b0*65536 + b1*256 + b2` |
| CecCodec.TwoBytesValue | src/cec_mqtt_bridge/hdmicec.py:104 | the four digits of two bytes read in hex as `hi*256 + lo` |
| CecCodec.TxText | src/cec_mqtt_bridge/hdmicec.py:242-250 | the command is sent unchanged at the end of the text, and the text is the command alone iff no destination is given; `TxTextAddressHeader` states what precedes it |
| CecBus.AudioEvents | src/cec_mqtt_bridge/hdmicec.py:273-275 | the audio report is two events: the decoded level on `cec/audio/volume`, then `on` iff the status is above 127 on `cec/audio/mute` |
| CecBus.DeviceTopicName | src/cec_mqtt_bridge/hdmicec.py:72 | a device topic is spelled `cec/device/<decimal device>/<attribute>` |
| CecBus.TopicNameLevels | src/cec_mqtt_bridge/hdmicec.py:92-115 | splitting a topic's name at '/' gives its levels back |
| CecBus.TopicNameInjective | src/cec_mqtt_bridge/hdmicec.py:294-306 | distinct topics have distinct names, so events of two devices never share a topic |
| CecVolume.Pulses | src/cec_mqtt_bridge/hdmicec.py:131-163 | a batch has `amount` pulses, none when `amount` is not positive, each one step in the batch's direction; `PulsesMeaning` states the release flags |
| CecVolume.PulsesMeaning | src/cec_mqtt_bridge/hdmicec.py:131-163 | a batch of `amount` pulses (none when not positive) is all in one direction and moves the volume by `amount` steps; it transmits nothing; a fast batch passes release False on every pulse but the last and True on the last; a slow one passes no explicit flag (`None`), leaving the adapter's default |
| CecVolume.AdjustTowardTarget | src/cec_mqtt_bridge/hdmicec.py:201-219 | one round pulses up iff below the target and transmits nothing; from a gap of 10 it sends `ceil(gap/2)` pulses, each passing release False except the last, which passes True, and halves the gap without crossing the target; below 10 it sends `gap` pulses that pass no release flag (`None`) and lands on the target |
| CecVolume.AdjustOps | src/cec_mqtt_bridge/hdmicec.py:201-219 | a round sends no pulse iff the level read is the target, and never more pulses than the gap; `AdjustTowardTarget` states the batch sizes and where they lead |
| CecVolume.Converge | src/cec_mqtt_bridge/hdmicec.py:177-223 | a run that ends reads no more answers than were given and adjusts no more often than attempts remain (10 from the start); `ConvergeRound` and `ConvergeShape` state its rounds |
| CecVolume.ConvergeRound | src/cec_mqtt_bridge/hdmicec.py:183-221 | a run that ends is its first round's operations followed by the run from the next answer; the run stops on a matching level; a timeout keeps the attempt count and a wrong level uses one attempt |
| CecVolume.TimeoutRound | src/cec_mqtt_bridge/hdmicec.py:192-194 | a round that times out sends only the request and retries with the same attempt count |
| CecVolume.MatchingRound | src/cec_mqtt_bridge/hdmicec.py:197-199 | a round that reads the target ends the run with the request alone, no pulses |
| CecVolume.AdjustRound | src/cec_mqtt_bridge/hdmicec.py:201-221 | a round that reads another level sends the request and that level's pulses, then counts an attempt |
| CecVolume.ConvergeShape | src/cec_mqtt_bridge/hdmicec.py:182-221 | a run adjusts at most 10 times; it reads no more answers than given; it transmits exactly one request per answer read; every run with attempts left begins with that request |
| CecVolume.NoAnswerNoExit | src/cec_mqtt_bridge/hdmicec.py:192-194 | with only timeouts the loop never leaves, however many arrive: nothing ever sets the volume event |
| CecVolume.SkipTimeout | src/cec_mqtt_bridge/hdmicec.py:192-194 | a timeout adds one request and changes neither the outcome, the adjustment count nor the pulses |
| CecVolume.AdjustingCounts | src/cec_mqtt_bridge/hdmicec.py:197-221 | a wrong level uses one answer and one attempt and adjusts once |
| CecVolume.AdjustingUnfold | src/cec_mqtt_bridge/hdmicec.py:186-221 | a wrong-level round is its request, its pulses, then the rest of the run |
| CecVolume.AdjustingRound | src/cec_mqtt_bridge/hdmicec.py:197-221 | a wrong-level round adds one adjustment and its pulses in front of the rest of the run's pulses |
| CecVolume.TimeoutsOnlyAddQueries | src/cec_mqtt_bridge/hdmicec.py:183-221 | taking all timeouts out of the answers gives a run that ends alike, adjusts as often and sends the same pulses in the same order |
| CecVolume.AppliedRound | src/cec_mqtt_bridge/hdmicec.py:204-219 | applied one step per pulse, one round takes the level where `NextLevel` says |
| CecVolume.IdealRunConverges | src/cec_mqtt_bridge/hdmicec.py:183-221 | an amplifier that is always heard and applies every pulse ends on the target after exactly `Halvings(gap)` adjusting rounds, if they fit in the attempts left |
| CecVolume.IdealConvergenceWithinFiveRounds | src/cec_mqtt_bridge/hdmicec.py:183-221 | from any level 0..127 to any accepted target 0..100, such an amplifier reaches the target within 5 adjusting rounds |
| Cec.OpcodeReaction | src/cec_mqtt_bridge/hdmicec.py:95-115 | an opcode yields at most two structured events, and none when its operand fails to parse; what each of the five opcodes yields is stated by `OperandReaction`, `VendorReaction` and `AddressReaction` |
| Cec.FrameReaction | src/cec_mqtt_bridge/hdmicec.py:84-117 | a frame sends something iff its header reads, and then the raw `cec/rx` event comes first |
| Cec.UnreadableFrame | src/cec_mqtt_bridge/hdmicec.py:85-87 | a frame whose header does not read raises before anything is sent |
| Cec.FrameOfHeader | src/cec_mqtt_bridge/hdmicec.py:92-115 | a readable frame sends the raw event, then the opcode's events only when no refresh or scan runs; it raises only then |
| Cec.FrameAlwaysForwarded | src/cec_mqtt_bridge/hdmicec.py:84-117 | a frame sends nothing iff its header does not read; otherwise `cec/rx` with `cmd[3:]` goes first, even during a refresh; a refresh adds nothing else; at most three events in all |
| Cec.UnknownOpcodeOnlyForwarded | src/cec_mqtt_bridge/hdmicec.py:94-117 | an opcode other than the five decoded ones is only forwarded raw |
| Cec.ReadableFrame | src/cec_mqtt_bridge/hdmicec.py:92-115 | outside a refresh, the raw event is followed by the opcode's reaction |
| Cec.OperandReaction | src/cec_mqtt_bridge/hdmicec.py:95-115 | with a readable operand byte: power status names the initiator's power; audio status gives volume then mute; system audio mode gives device 5 `on` for 1 and `standby` otherwise |
| Cec.OneByteReaction | src/cec_mqtt_bridge/hdmicec.py:92-115 | the full reaction to a readable one-operand frame, for each of those three opcodes |
| Cec.AudioStatusFrame | src/cec_mqtt_bridge/hdmicec.py:107-110 | a rendered Report Audio Status frame sends the raw frame, the level, then the mute state of its byte |
| Cec.SystemAudioModeFrame | src/cec_mqtt_bridge/hdmicec.py:111-115 | a rendered Set System Audio Mode frame reports device 5 `on` iff its operand is 1, `standby` otherwise |
| Cec.PowerStatusFrame | src/cec_mqtt_bridge/hdmicec.py:95-98 | a rendered Report Power Status frame reports its initiator's power as the adapter names the byte |
| Cec.VendorReaction | src/cec_mqtt_bridge/hdmicec.py:99-102 | a readable Device Vendor ID frame whose operand text, colons removed, reads in hex as `b0*65536 + b1*256 + b2` sends the raw frame, then the adapter's name for that id on the initiator's `vendor` topic, and does not raise |
| Cec.AddressReaction | src/cec_mqtt_bridge/hdmicec.py:103-106 | a readable Report Physical Address frame whose `cmd[9:14]`, colon removed, reads in hex as `hi*256 + lo` sends the raw frame, then `04x` of that value on the initiator's `address` topic, and does not raise |
| Cec.VendorIdFrame | src/cec_mqtt_bridge/hdmicec.py:99-102 | a rendered Device Vendor ID frame with vendor bytes b0, b1, b2 sends the raw frame, then the adapter's name for the 24-bit id `b0*65536 + b1*256 + b2` on the initiator's `vendor` topic |
| Cec.PhysicalAddressFrame | src/cec_mqtt_bridge/hdmicec.py:103-106 | a rendered Report Physical Address frame with address bytes hi, lo and a device type sends the raw frame, then the address `hi*256 + lo` on the initiator's `address` topic as exactly four hex digits that read back as that address; the device type is not read |
| Cec.PresentDevices | src/cec_mqtt_bridge/hdmicec.py:260-264 | a device is among the present ones iff it is listed and its physical address is not 0xFFFF |
| Cec.RefreshDeviceEvents | src/cec_mqtt_bridge/hdmicec.py:260-270 | the refresh loop sends at most one event per listed device; `RefreshOnePowerEventPerPresentDevice` states which |
| Cec.RefreshOnePowerEventPerPresentDevice | src/cec_mqtt_bridge/hdmicec.py:260-270 | the refresh loop sends exactly one power event per present device, in list order, and none for an absent one |
| Cec.DeviceSnapshot | src/cec_mqtt_bridge/hdmicec.py:294-306 | a present device's scan is seven events |
| Cec.SnapshotTopics | src/cec_mqtt_bridge/hdmicec.py:294-306 | the seven events are type, address, active, vendor, osd, cecver, power, in that order, all on the device's topics; the address is `04x` of the physical address; the last is the power report |
| Cec.ScanDeviceEvents | src/cec_mqtt_bridge/hdmicec.py:282-306 | the scan loop sends at most seven events per listed device; `ScanSevenEventsPerPresentDevice` states which, and where |
| Cec.ScanSevenEventsPerPresentDevice | src/cec_mqtt_bridge/hdmicec.py:282-306 | the scan loop sends exactly 7 events per present device, the j-th present device's block at positions 7j..7j+6, and nothing for absent ones |
| Cec.HdmiCec.constructor | src/cec_mqtt_bridge/hdmicec.py:26-52 | both flags clear, no bus operation, and the events of one scan |
| Cec.HdmiCec.Send | src/cec_mqtt_bridge/hdmicec.py:27 | one `_mqtt_send` appends one event |
| Cec.HdmiCec.OnLog | src/cec_mqtt_bridge/hdmicec.py:64-72 | a matched power change emits the device's power event with the matched state iff no refresh runs; otherwise nothing |
| Cec.HdmiCec.OnCommand | src/cec_mqtt_bridge/hdmicec.py:84-117 | the events sent and whether it raises are exactly `FrameReaction` of the frame and the `refreshing` flag |
| Cec.HdmiCec.Forward | src/cec_mqtt_bridge/hdmicec.py:92-115 | the raw event, then the opcode's events unless refreshing |
| Cec.HdmiCec.Report | src/cec_mqtt_bridge/hdmicec.py:95-115 | the opcode branch sends exactly `OpcodeReaction`'s events and raises exactly when it does |
| Cec.HdmiCec.PowerOn | src/cec_mqtt_bridge/hdmicec.py:119-123 | sends the device's power `on` event, then powers it on |
| Cec.HdmiCec.PowerOff | src/cec_mqtt_bridge/hdmicec.py:125-129 | sends the device's power `standby` event, then puts it in standby |
| Cec.HdmiCec.VolumeMute | src/cec_mqtt_bridge/hdmicec.py:165-169 | sends mute `on`, then mutes |
| Cec.HdmiCec.VolumeUnmute | src/cec_mqtt_bridge/hdmicec.py:171-175 | sends mute `off`, then unmutes |
| Cec.HdmiCec.TxCommand | src/cec_mqtt_bridge/hdmicec.py:242-250 | exactly one transmit of the command to the optional destination |
| Cec.HdmiCec.VolumeStep | src/cec_mqtt_bridge/hdmicec.py:131-163 | exactly `Pulses(up, amount, amount >= 10)`, then one volume query to device 5 iff `update`; no event |
| Cec.HdmiCec.VolumeUp | src/cec_mqtt_bridge/hdmicec.py:131-146 | up pulses as `VolumeStep` states them |
| Cec.HdmiCec.VolumeDown | src/cec_mqtt_bridge/hdmicec.py:148-163 | down pulses as `VolumeStep` states them |
| Cec.HdmiCec.VolumeSet | src/cec_mqtt_bridge/hdmicec.py:177-223 | the bus operations are exactly the run `Converge` describes; `settingVolume` is clear at the end; no event |
| Cec.HdmiCec.VolumeRound | src/cec_mqtt_bridge/hdmicec.py:186-221 | one request, then the round's adjustment; the loop ends iff the answer matches the target; an attempt is used iff an answer came and missed |
| Cec.HdmiCec.ChangeVolume | src/cec_mqtt_bridge/hdmicec.py:201-219 | exactly the pulses `AdjustOps` describes |
| Cec.HdmiCec.Refresh | src/cec_mqtt_bridge/hdmicec.py:252-276 | while a volume set runs, nothing changes; otherwise one power event per present device, then volume and mute, and `refreshing` ends clear; no bus operation |
| Cec.HdmiCec.Scan | src/cec_mqtt_bridge/hdmicec.py:278-312 | whatever the flags: each device's scan events in list order, then volume and mute; `refreshing` ends clear; no bus operation |
| Cec.HdmiCec.SendAudioStatus | src/cec_mqtt_bridge/hdmicec.py:273-275 | appends exactly the two audio events of the status |
| Cec.HdmiCec.ScanDevice | src/cec_mqtt_bridge/hdmicec.py:285-306 | a present device gets its seven snapshot events, an absent one nothing |
| PyText.Split | src/cec_mqtt_bridge/bridge.py:125 | `split` gives one more piece than there are separators; no piece holds the separator; joining them gives the text back |
| PyText.SplitJoin | src/cec_mqtt_bridge/bridge.py:165 | splitting a join of separator-free pieces gives the pieces back |
| PyText.ParseDecimal | src/cec_mqtt_bridge/bridge.py:209-211 | `int(str(n))` is `n` for every integer |
| PyText.ParseHex | src/cec_mqtt_bridge/hdmicec.py:247 | `int(f'{n:x}', 16)` is `n` for every integer |
| PyText.PaddedHexFour | src/cec_mqtt_bridge/hdmicec.py:296-297 | `04x` of a 16-bit value is exactly four hex digits, and they read back as the value |
| PyText.ZeroPad | src/cec_mqtt_bridge/hdmicec.py:106 | left zero-padding keeps the text at the end and fills only with '0' up to the width |
| PyText.ParseInt | src/cec_mqtt_bridge/hdmicec.py:85-87 | `int(s, base)` for base 10 and 16 succeeds only on text that is not blank once stripped; `ParseDecimal`, `ParseHex`, `ParseUnsigned` and `ParseNegative` state what it reads |
| PyText.ParseUnsigned | src/cec_mqtt_bridge/hdmicec.py:96 | digits with no sign, no `0x` and no white space read as their value |
| PyText.ParseNegative | src/cec_mqtt_bridge/bridge.py:209-211 | a minus sign before such digits negates their value |
| PyText.RemoveAll | src/cec_mqtt_bridge/bridge.py:125 | `replace(p, '')` never lengthens the text; `RemoveAllLeading`, `RemoveAllAbsent` and `RemoveCharAfter` state what it removes |
| PyText.RemoveCharAfter | src/cec_mqtt_bridge/hdmicec.py:100 | removing a character: text free of it up to its first occurrence is kept, that occurrence is dropped, and removal goes on after it |
| PyText.RemoveCharAbsent | src/cec_mqtt_bridge/hdmicec.py:100 | removing a character that does not occur leaves the text unchanged |
| PyText.NotContainedWithout | src/cec_mqtt_bridge/bridge.py:125 | a text without the first character of a pattern does not contain the pattern |
| PyText.RemoveAllLeading | src/cec_mqtt_bridge/bridge.py:125 | `replace` removes an occurrence at the front and goes on after it |
| PyText.RemoveAllAbsent | src/cec_mqtt_bridge/bridge.py:125 | `replace` leaves a text without the pattern unchanged |
| MqttBridge.PublishTopic | src/cec_mqtt_bridge/bridge.py:117-120 | the outbound topic is the prefix, '/', then the topic |
| MqttBridge.SegmentsOfPublished | src/cec_mqtt_bridge/bridge.py:117-125 | a topic published behind the prefix decodes to its levels, provided the prefix does not occur again after its own place at the front (the prefix is empty, or absent from `"/"` + the levels joined by '/') |
| MqttBridge.PublishedTopicDecodes | src/cec_mqtt_bridge/bridge.py:117-125 | every topic the controller publishes decodes back to its levels, provided the prefix does not occur again after its own place at the front (the prefix is empty, or absent from `"/"` + the topic's name) |
| MqttBridge.Segments | src/cec_mqtt_bridge/bridge.py:125 | the levels of an inbound topic are as many as the '/' left once the prefix is removed, and none holds a '/' |
| MqttBridge.PrefixAsFirstLevel | src/cec_mqtt_bridge/bridge.py:125 | every occurrence of the prefix is deleted; so a first level equal to the prefix is blanked and the message is ignored |
| MqttBridge.RoutePublished | src/cec_mqtt_bridge/bridge.py:122-176 | a message sent behind the prefix is routed on its own levels, provided the prefix does not occur again after its own place at the front (the prefix is empty, or absent from `"/"` + the levels joined by '/') |
| MqttBridge.RouteSegments | src/cec_mqtt_bridge/bridge.py:127-176 | only a topic of at least two levels whose first is `cec` leads to a controller call; the `Route*` lemmas below state which call |
| MqttBridge.Route | src/cec_mqtt_bridge/bridge.py:122-176 | only an inbound topic whose decoded levels are at least two, the first `cec`, leads to a controller call |
| MqttBridge.RoutePower | src/cec_mqtt_bridge/bridge.py:131-140 | `device/<id>/power`: `on` powers on, `standby` puts in standby, anything else raises |
| MqttBridge.RouteDevice | src/cec_mqtt_bridge/bridge.py:131-140 | a power topic whose device level reads as a number routes on the payload alone, to that device |
| MqttBridge.DigitStringValue | src/cec_mqtt_bridge/bridge.py:150-151 | `int()` of an ASCII digit string is its value |
| MqttBridge.RouteVolume | src/cec_mqtt_bridge/bridge.py:142-153 | `up` and `down` step the volume (each iff the payload is that word); a set to `level` happens iff the payload is all digits reading as `level` ≤ 100; otherwise it raises |
| MqttBridge.RouteVolumeLevel | src/cec_mqtt_bridge/bridge.py:150-151 | every level 0..100 written in decimal sets that volume |
| MqttBridge.RouteVolumeRejects | src/cec_mqtt_bridge/bridge.py:150-153 | `"150"`, `"-5"` and `""` raise |
| MqttBridge.RouteMute | src/cec_mqtt_bridge/bridge.py:155-162 | `on` mutes, `off` unmutes, anything else raises |
| MqttBridge.RouteTx | src/cec_mqtt_bridge/bridge.py:164-168 | `tx` sends one piece per comma-separated part, one more than the commas; the pieces hold no comma and join back to the payload |
| MqttBridge.RouteFrames | src/cec_mqtt_bridge/bridge.py:164-168 | a `tx` topic, whatever follows it, sends the comma-separated pieces of the payload |
| MqttBridge.RouteTwoFrames | src/cec_mqtt_bridge/bridge.py:164-168 | two comma-free frames joined by a comma are sent as exactly those two frames, in order |
| MqttBridge.RouteTxExample | src/cec_mqtt_bridge/bridge.py:164-168 | `"71,1F:82:1000"` is sent as `"71"` then `"1F:82:1000"` |
| MqttBridge.RouteIgnores | src/cec_mqtt_bridge/bridge.py:129-176 | returns silently for a first level other than `cec`, an unknown second level, an audio level other than volume and mute, and a device attribute other than power |
| MqttBridge.StartupFails | src/cec_mqtt_bridge/bridge.py:39-41 | start-up goes on iff the CEC setting reads 1, or it reads as a number and the IR setting reads 1 |
| MqttBridge.DefaultsFail | src/cec_mqtt_bridge/bridge.py:39-41 | with both settings at their default 0 start-up raises; the config text `" 1\n"` for CEC lets it go on |
| MqttBridge.ParseAll | src/cec_mqtt_bridge/bridge.py:65 | the list comprehension succeeds iff every piece reads as a number, and gives those numbers in order |
| MqttBridge.ParseDevices | src/cec_mqtt_bridge/bridge.py:65 | a device list that reads gives one number per comma-separated piece, one more than the commas, each the piece's `int()` |
| MqttBridge.DeviceListRoundTrip | src/cec_mqtt_bridge/bridge.py:65 | a device list written as decimal numbers joined by commas is read back exactly |
| MqttBridge.ClampRefreshDelay | src/cec_mqtt_bridge/bridge.py:212-213 | 1..9 becomes 10; every other value stays; the result is never in 1..9 |
| MqttBridge.RefreshDelay | src/cec_mqtt_bridge/bridge.py:205-213 | the delay settled on, when it reads at all, is never in 1..9 |
| MqttBridge.CommandLineDelay | src/cec_mqtt_bridge/bridge.py:208-213 | a `--refreshtime` value wins over the configuration, survives its `str`/`int` round-trip and is clamped |
| MqttBridge.Unaddressed | src/cec_mqtt_bridge/bridge.py:166-167 | one unaddressed transmit per piece, in order |
| MqttBridge.Bridge.OnMessage | src/cec_mqtt_bridge/bridge.py:122-176 | raises iff routing fails; ignored and refused messages leave the controller unchanged; a routed command has exactly its controller call's effect |
| MqttBridge.Bridge.Execute | src/cec_mqtt_bridge/bridge.py:129-176 | each command makes its controller call, with `volume_up()` and `volume_down()` at their default arguments |
| MqttBridge.Bridge.SendAll | src/cec_mqtt_bridge/bridge.py:164-168 | the `tx` loop transmits each piece unaddressed, once each, in order; it sends no event and leaves the flags alone |

## Left out

- Threads, timing and I/O are not modelled. This covers the `threading.Event` wait and its 0.2 s timeout, every `time.sleep`, logging, `OpcodeToString`, and the per-message thread spawn. In `volume_set` a wait's outcome is an input.
- The value returned by `CommandCallback` is not modelled. Only whether the callback raises is kept.
- The adapter's internals are not modelled: `Open`, the callback registration, `KeyPressCallback` and `CommandFromString`. Its query answers and `*ToString` helpers are uninterpreted inputs. The constructor takes the adapter as open.
- The adapter gives the same answers to repeated queries within one operation. So `scan`'s second `GetDevicePhysicalAddress` call returns the first call's value.
- Regular expressions are not modelled. The `re.search` in `_on_log_callback` is an input: what it matched, if anything.
- The float volume correction is not modelled: it is fixed at the installed value of 1 (hdmicec.py:29).
- CecCodec.DecodeVolume: does not model other correction factors or `math.ceil` on floats, because only the installed factor of 1 is modelled.
- PyText.IsWhitespace: is ASCII-only (space, `\t` to `\r`, `\x1c` to `\x1f`). Python's `int()` also strips Unicode white space such as U+00A0, so a device level `"\u00a05"` reaches device 5 in the code and fails to route in the model (`PyText.ParseInt`, `MqttBridge.RouteSegments`).
- PyText.ParseInt: reads ASCII digits only. It does not accept the underscores or non-ASCII digits that Python's `int()` accepts. `str.isdigit` is likewise ASCII-only (`MqttBridge.IsDigitString`).
- `message.payload.decode()` is not modelled: payloads are taken as already decoded text.
- Cec.HdmiCec.TxCommand: records its arguments, not the text handed to `CommandFromString`. Reason: that text is a function of those arguments, `CecCodec.TxText`, and its properties are proved there.
- CecVolume.AdjustOps: computes `math.ceil(diff / 2)` exactly, as `(gap + 1) / 2` on unbounded integers. Python divides in floating point, so the two agree only for gaps below 2^53, and above about 1.8e308 Python raises `OverflowError`. `Cec.HdmiCec.VolumeSet` accepts any integer target, so such gaps are possible inputs; from the bridge the target is at most 100.
- Cec.HdmiCec.VolumeSet: requires that the given wait outcomes suffice for the loop to end (`Converge(...).Some?`). With only timeouts the real loop never ends. `CecVolume.NoAnswerNoExit` proves this about the model instead.
- MqttBridge.Bridge.OnMessage: requires the same of a volume-set message (`Answerable`).
- MqttBridge.Bridge.OnMessage: assumes CEC is enabled. With CEC disabled, `cec_class` does not exist and every routed CEC message would raise `AttributeError`.
- `_load_config` and the environment overlay are not modelled. Configuration values come in as `Setting`: an integer default or config-file text.
- The MQTT plumbing is not modelled: client construction, TLS, credentials, connect, subscriptions, the will and birth messages, `cleanup`, and the `main` loop that calls `refresh` periodically.
- The IR side is not modelled: `lirc.py` and `lirc_if.py`, and the IR object's construction. Only the IR enabled setting takes part, in the start-up check.
- MqttBridge.Bridge.constructor: does not parse the device list and cannot raise on it. It takes an already built `HdmiCec`, and `Cec.HdmiCec.constructor` takes any `seq<int>`. In the code a malformed `devices` setting raises inside `Bridge.__init__` (bridge.py:65). `MqttBridge.ParseDevices` models that parse on its own, and `MqttBridge.StartupFails` models the enabled check on its own; no constructor calls them.
- MqttBridge.Bridge.OnMessage: honours `str.replace` semantics. Every occurrence of the prefix is removed, not just the leading one. `PrefixAsFirstLevel` states the consequence.

Notable behaviour of the code, which the model keeps:

- The `active` attribute is `str(active)`, i.e. `True` or `False`.
- The volume is published as an integer payload, and a decoded level lies in 0..127, while a requested level is at most 100.
- The subscribed `/set` suffix is never checked by the router: any further levels are ignored.
- `scan` runs even while a volume set runs. Only `refresh` returns early then.
- The log callback emits the state text the log line carries, not the adapter's power-status name.
