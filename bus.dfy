/**
 * What the HDMI-CEC controller sees of the outside world: the events it
 * hands to the MQTT side (`_mqtt_send(topic, payload)`), the operations it
 * performs on the libcec adapter, and the adapter's answers to queries.
 */
module CecBus {
  import opened PyText
  import opened CecCodec

  /** An MQTT payload as `_mqtt_send` receives it: text, or the volume as an integer. */
  datatype Payload = Text(text: string) | Number(value: int)

  /**
   * The topics the controller sends on, before the bridge adds its prefix;
   * `TopicName` spells them out.
   */
  datatype Topic =
    | RxTopic                                     // cec/rx
    | VolumeTopic                                 // cec/audio/volume
    | MuteTopic                                   // cec/audio/mute
    | DeviceTopic(device: int, attribute: string) // cec/device/<device>/<attribute>

  /** One `_mqtt_send(topic, payload)` call. */
  datatype Event = Event(topic: Topic, payload: Payload)

  /**
   * One call into the adapter that changes something on the bus. A volume
   * pulse records its release argument as written at the call site:
   * `Some(flag)` when passed explicitly, `None` when the adapter's default is
   * used. A transmit records the arguments of `tx_command`; the text handed
   * to the adapter is `TxText(deviceId, command, device)`.
   */
  datatype BusOp =
    | Transmit(command: string, destination: Option<int>)
    | VolumeUp(release: Option<bool>)
    | VolumeDown(release: Option<bool>)
    | PowerOnDevices(device: int)
    | StandbyDevices(device: int)
    | AudioMute
    | AudioUnmute

  /**
   * The adapter as an oracle: the answers of its queries at the time of one
   * operation, and its `*ToString` helpers, all left uninterpreted.
   */
  datatype Adapter = Adapter(
    physicalAddress: int -> int,        // GetDevicePhysicalAddress
    powerStatus: int -> int,            // GetDevicePowerStatus
    vendorId: int -> int,               // GetDeviceVendorId
    activeSource: int -> bool,          // IsActiveSource
    cecVersion: int -> int,             // GetDeviceCecVersion
    osdName: int -> string,             // GetDeviceOSDName
    audioStatus: int,                   // AudioStatus
    powerStatusName: int -> string,     // PowerStatusToString
    vendorName: int -> string,          // VendorIdToString
    logicalAddressName: int -> string,  // LogicalAddressToString
    cecVersionName: int -> string)      // CecVersionToString

  /** The physical address the adapter reports for a device that is not on the bus. */
  const Absent := 0xFFFF

  /** The '/'-separated levels of a topic. */
  function TopicLevels(t: Topic): seq<string>
  {
    match t
    case RxTopic => ["cec", "rx"]
    case VolumeTopic => ["cec", "audio", "volume"]
    case MuteTopic => ["cec", "audio", "mute"]
    case DeviceTopic(device, attribute) => ["cec", "device", Decimal(device), attribute]
  }

  /** The topic string the controller passes to `_mqtt_send`. */
  function TopicName(t: Topic): string
  {
    Join(TopicLevels(t), '/')
  }

  /** An attribute is a single topic level. */
  predicate WellFormedTopic(t: Topic)
  {
    t.DeviceTopic? ==> '/' !in t.attribute
  }

  lemma JoinFour(a: string, b: string, c: string, d: string)
    ensures Join([a, b, c, d], '/') == a + "/" + b + "/" + c + "/" + d
  {
    assert [a, b, c, d][1..] == [b, c, d];
    assert [b, c, d][1..] == [c, d];
    assert [c, d][1..] == [d];
    assert Join([d], '/') == d;
    assert Join([c, d], '/') == c + "/" + d;
    assert Join([b, c, d], '/') == b + "/" + (c + "/" + d);
    assert Join([a, b, c, d], '/') == a + "/" + (b + "/" + (c + "/" + d));
  }

  /** A device topic is spelled `cec/device/<decimal device>/<attribute>`. */
  lemma DeviceTopicName(device: int, attribute: string)
    ensures TopicName(DeviceTopic(device, attribute)) == "cec/device/" + Decimal(device) + "/" + attribute
  {
    JoinFour("cec", "device", Decimal(device), attribute);
    assert "cec" + "/" + "device" + "/" == "cec/device/";
  }

  /**
   * Splitting a topic's name at '/' gives its levels back: every topic the
   * controller sends is read back level by level, the device number as its
   * decimal spelling.
   */
  lemma TopicNameLevels(t: Topic)
    requires WellFormedTopic(t)
    ensures Split(TopicName(t), '/') == TopicLevels(t)
  {
    var levels := TopicLevels(t);
    if t.DeviceTopic? {
      DecimalAvoids(t.device, '/');
    }
    assert forall k :: 0 <= k < |levels| ==> '/' !in levels[k];
    SplitJoin(levels, '/');
  }

  /**
   * Distinct well-formed topics have distinct names: in particular the
   * events of two devices never share a topic.
   */
  lemma TopicNameInjective(t1: Topic, t2: Topic)
    requires WellFormedTopic(t1) && WellFormedTopic(t2)
    requires TopicName(t1) == TopicName(t2)
    ensures t1 == t2
  {
    TopicNameLevels(t1);
    TopicNameLevels(t2);
    var l1, l2 := TopicLevels(t1), TopicLevels(t2);
    assert l1 == l2;
    if t1.DeviceTopic? && t2.DeviceTopic? {
      ParseDecimal(t1.device);
      ParseDecimal(t2.device);
      assert l1[2] == l2[2];
    } else if !t1.DeviceTopic? && !t2.DeviceTopic? {
      assert l1[1] == l2[1] && |l1| == |l2|;
      if |l1| == 3 {
        assert l1[2] == l2[2];
      }
    } else {
      assert |l1| == |l2|;
    }
  }

  function OnOff(b: bool): string
  {
    if b then "on" else "off"
  }

  /** `str(b)` for a Python bool. */
  function PyBool(b: bool): string
  {
    if b then "True" else "False"
  }

  /** The two events that report an audio status: the level, then the mute state. */
  function AudioEvents(status: int): (evs: seq<Event>)
    ensures |evs| == 2
    ensures evs[0].topic == VolumeTopic && evs[1].topic == MuteTopic
    ensures evs[0].payload == Number(DecodeVolume(status).level)
    ensures evs[1].payload == Text(if status > 127 then "on" else "off")
  {
    var v := DecodeVolume(status);
    [Event(VolumeTopic, Number(v.level)), Event(MuteTopic, Text(OnOff(v.mute)))]
  }

  /** The power event of one device. */
  function PowerEvent(device: int, state: string): Event
  {
    Event(DeviceTopic(device, "power"), Text(state))
  }

  // ---------------------------------------------------------------------
  // Observations of an operation log

  /** Sums a weight over a log of bus operations. */
  function Tally(ops: seq<BusOp>, weight: BusOp -> int): int
  {
    if ops == [] then 0 else weight(ops[0]) + Tally(ops[1..], weight)
  }

  lemma {:induction false} TallyAppend(a: seq<BusOp>, b: seq<BusOp>, weight: BusOp -> int)
    ensures Tally(a + b, weight) == Tally(a, weight) + Tally(b, weight)
    decreases |a|
  {
    if a == [] {
      assert a + b == b;
    } else {
      TallyAppend(a[1..], b, weight);
      assert (a + b)[1..] == a[1..] + b;
    }
  }

  /** Net volume steps: +1 per up pulse, -1 per down pulse. */
  function StepOf(op: BusOp): int
  {
    match op
    case VolumeUp(_) => 1
    case VolumeDown(_) => -1
    case _ => 0
  }

  function PulseOf(op: BusOp): int
  {
    if op.VolumeUp? || op.VolumeDown? then 1 else 0
  }

  function ReleasedOf(op: BusOp): int
  {
    if (op.VolumeUp? || op.VolumeDown?) && op.release == Some(true) then 1 else 0
  }

  function TransmitOf(op: BusOp): int
  {
    if op.Transmit? then 1 else 0
  }

  function Steps(ops: seq<BusOp>): int { Tally(ops, StepOf) }
  function PulseCount(ops: seq<BusOp>): int { Tally(ops, PulseOf) }
  function ReleaseCount(ops: seq<BusOp>): int { Tally(ops, ReleasedOf) }
  function TransmitCount(ops: seq<BusOp>): int { Tally(ops, TransmitOf) }
}
