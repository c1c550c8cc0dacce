/**
 * The MQTT side of the bridge: how an inbound message's topic and payload
 * are routed to the HDMI-CEC controller (`mqtt_on_message`), how outbound
 * topics get the configured prefix (`mqtt_publish`), and the start-up rules
 * that read the configuration (both interfaces disabled, the device list,
 * the refresh delay).
 */
module MqttBridge {
  import opened PyText
  import opened CecCodec
  import opened CecBus
  import opened CecVolume
  import opened Cec

  // ---------------------------------------------------------------------
  // Topics

  /** `mqtt_publish`: the topic as it goes out, behind the prefix. */
  function PublishTopic(prefix: string, topic: string): (r: string)
    ensures |r| == |prefix| + 1 + |topic|
    ensures r[..|prefix|] == prefix && r[|prefix|] == '/' && r[|prefix| + 1..] == topic
  {
    prefix + "/" + topic
  }

  /**
   * The topic decoding of `mqtt_on_message`: every occurrence of the prefix
   * is deleted, the rest split at '/', and the first piece dropped.
   */
  function Segments(prefix: string, topic: string): (r: seq<string>)
    ensures |r| == Count(RemoveAll(topic, prefix), '/')
    ensures forall k :: 0 <= k < |r| ==> '/' !in r[k]
  {
    Split(RemoveAll(topic, prefix), '/')[1..]
  }

  /**
   * A topic published behind the prefix decodes back to its levels, as long
   * as the prefix does not occur again after its own place at the front.
   */
  lemma SegmentsOfPublished(prefix: string, levels: seq<string>)
    requires |levels| >= 1 && forall k :: 0 <= k < |levels| ==> '/' !in levels[k]
    requires prefix == [] || !Contains("/" + Join(levels, '/'), prefix)
    ensures Segments(prefix, PublishTopic(prefix, Join(levels, '/'))) == levels
  {
    var rest := "/" + Join(levels, '/');
    assert PublishTopic(prefix, Join(levels, '/')) == prefix + rest;
    if prefix == [] {
      assert prefix + rest == rest;
    } else {
      RemoveAllLeading(prefix, rest);
      RemoveAllAbsent(rest, prefix);
    }
    SplitBeforeSep("", Join(levels, '/'), '/');
    assert "" + ['/'] + Join(levels, '/') == rest;
    SplitJoin(levels, '/');
  }

  /** Every topic the controller publishes reads back, behind the prefix, as its levels. */
  lemma PublishedTopicDecodes(prefix: string, t: Topic)
    requires WellFormedTopic(t)
    requires prefix == [] || !Contains("/" + TopicName(t), prefix)
    ensures Segments(prefix, PublishTopic(prefix, TopicName(t))) == TopicLevels(t)
  {
    TopicNameLevels(t);
    var levels := TopicLevels(t);
    assert forall k :: 0 <= k < |levels| ==> '/' !in levels[k];
    SegmentsOfPublished(prefix, levels);
  }

  /**
   * The decoding deletes the prefix wherever it occurs, so a prefix equal to
   * the first level of a topic removes that level too: with the prefix
   * "cec", the topic "cec/cec/refresh" decodes to `["", "refresh"]`, and
   * every message to the controller is ignored.
   */
  lemma PrefixAsFirstLevel(prefix: string, levels: seq<string>, payload: string)
    requires prefix != [] && prefix[0] != '/'
    requires |levels| >= 1 && forall k :: 0 <= k < |levels| ==> '/' !in levels[k]
    requires !Contains("/" + Join(levels, '/'), prefix)
    ensures Segments(prefix, PublishTopic(prefix, Join([prefix] + levels, '/'))) == [""] + levels
    ensures Route(prefix, PublishTopic(prefix, Join([prefix] + levels, '/')), payload) == Ignore
  {
    PrefixLevelRemoved(prefix, levels);
    BlankLevelSplit(levels);
    assert ([""] + levels)[0] == "";
  }

  /** Both occurrences of the prefix go: the one in front and the one that is the first level. */
  lemma PrefixLevelRemoved(prefix: string, levels: seq<string>)
    requires prefix != [] && prefix[0] != '/'
    requires |levels| >= 1
    requires !Contains("/" + Join(levels, '/'), prefix)
    ensures RemoveAll(PublishTopic(prefix, Join([prefix] + levels, '/')), prefix) == "/" + ("/" + Join(levels, '/'))
  {
    PrefixLevelTopic(prefix, levels);
    RemovedTwice(prefix, "/" + Join(levels, '/'));
  }

  lemma PrefixLevelTopic(prefix: string, levels: seq<string>)
    requires |levels| >= 1
    ensures PublishTopic(prefix, Join([prefix] + levels, '/')) == prefix + ("/" + (prefix + ("/" + Join(levels, '/'))))
  {
    var j := Join(levels, '/');
    JoinCons(prefix, levels, '/');
    Regroup(prefix, "/", j);
    Regroup(prefix, "/", prefix + ("/" + j));
  }

  /** After two separators in a row, the pieces are two empty ones and then the levels. */
  lemma BlankLevelSplit(levels: seq<string>)
    requires |levels| >= 1 && forall k :: 0 <= k < |levels| ==> '/' !in levels[k]
    ensures Split("/" + ("/" + Join(levels, '/')), '/')[1..] == [""] + levels
  {
    var pieces := [""] + ([""] + levels);
    JoinEmptyLevels(levels);
    EmptyLevelsFree(levels);
    SplitJoin(pieces, '/');
    assert pieces[1..] == [""] + levels;
  }

  lemma JoinEmptyLevels(levels: seq<string>)
    requires |levels| >= 1
    ensures Join([""] + ([""] + levels), '/') == "/" + ("/" + Join(levels, '/'))
  {
    JoinBlank(levels);
    JoinBlank([""] + levels);
  }

  /** An empty first piece leaves just the separator in front. */
  lemma JoinBlank(tail: seq<string>)
    requires |tail| >= 1
    ensures Join([""] + tail, '/') == "/" + Join(tail, '/')
  {
    JoinCons("", tail, '/');
    assert "" + ['/'] + Join(tail, '/') == "/" + Join(tail, '/');
  }

  lemma EmptyLevelsFree(levels: seq<string>)
    requires forall k :: 0 <= k < |levels| ==> '/' !in levels[k]
    ensures forall k :: 0 <= k < |[""] + ([""] + levels)| ==> '/' !in ([""] + ([""] + levels))[k]
  {
    var pieces := [""] + ([""] + levels);
    forall k | 0 <= k < |pieces|
      ensures '/' !in pieces[k]
    {
      if k >= 2 {
        assert pieces[k] == levels[k - 2];
      }
    }
  }

  /** Both occurrences of the prefix go, the separator between them stays. */
  lemma RemovedTwice(prefix: string, rest: string)
    requires prefix != [] && prefix[0] != '/' && !Contains(rest, prefix)
    ensures RemoveAll(prefix + ("/" + (prefix + rest)), prefix) == "/" + rest
  {
    var middle := "/" + (prefix + rest);
    RemoveAllLeading(prefix, middle);
    assert middle[..|prefix|][0] == '/';
    SkipOne(middle, prefix);
    assert middle[1..] == prefix + rest;
    RemoveAllLeading(prefix, rest);
    RemoveAllAbsent(rest, prefix);
  }

  /** A head that does not start an occurrence is kept. */
  lemma SkipOne(s: string, p: string)
    requires p != [] && |s| >= |p| && s[..|p|] != p
    ensures RemoveAll(s, p) == [s[0]] + RemoveAll(s[1..], p)
  {
  }

  // ---------------------------------------------------------------------
  // Routing

  /** What an inbound message asks of the controller. */
  datatype Command =
    | PowerOn(device: int)      // power_on(device)
    | Standby(device: int)      // power_off(device)
    | RaiseVolume               // volume_up()
    | LowerVolume               // volume_down()
    | SetVolume(level: int)     // volume_set(level)
    | Mute                      // volume_mute()
    | Unmute                    // volume_unmute()
    | SendFrames(commands: seq<string>) // tx_command(c) for each c, in order
    | RefreshAll                // refresh()
    | ScanAll                   // scan()

  /** How `mqtt_on_message` ends: it returns without acting, raises, or acts. */
  datatype Dispatch = Ignore | Fail | Run(command: Command)

  /** `str.isdigit()` on ASCII text. */
  predicate IsDigitString(s: string)
  {
    |s| > 0 && AllDigits(s, 10)
  }

  function PowerCommand(device: int, payload: string): Dispatch
  {
    if payload == "on" then Run(PowerOn(device))
    else if payload == "standby" then Run(Standby(device))
    else Fail
  }

  function VolumeCommand(payload: string): Dispatch
  {
    if payload == "up" then Run(RaiseVolume)
    else if payload == "down" then Run(LowerVolume)
    else if IsDigitString(payload) && DigitsValue(payload, 10) <= 100 then Run(SetVolume(DigitsValue(payload, 10)))
    else Fail
  }

  function MuteCommand(payload: string): Dispatch
  {
    if payload == "on" then Run(Mute)
    else if payload == "off" then Run(Unmute)
    else Fail
  }

  /**
   * The branches of `mqtt_on_message` over the decoded topic levels. A
   * level that is read but missing is an `IndexError`, a device number that
   * `int()` refuses a `ValueError`; both end in `Fail`, as do the unknown
   * payloads of the power, volume and mute topics.
   */
  function RouteSegments(topic: seq<string>, payload: string): (r: Dispatch)
    ensures r.Run? ==> |topic| >= 2 && topic[0] == "cec"
  {
    if |topic| == 0 then Fail
    else if topic[0] != "cec" then Ignore
    else if |topic| == 1 then Fail
    else if topic[1] == "device" then
      if |topic| == 2 then Fail
      else
        match ParseInt(topic[2], 10)
        case None => Fail
        case Some(device) =>
          if |topic| == 3 then Fail
          else if topic[3] == "power" then PowerCommand(device, payload)
          else Ignore
    else if topic[1] == "audio" then
      if |topic| == 2 then Fail
      else if topic[2] == "volume" then VolumeCommand(payload)
      else if topic[2] == "mute" then MuteCommand(payload)
      else Ignore
    else if topic[1] == "tx" then Run(SendFrames(Split(payload, ',')))
    else if topic[1] == "refresh" then Run(RefreshAll)
    else if topic[1] == "scan" then Run(ScanAll)
    else Ignore
  }

  /** `mqtt_on_message` on the topic and the decoded payload. */
  function Route(prefix: string, topic: string, payload: string): (r: Dispatch)
    ensures r.Run? ==> |Segments(prefix, topic)| >= 2 && Segments(prefix, topic)[0] == "cec"
  {
    RouteSegments(Segments(prefix, topic), payload)
  }

  /** A command topic sent behind the prefix is routed on its own levels. */
  lemma RoutePublished(prefix: string, levels: seq<string>, payload: string)
    requires |levels| >= 1 && forall k :: 0 <= k < |levels| ==> '/' !in levels[k]
    requires prefix == [] || !Contains("/" + Join(levels, '/'), prefix)
    ensures Route(prefix, PublishTopic(prefix, Join(levels, '/')), payload) == RouteSegments(levels, payload)
  {
    SegmentsOfPublished(prefix, levels);
  }

  /**
   * `cec/device/<id>/power…`: "on" powers the device on, "standby" puts it
   * in standby, and any other payload raises. The levels after "power" are
   * not looked at, so `…/power/set` routes the same way.
   */
  lemma RoutePower(device: int, rest: seq<string>, payload: string)
    ensures RouteSegments(["cec", "device", Decimal(device), "power"] + rest, payload) ==
      if payload == "on" then Run(PowerOn(device))
      else if payload == "standby" then Run(Standby(device))
      else Fail
  {
    var topic := ["cec", "device", Decimal(device), "power"] + rest;
    assert topic[0] == "cec" && topic[1] == "device" && topic[2] == Decimal(device) && topic[3] == "power";
    ParseDecimal(device);
    RouteDevice(topic, payload, device);
  }

  /** A power topic whose device level reads as `device` routes on the payload alone. */
  lemma RouteDevice(topic: seq<string>, payload: string, device: int)
    requires |topic| >= 4 && topic[0] == "cec" && topic[1] == "device" && topic[3] == "power"
    requires ParseInt(topic[2], 10) == Some(device)
    ensures RouteSegments(topic, payload) == PowerCommand(device, payload)
  {
  }

  /** The value `int()` gives a string of ASCII digits. */
  lemma DigitStringValue(s: string)
    requires IsDigitString(s)
    ensures ParseInt(s, 10) == Some(DigitsValue(s, 10))
  {
    assert NoWhitespace(s) by {
      forall i | 0 <= i < |s|
        ensures !IsWhitespace(s[i])
      {
        assert DigitValue(s[i]) < 10;
      }
    }
    StripNoWhitespace(s);
    assert DigitValue(s[0]) < 10;
    if |s| >= 2 {
      assert DigitValue(s[1]) < 10;
    }
  }

  /**
   * `cec/audio/volume…`: "up" and "down" step the volume; a payload sets it
   * exactly when it is a non-empty string of digits whose value `int()`
   * reads as at most 100, and then to that value; anything else raises.
   */
  lemma RouteVolume(rest: seq<string>, payload: string, level: int)
    ensures var d := RouteSegments(["cec", "audio", "volume"] + rest, payload);
      (payload == "up" <==> d == Run(RaiseVolume)) &&
      (payload == "down" <==> d == Run(LowerVolume)) &&
      (d == Run(SetVolume(level)) <==>
         IsDigitString(payload) && ParseInt(payload, 10) == Some(level) && level <= 100) &&
      (d.Fail? <==>
         payload != "up" && payload != "down" && !(IsDigitString(payload) && DigitsValue(payload, 10) <= 100))
  {
    if IsDigitString(payload) {
      DigitStringValue(payload);
    }
  }

  /** Every level from 0 to 100, written in decimal, sets that volume. */
  lemma RouteVolumeLevel(rest: seq<string>, level: int)
    requires 0 <= level <= 100
    ensures RouteSegments(["cec", "audio", "volume"] + rest, Decimal(level)) == Run(SetVolume(level))
  {
    var s := Decimal(level);
    FormatDigits(level, 10);
    assert s == Format(level, 10);
    RouteVolume(rest, s, level);
    ParseDecimal(level);
  }

  /** Volumes above 100, signed numbers and the empty payload are refused. */
  lemma RouteVolumeRejects(rest: seq<string>)
    ensures RouteSegments(["cec", "audio", "volume"] + rest, "150") == Fail
    ensures RouteSegments(["cec", "audio", "volume"] + rest, "-5") == Fail
    ensures RouteSegments(["cec", "audio", "volume"] + rest, "") == Fail
  {
    var s := "150";
    assert s[..|s| - 1] == "15" && "15"[..1] == "1" && "1"[..0] == "";
    assert DigitsValue("1", 10) == 1;
    assert DigitsValue("15", 10) == 15;
    assert DigitsValue(s, 10) == 150;
    assert DigitValue('-') == 16;
  }

  /** `cec/audio/mute…`: "on" mutes, "off" unmutes, anything else raises. */
  lemma RouteMute(rest: seq<string>, payload: string)
    ensures RouteSegments(["cec", "audio", "mute"] + rest, payload) ==
      if payload == "on" then Run(Mute) else if payload == "off" then Run(Unmute) else Fail
  {
  }

  /**
   * `cec/tx…`: one unaddressed transmit per comma-separated piece of the
   * payload, in order; the pieces joined again are the payload.
   */
  lemma RouteTx(rest: seq<string>, payload: string)
    ensures var d := RouteSegments(["cec", "tx"] + rest, payload);
      d.Run? && d.command.SendFrames? &&
      |d.command.commands| == Count(payload, ',') + 1 &&
      Join(d.command.commands, ',') == payload &&
      forall k :: 0 <= k < |d.command.commands| ==> ',' !in d.command.commands[k]
  {
  }

  /** Two comma-free frames joined by a comma are sent as those two frames, in order. */
  lemma RouteTwoFrames(first: string, second: string)
    requires ',' !in first && ',' !in second
    ensures RouteSegments(["cec", "tx"], first + "," + second) == Run(SendFrames([first, second]))
  {
    var payload := first + [','] + second;
    SplitBeforeSep(first, second, ',');
    SplitAlone(second, ',');
    assert Split(payload, ',') == [first, second];
    RouteFrames(["cec", "tx"], payload);
  }

  /** The payload "71,1F:82:1000" is sent as the two frames "71" and "1F:82:1000". */
  lemma RouteTxExample()
    ensures RouteSegments(["cec", "tx"], "71" + "," + "1F:82:1000") == Run(SendFrames(["71", "1F:82:1000"]))
  {
    RouteTwoFrames("71", "1F:82:1000");
  }

  /** A `tx` topic sends the payload's comma-separated pieces. */
  lemma RouteFrames(topic: seq<string>, payload: string)
    requires |topic| >= 2 && topic[0] == "cec" && topic[1] == "tx"
    ensures RouteSegments(topic, payload) == Run(SendFrames(Split(payload, ',')))
  {
  }

  /**
   * The messages `mqtt_on_message` returns from silently: a first level
   * other than "cec", an unknown second level, an audio level other than
   * volume and mute, and a device attribute other than power.
   */
  lemma RouteIgnores(topic: seq<string>, payload: string)
    ensures |topic| >= 1 && topic[0] != "cec" ==> RouteSegments(topic, payload) == Ignore
    ensures (|topic| >= 2 && topic[0] == "cec" && topic[1] !in ["device", "audio", "tx", "refresh", "scan"]) ==>
      RouteSegments(topic, payload) == Ignore
    ensures (|topic| >= 3 && topic[0] == "cec" && topic[1] == "audio" && topic[2] != "volume" && topic[2] != "mute") ==>
      RouteSegments(topic, payload) == Ignore
    ensures (|topic| >= 4 && topic[0] == "cec" && topic[1] == "device" && ParseInt(topic[2], 10).Some? && topic[3] != "power") ==>
      RouteSegments(topic, payload) == Ignore
  {
  }

  // ---------------------------------------------------------------------
  // Start-up

  /** A configuration value: an integer default, or the text of a config-file entry. */
  datatype Setting = IntSetting(number: int) | StrSetting(text: string)

  /** `int(value)`; `None` is a `ValueError`. */
  function IntOf(s: Setting): Option<int>
  {
    match s
    case IntSetting(n) => Some(n)
    case StrSetting(t) => ParseInt(t, 10)
  }

  /**
   * Whether the start-up check of `Bridge.__init__` raises: the CEC setting
   * is read first, and when it is not 1 the IR setting is read too; the
   * bridge goes on only when one of them reads as 1. An unreadable value
   * raises as well, except an IR value that is never read.
   */
  function StartupFails(cecEnabled: Setting, irEnabled: Setting): (fails: bool)
    ensures !fails <==> IntOf(cecEnabled) == Some(1) || (IntOf(cecEnabled).Some? && IntOf(irEnabled) == Some(1))
  {
    match IntOf(cecEnabled)
    case None => true
    case Some(c) =>
      c != 1 &&
      match IntOf(irEnabled)
      case None => true
      case Some(i) => i != 1
  }

  /** With both interfaces left at their default of 0, the bridge refuses to start. */
  lemma DefaultsFail()
    ensures StartupFails(IntSetting(0), IntSetting(0))
    ensures !StartupFails(StrSetting(" 1\n"), IntSetting(0))
  {
    var s := " 1\n";
    assert LStrip(s) == s[1..] && s[1..] == "1\n";
    assert RStrip("1\n") == "1" by {
      assert "1\n"[..1] == "1";
    }
    assert Strip(s) == "1";
    assert "1"[..0] == "";
  }

  /** `[int(x) for x in pieces]`; `None` when some piece is not a number. */
  function ParseAll(pieces: seq<string>): (r: Option<seq<int>>)
    ensures r.Some? ==>
      |r.value| == |pieces| && forall k :: 0 <= k < |pieces| ==> ParseInt(pieces[k], 10) == Some(r.value[k])
    ensures r.None? ==> exists k :: 0 <= k < |pieces| && ParseInt(pieces[k], 10).None?
  {
    if pieces == [] then Some([])
    else
      match ParseInt(pieces[0], 10)
      case None => None
      case Some(d) =>
        match ParseAll(pieces[1..])
        case None => None
        case Some(ds) => Some([d] + ds)
  }

  /** The device list of the `cec` section: its comma-separated numbers. */
  function ParseDevices(s: string): (r: Option<seq<int>>)
    ensures r.Some? ==> |r.value| == Count(s, ',') + 1
    ensures r.Some? ==> forall k :: 0 <= k < |r.value| ==> ParseInt(Split(s, ',')[k], 10) == Some(r.value[k])
  {
    ParseAll(Split(s, ','))
  }

  function DecimalList(ds: seq<int>): (r: seq<string>)
    ensures |r| == |ds| && forall k :: 0 <= k < |ds| ==> r[k] == Decimal(ds[k])
  {
    seq(|ds|, k requires 0 <= k < |ds| => Decimal(ds[k]))
  }

  lemma {:induction false} ParseDecimals(ds: seq<int>)
    ensures ParseAll(DecimalList(ds)) == Some(ds)
    decreases |ds|
  {
    if ds != [] {
      ParseDecimals(ds[1..]);
      ParseDecimal(ds[0]);
      DecimalListCons(ds);
      ParseAllCons(Decimal(ds[0]), DecimalList(ds[1..]), ds[0], ds[1..]);
      assert [ds[0]] + ds[1..] == ds;
    }
  }

  lemma DecimalListCons(ds: seq<int>)
    requires ds != []
    ensures DecimalList(ds) == [Decimal(ds[0])] + DecimalList(ds[1..])
  {
  }

  lemma ParseAllCons(piece: string, rest: seq<string>, d: int, ds: seq<int>)
    requires ParseInt(piece, 10) == Some(d) && ParseAll(rest) == Some(ds)
    ensures ParseAll([piece] + rest) == Some([d] + ds)
  {
    assert ([piece] + rest)[1..] == rest;
  }

  /** A device list written as `str(d)` joined by commas is read back exactly. */
  lemma DeviceListRoundTrip(ds: seq<int>)
    requires |ds| >= 1
    ensures ParseDevices(Join(DecimalList(ds), ',')) == Some(ds)
  {
    var names := DecimalList(ds);
    forall k | 0 <= k < |names|
      ensures ',' !in names[k]
    {
      DecimalAvoids(ds[k], ',');
    }
    SplitJoin(names, ',');
    ParseDecimals(ds);
  }

  /**
   * The refresh-delay rule of `main`: a delay of 1 to 9 seconds becomes 10;
   * 0 (no periodic refresh), negative values and values from 10 on stay.
   */
  function ClampRefreshDelay(delay: int): (r: int)
    ensures r <= 0 || r >= 10
    ensures r == delay <==> delay <= 0 || delay >= 10
    ensures r != delay ==> r == 10
  {
    if delay > 0 && delay < 10 then 10 else delay
  }

  /**
   * The refresh delay `main` settles on: `--refreshtime` when given (stored
   * as its `str` and read back), otherwise the configured value, then
   * clamped; `None` when the configured value is not a number.
   */
  function RefreshDelay(configured: Setting, refreshTime: Option<int>): (r: Option<int>)
    ensures r.Some? ==> r.value <= 0 || r.value >= 10
  {
    var setting := if refreshTime.Some? then StrSetting(Decimal(refreshTime.value)) else configured;
    match IntOf(setting)
    case None => None
    case Some(d) => Some(ClampRefreshDelay(d))
  }

  /** A delay given on the command line wins over the configuration, and is clamped. */
  lemma CommandLineDelay(configured: Setting, refreshTime: int)
    ensures RefreshDelay(configured, Some(refreshTime)) == Some(ClampRefreshDelay(refreshTime))
  {
    ParseDecimal(refreshTime);
  }

  // ---------------------------------------------------------------------
  // The bridge object

  /** The unaddressed transmits of the `tx` branch, one per piece, in order. */
  function Unaddressed(commands: seq<string>): (ops: seq<BusOp>)
    ensures |ops| == |commands| && forall k :: 0 <= k < |commands| ==> ops[k] == Transmit(commands[k], None)
  {
    seq(|commands|, k requires 0 <= k < |commands| => Transmit(commands[k], None))
  }

  /**
   * What carrying out a command did to the controller, in terms of the
   * controller's own operations: `a` is the adapter a refresh or scan
   * queries, `responses` the answers a volume-set run reads.
   */
  twostate predicate Executed(cec: HdmiCec, c: Command, a: Adapter, responses: seq<Option<int>>)
    reads cec
  {
    var sameFlags := cec.settingVolume == old(cec.settingVolume) && cec.refreshing == old(cec.refreshing);
    match c
    case PowerOn(d) =>
      sameFlags && cec.events == old(cec.events) + [PowerEvent(d, "on")] && cec.ops == old(cec.ops) + [PowerOnDevices(d)]
    case Standby(d) =>
      sameFlags && cec.events == old(cec.events) + [PowerEvent(d, "standby")] && cec.ops == old(cec.ops) + [StandbyDevices(d)]
    case RaiseVolume =>
      sameFlags && cec.events == old(cec.events) && cec.ops == old(cec.ops) + Pulses(true, 1, false) + [StatusQuery]
    case LowerVolume =>
      sameFlags && cec.events == old(cec.events) && cec.ops == old(cec.ops) + Pulses(false, 1, false) + [StatusQuery]
    case SetVolume(v) =>
      Converge(v, responses, 0).Some? &&
      !cec.settingVolume && cec.refreshing == old(cec.refreshing) &&
      cec.events == old(cec.events) && cec.ops == old(cec.ops) + Converge(v, responses, 0).value.ops
    case Mute =>
      sameFlags && cec.events == old(cec.events) + [Event(MuteTopic, Text("on"))] && cec.ops == old(cec.ops) + [AudioMute]
    case Unmute =>
      sameFlags && cec.events == old(cec.events) + [Event(MuteTopic, Text("off"))] && cec.ops == old(cec.ops) + [AudioUnmute]
    case SendFrames(cs) =>
      sameFlags && cec.events == old(cec.events) && cec.ops == old(cec.ops) + Unaddressed(cs)
    case RefreshAll =>
      cec.settingVolume == old(cec.settingVolume) && cec.ops == old(cec.ops) &&
      (if old(cec.settingVolume) then cec.events == old(cec.events) && cec.refreshing == old(cec.refreshing)
       else cec.events == old(cec.events) + RefreshDeviceEvents(a, cec.devices) + AudioEvents(a.audioStatus) && !cec.refreshing)
    case ScanAll =>
      cec.settingVolume == old(cec.settingVolume) && cec.ops == old(cec.ops) && !cec.refreshing &&
      cec.events == old(cec.events) + ScanDeviceEvents(a, cec.devices) + AudioEvents(a.audioStatus)
  }

  /** A volume set only asks for a run that ends. */
  predicate Answerable(d: Dispatch, responses: seq<Option<int>>)
  {
    d.Run? && d.command.SetVolume? ==> Converge(d.command.level, responses, 0).Some?
  }

  class Bridge {
    /** The `prefix` of the `mqtt` section. */
    const prefix: string
    /** The HDMI-CEC controller (the bridge runs with CEC enabled). */
    const cec: HdmiCec

    constructor(prefix: string, cec: HdmiCec)
      ensures this.prefix == prefix && this.cec == cec
    {
      this.prefix := prefix;
      this.cec := cec;
    }

    /**
     * `mqtt_on_message`: `raised` tells that it ended in an exception.
     * Ignored and refused messages leave the controller as it was.
     */
    method OnMessage(topic: string, payload: string, a: Adapter, responses: seq<Option<int>>) returns (raised: bool)
      requires Answerable(Route(prefix, topic, payload), responses)
      modifies cec
      ensures raised <==> Route(prefix, topic, payload) == Fail
      ensures !Route(prefix, topic, payload).Run? ==> unchanged(cec)
      ensures Route(prefix, topic, payload).Run? ==> Executed(cec, Route(prefix, topic, payload).command, a, responses)
    {
      var d := Route(prefix, topic, payload);
      match d
      case Ignore =>
        raised := false;
      case Fail =>
        raised := true;
      case Run(c) =>
        raised := false;
        Execute(c, a, responses);
    }

    /** The controller call a routed command makes. */
    method Execute(c: Command, a: Adapter, responses: seq<Option<int>>)
      requires Answerable(Run(c), responses)
      modifies cec
      ensures Executed(cec, c, a, responses)
    {
      match c
      case PowerOn(d) => cec.PowerOn(d);
      case Standby(d) => cec.PowerOff(d);
      case RaiseVolume => cec.VolumeUp(1, true);
      case LowerVolume => cec.VolumeDown(1, true);
      case SetVolume(v) => cec.VolumeSet(v, responses);
      case Mute => cec.VolumeMute();
      case Unmute => cec.VolumeUnmute();
      case SendFrames(cs) => SendAll(cs);
      case RefreshAll => cec.Refresh(a);
      case ScanAll => cec.Scan(a);
    }

    /** The loop of the `tx` branch: `tx_command(command)` for each piece, in order. */
    method SendAll(commands: seq<string>)
      modifies cec
      ensures cec.ops == old(cec.ops) + Unaddressed(commands)
      ensures cec.events == old(cec.events)
      ensures cec.settingVolume == old(cec.settingVolume) && cec.refreshing == old(cec.refreshing)
    {
      for i := 0 to |commands|
        invariant cec.ops == old(cec.ops) + Unaddressed(commands[..i])
        invariant cec.events == old(cec.events)
        invariant cec.settingVolume == old(cec.settingVolume) && cec.refreshing == old(cec.refreshing)
      {
        cec.TxCommand(commands[i], None);
        assert Unaddressed(commands[..i + 1]) == Unaddressed(commands[..i]) + [Transmit(commands[i], None)];
      }
      assert commands[..|commands|] == commands;
    }
  }
}
