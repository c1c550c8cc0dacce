/**
 * The HDMI-CEC controller (`HdmiCec`): it reacts to frames and log lines the
 * adapter reports, turns requests into bus operations, converges the
 * volume, and enumerates the configured devices. Two flags,
 * `settingVolume` and `refreshing`, are its only state besides the two
 * outputs: the events it sends and the bus operations it performs.
 */
module Cec {
  import opened PyText
  import opened CecCodec
  import opened CecBus
  import opened CecVolume

  // ---------------------------------------------------------------------
  // Command callback

  /** What one callback did: the events it sent, and whether it then raised. */
  datatype Reaction = Reaction(events: seq<Event>, raised: bool)

  /** The raw-frame event: the frame without its direction marker. */
  function RxEvent(cmd: string): Event
  {
    Event(RxTopic, Text(From(cmd, 3)))
  }

  /** The structured events of a frame, by opcode; an unreadable operand raises. */
  function OpcodeReaction(h: Header, cmd: string, a: Adapter): (r: Reaction)
    ensures |r.events| <= 2
    ensures r.raised ==> r.events == []
  {
    var operands := From(cmd, 9);
    if h.opcode == ReportPowerStatus then
      match ParseInt(operands, 16)
      case None => Reaction([], true)
      case Some(power) => Reaction([PowerEvent(h.initiator, a.powerStatusName(power))], false)
    else if h.opcode == DeviceVendorId then
      match ParseInt(RemoveAll(operands, ":"), 16)
      case None => Reaction([], true)
      case Some(vendor) => Reaction([Event(DeviceTopic(h.initiator, "vendor"), Text(a.vendorName(vendor)))], false)
    else if h.opcode == ReportPhysicalAddress then
      match ParseInt(RemoveAll(Slice(cmd, 9, 14), ":"), 16)
      case None => Reaction([], true)
      case Some(address) => Reaction([Event(DeviceTopic(h.initiator, "address"), Text(PaddedHex(address, 4)))], false)
    else if h.opcode == ReportAudioStatus then
      match ParseInt(operands, 16)
      case None => Reaction([], true)
      case Some(status) => Reaction(AudioEvents(status), false)
    else if h.opcode == SetSystemAudioMode then
      match ParseInt(operands, 16)
      case None => Reaction([], true)
      case Some(mode) => Reaction([PowerEvent(AudioSystem, if mode == 1 then "on" else "standby")], false)
    else Reaction([], false)
  }

  /**
   * `_on_command_callback`: an unreadable header raises before anything is
   * sent; otherwise the raw frame always goes out first, and the structured
   * events follow only while no refresh or scan is running.
   */
  function FrameReaction(cmd: string, refreshing: bool, a: Adapter): (r: Reaction)
    ensures r.events != [] <==> ParseHeader(cmd).Some?
    ensures r.events != [] ==> r.events[0] == RxEvent(cmd)
  {
    match ParseHeader(cmd)
    case None => Reaction([], true)
    case Some(h) =>
      if refreshing then Reaction([RxEvent(cmd)], false)
      else
        var structured := OpcodeReaction(h, cmd, a);
        Reaction([RxEvent(cmd)] + structured.events, structured.raised)
  }

  /** A frame whose header does not read sends nothing and raises. */
  lemma UnreadableFrame(cmd: string, refreshing: bool, a: Adapter)
    requires ParseHeader(cmd).None?
    ensures FrameReaction(cmd, refreshing, a) == Reaction([], true)
  {
  }

  /** The reaction to a frame whose header reads as `h`; a step towards the `*Frame` lemmas below. */
  lemma FrameOfHeader(cmd: string, refreshing: bool, a: Adapter, h: Header)
    requires ParseHeader(cmd) == Some(h)
    ensures var r := FrameReaction(cmd, refreshing, a);
      var o := OpcodeReaction(h, cmd, a);
      r.events == [RxEvent(cmd)] + (if refreshing then [] else o.events) &&
      r.raised == (!refreshing && o.raised)
  {
  }

  /**
   * Every readable frame is forwarded raw, first, even during a refresh; a
   * refresh leaves it at that; outside one at most two structured events
   * follow. An unreadable header sends nothing.
   */
  lemma FrameAlwaysForwarded(cmd: string, refreshing: bool, a: Adapter)
    ensures var r := FrameReaction(cmd, refreshing, a);
      (ParseHeader(cmd).None? <==> r.events == []) &&
      (ParseHeader(cmd).None? ==> r.raised) &&
      (ParseHeader(cmd).Some? ==>
         r.events[0] == RxEvent(cmd) && |r.events| <= 3 &&
         (refreshing ==> r.events == [RxEvent(cmd)] && !r.raised))
  {
  }

  /** A frame with an opcode outside the five decoded ones is only forwarded raw. */
  lemma UnknownOpcodeOnlyForwarded(cmd: string, refreshing: bool, a: Adapter)
    requires ParseHeader(cmd).Some?
    requires ParseHeader(cmd).value.opcode !in {ReportPowerStatus, DeviceVendorId, ReportPhysicalAddress, ReportAudioStatus, SetSystemAudioMode}
    ensures FrameReaction(cmd, refreshing, a) == Reaction([RxEvent(cmd)], false)
  {
  }

  /**
   * Outside a refresh, a readable frame is the raw event followed by its
   * opcode's reaction; a step towards the `*Frame` lemmas below.
   */
  lemma ReadableFrame(cmd: string, h: Header, a: Adapter)
    requires ParseHeader(cmd) == Some(h)
    ensures FrameReaction(cmd, false, a) ==
      Reaction([RxEvent(cmd)] + OpcodeReaction(h, cmd, a).events, OpcodeReaction(h, cmd, a).raised)
  {
  }

  /** The reaction to a readable one-byte operand, by opcode; a step towards the `*Frame` lemmas below. */
  lemma OperandReaction(h: Header, cmd: string, a: Adapter, b: int)
    requires ParseInt(From(cmd, 9), 16) == Some(b)
    ensures h.opcode == ReportPowerStatus ==>
      OpcodeReaction(h, cmd, a) == Reaction([PowerEvent(h.initiator, a.powerStatusName(b))], false)
    ensures h.opcode == ReportAudioStatus ==>
      OpcodeReaction(h, cmd, a) == Reaction(AudioEvents(b), false)
    ensures h.opcode == SetSystemAudioMode ==>
      OpcodeReaction(h, cmd, a) == Reaction([PowerEvent(AudioSystem, if b == 1 then "on" else "standby")], false)
  {
  }

  /** The outcome of a readable frame with a one-byte operand, by opcode. */
  lemma OneByteReaction(cmd: string, h: Header, a: Adapter, b: int)
    requires ParseHeader(cmd) == Some(h) && ParseInt(From(cmd, 9), 16) == Some(b)
    ensures h.opcode == ReportPowerStatus ==>
      FrameReaction(cmd, false, a) == Reaction([RxEvent(cmd), PowerEvent(h.initiator, a.powerStatusName(b))], false)
    ensures h.opcode == ReportAudioStatus ==>
      FrameReaction(cmd, false, a) == Reaction([RxEvent(cmd)] + AudioEvents(b), false)
    ensures h.opcode == SetSystemAudioMode ==>
      FrameReaction(cmd, false, a) == Reaction([RxEvent(cmd), PowerEvent(AudioSystem, if b == 1 then "on" else "standby")], false)
  {
    ReadableFrame(cmd, h, a);
    OperandReaction(h, cmd, a, b);
  }

  /**
   * A rendered Report Audio Status frame with one status byte emits the raw
   * frame, the level, then the mute state, all decoded from that byte.
   */
  lemma AudioStatusFrame(direction: string, initiator: nat, destination: nat, status: int, a: Adapter)
    requires |direction| == 3 && initiator < 16 && destination < 16 && 0 <= status < 256
    ensures var cmd := RenderFrame(direction, initiator, destination, ReportAudioStatus, [status]);
      FrameReaction(cmd, false, a) == Reaction([RxEvent(cmd)] + AudioEvents(status), false)
  {
    var cmd := RenderFrame(direction, initiator, destination, ReportAudioStatus, [status]);
    RenderedOneByte(direction, initiator, destination, ReportAudioStatus, status);
    OneByteReaction(cmd, Header(initiator, destination, ReportAudioStatus), a, status);
  }

  /**
   * A rendered Set System Audio Mode frame reports the audio system (device
   * 5) on when its operand is 1 and standby for any other operand.
   */
  lemma SystemAudioModeFrame(direction: string, initiator: nat, destination: nat, mode: int, a: Adapter)
    requires |direction| == 3 && initiator < 16 && destination < 16 && 0 <= mode < 256
    ensures var cmd := RenderFrame(direction, initiator, destination, SetSystemAudioMode, [mode]);
      FrameReaction(cmd, false, a) == Reaction(
        [RxEvent(cmd), PowerEvent(AudioSystem, if mode == 1 then "on" else "standby")], false)
  {
    var cmd := RenderFrame(direction, initiator, destination, SetSystemAudioMode, [mode]);
    RenderedOneByte(direction, initiator, destination, SetSystemAudioMode, mode);
    OneByteReaction(cmd, Header(initiator, destination, SetSystemAudioMode), a, mode);
  }

  /**
   * A rendered Report Power Status frame reports the power state of its
   * initiator, as the adapter names the status byte.
   */
  lemma PowerStatusFrame(direction: string, initiator: nat, destination: nat, power: int, a: Adapter)
    requires |direction| == 3 && initiator < 16 && destination < 16 && 0 <= power < 256
    ensures var cmd := RenderFrame(direction, initiator, destination, ReportPowerStatus, [power]);
      FrameReaction(cmd, false, a) == Reaction(
        [RxEvent(cmd), PowerEvent(initiator, a.powerStatusName(power))], false)
  {
    var cmd := RenderFrame(direction, initiator, destination, ReportPowerStatus, [power]);
    RenderedOneByte(direction, initiator, destination, ReportPowerStatus, power);
    OneByteReaction(cmd, Header(initiator, destination, ReportPowerStatus), a, power);
  }

  /**
   * A readable Device Vendor ID frame whose operand bytes, colons removed,
   * spell `b0 b1 b2`; a step towards `VendorIdFrame`.
   */
  lemma VendorReaction(cmd: string, h: Header, a: Adapter, b0: int, b1: int, b2: int)
    requires ParseHeader(cmd) == Some(h) && h.opcode == DeviceVendorId
    requires ParseInt(RemoveAll(From(cmd, 9), ":"), 16) == Some(b0 * 65536 + b1 * 256 + b2)
    ensures FrameReaction(cmd, false, a) ==
      Reaction([RxEvent(cmd), Event(DeviceTopic(h.initiator, "vendor"), Text(a.vendorName(b0 * 65536 + b1 * 256 + b2)))], false)
  {
    var report := Event(DeviceTopic(h.initiator, "vendor"), Text(a.vendorName(b0 * 65536 + b1 * 256 + b2)));
    assert OpcodeReaction(h, cmd, a) == Reaction([report], false);
    ReadableFrame(cmd, h, a);
  }

  /**
   * A readable Report Physical Address frame whose characters 9 to 14, colon
   * removed, spell `hi lo`; a step towards `PhysicalAddressFrame`.
   */
  lemma AddressReaction(cmd: string, h: Header, a: Adapter, hi: int, lo: int)
    requires ParseHeader(cmd) == Some(h) && h.opcode == ReportPhysicalAddress
    requires ParseInt(RemoveAll(Slice(cmd, 9, 14), ":"), 16) == Some(hi * 256 + lo)
    ensures FrameReaction(cmd, false, a) ==
      Reaction([RxEvent(cmd), Event(DeviceTopic(h.initiator, "address"), Text(PaddedHex(hi * 256 + lo, 4)))], false)
  {
    var report := Event(DeviceTopic(h.initiator, "address"), Text(PaddedHex(hi * 256 + lo, 4)));
    assert OpcodeReaction(h, cmd, a) == Reaction([report], false);
    ReadableFrame(cmd, h, a);
  }

  /**
   * A rendered Device Vendor ID frame with three vendor bytes reports, for
   * its initiator, the adapter's name for the 24-bit id those bytes spell,
   * first byte highest.
   */
  lemma VendorIdFrame(direction: string, initiator: nat, destination: nat, b0: int, b1: int, b2: int, a: Adapter)
    requires |direction| == 3 && initiator < 16 && destination < 16
    requires 0 <= b0 < 256 && 0 <= b1 < 256 && 0 <= b2 < 256
    ensures var cmd := RenderFrame(direction, initiator, destination, DeviceVendorId, [b0, b1, b2]);
      FrameReaction(cmd, false, a) == Reaction(
        [RxEvent(cmd), Event(DeviceTopic(initiator, "vendor"), Text(a.vendorName(b0 * 65536 + b1 * 256 + b2)))], false)
  {
    var cmd := RenderFrame(direction, initiator, destination, DeviceVendorId, [b0, b1, b2]);
    RenderedThreeBytes(direction, initiator, destination, DeviceVendorId, b0, b1, b2);
    VendorReaction(cmd, Header(initiator, destination, DeviceVendorId), a, b0, b1, b2);
  }

  /**
   * A rendered Report Physical Address frame (two address bytes, then the
   * device type) reports, for its initiator, the address the two bytes
   * spell as four lower-case hex digits; the device type is not read.
   */
  lemma PhysicalAddressFrame(direction: string, initiator: nat, destination: nat, hi: int, lo: int, kind: int, a: Adapter)
    requires |direction| == 3 && initiator < 16 && destination < 16
    requires 0 <= hi < 256 && 0 <= lo < 256 && 0 <= kind < 256
    ensures var cmd := RenderFrame(direction, initiator, destination, ReportPhysicalAddress, [hi, lo, kind]);
      var text := PaddedHex(hi * 256 + lo, 4);
      FrameReaction(cmd, false, a) == Reaction([RxEvent(cmd), Event(DeviceTopic(initiator, "address"), Text(text))], false) &&
      |text| == 4 && AllDigits(text, 16) && DigitsValue(text, 16) == hi * 256 + lo
  {
    var cmd := RenderFrame(direction, initiator, destination, ReportPhysicalAddress, [hi, lo, kind]);
    RenderedThreeBytes(direction, initiator, destination, ReportPhysicalAddress, hi, lo, kind);
    AddressReaction(cmd, Header(initiator, destination, ReportPhysicalAddress), a, hi, lo);
    PaddedHexFour(hi * 256 + lo);
  }

  // ---------------------------------------------------------------------
  // Log callback

  /**
   * A log line that matched the power-change pattern: the device's hex digit
   * and the new state. Matching the pattern itself is done by `re`.
   */
  datatype PowerChange = PowerChange(digit: char, state: string)

  // ---------------------------------------------------------------------
  // refresh and scan

  predicate IsPresent(a: Adapter, device: int)
  {
    a.physicalAddress(device) != Absent
  }

  /** The listed devices that answer with a physical address other than 0xFFFF, in list order. */
  function PresentDevices(a: Adapter, devices: seq<int>): (p: seq<int>)
    ensures |p| <= |devices|
    ensures forall d :: d in p <==> d in devices && IsPresent(a, d)
  {
    if devices == [] then []
    else
      var last := devices[|devices| - 1];
      var init := PresentDevices(a, devices[..|devices| - 1]);
      assert devices == devices[..|devices| - 1] + [last];
      init + (if IsPresent(a, last) then [last] else [])
  }

  /** The power event `refresh` sends for a present device. */
  function PowerReport(a: Adapter, device: int): Event
  {
    PowerEvent(device, a.powerStatusName(a.powerStatus(device)))
  }

  /** The device loop of `refresh`. */
  function RefreshDeviceEvents(a: Adapter, devices: seq<int>): (r: seq<Event>)
    ensures |r| <= |devices|
  {
    if devices == [] then []
    else
      var last := devices[|devices| - 1];
      RefreshDeviceEvents(a, devices[..|devices| - 1]) + (if IsPresent(a, last) then [PowerReport(a, last)] else [])
  }

  /**
   * `refresh`'s device loop sends exactly one power event per present
   * device, in list order, and nothing for an absent one.
   */
  lemma {:induction false} RefreshOnePowerEventPerPresentDevice(a: Adapter, devices: seq<int>)
    ensures var p := PresentDevices(a, devices);
      var evs := RefreshDeviceEvents(a, devices);
      |evs| == |p| && forall j :: 0 <= j < |p| ==> evs[j] == PowerReport(a, p[j])
    decreases |devices|
  {
    if devices != [] {
      RefreshOnePowerEventPerPresentDevice(a, devices[..|devices| - 1]);
    }
  }

  /** The attributes `scan` reports for a present device, in the order it sends them. */
  const SnapshotAttributes := ["type", "address", "active", "vendor", "osd", "cecver", "power"]

  /** The seven events `scan` sends for one present device. */
  function DeviceSnapshot(a: Adapter, device: int): (evs: seq<Event>)
    ensures |evs| == 7
  {
    [Event(DeviceTopic(device, "type"), Text(a.logicalAddressName(device))),
     Event(DeviceTopic(device, "address"), Text(PaddedHex(a.physicalAddress(device), 4))),
     Event(DeviceTopic(device, "active"), Text(PyBool(a.activeSource(device)))),
     Event(DeviceTopic(device, "vendor"), Text(a.vendorName(a.vendorId(device)))),
     Event(DeviceTopic(device, "osd"), Text(a.osdName(device))),
     Event(DeviceTopic(device, "cecver"), Text(a.cecVersionName(a.cecVersion(device)))),
     PowerReport(a, device)]
  }

  /**
   * A snapshot names the device in every topic, attribute by attribute in
   * the order `scan` sends them; the address is four zero-padded hex digits
   * and the last event is the device's power report.
   */
  lemma SnapshotTopics(a: Adapter, device: int)
    ensures var evs := DeviceSnapshot(a, device);
      (forall m :: 0 <= m < 7 ==> evs[m].topic == DeviceTopic(device, SnapshotAttributes[m])) &&
      evs[1].payload == Text(PaddedHex(a.physicalAddress(device), 4)) &&
      evs[6] == PowerReport(a, device)
  {
  }

  /** The device loop of `scan`. */
  function ScanDeviceEvents(a: Adapter, devices: seq<int>): (r: seq<Event>)
    ensures |r| <= 7 * |devices|
  {
    if devices == [] then []
    else
      var last := devices[|devices| - 1];
      ScanDeviceEvents(a, devices[..|devices| - 1]) + ScannedDevice(a, last)
  }

  /** What `scan` sends for one device: its snapshot when it is present, nothing otherwise. */
  function ScannedDevice(a: Adapter, device: int): seq<Event>
  {
    if IsPresent(a, device) then DeviceSnapshot(a, device) else []
  }

  lemma ScanStep(a: Adapter, devices: seq<int>, i: nat)
    requires i < |devices|
    ensures ScanDeviceEvents(a, devices[..i + 1]) == ScanDeviceEvents(a, devices[..i]) + ScannedDevice(a, devices[i])
  {
    assert devices[..i + 1][..i] == devices[..i];
  }

  lemma EventsRegroup(before: seq<Event>, done: seq<Event>, added: seq<Event>)
    ensures before + done + added == before + (done + added)
  {
  }

  /**
   * `scan`'s device loop sends exactly seven events per present device, the
   * j-th present device's snapshot at positions 7j to 7j+6, and nothing for
   * an absent one.
   */
  lemma {:induction false} ScanSevenEventsPerPresentDevice(a: Adapter, devices: seq<int>)
    ensures var p := PresentDevices(a, devices);
      var evs := ScanDeviceEvents(a, devices);
      |evs| == 7 * |p| &&
      forall j :: 0 <= j < |p| ==> evs[7 * j..7 * j + 7] == DeviceSnapshot(a, p[j])
    decreases |devices|
  {
    if devices != [] {
      var init := devices[..|devices| - 1];
      ScanSevenEventsPerPresentDevice(a, init);
      var last := devices[|devices| - 1];
      var p, pInit := PresentDevices(a, devices), PresentDevices(a, init);
      var evs, evsInit := ScanDeviceEvents(a, devices), ScanDeviceEvents(a, init);
      if IsPresent(a, last) {
        assert p == pInit + [last] && evs == evsInit + DeviceSnapshot(a, last);
        BlocksExtended(evsInit, pInit, last, d => DeviceSnapshot(a, d));
      } else {
        assert p == pInit && evs == evsInit;
      }
    }
  }

  /**
   * One block of seven per listed device, in list order: appending the block
   * of one more device keeps the layout.
   */
  lemma BlocksExtended(evs: seq<Event>, p: seq<int>, d: int, block: int -> seq<Event>)
    requires |evs| == 7 * |p| && |block(d)| == 7
    requires forall j :: 0 <= j < |p| ==> evs[7 * j..7 * j + 7] == block(p[j])
    ensures var evs', p' := evs + block(d), p + [d];
      |evs'| == 7 * |p'| &&
      forall j :: 0 <= j < |p'| ==> evs'[7 * j..7 * j + 7] == block(p'[j])
  {
    var evs', p' := evs + block(d), p + [d];
    forall j | 0 <= j < |p'|
      ensures evs'[7 * j..7 * j + 7] == block(p'[j])
    {
      if j < |p| {
        assert evs'[7 * j..7 * j + 7] == evs[7 * j..7 * j + 7];
        assert p'[j] == p[j];
      } else {
        assert evs'[7 * j..7 * j + 7] == block(d);
      }
    }
  }

  /** Seven single sends, one after another, append the seven events in order. */
  lemma SevenSent(before: seq<Event>, after: seq<Event>, evs: seq<Event>)
    requires |evs| == 7
    requires after == before + [evs[0]] + [evs[1]] + [evs[2]] + [evs[3]] + [evs[4]] + [evs[5]] + [evs[6]]
    ensures after == before + evs
  {
    assert evs == [evs[0], evs[1], evs[2], evs[3], evs[4], evs[5], evs[6]];
  }

  // ---------------------------------------------------------------------
  // The controller

  lemma OpsRegroup(before: seq<BusOp>, done: seq<BusOp>, added: seq<BusOp>)
    ensures before + done + added == before + (done + added)
  {
  }

  class HdmiCec {
    /** The logical addresses to enumerate, from the configuration. */
    const devices: seq<int>
    /** The adapter's own primary logical address. */
    const deviceId: int

    var settingVolume: bool
    var refreshing: bool
    /** Everything sent through `_mqtt_send`, in order. */
    var events: seq<Event>
    /** Every state-changing call into the adapter, in order. */
    var ops: seq<BusOp>

    /** Connects (the adapter is taken as open) and scans the bus once. */
    constructor (devices: seq<int>, deviceId: int, a: Adapter)
      ensures this.devices == devices && this.deviceId == deviceId
      ensures !settingVolume && !refreshing
      ensures events == ScanDeviceEvents(a, devices) + AudioEvents(a.audioStatus)
      ensures ops == []
    {
      this.devices := devices;
      this.deviceId := deviceId;
      settingVolume := false;
      refreshing := false;
      events := [];
      ops := [];
      new;
      Scan(a);
    }

    /** `_mqtt_send` */
    method Send(topic: Topic, payload: Payload)
      modifies this`events
      ensures events == old(events) + [Event(topic, payload)]
    {
      events := events + [Event(topic, payload)];
    }

    /** `_on_log_callback`, given what the power-change pattern matched, if anything. */
    method OnLog(found: Option<PowerChange>)
      requires found.Some? ==> IsHexDigit(found.value.digit)
      modifies this`events
      ensures refreshing || found.None? ==> events == old(events)
      ensures !refreshing && found.Some? ==>
        events == old(events) + [PowerEvent(DigitValue(found.value.digit), found.value.state)] &&
        0 <= DigitValue(found.value.digit) < 16
    {
      if !refreshing {
        if found.Some? {
          var device := DigitValue(found.value.digit);
          Send(DeviceTopic(device, "power"), Text(found.value.state));
        }
      }
    }

    /** `_on_command_callback`; `raised` tells that it ended in an exception. */
    method OnCommand(cmd: string, a: Adapter) returns (raised: bool)
      modifies this`events
      ensures events == old(events) + FrameReaction(cmd, refreshing, a).events
      ensures raised == FrameReaction(cmd, refreshing, a).raised
    {
      var header := ParseHeader(cmd);
      if header.None? {
        UnreadableFrame(cmd, refreshing, a);
        return true;
      }
      FrameOfHeader(cmd, refreshing, a, header.value);
      raised := Forward(header.value, cmd, a);
      EventsRegroup(old(events), [RxEvent(cmd)], if refreshing then [] else OpcodeReaction(header.value, cmd, a).events);
    }

    /**
     * What `_on_command_callback` does once the header reads as `h`: the raw
     * frame, then, unless a refresh or scan runs, the opcode's events.
     */
    method Forward(h: Header, cmd: string, a: Adapter) returns (raised: bool)
      modifies this`events
      ensures events == old(events) + [RxEvent(cmd)] + (if refreshing then [] else OpcodeReaction(h, cmd, a).events)
      ensures raised == (!refreshing && OpcodeReaction(h, cmd, a).raised)
    {
      Send(RxTopic, Text(From(cmd, 3)));
      raised := false;
      if !refreshing {
        raised := Report(h, cmd, a);
      }
    }

    /**
     * The opcode dispatch of `_on_command_callback`, after the raw frame went
     * out: the statement form of `OpcodeReaction`.
     */
    method Report(h: Header, cmd: string, a: Adapter) returns (raised: bool)
      modifies this`events
      ensures events == old(events) + OpcodeReaction(h, cmd, a).events
      ensures raised == OpcodeReaction(h, cmd, a).raised
    {
      var operands := From(cmd, 9);
      raised := false;
      if h.opcode == ReportPowerStatus {
        var power := ParseInt(operands, 16);
        if power.None? {
          return true;
        }
        Send(DeviceTopic(h.initiator, "power"), Text(a.powerStatusName(power.value)));
      } else if h.opcode == DeviceVendorId {
        var vendor := ParseInt(RemoveAll(operands, ":"), 16);
        if vendor.None? {
          return true;
        }
        Send(DeviceTopic(h.initiator, "vendor"), Text(a.vendorName(vendor.value)));
      } else if h.opcode == ReportPhysicalAddress {
        var address := ParseInt(RemoveAll(Slice(cmd, 9, 14), ":"), 16);
        if address.None? {
          return true;
        }
        Send(DeviceTopic(h.initiator, "address"), Text(PaddedHex(address.value, 4)));
      } else if h.opcode == ReportAudioStatus {
        var status := ParseInt(operands, 16);
        if status.None? {
          return true;
        }
        var v := DecodeVolume(status.value);
        Send(VolumeTopic, Number(v.level));
        Send(MuteTopic, Text(OnOff(v.mute)));
      } else if h.opcode == SetSystemAudioMode {
        var mode := ParseInt(operands, 16);
        if mode.None? {
          return true;
        }
        if mode.value == 1 {
          Send(DeviceTopic(AudioSystem, "power"), Text("on"));
        } else {
          Send(DeviceTopic(AudioSystem, "power"), Text("standby"));
        }
      }
    }

    method PowerOn(device: int)
      modifies this`events, this`ops
      ensures events == old(events) + [PowerEvent(device, "on")]
      ensures ops == old(ops) + [PowerOnDevices(device)]
    {
      Send(DeviceTopic(device, "power"), Text("on"));
      ops := ops + [PowerOnDevices(device)];
    }

    method PowerOff(device: int)
      modifies this`events, this`ops
      ensures events == old(events) + [PowerEvent(device, "standby")]
      ensures ops == old(ops) + [StandbyDevices(device)]
    {
      Send(DeviceTopic(device, "power"), Text("standby"));
      ops := ops + [StandbyDevices(device)];
    }

    method VolumeMute()
      modifies this`events, this`ops
      ensures events == old(events) + [Event(MuteTopic, Text("on"))]
      ensures ops == old(ops) + [AudioMute]
    {
      Send(MuteTopic, Text("on"));
      ops := ops + [AudioMute];
    }

    method VolumeUnmute()
      modifies this`events, this`ops
      ensures events == old(events) + [Event(MuteTopic, Text("off"))]
      ensures ops == old(ops) + [AudioUnmute]
    {
      Send(MuteTopic, Text("off"));
      ops := ops + [AudioUnmute];
    }

    /**
     * `tx_command`: one transmit. The log records the command and the
     * optional destination; the text handed to `CommandFromString` is
     * `TxText(deviceId, command, device)`.
     */
    method TxCommand(command: string, device: Option<int>)
      modifies this`ops
      ensures ops == old(ops) + [Transmit(command, device)]
    {
      ops := ops + [Transmit(command, device)];
    }

    /**
     * `amount` pulses of one direction (none when it is not positive): a fast
     * batch from 10 on, then, when `update` is set, one status request to the
     * audio system. Sends no event. The loop form of `Pulses`.
     */
    method VolumeStep(up: bool, amount: int, update: bool)
      modifies this`ops
      ensures ops == old(ops) + Pulses(up, amount, amount >= 10) +
        (if update then [StatusQuery] else [])
      ensures events == old(events)
    {
      if amount >= 10 {
        for i := 0 to amount
          invariant ops == old(ops) + Pulses(up, amount, true)[..i]
        {
          ops := ops + [Pulse(up, Some(i == amount - 1))];
          assert Pulses(up, amount, true)[..i + 1] == Pulses(up, amount, true)[..i] + [Pulse(up, Some(i == amount - 1))];
        }
        assert Pulses(up, amount, true)[..amount] == Pulses(up, amount, true);
      } else {
        var count := if amount < 0 then 0 else amount;
        for i := 0 to count
          invariant ops == old(ops) + Pulses(up, amount, false)[..i]
        {
          ops := ops + [Pulse(up, None)];
          assert Pulses(up, amount, false)[..i + 1] == Pulses(up, amount, false)[..i] + [Pulse(up, None)];
        }
        assert Pulses(up, amount, false)[..count] == Pulses(up, amount, false);
      }
      if update {
        TxCommand(GiveAudioStatus, Some(AudioSystem));
      }
    }

    /** `volume_up` */
    method VolumeUp(amount: int, update: bool)
      modifies this`ops
      ensures ops == old(ops) + Pulses(true, amount, amount >= 10) +
        (if update then [StatusQuery] else [])
      ensures events == old(events)
    {
      VolumeStep(true, amount, update);
    }

    /** `volume_down` */
    method VolumeDown(amount: int, update: bool)
      modifies this`ops
      ensures ops == old(ops) + Pulses(false, amount, amount >= 10) +
        (if update then [StatusQuery] else [])
      ensures events == old(events)
    {
      VolumeStep(false, amount, update);
    }

    /**
     * `volume_set`, given the outcome of each round's wait for an answer,
     * for runs that end (the answers suffice for the loop to exit). Its bus
     * operations are exactly those of `Converge`; `settingVolume` is set for
     * the whole run and cleared at the end; no event is sent.
     */
    method VolumeSet(target: int, responses: seq<Option<int>>)
      requires Converge(target, responses, 0).Some?
      modifies this`settingVolume, this`ops
      ensures ops == old(ops) + Converge(target, responses, 0).value.ops
      ensures !settingVolume
      ensures events == old(events)
    {
      ghost var total := old(ops) + Converge(target, responses, 0).value.ops;
      settingVolume := true;
      var attempts: nat := 0;
      var next := 0;
      while attempts < MaxAttempts
        invariant settingVolume
        invariant 0 <= next <= |responses| && attempts <= MaxAttempts
        invariant Converge(target, responses[next..], attempts).Some?
        invariant ops + Converge(target, responses[next..], attempts).value.ops == total
        decreases |responses| - next
      {
        ConvergeRound(target, responses[next..], attempts);
        ghost var before := ops;
        var done;
        done, attempts := VolumeRound(target, responses[next], attempts);
        if done {
          break;
        }
        OpsRegroup(before, RoundOpsOf(target, responses[next]),
          Converge(target, responses[next..][1..], attempts).value.ops);
        assert responses[next..][1..] == responses[next + 1..];
        next := next + 1;
      }
      settingVolume := false;
    }

    /**
     * One round of the `volume_set` loop: the status request, then, given
     * that the wait timed out (`None`) or the status the adapter returned,
     * nothing more after a timeout, the end of the run on a matching level,
     * or one adjustment that uses up an attempt. The statement form of one
     * `Converge` round (`ConvergeRound`).
     */
    method VolumeRound(target: int, response: Option<int>, attempts: nat)
      returns (done: bool, attemptsAfter: nat)
      modifies this`ops
      ensures done <==> response.Some? && DecodeVolume(response.value).level == target
      ensures attemptsAfter == AttemptsAfter(target, response, attempts)
      ensures ops == old(ops) + RoundOpsOf(target, response)
    {
      TxCommand(GiveAudioStatus, Some(AudioSystem));
      done, attemptsAfter := false, attempts;
      if response.Some? {
        var current := DecodeVolume(response.value).level;
        done := current == target;
        if !done {
          ChangeVolume(current, target);
          attemptsAfter := attempts + 1;
          OpsRegroup(old(ops), [StatusQuery], AdjustOps(current, target));
        }
      }
    }

    /**
     * The adjustment step of `volume_set`: from 10 apart, half the gap
     * (rounded up) in one fast batch; closer, one plain pulse per step. The
     * loop form of `AdjustOps`.
     */
    method ChangeVolume(current: int, target: int)
      requires current != target
      modifies this`ops
      ensures ops == old(ops) + AdjustOps(current, target)
    {
      var up := current < target;
      var diff := Abs(current - target);
      if diff >= 10 {
        diff := (diff + 1) / 2;
        for i := 0 to diff
          invariant ops == old(ops) + Pulses(up, diff, true)[..i]
        {
          if current < target {
            ops := ops + [BusOp.VolumeUp(Some(i == diff - 1))];
          } else if current > target {
            ops := ops + [BusOp.VolumeDown(Some(i == diff - 1))];
          }
          assert Pulses(up, diff, true)[..i + 1] == Pulses(up, diff, true)[..i] + [Pulse(up, Some(i == diff - 1))];
        }
        assert Pulses(up, diff, true)[..diff] == Pulses(up, diff, true);
      } else {
        for i := 0 to diff
          invariant ops == old(ops) + Pulses(up, diff, false)[..i]
        {
          if current < target {
            ops := ops + [BusOp.VolumeUp(None)];
          } else if current > target {
            ops := ops + [BusOp.VolumeDown(None)];
          }
          assert Pulses(up, diff, false)[..i + 1] == Pulses(up, diff, false)[..i] + [Pulse(up, None)];
        }
        assert Pulses(up, diff, false)[..diff] == Pulses(up, diff, false);
      }
    }

    /**
     * `refresh`: nothing at all while a volume-set runs; otherwise, with
     * `refreshing` set throughout, one power event per present device and
     * then the audio status, after which `refreshing` is clear.
     */
    method Refresh(a: Adapter)
      modifies this`refreshing, this`events
      ensures old(settingVolume) ==> events == old(events) && refreshing == old(refreshing)
      ensures !old(settingVolume) ==>
        events == old(events) + RefreshDeviceEvents(a, devices) + AudioEvents(a.audioStatus) && !refreshing
      ensures ops == old(ops)
    {
      if settingVolume {
        return;
      }
      refreshing := true;
      for i := 0 to |devices|
        invariant refreshing
        invariant events == old(events) + RefreshDeviceEvents(a, devices[..i])
      {
        var device := devices[i];
        var physicalAddress := a.physicalAddress(device);
        if physicalAddress != Absent {
          var power := a.powerStatus(device);
          Send(DeviceTopic(device, "power"), Text(a.powerStatusName(power)));
        }
        assert devices[..i + 1][..i] == devices[..i];
      }
      assert devices[..|devices|] == devices;
      SendAudioStatus(a.audioStatus);
      refreshing := false;
    }

    /**
     * `scan`, whichever flags are set: with `refreshing` set throughout,
     * seven events per present device and then the audio status, after
     * which `refreshing` is clear.
     */
    method Scan(a: Adapter)
      modifies this`refreshing, this`events
      ensures events == old(events) + ScanDeviceEvents(a, devices) + AudioEvents(a.audioStatus)
      ensures !refreshing
      ensures ops == old(ops)
    {
      refreshing := true;
      for i := 0 to |devices|
        invariant refreshing
        invariant events == old(events) + ScanDeviceEvents(a, devices[..i])
      {
        ghost var before := events;
        ScanDevice(devices[i], a);
        ScanStep(a, devices, i);
        EventsRegroup(old(events), ScanDeviceEvents(a, devices[..i]), events[|before|..]);
      }
      assert devices[..|devices|] == devices;
      SendAudioStatus(a.audioStatus);
      refreshing := false;
    }

    /** The audio status as the end of `refresh` and `scan` reports it: level, then mute state. */
    method SendAudioStatus(status: int)
      modifies this`events
      ensures events == old(events) + AudioEvents(status)
    {
      var v := DecodeVolume(status);
      Send(VolumeTopic, Number(v.level));
      Send(MuteTopic, Text(OnOff(v.mute)));
    }

    /** One iteration of `scan`'s device loop. */
    method ScanDevice(device: int, a: Adapter)
      modifies this`events
      ensures events == old(events) + ScannedDevice(a, device)
    {
      var physicalAddress := a.physicalAddress(device);
      if physicalAddress != Absent {
        var vendorId := a.vendorId(device);
        physicalAddress := a.physicalAddress(device);
        var active := a.activeSource(device);
        var cecVersion := a.cecVersion(device);
        var power := a.powerStatus(device);
        var osdName := a.osdName(device);
        ghost var before := events;
        Send(DeviceTopic(device, "type"), Text(a.logicalAddressName(device)));
        Send(DeviceTopic(device, "address"), Text(PaddedHex(physicalAddress, 4)));
        Send(DeviceTopic(device, "active"), Text(PyBool(active)));
        Send(DeviceTopic(device, "vendor"), Text(a.vendorName(vendorId)));
        Send(DeviceTopic(device, "osd"), Text(osdName));
        Send(DeviceTopic(device, "cecver"), Text(a.cecVersionName(cecVersion)));
        Send(DeviceTopic(device, "power"), Text(a.powerStatusName(power)));
        SevenSent(before, events, DeviceSnapshot(a, device));
      }
    }
  }
}
