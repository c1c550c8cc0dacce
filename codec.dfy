/**
 * The value-level codecs of the HDMI-CEC interface: the audio-status byte,
 * the text of an addressed command handed to the adapter, and the header of
 * a frame as the adapter's command callback renders it
 * (`">> 15:7a:2d"`: a three-character direction marker, initiator and
 * destination nibbles, then the opcode and operand bytes, colon-separated).
 */
module CecCodec {
  import opened PyText

  /** CEC opcodes the command callback reacts to (HDMI 1.3a, supplement 1, CEC 15). */
  const ReportPowerStatus := 0x90
  const DeviceVendorId := 0x87
  const ReportPhysicalAddress := 0x84
  const ReportAudioStatus := 0x7A
  const SetSystemAudioMode := 0x72

  /** Opcode of "Give Audio Status", sent to the audio system to ask for its volume. */
  const GiveAudioStatus := "71"
  /** Logical address of the audio system (the AVR). */
  const AudioSystem := 5

  // ---------------------------------------------------------------------
  // Audio status

  datatype VolumeState = VolumeState(mute: bool, level: int)

  /**
   * `decode_volume` with the installed correction factor of 1: bit 7 is the
   * mute flag and the rest is the level. The result determines the status
   * again (EncodeVolume inverts it on every integer).
   */
  function DecodeVolume(status: int): (v: VolumeState)
    ensures v.mute <==> status > 127
    ensures 0 <= status <= 255 ==> 0 <= v.level <= 127
    ensures EncodeVolume(v) == status
  {
    var mute := status > 127;
    VolumeState(mute, if mute then status - 128 else status)
  }

  /** The audio-status byte that reports `v`. */
  function EncodeVolume(v: VolumeState): int
  {
    (if v.mute then 128 else 0) + v.level
  }

  lemma DecodeEncode(v: VolumeState)
    requires 0 <= v.level <= 127
    ensures DecodeVolume(EncodeVolume(v)) == v
  {
  }

  // ---------------------------------------------------------------------
  // tx_command

  /**
   * The text `tx_command` hands to `CommandFromString`: the command itself
   * when no device is given, otherwise the lower-case hex of
   * `deviceId * 16 + device`, a colon and the command.
   */
  function TxText(deviceId: int, command: string, device: Option<int>): (r: string)
    ensures device.None? <==> r == command
    ensures |r| >= |command| && r[|r| - |command|..] == command
  {
    match device
    case None => command
    case Some(d) => Hex(deviceId * 16 + d) + ":" + command
  }

  /** The "Give Audio Status" request addressed to the audio system. */
  function StatusRequest(deviceId: int): string
  {
    TxText(deviceId, GiveAudioStatus, Some(AudioSystem))
  }

  /**
   * Addressed from a logical address other than 0, the request reads
   * `"<deviceId>5:71"`: for instance `"15:71"` from a recorder at address 1.
   */
  lemma StatusRequestText(deviceId: int)
    requires 1 <= deviceId < 16
    ensures StatusRequest(deviceId) == [Digit(deviceId), '5', ':', '7', '1']
  {
    TxTextNibbles(deviceId, AudioSystem, GiveAudioStatus);
  }

  /**
   * Whatever the addresses, the text before the first colon of an addressed
   * command reads back, in hex, as `deviceId * 16 + device`, and the command
   * follows that colon unchanged.
   */
  lemma TxTextAddressHeader(deviceId: int, device: int, command: string)
    ensures var pieces := Split(TxText(deviceId, command, Some(device)), ':');
      ParseInt(pieces[0], 16) == Some(deviceId * 16 + device)
    ensures TxText(deviceId, command, Some(device))[|Hex(deviceId * 16 + device)| + 1..] == command
  {
    var n := deviceId * 16 + device;
    HexHasNoColon(n);
    SplitBeforeSep(Hex(n), command, ':');
    assert Hex(n) + ":" + command == Hex(n) + [':'] + command;
    ParseHex(n);
  }

  lemma HexHasNoColon(n: int)
    ensures ':' !in Hex(n)
  {
    var m := if n < 0 then -n else n;
    var f := Format(m, 16);
    FormatDigits(m, 16);
    assert DigitValue(':') == 16;
    assert ':' !in f by {
      forall i | 0 <= i < |f|
        ensures f[i] != ':'
      {
        assert DigitValue(f[i]) < 16;
      }
    }
    if n < 0 {
      assert Hex(n) == "-" + f;
    }
  }

  /**
   * With both logical addresses in range and the adapter's own address not 0,
   * the header is exactly two hex digits: initiator nibble, destination nibble.
   * (With address 0 the leading zero is dropped: `f'{5:x}'` is `"5"`.)
   */
  lemma TxTextNibbles(deviceId: int, device: int, command: string)
    requires 0 <= deviceId < 16 && 0 <= device < 16
    ensures TxText(deviceId, command, Some(device)) ==
      (if deviceId == 0 then [Digit(device)] else [Digit(deviceId), Digit(device)]) + ":" + command
  {
    var n := deviceId * 16 + device;
    if deviceId != 0 {
      assert n / 16 == deviceId && n % 16 == device;
      assert Format(n, 16) == Format(deviceId, 16) + [Digit(device)];
    }
  }

  // ---------------------------------------------------------------------
  // Frame header

  datatype Header = Header(initiator: int, destination: int, opcode: int)

  predicate IsHexDigit(c: char)
  {
    DigitValue(c) < 16
  }

  /** `int(c, 16)` of one character is its digit value, or a ValueError. */
  lemma ParseOneHexDigit(c: char)
    ensures ParseInt([c], 16) == if IsHexDigit(c) then Some(DigitValue(c)) else None
  {
    if !IsWhitespace(c) {
      StripNoWhitespace([c]);
      assert [c][..0] == [];
      assert DigitsValue([c], 16) == DigitValue(c);
    } else {
      assert [c][1..] == [];
    }
  }

  /**
   * The slicing at the start of `_on_command_callback`: the initiator is the
   * hex digit at index 3, the destination the one at index 4, the opcode the
   * text at indices 6 and 7; any of them unreadable raises (None).
   */
  function ParseHeader(cmd: string): (h: Option<Header>)
    ensures h.Some? <==>
      |cmd| >= 7 && IsHexDigit(cmd[3]) && IsHexDigit(cmd[4]) && ParseInt(Slice(cmd, 6, 8), 16).Some?
    ensures h.Some? ==>
      h.value.initiator == DigitValue(cmd[3]) && h.value.destination == DigitValue(cmd[4]) &&
      h.value.opcode == ParseInt(Slice(cmd, 6, 8), 16).value
  {
    if |cmd| >= 5 && IsHexDigit(cmd[3]) && IsHexDigit(cmd[4]) then
      var opcode := ParseInt(Slice(cmd, 6, 8), 16);
      if opcode.Some? then Some(Header(DigitValue(cmd[3]), DigitValue(cmd[4]), opcode.value)) else None
    else None
  }

  /** Two lower-case hex digits of a byte. */
  function Byte(b: nat): (r: string)
    requires b < 256
    ensures |r| == 2
  {
    [Digit(b / 16), Digit(b % 16)]
  }

  predicate AreBytes(bs: seq<int>)
  {
    forall k :: 0 <= k < |bs| ==> 0 <= bs[k] < 256
  }

  /** `":dd:dd..."`, one colon-prefixed byte per operand. */
  function Operands(bs: seq<int>): string
    requires AreBytes(bs)
  {
    if bs == [] then "" else ":" + Byte(bs[0]) + Operands(bs[1..])
  }

  /** A frame as the adapter reports it to the command callback. */
  function RenderFrame(direction: string, initiator: nat, destination: nat, opcode: nat, operands: seq<int>): string
    requires |direction| == 3 && initiator < 16 && destination < 16 && opcode < 256 && AreBytes(operands)
  {
    direction + [Digit(initiator), Digit(destination), ':'] + Byte(opcode) + Operands(operands)
  }

  lemma ParseByte(b: nat)
    requires b < 256
    ensures ParseInt(Byte(b), 16) == Some(b)
  {
    var s := Byte(b);
    StripNoWhitespace(s);
    assert s[0] != '-' && s[0] != '+' && s[1] != 'x' && s[1] != 'X';
    assert AllDigits(s, 16);
    assert DigitsValue(s[..1], 16) == b / 16 by {
      assert s[..1][..0] == [];
    }
    assert DigitsValue(s, 16) == b;
  }

  /** Decoding the header of a rendered frame gives back its three fields. */
  lemma ParseRenderedHeader(direction: string, initiator: nat, destination: nat, opcode: nat, operands: seq<int>)
    requires |direction| == 3 && initiator < 16 && destination < 16 && opcode < 256 && AreBytes(operands)
    ensures ParseHeader(RenderFrame(direction, initiator, destination, opcode, operands)) ==
      Some(Header(initiator, destination, opcode))
  {
    var f := RenderFrame(direction, initiator, destination, opcode, operands);
    assert f[3] == Digit(initiator) && f[4] == Digit(destination);
    assert Slice(f, 6, 8) == Byte(opcode);
    ParseByte(opcode);
  }

  /** A rendered frame with one operand byte reads back as its header and that byte. */
  lemma RenderedOneByte(direction: string, initiator: nat, destination: nat, opcode: nat, b: int)
    requires |direction| == 3 && initiator < 16 && destination < 16 && opcode < 256 && 0 <= b < 256
    ensures var cmd := RenderFrame(direction, initiator, destination, opcode, [b]);
      ParseHeader(cmd) == Some(Header(initiator, destination, opcode)) &&
      ParseInt(From(cmd, 9), 16) == Some(b)
  {
    ParseRenderedHeader(direction, initiator, destination, opcode, [b]);
    RenderedOperand(direction, initiator, destination, opcode, b);
    ParseByte(b);
  }

  /** The operand text after index 9 of a one-operand frame is that byte's two digits. */
  lemma RenderedOperand(direction: string, initiator: nat, destination: nat, opcode: nat, b: int)
    requires |direction| == 3 && initiator < 16 && destination < 16 && opcode < 256 && 0 <= b < 256
    ensures From(RenderFrame(direction, initiator, destination, opcode, [b]), 9) == Byte(b)
    ensures From(RenderFrame(direction, initiator, destination, opcode, [b]), 3) ==
      [Digit(initiator), Digit(destination), ':'] + Byte(opcode) + ":" + Byte(b)
  {
    assert Operands([b]) == ":" + Byte(b) + Operands([]);
  }

  /** Hex digits with no sign, no `0x` and no white space: what `int(_, 16)` reads as their value. */
  predicate PlainHex(s: string)
  {
    forall i :: 0 <= i < |s| ==>
      DigitValue(s[i]) < 16 && !IsWhitespace(s[i]) && s[i] != '-' && s[i] != '+' && s[i] != 'x' && s[i] != 'X'
  }

  lemma PlainHexAppend(s: string, t: string)
    requires PlainHex(s) && PlainHex(t)
    ensures PlainHex(s + t)
  {
    assert forall i :: |s| <= i < |s + t| ==> (s + t)[i] == t[i - |s|];
  }

  /** Plain hex digits read back as their value. */
  lemma ParsePlainHex(s: string)
    requires |s| >= 1 && PlainHex(s)
    ensures ParseInt(s, 16) == Some(DigitsValue(s, 16))
  {
    ParseUnsigned(s, 16);
  }

  /** A byte's two digits, appended to a digit string, shift it by eight bits. */
  lemma AppendByte(high: string, b: nat)
    requires b < 256 && AllDigits(high, 16)
    ensures DigitsValue(high + Byte(b), 16) == DigitsValue(high, 16) * 256 + b
    ensures AllDigits(high + Byte(b), 16)
  {
    AppendDigit(high, b / 16, 16);
    AppendDigit(high + [Digit(b / 16)], b % 16, 16);
    assert high + Byte(b) == high + [Digit(b / 16)] + [Digit(b % 16)];
  }

  /** The digits of a byte hold no colon. */
  lemma ByteHasNoColon(b: nat)
    requires b < 256
    ensures ':' !in Byte(b) && PlainHex(Byte(b))
  {
    assert DigitValue(':') == 16;
  }

  /** The text after index 9 of a frame with operands is its operand bytes, colon-separated. */
  lemma RenderedOperands(direction: string, initiator: nat, destination: nat, opcode: nat, operands: seq<int>)
    requires |direction| == 3 && initiator < 16 && destination < 16 && opcode < 256 && AreBytes(operands)
    requires operands != []
    ensures From(RenderFrame(direction, initiator, destination, opcode, operands), 9) == Operands(operands)[1..]
  {
    var head := direction + [Digit(initiator), Digit(destination), ':'] + Byte(opcode);
    var ops := Operands(operands);
    assert RenderFrame(direction, initiator, destination, opcode, operands) == head + ops;
    assert |head| == 8 && ops[0] == ':';
  }

  /** Three operand bytes render as `"b0:b1:b2"` after the leading colon. */
  lemma ThreeOperands(b0: int, b1: int, b2: int)
    requires 0 <= b0 < 256 && 0 <= b1 < 256 && 0 <= b2 < 256
    ensures Operands([b0, b1, b2])[1..] == Byte(b0) + ":" + Byte(b1) + ":" + Byte(b2)
  {
    assert [b0, b1, b2][1..] == [b1, b2];
    assert [b1, b2][1..] == [b2];
    assert Operands([b2]) == ":" + Byte(b2) + Operands([]);
    assert Operands([b1, b2]) == ":" + Byte(b1) + Operands([b2]);
    assert Operands([b0, b1, b2]) == ":" + Byte(b0) + Operands([b1, b2]);
  }

  /** Dropping the colons from `"b0:b1:b2"` leaves the six digits. */
  lemma ThreeBytesUncolon(b0: nat, b1: nat, b2: nat)
    requires b0 < 256 && b1 < 256 && b2 < 256
    ensures RemoveAll(Byte(b0) + ":" + Byte(b1) + ":" + Byte(b2), ":") == Byte(b0) + Byte(b1) + Byte(b2)
  {
    var x0, x1, x2 := Byte(b0), Byte(b1), Byte(b2);
    ByteHasNoColon(b0);
    ByteHasNoColon(b1);
    ByteHasNoColon(b2);
    assert x0 + ":" + x1 + ":" + x2 == x0 + [':'] + (x1 + [':'] + x2);
    RemoveCharAfter(x0, ':', x1 + [':'] + x2);
    RemoveCharAfter(x1, ':', x2);
    RemoveCharAbsent(x2, ':');
    assert x0 + (x1 + x2) == x0 + x1 + x2;
  }

  /** Dropping the colon from `"hi:lo"` leaves the four digits. */
  lemma TwoBytesUncolon(hi: nat, lo: nat)
    requires hi < 256 && lo < 256
    ensures RemoveAll(Byte(hi) + ":" + Byte(lo), ":") == Byte(hi) + Byte(lo)
  {
    ByteHasNoColon(hi);
    ByteHasNoColon(lo);
    RemoveCharAfter(Byte(hi), ':', Byte(lo));
    RemoveCharAbsent(Byte(lo), ':');
  }

  /** The digits of one byte read as that byte. */
  lemma OneByteDigits(b: nat)
    requires b < 256
    ensures DigitsValue(Byte(b), 16) == b && AllDigits(Byte(b), 16) && PlainHex(Byte(b))
  {
    AppendByte([], b);
    assert [] + Byte(b) == Byte(b);
    ByteHasNoColon(b);
  }

  /** The four digits of two bytes, as a digit string and its value. */
  lemma TwoBytesDigits(hi: nat, lo: nat)
    requires hi < 256 && lo < 256
    ensures var s := Byte(hi) + Byte(lo);
      DigitsValue(s, 16) == hi * 256 + lo && AllDigits(s, 16) && PlainHex(s)
  {
    OneByteDigits(hi);
    AppendByte(Byte(hi), lo);
    ByteHasNoColon(lo);
    PlainHexAppend(Byte(hi), Byte(lo));
  }

  /** Four digits of two bytes read back as one 16-bit number, first byte highest. */
  lemma TwoBytesValue(hi: nat, lo: nat)
    requires hi < 256 && lo < 256
    ensures ParseInt(Byte(hi) + Byte(lo), 16) == Some(hi * 256 + lo)
  {
    TwoBytesDigits(hi, lo);
    ParsePlainHex(Byte(hi) + Byte(lo));
  }

  /** Six digits of three bytes read back as one 24-bit number, first byte highest. */
  lemma ThreeBytesValue(b0: nat, b1: nat, b2: nat)
    requires b0 < 256 && b1 < 256 && b2 < 256
    ensures ParseInt(Byte(b0) + Byte(b1) + Byte(b2), 16) == Some(b0 * 65536 + b1 * 256 + b2)
  {
    var high := Byte(b0) + Byte(b1);
    TwoBytesDigits(b0, b1);
    AppendByte(high, b2);
    ByteHasNoColon(b2);
    PlainHexAppend(high, Byte(b2));
    ParsePlainHex(high + Byte(b2));
  }

  /**
   * A rendered three-operand frame (Device Vendor ID, Report Physical
   * Address) reads back as its header; its operand text without colons is
   * the three bytes as one number, and its characters 9 to 14 without the
   * colon are the first two bytes as one number.
   */
  lemma RenderedThreeBytes(direction: string, initiator: nat, destination: nat, opcode: nat, b0: int, b1: int, b2: int)
    requires |direction| == 3 && initiator < 16 && destination < 16 && opcode < 256
    requires 0 <= b0 < 256 && 0 <= b1 < 256 && 0 <= b2 < 256
    ensures var cmd := RenderFrame(direction, initiator, destination, opcode, [b0, b1, b2]);
      ParseHeader(cmd) == Some(Header(initiator, destination, opcode)) &&
      ParseInt(RemoveAll(From(cmd, 9), ":"), 16) == Some(b0 * 65536 + b1 * 256 + b2) &&
      ParseInt(RemoveAll(Slice(cmd, 9, 14), ":"), 16) == Some(b0 * 256 + b1)
  {
    var cmd := RenderFrame(direction, initiator, destination, opcode, [b0, b1, b2]);
    ParseRenderedHeader(direction, initiator, destination, opcode, [b0, b1, b2]);
    RenderedOperands(direction, initiator, destination, opcode, [b0, b1, b2]);
    ThreeOperands(b0, b1, b2);
    var text := Byte(b0) + ":" + Byte(b1) + ":" + Byte(b2);
    assert From(cmd, 9) == text;
    assert Slice(cmd, 9, 14) == Byte(b0) + ":" + Byte(b1) by {
      assert Slice(cmd, 9, 14) == text[..5];
    }
    ThreeBytesUncolon(b0, b1, b2);
    ThreeBytesValue(b0, b1, b2);
    TwoBytesUncolon(b0, b1);
    TwoBytesValue(b0, b1);
  }
}
