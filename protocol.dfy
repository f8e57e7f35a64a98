/**
 * The AE6MC command language: what each amplifier operation writes on the
 * serial line, how replies are decoded, and a decoder for command lines
 * that shows that no two different device commands share a line.
 *
 * Every zone command is one ASCII line `(<index><op>[payload])`, where the
 * device-facing index is the logical id plus one.
 */
module Protocol {
  import opened Int32
  import opened Wrappers
  import opened NumText

  /** Number of zones (outputs) of the AE6MC. */
  const NumberOfOutputs: int32 := 6

  /** Number of inputs of the AE6MC. */
  const NumberOfInputs: int32 := 7

  /** One call of the amplifier interface, with its arguments as logical values. */
  datatype AmpCall =
    | GetVersion
    | Reset
    | SetOnState(outputId: int32, on: bool)
    | SetMuteState(outputId: int32, mute: bool)
    | MuteAll(mute: bool)
    | GetVolume(outputId: int32)
    | SetVolume(outputId: int32, value: int32)
    | GetBass(outputId: int32)
    | SetBass(outputId: int32, value: int32)
    | GetTreble(outputId: int32)
    | SetTreble(outputId: int32, value: int32)
    | Link(inputId: int32, outputId: int32)

  /** What the device is asked to do, with device-level values. */
  datatype Opcode =
    | VersionQuery
    | ResetAll
    | PowerOn
    | PowerOff
    | MuteZone
    | UnmuteZone
    | MuteAllZones
    | UnmuteAllZones
    | VolumeQuery
    | VolumeLevel(level: int32)
    | BassQuery
    | BassLevel(level: int32)
    | TrebleQuery
    | TrebleLevel(level: int32)
    | SelectInput(index: int32)

  /** A device command: the device-facing index it is addressed to (none for the global ones) and its opcode. */
  datatype Command = Command(target: Option<int32>, op: Opcode)

  /** The device-facing index of a zone or an input (32-bit addition, as in C#). */
  function IndexFromId(id: int32): (index: int32)
    ensures id < Int32Max ==> index == id + 1
  {
    Wrap32(id as int + 1)
  }

  /** Every zone and every input has the device index id + 1, between 1 and the amount. */
  lemma IndexesOfZonesAndInputs(id: int32)
    ensures 0 <= id < NumberOfOutputs ==> 1 <= IndexFromId(id) <= NumberOfOutputs
    ensures 0 <= id < NumberOfInputs ==> 1 <= IndexFromId(id) <= NumberOfInputs
  {
  }

  /** The device volume (0..87) for a logical volume (0..100): `value * 87 / 100` in C# arithmetic. */
  function DeviceVolume(value: int32): (level: int32)
    ensures 0 <= value <= 100 ==> 0 <= level <= 87 && level == value * 87 / 100
  {
    TruncDiv(Wrap32(value as int * 87), 100)
  }

  /**
   * The logical volume of a volume reply: the reply parsed as a decimal int
   * and scaled by `* 100 / 87` in C# arithmetic, or -1 when it does not parse.
   */
  function DecodeVolume(reply: string): (volume: int32)
    ensures TryParseInt32(reply).None? ==> volume == -1
  {
    match TryParseInt32(reply)
    case None => -1
    case Some(n) => TruncDiv(Wrap32(n as int * 100), 87)
  }

  /** A reply holding a device volume n in 0..87 decodes to n * 100 / 87, a logical volume in 0..100. */
  lemma DecodeDeviceVolume(reply: string, n: int)
    requires TryParseInt32(reply) == Some(n) && 0 <= n <= 87
    ensures DecodeVolume(reply) == n * 100 / 87 && 0 <= DecodeVolume(reply) <= 100
  {
  }

  /** The device command an amplifier call is translated to. */
  function CommandOf(call: AmpCall): Command
  {
    match call
    case GetVersion => Command(None, VersionQuery)
    case Reset => Command(None, ResetAll)
    case SetOnState(z, on) => Command(Some(IndexFromId(z)), if on then PowerOn else PowerOff)
    case SetMuteState(z, mute) => Command(Some(IndexFromId(z)), if mute then MuteZone else UnmuteZone)
    case MuteAll(mute) => Command(None, if mute then MuteAllZones else UnmuteAllZones)
    case GetVolume(z) => Command(Some(IndexFromId(z)), VolumeQuery)
    case SetVolume(z, v) => Command(Some(IndexFromId(z)), VolumeLevel(DeviceVolume(v)))
    case GetBass(z) => Command(Some(IndexFromId(z)), BassQuery)
    case SetBass(z, v) => Command(Some(IndexFromId(z)), BassLevel(v))
    case GetTreble(z) => Command(Some(IndexFromId(z)), TrebleQuery)
    case SetTreble(z, v) => Command(Some(IndexFromId(z)), TrebleLevel(v))
    case Link(i, o) => Command(Some(IndexFromId(o)), SelectInput(IndexFromId(i)))
  }

  /** The opcode and payload text of a command. */
  function OpText(op: Opcode): string
  {
    match op
    case VersionQuery => "vr?"
    case ResetAll => "rx"
    case PowerOn => "on"
    case PowerOff => "of"
    case MuteZone => "mu"
    case UnmuteZone => "um"
    case MuteAllZones => "amu"
    case UnmuteAllZones => "aum"
    case VolumeQuery => "vl?"
    case VolumeLevel(level) => "vl" + D2(level)
    case BassQuery => "b?"
    case BassLevel(level) => "b" + Hex32(level)
    case TrebleQuery => "t?"
    case TrebleLevel(level) => "t" + Hex32(level)
    case SelectInput(index) => "sl" + IntToDec(index)
  }

  /** The commands that are addressed to one zone. */
  predicate Targeted(op: Opcode)
  {
    !(op.VersionQuery? || op.ResetAll? || op.MuteAllZones? || op.UnmuteAllZones?)
  }

  /** A command has a target exactly when its opcode is addressed to one zone. */
  predicate WellFormed(c: Command)
  {
    c.target.Some? <==> Targeted(c.op)
  }

  /** The line written on the serial port for a command. */
  function Encode(c: Command): string
  {
    "(" + (if c.target.Some? then IntToDec(c.target.value) else "") + OpText(c.op) + ")"
  }

  /** The line the AE6MC driver writes for an amplifier call. */
  function CommandLine(call: AmpCall): string
  {
    Encode(CommandOf(call))
  }

  /** The lines written for a sequence of calls, in order. */
  function Lines(calls: seq<AmpCall>): (lines: seq<string>)
    ensures |lines| == |calls|
    ensures forall i :: 0 <= i < |calls| ==> lines[i] == CommandLine(calls[i])
  {
    if calls == [] then [] else Lines(calls[..|calls| - 1]) + [CommandLine(calls[|calls| - 1])]
  }

  /** Appending one call appends its line. */
  lemma LinesAppend(calls: seq<AmpCall>, call: AmpCall)
    ensures Lines(calls + [call]) == Lines(calls) + [CommandLine(call)]
  {
    assert (calls + [call])[..|calls|] == calls;
  }

  /** Concatenation regrouped. */
  lemma AppendAssoc<T>(a: seq<T>, b: seq<T>, c: seq<T>)
    ensures a + (b + c) == a + b + c
  {
  }

  /** The lines of two runs of calls, one after the other. */
  lemma {:induction false} LinesConcat(a: seq<AmpCall>, b: seq<AmpCall>)
    ensures Lines(a + b) == Lines(a) + Lines(b)
    decreases |b|
  {
    if b != [] {
      var x := b[|b| - 1];
      var b' := b[..|b| - 1];
      assert b == b' + [x];
      assert a + b == (a + b') + [x];
      LinesConcat(a, b');
      LinesAppend(a + b', x);
      LinesAppend(b', x);
      AppendAssoc(Lines(a), Lines(b'), [CommandLine(x)]);
    }
  }

  /** The length of the leading run of decimal digits. */
  function DigitRun(s: string): (n: nat)
    ensures n <= |s| && AllDigits(s[..n], 10)
    ensures n < |s| ==> !IsDigit(s[n], 10)
  {
    if s != [] && IsDigit(s[0], 10) then
      var n := 1 + DigitRun(s[1..]);
      assert s[..n] == [s[0]] + s[1..][..n - 1];
      n
    else 0
  }

  /** The length of the target index at the front of a command body (an optional '-', then digits); 0 when there is none. */
  function TargetLength(body: string): (n: nat)
    ensures n <= |body|
  {
    var sign := if |body| > 0 && body[0] == '-' then 1 else 0;
    var d := DigitRun(body[sign..]);
    if d == 0 then 0 else sign + d
  }

  function DecodeGlobal(body: string): Option<Opcode>
  {
    if body == "vr?" then Some(VersionQuery)
    else if body == "rx" then Some(ResetAll)
    else if body == "amu" then Some(MuteAllZones)
    else if body == "aum" then Some(UnmuteAllZones)
    else None
  }

  function DecodeTargeted(s: string): Option<Opcode>
  {
    if s == "on" then Some(PowerOn)
    else if s == "of" then Some(PowerOff)
    else if s == "mu" then Some(MuteZone)
    else if s == "um" then Some(UnmuteZone)
    else if s == "vl?" then Some(VolumeQuery)
    else if s == "b?" then Some(BassQuery)
    else if s == "t?" then Some(TrebleQuery)
    else if |s| >= 2 && s[..2] == "vl" then
      (match ParseSigned(s[2..]) case Some(v) => Some(VolumeLevel(v)) case None => None)
    else if |s| >= 2 && s[..2] == "sl" then
      (match ParseSigned(s[2..]) case Some(v) => Some(SelectInput(v)) case None => None)
    else if |s| >= 1 && s[0] == 'b' then
      (match ParseHex32(s[1..]) case Some(v) => Some(BassLevel(v)) case None => None)
    else if |s| >= 1 && s[0] == 't' then
      (match ParseHex32(s[1..]) case Some(v) => Some(TrebleLevel(v)) case None => None)
    else None
  }

  /** Reads a command line back into the device command it stands for; None for any other text. */
  function Decode(line: string): Option<Command>
  {
    if |line| < 2 || line[0] != '(' || line[|line| - 1] != ')' then None
    else
      var body := line[1..|line| - 1];
      var n := TargetLength(body);
      if n == 0 then
        match DecodeGlobal(body)
        case Some(op) => Some(Command(None, op))
        case None => None
      else
        match (ParseSigned(body[..n]), DecodeTargeted(body[n..]))
        case (Some(t), Some(op)) => Some(Command(Some(t), op))
        case _ => None
  }

  /**
   * Round trip of the volume scaling: when the device echoes the level that
   * SetVolume wrote, GetVolume returns (v * 87 / 100) * 100 / 87, which never
   * exceeds v.
   */
  lemma VolumeRoundTrip(v: int32)
    requires 0 <= v <= 100
    ensures DecodeVolume(D2(DeviceVolume(v))) == (v * 87 / 100) * 100 / 87 <= v
  {
    var level := DeviceVolume(v);
    TryParseD2(level);
    DecodeDeviceVolume(D2(level), level);
  }

  /** The scaling loses information: volume 1 is written as level 00 and read back as 0. */
  lemma VolumeRoundTripIsLossy()
    ensures DeviceVolume(1) == 0 && DecodeVolume(D2(DeviceVolume(1))) == 0
  {
    TryParseD2(0);
  }

  /** For a zone and a volume in range, SetVolume writes `(<z+1>vl<two digits of v*87/100>)`. */
  lemma SetVolumeLine(z: int32, v: int32)
    requires 0 <= z < NumberOfOutputs && 0 <= v <= 100
    ensures CommandLine(SetVolume(z, v)) == "(" + IntToDec(z + 1) + "vl" + D2(v * 87 / 100) + ")"
    ensures 0 <= v * 87 / 100 <= 87 && |D2(v * 87 / 100)| == 2 && AllDigits(D2(v * 87 / 100), 10)
  {
    D2TwoDigits(v * 87 / 100);
    var a, b, c := "(" + IntToDec(z + 1), "vl", D2(v * 87 / 100);
    assert a + (b + c) + ")" == a + b + c + ")";
  }

  /** Every opcode text starts with a letter: neither a digit nor a minus sign. */
  lemma OpTextStart(op: Opcode)
    ensures |OpText(op)| >= 2 && !IsDigit(OpText(op)[0], 10) && OpText(op)[0] != '-'
  {
  }

  lemma {:induction false} DigitRunOfDigits(d: string, rest: string)
    requires AllDigits(d, 10) && (rest == [] || !IsDigit(rest[0], 10))
    ensures DigitRun(d + rest) == |d|
    decreases |d|
  {
    if d != [] {
      assert (d + rest)[1..] == d[1..] + rest;
      DigitRunOfDigits(d[1..], rest);
    }
  }

  /** Digits then a non-digit: the target is the digits. */
  lemma TargetLengthUnsigned(d: string, o: string)
    requires |d| > 0 && AllDigits(d, 10) && |o| > 0 && !IsDigit(o[0], 10)
    ensures TargetLength(d + o) == |d|
  {
    var body := d + o;
    assert body[0] == d[0] && IsDigit(d[0], 10);
    assert body[0..] == body;
    DigitRunOfDigits(d, o);
  }

  /** A minus sign, digits, then a non-digit: the target is the sign and the digits. */
  lemma TargetLengthNegative(d: string, o: string)
    requires |d| > 0 && AllDigits(d, 10) && |o| > 0 && !IsDigit(o[0], 10)
    ensures TargetLength("-" + d + o) == |d| + 1
  {
    var body := "-" + d + o;
    assert body[0] == '-';
    assert body[1..] == d + o;
    DigitRunOfDigits(d, o);
  }

  /** The target length of a body that starts with a written index is the length of that index. */
  lemma TargetLengthOfIndex(x: int32, o: string)
    requires |o| > 0 && !IsDigit(o[0], 10)
    ensures TargetLength(IntToDec(x) + o) == |IntToDec(x)|
  {
    if x < 0 {
      TargetLengthNegative(Numeral(-(x as int), 10), o);
    } else {
      TargetLengthUnsigned(Numeral(x as int, 10), o);
    }
  }

  /** A body starting with `vl` and no query mark reads as a volume level in decimal. */
  lemma DecodeVolumeText(s: string)
    requires |s| >= 3 && s[0] == 'v' && s[1] == 'l' && s[2] != '?'
    ensures DecodeTargeted(s) == match ParseSigned(s[2..]) case Some(v) => Some(VolumeLevel(v)) case None => None
  {
    assert s != "on" && s != "of" && s != "mu" && s != "um" && s != "b?" && s != "t?";
    assert s != "vl?" by {
      assert "vl?"[2] == '?';
    }
    assert s[..2] == "vl";
  }

  /** A body starting with `sl` reads as an input index in decimal. */
  lemma DecodeSelectText(s: string)
    requires |s| >= 2 && s[0] == 's' && s[1] == 'l'
    ensures DecodeTargeted(s) == match ParseSigned(s[2..]) case Some(v) => Some(SelectInput(v)) case None => None
  {
    assert s != "on" && s != "of" && s != "mu" && s != "um" && s != "vl?" && s != "b?" && s != "t?";
    assert s[..2] != "vl" by {
      assert s[..2][0] == 's';
    }
    assert s[..2] == "sl";
  }

  lemma DecodeVolumeLevel(level: int32)
    ensures DecodeTargeted(OpText(VolumeLevel(level))) == Some(VolumeLevel(level))
  {
    var s := OpText(VolumeLevel(level));
    ParseSignedD2(level);
    ParsedStart(D2(level));
    assert !IsDigit('?', 10);
    assert s[2..] == D2(level) && s[2] == D2(level)[0];
    DecodeVolumeText(s);
  }

  lemma DecodeSelectInput(index: int32)
    ensures DecodeTargeted(OpText(SelectInput(index))) == Some(SelectInput(index))
  {
    var s := OpText(SelectInput(index));
    ParseSignedIntToDec(index);
    assert s[0] == 's' && s[1] == 'l' && s[2..] == IntToDec(index);
    DecodeSelectText(s);
  }

  /** A body starting with `b` and no query mark reads as a bass level in hex. */
  lemma DecodeBassText(s: string)
    requires |s| >= 2 && s[0] == 'b' && s[1] != '?'
    ensures DecodeTargeted(s) == match ParseHex32(s[1..]) case Some(v) => Some(BassLevel(v)) case None => None
  {
    assert s != "on" && s != "of" && s != "mu" && s != "um" && s != "vl?" && s != "t?";
    assert s != "b?" by {
      assert "b?"[1] == '?';
    }
    assert s[..2] != "vl" && s[..2] != "sl" by {
      assert s[..2][0] == 'b';
    }
  }

  /** A body starting with `t` and no query mark reads as a treble level in hex. */
  lemma DecodeTrebleText(s: string)
    requires |s| >= 2 && s[0] == 't' && s[1] != '?'
    ensures DecodeTargeted(s) == match ParseHex32(s[1..]) case Some(v) => Some(TrebleLevel(v)) case None => None
  {
    assert s != "on" && s != "of" && s != "mu" && s != "um" && s != "vl?" && s != "b?";
    assert s != "t?" by {
      assert "t?"[1] == '?';
    }
    assert s[..2] != "vl" && s[..2] != "sl" by {
      assert s[..2][0] == 't';
    }
  }

  lemma DecodeBassLevel(level: int32)
    ensures DecodeTargeted(OpText(BassLevel(level))) == Some(BassLevel(level))
  {
    HexRoundTrip(level);
    var h := Hex32(level);
    assert IsDigit(h[0], 16);
    var b := OpText(BassLevel(level));
    assert b[0] == 'b' && b[1] == h[0] && b[1..] == h;
    DecodeBassText(b);
  }

  lemma DecodeTrebleLevel(level: int32)
    ensures DecodeTargeted(OpText(TrebleLevel(level))) == Some(TrebleLevel(level))
  {
    HexRoundTrip(level);
    var h := Hex32(level);
    assert IsDigit(h[0], 16);
    var t := OpText(TrebleLevel(level));
    assert t[0] == 't' && t[1] == h[0] && t[1..] == h;
    DecodeTrebleText(t);
  }

  lemma DecodeTargetedOpText(op: Opcode)
    requires Targeted(op)
    ensures DecodeTargeted(OpText(op)) == Some(op)
  {
    match op
    case VolumeLevel(level) => DecodeVolumeLevel(level);
    case SelectInput(index) => DecodeSelectInput(index);
    case BassLevel(level) => DecodeBassLevel(level);
    case TrebleLevel(level) => DecodeTrebleLevel(level);
    case _ =>
  }

  /** A parenthesized body with no leading index decodes to its global opcode. */
  lemma DecodeGlobalBody(body: string, op: Opcode)
    requires TargetLength(body) == 0 && DecodeGlobal(body) == Some(op)
    ensures Decode("(" + body + ")") == Some(Command(None, op))
  {
    var line := "(" + body + ")";
    assert line[1..|line| - 1] == body;
  }

  /** A parenthesized body with a leading index decodes to that index and the opcode after it. */
  lemma DecodeTargetedBody(body: string, n: nat, x: int32, op: Opcode)
    requires 0 < n == TargetLength(body)
    requires ParseSigned(body[..n]) == Some(x) && DecodeTargeted(body[n..]) == Some(op)
    ensures Decode("(" + body + ")") == Some(Command(Some(x), op))
  {
    var line := "(" + body + ")";
    assert line[1..|line| - 1] == body;
  }

  /** An index text followed by an opcode text, in parentheses, decodes to the index and the opcode. */
  lemma DecodeIndexed(t: string, o: string, x: int32, op: Opcode)
    requires |t| > 0 && TargetLength(t + o) == |t|
    requires ParseSigned(t) == Some(x) && DecodeTargeted(o) == Some(op)
    ensures Decode("(" + t + o + ")") == Some(Command(Some(x), op))
  {
    SplitConcat(t, o);
    DecodeTargetedBody(t + o, |t|, x, op);
    ParenConcat(t, o);
  }

  /** Cutting a concatenation at the join gives back its two parts. */
  lemma SplitConcat(t: string, o: string)
    ensures (t + o)[..|t|] == t && (t + o)[|t|..] == o
  {
  }

  /** Parentheses around a concatenation, regrouped. */
  lemma ParenConcat(t: string, o: string)
    ensures "(" + (t + o) + ")" == "(" + t + o + ")"
  {
  }

  /** A command addressed to no zone decodes from its opcode text alone. */
  lemma DecodeGlobalCommand(op: Opcode)
    requires !Targeted(op)
    ensures Decode(Encode(Command(None, op))) == Some(Command(None, op))
  {
    var o := OpText(op);
    assert Encode(Command(None, op)) == "(" + o + ")";
    OpTextStart(op);
    assert TargetLength(o) == 0;
    assert DecodeGlobal(o) == Some(op);
    DecodeGlobalBody(o, op);
  }

  /** A command addressed to a zone decodes to its index and its opcode. */
  lemma DecodeTargetedCommand(x: int32, op: Opcode)
    requires Targeted(op)
    ensures Decode(Encode(Command(Some(x), op))) == Some(Command(Some(x), op))
  {
    var t, o := IntToDec(x), OpText(op);
    OpTextStart(op);
    TargetLengthOfIndex(x, o);
    ParseSignedIntToDec(x);
    DecodeTargetedOpText(op);
    DecodeIndexed(t, o, x, op);
  }

  /** Decoding a well-formed command's line gives back the command: no two commands share a line. */
  lemma DecodeEncode(c: Command)
    requires WellFormed(c)
    ensures Decode(Encode(c)) == Some(c)
  {
    if c.target.None? {
      DecodeGlobalCommand(c.op);
    } else {
      DecodeTargetedCommand(c.target.value, c.op);
    }
  }

  /** The line of every amplifier call decodes to the device command it was translated to. */
  lemma CommandLineRoundTrip(call: AmpCall)
    ensures Decode(CommandLine(call)) == Some(CommandOf(call))
  {
    DecodeEncode(CommandOf(call));
  }

  /** The reset line reads back as the reset command. */
  lemma DecodeResetLine()
    ensures Decode("(rx)") == Some(Command(None, ResetAll))
  {
    DecodeGlobalCommand(ResetAll);
  }

  /** The Reset call is the only call translated to the device reset. */
  lemma OnlyResetIsResetAll(call: AmpCall)
    ensures CommandOf(call) == Command(None, ResetAll) <==> call == Reset
  {
  }

  /** `(rx)`, the device reset, is written only by the Reset call. */
  lemma OnlyResetWritesRx(call: AmpCall)
    ensures CommandLine(call) == "(rx)" <==> call == Reset
  {
    CommandLineRoundTrip(call);
    DecodeResetLine();
    OnlyResetIsResetAll(call);
  }
}
