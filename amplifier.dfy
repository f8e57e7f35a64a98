/**
 * The serial channel and the AE6MC driver.
 *
 * `Communication` stands for the serial port: the lines written so far, and
 * the reply lines the device has queued and not yet sent, in order. A read
 * with nothing queued is the port's read timeout.
 *
 * `ControlAE6MC` is the driver. Besides its channel it keeps a ghost record
 * of the calls it was asked to make; its invariant says the channel holds,
 * after what was written before the driver existed, exactly the command
 * lines of those calls.
 */
module Amplifier {
  import opened Int32
  import opened Wrappers
  import opened NumText
  import opened Protocol

  /** The line terminator the port appends to every line it collects. */
  const NewLine: string := "\n"

  /** Lines collected into one text, each followed by the line terminator. */
  function Joined(lines: seq<string>): (text: string)
    ensures |text| >= |lines|
  {
    if lines == [] then "" else Joined(lines[..|lines| - 1]) + lines[|lines| - 1] + NewLine
  }

  /** Whatever the lines are, the collected text is empty exactly when no line arrived. */
  lemma JoinedEmpty(lines: seq<string>)
    ensures |Joined(lines)| > 0 <==> |lines| > 0
  {
  }

  /** Collecting one more line appends it and the terminator. */
  lemma JoinedAppend(lines: seq<string>, line: string)
    ensures Joined(lines + [line]) == Joined(lines) + line + NewLine
  {
    assert (lines + [line])[..|lines|] == lines;
  }

  /** How an amplifier operation fails instead of returning a value. */
  datatype AmpError =
    | Timeout          // no reply line before the port's read timeout
    | BadReply         // the reply is not a base-16 int
    | NotImplemented   // the operation is not supported by this driver

  /** The serial channel: lines written, and device replies waiting to be read. */
  class Communication {
    var written: seq<string>
    var pending: seq<string>

    /** A fresh channel on which the device will send `replies`, in order. */
    constructor (replies: seq<string>)
      ensures written == [] && pending == replies
    {
      written := [];
      pending := replies;
    }

    /** Writes one line. */
    method WriteAsync(data: string)
      modifies this
      ensures written == old(written) + [data]
      ensures pending == old(pending)
    {
      written := written + [data];
    }

    /** Reads one reply line; None when the device sends nothing before the timeout. */
    method ReadAsync() returns (r: Option<string>)
      modifies this
      ensures written == old(written)
      ensures old(pending) == [] ==> r == None && pending == []
      ensures old(pending) != [] ==> r == Some(old(pending)[0]) && pending == old(pending)[1..]
    {
      if pending == [] {
        r := None;
      } else {
        r := Some(pending[0]);
        pending := pending[1..];
      }
    }

    /** Reads lines until the port times out and returns them collected, each with its terminator. */
    method ReadUntilTimeoutAsync() returns (text: string)
      modifies this
      ensures written == old(written)
      ensures pending == []
      ensures text == Joined(old(pending))
    {
      text := "";
      ghost var k := 0;
      while true
        invariant written == old(written)
        invariant 0 <= k <= |old(pending)|
        invariant pending == old(pending)[k..]
        invariant text == Joined(old(pending)[..k])
        decreases |pending|
      {
        var line := ReadAsync();
        if line.None? {
          break;
        }
        assert old(pending)[..k + 1] == old(pending)[..k] + [line.value];
        JoinedAppend(old(pending)[..k], line.value);
        text := text + line.value + NewLine;
        k := k + 1;
      }
      assert old(pending)[..k] == old(pending);
    }
  }

  /** The AE6MC driver over a serial channel. */
  class ControlAE6MC {
    const comm: Communication
    /** What the channel held when the driver was made. */
    ghost const preamble: seq<string>
    /** The calls made on this driver that wrote a line, in order. */
    ghost var calls: seq<AmpCall>

    ghost predicate Valid()
      reads this, comm
    {
      comm.written == preamble + Lines(calls)
    }

    constructor (communication: Communication)
      ensures comm == communication && calls == [] && preamble == communication.written
      ensures Valid()
    {
      comm := communication;
      preamble := communication.written;
      calls := [];
    }

    /** Writes the line of `call` and records it. */
    method Send(call: AmpCall, line: string)
      requires Valid() && line == CommandLine(call)
      modifies this, comm
      ensures Valid() && calls == old(calls) + [call]
      ensures comm.written == old(comm.written) + [line]
      ensures comm.pending == old(comm.pending)
    {
      comm.WriteAsync(line);
      LinesAppend(calls, call);
      calls := calls + [call];
    }

    /** Asks for the version and returns the reply line; a timeout is an error. */
    method GetVersionAsync() returns (r: Result<string, AmpError>)
      requires Valid()
      modifies this, comm
      ensures Valid() && calls == old(calls) + [AmpCall.GetVersion]
      ensures comm.written == old(comm.written) + ["(vr?)"]
      ensures old(comm.pending) == [] ==> r == Failure(Timeout) && comm.pending == []
      ensures old(comm.pending) != [] ==>
        r == Success(old(comm.pending)[0]) && comm.pending == old(comm.pending)[1..]
    {
      Send(AmpCall.GetVersion, "(vr?)");
      var reply := comm.ReadAsync();
      r := if reply.Some? then Success(reply.value) else Failure(Timeout);
    }

    /** Resets the device. */
    method ResetAsync()
      requires Valid()
      modifies this, comm
      ensures Valid() && calls == old(calls) + [AmpCall.Reset]
      ensures comm.written == old(comm.written) + ["(rx)"]
      ensures comm.pending == old(comm.pending)
    {
      Send(AmpCall.Reset, "(rx)");
    }

    /** Turns a zone on or off. */
    method SetOnStateAsync(outputId: int32, on: bool)
      requires Valid()
      modifies this, comm
      ensures Valid() && calls == old(calls) + [AmpCall.SetOnState(outputId, on)]
      ensures comm.written == old(comm.written) +
        ["(" + IntToDec(IndexFromId(outputId)) + (if on then "on" else "of") + ")"]
      ensures comm.pending == old(comm.pending)
    {
      var index := IndexFromId(outputId);
      Send(AmpCall.SetOnState(outputId, on), "(" + IntToDec(index) + (if on then "on" else "of") + ")");
    }

    /** Mutes or unmutes a zone. */
    method SetMuteStateAsync(outputId: int32, on: bool)
      requires Valid()
      modifies this, comm
      ensures Valid() && calls == old(calls) + [AmpCall.SetMuteState(outputId, on)]
      ensures comm.written == old(comm.written) +
        ["(" + IntToDec(IndexFromId(outputId)) + (if on then "mu" else "um") + ")"]
      ensures comm.pending == old(comm.pending)
    {
      var index := IndexFromId(outputId);
      Send(AmpCall.SetMuteState(outputId, on), "(" + IntToDec(index) + (if on then "mu" else "um") + ")");
    }

    /** Mutes or unmutes every zone at once. */
    method MuteAll(mute: bool)
      requires Valid()
      modifies this, comm
      ensures Valid() && calls == old(calls) + [AmpCall.MuteAll(mute)]
      ensures comm.written == old(comm.written) + [if mute then "(amu)" else "(aum)"]
      ensures comm.pending == old(comm.pending)
    {
      Send(AmpCall.MuteAll(mute), if mute then "(amu)" else "(aum)");
    }

    /** Asks for a zone's volume; the device level 0..87 is scaled back to 0..100, and a reply that is not an int gives -1. */
    method GetVolumeAsync(outputId: int32) returns (r: Result<int32, AmpError>)
      requires Valid()
      modifies this, comm
      ensures Valid() && calls == old(calls) + [AmpCall.GetVolume(outputId)]
      ensures comm.written == old(comm.written) + ["(" + IntToDec(IndexFromId(outputId)) + "vl?)"]
      ensures old(comm.pending) == [] ==> r == Failure(Timeout) && comm.pending == []
      ensures old(comm.pending) != [] ==>
        r == Success(DecodeVolume(old(comm.pending)[0])) && comm.pending == old(comm.pending)[1..]
    {
      var index := IndexFromId(outputId);
      Send(AmpCall.GetVolume(outputId), "(" + IntToDec(index) + "vl?)");
      var reply := comm.ReadAsync();
      if reply.None? {
        return Failure(Timeout);
      }
      r := Success(DecodeVolume(reply.value));
    }

    /** Sets a zone's volume: the 0..100 value is written as the two-digit device level value * 87 / 100. */
    method SetVolumeAsync(outputId: int32, value: int32)
      requires Valid()
      modifies this, comm
      ensures Valid() && calls == old(calls) + [AmpCall.SetVolume(outputId, value)]
      ensures comm.written == old(comm.written) +
        ["(" + IntToDec(IndexFromId(outputId)) + "vl" + D2(DeviceVolume(value)) + ")"]
      ensures comm.pending == old(comm.pending)
    {
      var index := IndexFromId(outputId);
      var a, b := "(" + IntToDec(index), "vl" + D2(DeviceVolume(value));
      assert a + b + ")" == "(" + IntToDec(index) + "vl" + D2(DeviceVolume(value)) + ")";
      Send(AmpCall.SetVolume(outputId, value), a + b + ")");
    }

    /** Asks for a zone's bass; the reply is read as a base-16 int. */
    method GetBassAsync(outputId: int32) returns (r: Result<int32, AmpError>)
      requires Valid()
      modifies this, comm
      ensures Valid() && calls == old(calls) + [AmpCall.GetBass(outputId)]
      ensures comm.written == old(comm.written) + ["(" + IntToDec(IndexFromId(outputId)) + "b?)"]
      ensures old(comm.pending) == [] ==> r == Failure(Timeout) && comm.pending == []
      ensures old(comm.pending) != [] ==>
        r == HexReply(old(comm.pending)[0]) && comm.pending == old(comm.pending)[1..]
    {
      var index := IndexFromId(outputId);
      Send(AmpCall.GetBass(outputId), "(" + IntToDec(index) + "b?)");
      var reply := comm.ReadAsync();
      if reply.None? {
        return Failure(Timeout);
      }
      r := HexReply(reply.value);
    }

    /** Sets a zone's bass, written in upper-case base 16. */
    method SetBassAsync(outputId: int32, value: int32)
      requires Valid()
      modifies this, comm
      ensures Valid() && calls == old(calls) + [AmpCall.SetBass(outputId, value)]
      ensures comm.written == old(comm.written) +
        ["(" + IntToDec(IndexFromId(outputId)) + "b" + Hex32(value) + ")"]
      ensures comm.pending == old(comm.pending)
    {
      var index := IndexFromId(outputId);
      var a, b := "(" + IntToDec(index), "b" + Hex32(value);
      assert a + b + ")" == "(" + IntToDec(index) + "b" + Hex32(value) + ")";
      Send(AmpCall.SetBass(outputId, value), a + b + ")");
    }

    /** Asks for a zone's treble; the reply is read as a base-16 int. */
    method GetTrebleAsync(outputId: int32) returns (r: Result<int32, AmpError>)
      requires Valid()
      modifies this, comm
      ensures Valid() && calls == old(calls) + [AmpCall.GetTreble(outputId)]
      ensures comm.written == old(comm.written) + ["(" + IntToDec(IndexFromId(outputId)) + "t?)"]
      ensures old(comm.pending) == [] ==> r == Failure(Timeout) && comm.pending == []
      ensures old(comm.pending) != [] ==>
        r == HexReply(old(comm.pending)[0]) && comm.pending == old(comm.pending)[1..]
    {
      var index := IndexFromId(outputId);
      Send(AmpCall.GetTreble(outputId), "(" + IntToDec(index) + "t?)");
      var reply := comm.ReadAsync();
      if reply.None? {
        return Failure(Timeout);
      }
      r := HexReply(reply.value);
    }

    /** Sets a zone's treble, written in upper-case base 16. */
    method SetTrebleAsync(outputId: int32, value: int32)
      requires Valid()
      modifies this, comm
      ensures Valid() && calls == old(calls) + [AmpCall.SetTreble(outputId, value)]
      ensures comm.written == old(comm.written) +
        ["(" + IntToDec(IndexFromId(outputId)) + "t" + Hex32(value) + ")"]
      ensures comm.pending == old(comm.pending)
    {
      var index := IndexFromId(outputId);
      var a, b := "(" + IntToDec(index), "t" + Hex32(value);
      assert a + b + ")" == "(" + IntToDec(index) + "t" + Hex32(value) + ")";
      Send(AmpCall.SetTreble(outputId, value), a + b + ")");
    }

    /** Routes an input to a zone. */
    method LinkAsync(inputId: int32, outputId: int32)
      requires Valid()
      modifies this, comm
      ensures Valid() && calls == old(calls) + [AmpCall.Link(inputId, outputId)]
      ensures comm.written == old(comm.written) +
        ["(" + IntToDec(IndexFromId(outputId)) + "sl" + IntToDec(IndexFromId(inputId)) + ")"]
      ensures comm.pending == old(comm.pending)
    {
      var indexOutput := IndexFromId(outputId);
      var indexInput := IndexFromId(inputId);
      var a, b := "(" + IntToDec(indexOutput), "sl" + IntToDec(indexInput);
      assert a + b + ")" == "(" + IntToDec(indexOutput) + "sl" + IntToDec(indexInput) + ")";
      Send(AmpCall.Link(inputId, outputId), a + b + ")");
    }

    /** The number of zones; nothing is written. */
    method GetOutputAmount() returns (n: int32)
      ensures n == NumberOfOutputs
    {
      n := NumberOfOutputs;
    }

    /** The number of inputs; nothing is written. */
    method GetInputAmount() returns (n: int32)
      ensures n == NumberOfInputs
    {
      n := NumberOfInputs;
    }

    /** Not supported by this driver: fails without touching the channel. */
    method GetMuteAsync(outputId: int32) returns (r: Result<bool, AmpError>)
      ensures r == Failure(NotImplemented)
    {
      r := Failure(NotImplemented);
    }

    /** Not supported by this driver: fails without touching the channel. */
    method GetOnStateAsync(outputId: int32) returns (r: Result<bool, AmpError>)
      ensures r == Failure(NotImplemented)
    {
      r := Failure(NotImplemented);
    }
  }

  /** A base-16 reply read as an int; BadReply when it is not one. */
  function HexReply(reply: string): (r: Result<int32, AmpError>)
    ensures r.Success? <==> ParseHex32(reply).Some?
    ensures r.Failure? ==> r.error == BadReply
  {
    match ParseHex32(reply)
    case Some(v) => Success(v)
    case None => Failure(BadReply)
  }

  /** What SetBass or SetTreble wrote, echoed back by the device, reads back as the same value. */
  lemma ToneEcho(value: int32)
    ensures HexReply(Hex32(value)) == Success(value)
  {
    HexRoundTrip(value);
  }

  /** Since the previous state the driver made exactly `newCalls` and no reply was read. */
  twostate predicate Appended(amp: ControlAE6MC, newCalls: seq<AmpCall>)
    reads amp, amp.comm
  {
    amp.Valid() && amp.calls == old(amp.calls) + newCalls && amp.comm.pending == old(amp.comm.pending)
  }

  /** A driver that was valid before such a change wrote exactly the lines of the new calls. */
  twostate lemma AppendedWrites(amp: ControlAE6MC, newCalls: seq<AmpCall>)
    requires old(amp.Valid()) && Appended(amp, newCalls)
    ensures amp.comm.written == old(amp.comm.written) + Lines(newCalls)
  {
    LinesConcat(old(amp.calls), newCalls);
    AppendAssoc(amp.preamble, Lines(old(amp.calls)), Lines(newCalls));
  }
}
