/**
 * The `ZaberAscii` class: sends command lines to Zaber devices and decodes
 * their replies over a serial stream. The stream is a `LineStream` holding the
 * lines the devices will send (each without its '\n') and the lines printed so
 * far (each of which the stream terminates with "\r\n").
 */
module Ascii {
  import opened ArduinoString
  import opened AsciiProtocol

  /** What `readStringUntil('\n')` returns: the next line, or "" once nothing more arrives. */
  function NextLine(lines: seq<string>): (line: string)
    ensures lines != [] ==> line == lines[0]
    ensures lines == [] ==> line == []
  {
    if lines == [] then [] else lines[0]
  }

  /** The lines still to come after one `readStringUntil('\n')`. */
  function Rest(lines: seq<string>): (rest: seq<string>)
    ensures lines != [] ==> rest == lines[1..]
    ensures lines == [] ==> rest == []
  {
    if lines == [] then [] else lines[1..]
  }

  /**
   * How many status requests `pollUntilIdle` sends when the devices will
   * answer with `lines`: it stops at the first reply the decoder does not
   * find busy, or one request after the replies run out (an empty line is
   * not busy).
   */
  function PollRounds(lines: seq<string>): (n: nat)
    ensures 1 <= n <= |lines| + 1
    ensures forall i :: 0 <= i < n - 1 ==> BusyLine(lines[i])
    ensures n <= |lines| ==> !BusyLine(lines[n - 1])
  {
    if lines == [] || !BusyLine(lines[0]) then 1 else 1 + PollRounds(lines[1..])
  }

  /**
   * The replies `pollUntilIdle` leaves unread: those after the first
   * non-busy one (none when the replies run out first).
   */
  function UnreadAfterPoll(lines: seq<string>): (rest: seq<string>)
    ensures rest == lines[Min(PollRounds(lines), |lines|)..]
  {
    if lines == [] then []
    else if !BusyLine(lines[0]) then lines[1..]
    else
      var rest := UnreadAfterPoll(lines[1..]);
      assert lines[1..][Min(PollRounds(lines[1..]), |lines| - 1)..] == lines[Min(PollRounds(lines), |lines|)..];
      rest
  }

  /** Any count of rounds that skips only busy replies and ends on a non-busy one is `PollRounds`. */
  lemma {:induction false} PollRoundsExact(lines: seq<string>, n: nat)
    requires 1 <= n <= |lines| + 1
    requires forall i :: 0 <= i < n - 1 ==> BusyLine(lines[i])
    requires n <= |lines| ==> !BusyLine(lines[n - 1])
    ensures PollRounds(lines) == n
  {
    if n > 1 {
      assert BusyLine(lines[0]);
      forall i | 0 <= i < n - 2
        ensures BusyLine(lines[1..][i])
      {
        assert lines[1..][i] == lines[i + 1];
      }
      PollRoundsExact(lines[1..], n - 1);
    }
  }

  /** `isIdle` answers true exactly when `pollUntilIdle` would stop after its first request. */
  lemma IdleIffSingleRound(lines: seq<string>)
    ensures !DecodeReply(NextLine(lines)).isBusy <==> PollRounds(lines) == 1
  {
  }

  /** `n` copies of `line`, as printed by `n` identical sends. */
  function Repeat(line: string, n: nat): (lines: seq<string>)
    ensures |lines| == n
    ensures forall i :: 0 <= i < n ==> lines[i] == line
  {
    if n == 0 then [] else Repeat(line, n - 1) + [line]
  }

  /** Printing one more copy after `n` copies gives `n + 1` copies. */
  lemma RepeatAppend(before: seq<string>, line: string, n: nat)
    ensures before + Repeat(line, n) + [line] == before + Repeat(line, n + 1)
  {
    assert Repeat(line, n + 1) == Repeat(line, n) + [line];
  }

  /** The serial stream the library talks through. */
  class LineStream {
    var incoming: seq<string>
    var sent: seq<string>

    constructor (replies: seq<string>)
      ensures incoming == replies && sent == []
    {
      incoming := replies;
      sent := [];
    }

    method ReadStringUntilNewline() returns (line: string)
      modifies this
      ensures line == NextLine(old(incoming))
      ensures incoming == Rest(old(incoming)) && sent == old(sent)
    {
      line := NextLine(incoming);
      incoming := Rest(incoming);
    }

    method Println(line: string)
      modifies this
      ensures sent == old(sent) + [line] && incoming == old(incoming)
    {
      sent := sent + [line];
    }
  }

  class ZaberAscii {
    const serialPort: LineStream

    constructor (serial: LineStream)
      ensures serialPort == serial
    {
      serialPort := serial;
    }

    /** Reads one line and decodes it. */
    method Receive() returns (reply: Reply)
      modifies serialPort
      ensures reply == DecodeReply(NextLine(old(serialPort.incoming)))
      ensures serialPort.incoming == Rest(old(serialPort.incoming))
      ensures serialPort.sent == old(serialPort.sent)
    {
      var deviceReply := serialPort.ReadStringUntilNewline();
      reply := DecodeReply(deviceReply);
    }

    method SendData(device: int, command: string, data: int)
      modifies serialPort
      ensures serialPort.sent == old(serialPort.sent) + [DataCommand(device, command, data)]
      ensures serialPort.incoming == old(serialPort.incoming)
    {
      serialPort.Println(DataCommand(device, command, data));
    }

    method SendAxisData(device: int, axis: int, command: string, data: int)
      modifies serialPort
      ensures serialPort.sent == old(serialPort.sent) + [AxisDataCommand(device, axis, command, data)]
      ensures serialPort.incoming == old(serialPort.incoming)
    {
      serialPort.Println(AxisDataCommand(device, axis, command, data));
    }

    method SendCommand(device: int, command: string)
      modifies serialPort
      ensures serialPort.sent == old(serialPort.sent) + [Command(device, command)]
      ensures serialPort.incoming == old(serialPort.incoming)
    {
      serialPort.Println(Command(device, command));
    }

    method SendAxisCommand(device: int, axis: int, command: string)
      modifies serialPort
      ensures serialPort.sent == old(serialPort.sent) + [AxisCommand(device, axis, command)]
      ensures serialPort.incoming == old(serialPort.incoming)
    {
      serialPort.Println(AxisCommand(device, axis, command));
    }

    /** Sends a free-form command, adding the '/' when missing and trimming it. */
    method SendString(command: string)
      modifies serialPort
      ensures serialPort.sent == old(serialPort.sent) + [FreeFormCommand(command)]
      ensures serialPort.incoming == old(serialPort.incoming)
    {
      var cmd := command;
      if !StartsWith(cmd, "/") {
        cmd := "/" + cmd;
      }
      cmd := Trim(cmd);
      serialPort.Println(cmd);
    }

    /** One status request; true when the reply does not say BUSY. */
    method IsIdle(device: int) returns (idle: bool)
      modifies serialPort
      ensures idle <==> !DecodeReply(NextLine(old(serialPort.incoming))).isBusy
      ensures idle <==> PollRounds(old(serialPort.incoming)) == 1
      ensures serialPort.sent == old(serialPort.sent) + [Command(device, "")]
      ensures serialPort.incoming == Rest(old(serialPort.incoming))
    {
      SendCommand(device, "");
      var resp := Receive();
      idle := !resp.isBusy;
      IdleIffSingleRound(old(serialPort.incoming));
    }

    /**
     * Sends status requests until a reply is not busy: exactly
     * `PollRounds` requests, consuming one reply each.
     */
    method PollUntilIdle(device: int)
      modifies serialPort
      ensures var lines, n := old(serialPort.incoming), PollRounds(old(serialPort.incoming));
        && serialPort.sent == old(serialPort.sent) + Repeat(Command(device, ""), n)
        && serialPort.incoming == lines[Min(n, |lines|)..]
    {
      ghost var lines := serialPort.incoming;
      ghost var sent := serialPort.sent;
      ghost var request := Command(device, "");
      SendCommand(device, "");
      RepeatAppend(sent, request, 0);
      var resp := Receive();
      ghost var rounds := 1;
      while resp.isBusy
        invariant serialPort.sent == sent + Repeat(request, rounds)
        invariant PollRounds(lines) == rounds + if resp.isBusy then PollRounds(serialPort.incoming) else 0
        invariant UnreadAfterPoll(lines) == if resp.isBusy then UnreadAfterPoll(serialPort.incoming) else serialPort.incoming
        decreases |serialPort.incoming| + if resp.isBusy then 1 else 0
      {
        SendCommand(device, "");
        RepeatAppend(sent, request, rounds);
        resp := Receive();
        rounds := rounds + 1;
      }
    }
  }
}
