/**
 * The Zaber ASCII protocol as the Arduino library speaks it: the fixed-column
 * decoding of a reply line and the command lines the `send` overloads build.
 *
 * A reply line looks like `@01 0 OK BUSY -- 123` (device, axis, OK/RJ,
 * BUSY/IDLE, warning flag, data), read up to the '\n' so that the '\r' the
 * device sends is still on its end.
 */
module AsciiProtocol {
  import opened ArduinoString

  /** The library's `reply` struct. */
  datatype Reply = Reply(
    fullResponse: string,
    isReply: bool,
    deviceNumber: int,
    axisNumber: int,
    isRejected: bool,
    isBusy: bool,
    hasWarning: bool,
    warningFlag: string,
    responseDataString: string,
    responseData: int)

  /**
   * `length() - 1` in the unsigned arithmetic of `String::length`: on an
   * empty line it wraps to the largest 16-bit value.
   */
  function LastIndex(line: string): nat {
    if |line| == 0 then 0xFFFF else |line| - 1
  }

  /** A line whose status column reads BUSY. */
  predicate BusyLine(line: string) {
    |line| >= 13 && line[9..13] == "BUSY"
  }

  /**
   * Decodes a reply line by fixed columns: 0 the message type, 1..2 the
   * device, 4 the axis, 6..7 the reply flag, 9..12 the status, 14..15 the
   * warning flag, 17 up to (not including) the last character the data.
   */
  function DecodeReply(line: string): (r: Reply)
    ensures r.fullResponse == line
    ensures r.isReply <==> |line| >= 1 && line[0] == '@'
    ensures |line| >= 3 ==> r.deviceNumber == ToInt(line[1..3])
    ensures |line| >= 5 ==> r.axisNumber == ToInt(line[4..5])
    ensures r.isRejected <==> |line| >= 8 && line[6..8] == "RJ"
    ensures r.isBusy <==> BusyLine(line)
    ensures |line| >= 16 ==> r.warningFlag == line[14..16]
    ensures r.hasWarning <==> r.warningFlag != "--"
    ensures |line| >= 18 ==> r.responseDataString == line[17..|line| - 1]
    ensures 1 <= |line| <= 17 ==> r.responseDataString == [line[|line| - 1]]
    ensures |line| == 0 ==> r.responseDataString == []
    ensures r.responseData == ToInt(r.responseDataString)
  {
    var messageType := Substring(line, 0, 1);
    var deviceAddressStr := Substring(line, 1, 3);
    var axisStr := Substring(line, 4, 5);
    var rejectedStr := Substring(line, 6, 8);
    var busyStr := Substring(line, 9, 13);
    var warningFlagStr := Substring(line, 14, 16);
    var dataStr := Substring(line, 17, LastIndex(line));
    assert messageType == "@" <==> |line| >= 1 && line[0] == '@' by {
      if |line| >= 1 { assert messageType == [line[0]]; }
    }
    assert rejectedStr == "RJ" <==> |line| >= 8 && line[6..8] == "RJ" by {
      if |line| < 8 { assert |rejectedStr| < 2; }
    }
    assert busyStr == "BUSY" <==> BusyLine(line) by {
      if |line| < 13 { assert |busyStr| < 4; }
    }
    assert 1 <= |line| <= 17 ==> dataStr == line[|line| - 1..|line|];
    Reply(line, messageType == "@", ToInt(deviceAddressStr), ToInt(axisStr),
      rejectedStr == "RJ", busyStr == "BUSY", warningFlagStr != "--",
      warningFlagStr, dataStr, ToInt(dataStr))
  }

  /**
   * The fields `DecodeReply` leaves to short lines: a field cut off by the end
   * of the line is the part that is there, a field past the end is "" and
   * reads as 0.
   */
  lemma DecodeShortLine(line: string)
    ensures var r := DecodeReply(line);
      && (|line| == 2 ==> r.deviceNumber == ToInt(line[1..2]))
      && (|line| <= 1 ==> r.deviceNumber == 0)
      && (|line| <= 4 ==> r.axisNumber == 0)
      && (|line| == 15 ==> r.warningFlag == [line[14]])
      && (|line| <= 14 ==> r.warningFlag == [] && r.hasWarning)
  {
    assert ToInt([]) == 0 by {
      assert LeadingDigits([]) == [];
    }
  }

  /** Where the fields of "/" + ds + " " + command + " " + xs lie, for any texts. */
  lemma DataLayout(ds: string, command: string, xs: string)
    ensures var line, d, c := "/" + ds + " " + command + " " + xs, |ds|, |command|;
      && |line| == d + 3 + c + |xs|
      && line[0] == '/'
      && line[1..d + 1] == ds
      && line[1..] == ds + (" " + command + " " + xs)
      && line[d + 1] == ' '
      && line[d + 2..d + 2 + c] == command
      && line[d + 2 + c] == ' '
      && line[d + 3 + c..] == xs
  {
  }

  /** The same for "/" + ds + " " + xa + " " + command + " " + xs. */
  lemma AxisDataLayout(ds: string, xa: string, command: string, xs: string)
    ensures var line, d, a, c := "/" + ds + " " + xa + " " + command + " " + xs, |ds|, |xa|, |command|;
      && |line| == d + a + 4 + c + |xs|
      && line[0] == '/'
      && line[1..d + 1] == ds
      && line[1..] == ds + (" " + xa + " " + command + " " + xs)
      && line[d + 1] == ' '
      && line[d + 2..d + 2 + a] == xa
      && line[d + 2..] == xa + (" " + command + " " + xs)
      && line[d + 2 + a] == ' '
      && line[d + 3 + a..d + 3 + a + c] == command
      && line[d + 3 + a + c] == ' '
      && line[d + 4 + a + c..] == xs
  {
  }

  /** The same for "/" + ds + " " + xa + " " + command. */
  lemma AxisLayout(ds: string, xa: string, command: string)
    ensures var line, d, a := "/" + ds + " " + xa + " " + command, |ds|, |xa|;
      && |line| == d + a + 3 + |command|
      && line[0] == '/'
      && line[1..d + 1] == ds
      && line[1..] == ds + (" " + xa + " " + command)
      && line[d + 1] == ' '
      && line[d + 2..d + 2 + a] == xa
      && line[d + 2..] == xa + (" " + command)
      && line[d + 2 + a] == ' '
      && line[d + 3 + a..] == command
  {
  }

  /** `toInt` reads a rendered number back when nothing follows it. */
  lemma ToIntFromIntAlone(n: int)
    ensures ToInt(FromInt(n)) == n
  {
    ToIntFromInt(n, []);
    assert FromInt(n) + [] == FromInt(n);
  }

  /**
   * `send(device, command, data)`: "/device command data", the fields
   * separated by single spaces (DataCommandParses reads them back).
   */
  function DataCommand(device: int, command: string, data: int): (line: string)
    ensures var d, c := |FromInt(device)|, |command|;
      && |line| == d + 3 + c + |FromInt(data)|
      && line[0] == '/'
      && line[1..d + 1] == FromInt(device)
      && line[d + 1] == ' '
      && line[d + 2..d + 2 + c] == command
      && line[d + 2 + c] == ' '
      && line[d + 3 + c..] == FromInt(data)
  {
    DataLayout(FromInt(device), command, FromInt(data));
    "/" + FromInt(device) + " " + command + " " + FromInt(data)
  }

  /** `send(device, axis, command, data)`: "/device axis command data". */
  function AxisDataCommand(device: int, axis: int, command: string, data: int): (line: string)
    ensures var d, a, c := |FromInt(device)|, |FromInt(axis)|, |command|;
      && |line| == d + a + 4 + c + |FromInt(data)|
      && line[0] == '/'
      && line[1..d + 1] == FromInt(device)
      && line[d + 1] == ' '
      && line[d + 2..d + 2 + a] == FromInt(axis)
      && line[d + 2 + a] == ' '
      && line[d + 3 + a..d + 3 + a + c] == command
      && line[d + 3 + a + c] == ' '
      && line[d + 4 + a + c..] == FromInt(data)
  {
    AxisDataLayout(FromInt(device), FromInt(axis), command, FromInt(data));
    "/" + FromInt(device) + " " + FromInt(axis) + " " + command + " " + FromInt(data)
  }

  /** `send(device, command)`: "/device command". */
  function Command(device: int, command: string): (line: string)
    ensures var d := |FromInt(device)|;
      && |line| == d + 2 + |command|
      && line[0] == '/'
      && line[1..d + 1] == FromInt(device)
      && line[d + 1] == ' '
      && line[d + 2..] == command
  {
    "/" + FromInt(device) + " " + command
  }

  /** `send(device, axis, command)`: "/device axis command". */
  function AxisCommand(device: int, axis: int, command: string): (line: string)
    ensures var d, a := |FromInt(device)|, |FromInt(axis)|;
      && |line| == d + a + 3 + |command|
      && line[0] == '/'
      && line[1..d + 1] == FromInt(device)
      && line[d + 1] == ' '
      && line[d + 2..d + 2 + a] == FromInt(axis)
      && line[d + 2 + a] == ' '
      && line[d + 3 + a..] == command
  {
    AxisLayout(FromInt(device), FromInt(axis), command);
    "/" + FromInt(device) + " " + FromInt(axis) + " " + command
  }

  /** A device reading a data command recovers the device number and the data with `atol`. */
  lemma DataCommandParses(device: int, command: string, data: int)
    ensures var line, d, c := DataCommand(device, command, data), |FromInt(device)|, |command|;
      && ToInt(line[1..]) == device
      && ToInt(line[d + 3 + c..]) == data
  {
    DataLayout(FromInt(device), command, FromInt(data));
    ToIntFromInt(device, " " + command + " " + FromInt(data));
    ToIntFromIntAlone(data);
  }

  /** The same for the axis form: device, axis and data are all read back. */
  lemma AxisDataCommandParses(device: int, axis: int, command: string, data: int)
    ensures var line, d, a, c := AxisDataCommand(device, axis, command, data), |FromInt(device)|, |FromInt(axis)|, |command|;
      && ToInt(line[1..]) == device
      && ToInt(line[d + 2..]) == axis
      && ToInt(line[d + 4 + a + c..]) == data
  {
    AxisDataLayout(FromInt(device), FromInt(axis), command, FromInt(data));
    ToIntFromInt(device, " " + FromInt(axis) + " " + command + " " + FromInt(data));
    ToIntFromInt(axis, " " + command + " " + FromInt(data));
    ToIntFromIntAlone(data);
  }

  /** The device number of a plain command is read back by `atol`. */
  lemma CommandParses(device: int, command: string)
    ensures ToInt(Command(device, command)[1..]) == device
  {
    var line := Command(device, command);
    assert line[1..] == FromInt(device) + (" " + command);
    ToIntFromInt(device, " " + command);
  }

  /** The device and axis numbers of an axis command are read back by `atol`. */
  lemma AxisCommandParses(device: int, axis: int, command: string)
    ensures var line, d := AxisCommand(device, axis, command), |FromInt(device)|;
      && ToInt(line[1..]) == device
      && ToInt(line[d + 2..]) == axis
  {
    AxisLayout(FromInt(device), FromInt(axis), command);
    ToIntFromInt(device, " " + FromInt(axis) + " " + command);
    ToIntFromInt(axis, " " + command);
  }

  /** The `cmd` of `send(String)` before trimming: a '/' is put in front unless one is already there. */
  function Slashed(command: string): (cmd: string)
    ensures StartsWith(command, "/") ==> cmd == command
    ensures !StartsWith(command, "/") ==> cmd == "/" + command
  {
    if StartsWith(command, "/") then command else "/" + command
  }

  /**
   * `send(String)`: the line always starts with the '/', ends in something
   * other than white space, and is the command with only its trailing white
   * space removed (a '/' put in front when it lacked one).
   */
  function FreeFormCommand(command: string): (line: string)
    ensures line != [] && line[0] == '/'
    ensures !IsSpace(line[|line| - 1])
    ensures StartsWith(command, "/") ==> line == SkipTrailingSpace(command)
    ensures !StartsWith(command, "/") ==> line == "/" + SkipTrailingSpace(command)
  {
    var cmd := Slashed(command);
    TrimSlashed(command);
    Trim(cmd)
  }

  /** Trimming a line that starts with '/' only removes trailing white space. */
  lemma TrimSlashed(command: string)
    ensures var cmd := Slashed(command);
      && cmd != [] && cmd[0] == '/'
      && Trim(cmd) == SkipTrailingSpace(cmd)
      && Trim(cmd) == "/" + SkipTrailingSpace(cmd[1..])
  {
    var cmd := Slashed(command);
    assert cmd[0] == '/';
    assert SkipSpace(cmd) == cmd;
    assert cmd == ['/'] + cmd[1..];
    SkipTrailingSpaceAfter('/', cmd[1..]);
  }

  /** Two decimal digits, with a leading zero below 10 (the device field of a reply). */
  function TwoDigits(n: nat): (ds: string)
    requires n < 100
    ensures |ds| == 2 && AllDigits(ds) && DigitsValue(ds) == n
  {
    var ds := [DigitChar(n / 10), DigitChar(n % 10)];
    assert ds[..1] == [DigitChar(n / 10)];
    assert DigitsValue([DigitChar(n / 10)]) == n / 10 by {
      assert [DigitChar(n / 10)][..0] == [];
    }
    ds
  }

  function ReplyFlag(rejected: bool): string { if rejected then "RJ" else "OK" }

  function Status(busy: bool): string { if busy then "BUSY" else "IDLE" }

  /**
   * A well-formed reply as a device sends it, up to the '\n':
   * "@dd a FL STAT WW data\r".
   */
  function ReplyLine(device: nat, axis: nat, rejected: bool, busy: bool, warning: string, data: int): (line: string)
    requires device < 100 && axis < 10 && |warning| == 2
    ensures |line| == 18 + |FromInt(data)|
    ensures line[0] == '@' && line[|line| - 1] == '\r'
  {
    "@" + TwoDigits(device) + " " + [DigitChar(axis)] + " " + ReplyFlag(rejected) + " " + Status(busy)
      + " " + warning + " " + FromInt(data) + "\r"
  }

  /** The columns of a reply line built from arbitrary pieces of the right widths. */
  lemma ReplyLayout(dd: string, ax: char, flag: string, status: string, warning: string, xs: string)
    requires |dd| == 2 && |flag| == 2 && |status| == 4 && |warning| == 2
    ensures var line := "@" + dd + " " + [ax] + " " + flag + " " + status + " " + warning + " " + xs + "\r";
      && |line| == 18 + |xs|
      && line[0] == '@'
      && line[1..3] == dd
      && line[4..5] == [ax]
      && line[6..8] == flag
      && line[9..13] == status
      && line[14..16] == warning
      && line[17..|line| - 1] == xs
  {
  }

  /** How the decoder reads a line laid out in the reply columns, whatever the pieces hold. */
  lemma DecodeLayout(dd: string, ax: char, flag: string, status: string, warning: string, xs: string)
    requires |dd| == 2 && |flag| == 2 && |status| == 4 && |warning| == 2
    ensures var line := "@" + dd + " " + [ax] + " " + flag + " " + status + " " + warning + " " + xs + "\r";
      DecodeReply(line) == Reply(line, true, ToInt(dd), ToInt([ax]), flag == "RJ", status == "BUSY",
        warning != "--", warning, xs, ToInt(xs))
  {
    ReplyLayout(dd, ax, flag, status, warning, xs);
  }

  /** The number fields of a reply line are read back by `atol`. */
  lemma ReplyNumbersParse(device: nat, axis: nat, data: int)
    requires device < 100 && axis < 10
    ensures ToInt(TwoDigits(device)) == device
    ensures ToInt([DigitChar(axis)]) == axis
    ensures ToInt(FromInt(data)) == data
  {
    ToIntOfDigits(TwoDigits(device));
    ToIntOfDigits([DigitChar(axis)]);
    assert [DigitChar(axis)][..0] == [];
    ToIntFromIntAlone(data);
  }

  /** The flag and status words are told apart by the decoder's comparisons. */
  lemma ReplyWordsDecode(rejected: bool, busy: bool)
    ensures (ReplyFlag(rejected) == "RJ") == rejected
    ensures (Status(busy) == "BUSY") == busy
  {
    if !rejected { assert ReplyFlag(rejected)[0] != "RJ"[0]; }
    if !busy { assert Status(busy)[0] != "BUSY"[0]; }
  }

  /**
   * Decoding a well-formed reply gives back every field it was built from,
   * including the data, because the last character dropped by the decoder is
   * the '\r'.
   */
  lemma DecodeReplyLine(device: nat, axis: nat, rejected: bool, busy: bool, warning: string, data: int)
    requires device < 100 && axis < 10 && |warning| == 2
    ensures var line := ReplyLine(device, axis, rejected, busy, warning, data);
      DecodeReply(line) == Reply(line, true, device, axis, rejected, busy, warning != "--", warning, FromInt(data), data)
  {
    DecodeLayout(TwoDigits(device), DigitChar(axis), ReplyFlag(rejected), Status(busy), warning, FromInt(data));
    ReplyNumbersParse(device, axis, data);
    ReplyWordsDecode(rejected, busy);
  }

  /** The line "@01 0 OK BUSY -- 123\r" is the well-formed reply with those fields. */
  lemma BusyExampleLine()
    ensures FromInt(123) == "123"
    ensures ReplyLine(1, 0, false, true, "--", 123) == "@01 0 OK BUSY -- 123\r"
  {
    assert TwoDigits(1) == "01";
    assert NatToString(1) == "1";
    assert NatToString(12) == "12";
    assert FromInt(123) == "123";
  }

  /** The busy reply "@01 0 OK BUSY -- 123" as a device sends it, with its '\r', decodes field by field. */
  lemma DecodeBusyExample()
    ensures DecodeReply("@01 0 OK BUSY -- 123\r")
      == Reply("@01 0 OK BUSY -- 123\r", true, 1, 0, false, true, false, "--", "123", 123)
  {
    DecodeReplyLine(1, 0, false, true, "--", 123);
    BusyExampleLine();
  }

  /**
   * The decoder always drops the last character of the line: without the
   * '\r' the last data digit is lost.
   */
  lemma DecodeDropsLastCharacter()
    ensures DecodeReply("@01 0 OK BUSY -- 123").responseDataString == "12"
    ensures DecodeReply("@01 0 OK BUSY -- 123").responseData == 12
  {
    var line := "@01 0 OK BUSY -- 123";
    assert line[17..|line| - 1] == "12";
    ToIntOfDigits("12");
    assert "12"[..1] == "1";
    assert "1"[..0] == [];
  }

  /**
   * An empty line (nothing arrived before the time-out) decodes as a
   * non-reply that is not busy, carries a warning and has data 0.
   */
  lemma DecodeEmptyLine()
    ensures var r := DecodeReply("");
      && !r.isReply && !r.isBusy && !r.isRejected
      && r.hasWarning && r.warningFlag == ""
      && r.deviceNumber == 0 && r.axisNumber == 0
      && r.responseDataString == "" && r.responseData == 0
  {
    assert SkipSpace("") == "";
    assert LeadingDigits("") == "";
  }

  /** `send(String)` with leading white space: the slash is added in front of it and the space stays. */
  lemma FreeFormLeadingSpace()
    ensures FreeFormCommand("  /1 home") == "/  /1 home"
  {
    var c := "  /1 home";
    assert c[..1] == " ";
    assert !IsSpace(c[|c| - 1]);
    assert SkipTrailingSpace(c) == c;
    assert FreeFormCommand(c) == "/" + c;
  }

  /** `send(String)` keeps an existing slash and drops trailing white space and line ends. */
  lemma FreeFormTrailingSpace()
    ensures FreeFormCommand("/1 home \r\n") == "/1 home"
  {
    var c := "/1 home \r\n";
    assert c[..1] == "/";
    assert SkipTrailingSpace(c) == SkipTrailingSpace("/1 home \r") by {
      assert c[..|c| - 1] == "/1 home \r";
    }
    assert SkipTrailingSpace("/1 home \r") == SkipTrailingSpace("/1 home ") by {
      assert "/1 home \r"[..8] == "/1 home ";
    }
    assert SkipTrailingSpace("/1 home ") == "/1 home" by {
      assert "/1 home "[..7] == "/1 home";
    }
  }

  /**
   * `send(String)` trims only the ends: a line break inside the command is
   * sent as it is.
   */
  lemma FreeFormInteriorNewline()
    ensures FreeFormCommand("1\nhome") == "/1\nhome"
  {
    var c := "1\nhome";
    assert c[..1] == "1" && !StartsWith(c, "/");
    assert c[|c| - 1] == 'e';
    assert SkipTrailingSpace(c) == c;
    assert FreeFormCommand(c) == "/" + c;
  }
}
