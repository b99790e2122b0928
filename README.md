# Zaber ASCII library for Arduino: a verified model

The Zaber Arduino library talks to Zaber motion devices in the Zaber ASCII
protocol. It has two layers:

- `ZaberShield` presents the Zaber shield as a byte stream. The shield carries
  an SC16IS740 I2C-to-UART bridge chip. Every stream operation is one or more
  register transactions on the I2C bus.
  - `begin` clears the FIFOs, enables them, programs the baud-rate divisor and
    sets the line format to 8N1.
  - `available`, `peek` and `read` share a one-byte look-ahead buffer.
  - `flush` and `write` spin on the line-status register until THR is empty.
- `ZaberAscii` formats command lines (`/device [axis] command [data]`), sends
  them, and decodes reply lines (`@01 0 OK BUSY -- 123`) by fixed columns.
  - `isIdle` sends one status request.
  - `pollUntilIdle` sends status requests until a reply is not BUSY.

The project has six modules:

- `Sc16is740`: the chip as a value. It holds the register map, the bits the
  driver uses, the divisor latch that redirects registers 0 and 1, the
  receive and transmit FIFOs, the FIFO-reset bits of FCR, and a finite script
  of line-status readings.
- `ShieldModel`: the driver as a state machine on values. A `Port` holds:
  - the I2C address;
  - the look-ahead buffer and its flag;
  - the chip;
  - the log of every bus transaction.

  Each driver function maps a port to the value it returns and the port after
  the call.
- `Shield`: the `ZaberShield` class. Its fields are updated in place, and each
  method is proved to equal the `ShieldModel` function applied to the old
  state. The loops of `flush` and `WriteByte` are `while` loops with their
  invariants.
- `ShieldProperties`: what the driver promises, proved on the model. It covers:
  - the peek, read and available rules;
  - the exact register sequence of `begin`;
  - the chip state `begin` leaves behind;
  - the divisor at common rates and its 16-bit truncation.
- `ArduinoString`: the parts of Arduino `String` and of `atol` the protocol
  code relies on: `substring`, `toInt`, `trim`, `startsWith` and `String(long)`.
- `AsciiProtocol`: the `reply` struct, `decodeReply` and the command lines the
  `send` overloads build. It proves that:
  - a device reading a command line gets the numbers back with `atol`;
  - a well-formed reply line decodes to exactly the fields it was built from.
- `Ascii`: the `ZaberAscii` class over a `LineStream`. The stream stands in for
  the serial port: it holds the lines still to come and the lines printed so
  far. The class proves that `pollUntilIdle` sends exactly as many requests as
  the replies require, and consumes exactly as many replies.

Where the code and the library's stated intent differ, the model follows the
code. The places where they differ are:

- `send(String)` puts the '/' in front *before* trimming. Leading white space
  in front of a command that lacks a '/' therefore stays in the line:
  `"  /1 home"` becomes `"/  /1 home"` (`AsciiProtocol.FreeFormLeadingSpace`).
- `decodeReply` takes the data field up to `length() - 1`, which drops the
  '\r' the device puts before its '\n'. On a line without a '\r', the last
  digit is dropped instead: `@01 0 OK BUSY -- 123` gives data 12, not 123
  (`AsciiProtocol.DecodeDropsLastCharacter`). A reply as devices send it,
  ending in '\r', decodes to 123 (`AsciiProtocol.DecodeBusyExample`).
- A short or empty reply line is not undefined behaviour:
  - `String::substring` returns "" past the end and clamps its right index.
  - `length() - 1` on an empty line wraps to 65535 in the 16-bit
    `unsigned int` of AVR boards.
  - The model decodes such lines exactly as the code does
    (`AsciiProtocol.DecodeEmptyLine`).
- The divisor is stored in a `uint16_t`. With the prescaler at 1 the quotient
  does not fit below 23 baud, and with it at 4 below 6 baud; only its low 16
  bits reach the chip (`ShieldProperties.DivisorTruncatedAtLowRates`).
- `send(String)` is documented as removing every '\n', but `trim()` only
  removes white space at the two ends; a line break inside the command is
  sent (`AsciiProtocol.FreeFormInteriorNewline`).

## Model

| member | source | states |
|---|---|---|
| Sc16is740.SubAddress | arduino/libraries/Zaber_ASCII/ZaberShield.cpp:177 | the sub-address byte is the register number shifted left by 3; its low 3 bits are 0 and it selects the register back |
| Sc16is740.ReadValue | arduino/libraries/Zaber_ASCII/ZaberShield.cpp:59-80 | RXLVL reads the fill level of the receive FIFO; once the LSR script is used up, LSR reports THR empty |
| Sc16is740.AfterRead | arduino/libraries/Zaber_ASCII/ZaberShield.cpp:59-69 | only reads of RHR and LSR change the chip; an LSR read consumes one scripted reading |
| Sc16is740.AfterWrite | arduino/libraries/Zaber_ASCII/ZaberShield.cpp:59-80 | a write keeps the chip consistent and leaves the LSR script alone |
| ShieldModel.ReadRegister | arduino/libraries/Zaber_ASCII/ZaberShield.cpp:173-183 | one logged read transaction at address/sub-address; the value read and the chip after it are the chip's; the look-ahead state is untouched |
| ShieldModel.WriteRegister | arduino/libraries/Zaber_ASCII/ZaberShield.cpp:186-194 | one logged write transaction; the chip after it is the chip's response to the write |
| ShieldModel.FifoAvailableData | arduino/libraries/Zaber_ASCII/ZaberShield.cpp:305-310 | returns the number of bytes in the receive FIFO, with one RXLVL read and no other change |
| ShieldModel.FifoAvailableSpace | arduino/libraries/Zaber_ASCII/ZaberShield.cpp:313-316 | returns TXLVL, with one TXLVL read and no other change |
| ShieldModel.ReadByte | arduino/libraries/Zaber_ASCII/ZaberShield.cpp:331-343 | -1 exactly when the receive FIFO is empty (RXLVL read only, chip unchanged); otherwise RXLVL then RHR are read: with the divisor latch closed the result is the head byte, popped from the FIFO; with it open it is DLL and the chip is unchanged |
| ShieldModel.Available | arduino/libraries/Zaber_ASCII/ZaberShield.cpp:107-116 | the receive FIFO level plus one when a look-ahead byte is pending; the chip is not changed |
| ShieldModel.Peek | arduino/libraries/Zaber_ASCII/ZaberShield.cpp:119-131 | with a byte pending it returns it with no bus traffic; otherwise it reads one byte and keeps it pending exactly when it is not -1; -1 exactly when nothing is pending and the FIFO is empty |
| ShieldModel.Read | arduino/libraries/Zaber_ASCII/ZaberShield.cpp:134-145 | a pending byte is returned and the flag cleared; otherwise it is ReadByte; nothing is pending afterwards |
| ShieldModel.Flush | arduino/libraries/Zaber_ASCII/ZaberShield.cpp:154-162 | only LSR reads are added; all but the last saw THR-empty clear, the last saw it set; nothing on the chip but the LSR script changes |
| ShieldModel.FlushReplaysScript | arduino/libraries/Zaber_ASCII/ZaberShield.cpp:158-161 | the values the flush loop read are the first values of the LSR script, in order |
| ShieldModel.FlushConsumesReadings | arduino/libraries/Zaber_ASCII/ZaberShield.cpp:158-161 | the flush loop consumes exactly the readings it made: the rest of the LSR script is what follows them, or nothing once it ran out |
| ShieldModel.WriteByte | arduino/libraries/Zaber_ASCII/ZaberShield.cpp:319-328 | the bus log is that of flush followed by one THR write of the byte; the chip is the original with the LSR readings consumed by the spin and, with the latch closed, the byte appended to the transmit FIFO (DLL overwritten while the latch is open) |
| ShieldModel.Write | arduino/libraries/Zaber_ASCII/ZaberShield.cpp:165-169 | always reports 1 byte written, and its effect is exactly that of WriteByte |
| ShieldModel.Divisor | arduino/libraries/Zaber_ASCII/ZaberShield.cpp:216 | fits in 16 bits; when nothing wraps it is the truncated quotient: d * 16B <= F/P < (d + 1) * 16B |
| ShieldModel.TruncatedQuotient | arduino/libraries/Zaber_ASCII/ZaberShield.cpp:216 | truncated division brackets the dividend, and a quotient below 2^16 survives the 16-bit store |
| ShieldModel.DivisorHigh | arduino/libraries/Zaber_ASCII/ZaberShield.cpp:225-226 | the high byte shifted left by 8 and combined with the low byte gives back the whole divisor |
| ShieldModel.SetLatch | arduino/libraries/Zaber_ASCII/ZaberShield.cpp:220-222 | the latch bit is set and bits 6..0 are kept |
| ShieldModel.ClearLatch | arduino/libraries/Zaber_ASCII/ZaberShield.cpp:229-230 | the latch bit is cleared and bits 6..0 are kept |
| ShieldModel.SetBaudrate | arduino/libraries/Zaber_ASCII/ZaberShield.cpp:198-230 | the exact six transactions: MCR read, LCR read, latch set, DLL, DLH, latch cleared; the chip ends with the divisor in DLL/DLH and LCR as before minus the latch bit |
| ShieldModel.LineFormat8N1 | arduino/libraries/Zaber_ASCII/ZaberShield.cpp:256-261 | the latch-enable and set-break bits are kept unchanged; bits 5..0 are 8 data bits, no parity, 1 stop bit |
| ShieldModel.SetLcr | arduino/libraries/Zaber_ASCII/ZaberShield.cpp:251-269 | an LCR read then a write of its 8N1 form; nothing else on the chip changes |
| ShieldModel.ResetFcrValue | arduino/libraries/Zaber_ASCII/ZaberShield.cpp:274-286 | both FIFO-reset bits are set; the enable bit is set exactly when IIR says the FIFOs are enabled; bits 7..3 are 0 |
| ShieldModel.ResetDevice | arduino/libraries/Zaber_ASCII/ZaberShield.cpp:272-288 | an IIR read then one FCR write; both FIFOs end empty, the FIFO-enabled state is preserved, and nothing else on the chip changes (IIR only in its FIFO bits) |
| ShieldModel.FifoEnable | arduino/libraries/Zaber_ASCII/ZaberShield.cpp:291-302 | a single FCR write of the enable bit alone, or 0; the FIFOs end enabled exactly when the argument is non-zero; the FIFO contents and every other register stay as they were |
| ShieldModel.Begin | arduino/libraries/Zaber_ASCII/ZaberShield.cpp:91-98 | keeps the port valid and the driver state unchanged (what it does is in BeginSequence and BeginLeavesChipReady) |
| ShieldProperties.PeekIsIdempotent | arduino/libraries/Zaber_ASCII/ZaberShield.cpp:119-131 | two peeks return the same value; once a byte is pending the second peek changes nothing; a -1 leaves nothing pending |
| ShieldProperties.ReadAfterPeek | arduino/libraries/Zaber_ASCII/ZaberShield.cpp:119-145 | in every driver state, a read after a peek returns the peeked byte and clears the flag, the same value as a read alone; when the peek found a byte, the pair also leaves the same chip and bus log as a read alone |
| ShieldProperties.AvailableAfterPeekThenRead | arduino/libraries/Zaber_ASCII/ZaberShield.cpp:107-145 | with the divisor latch closed, available() drops by exactly one across a peek and a read when something was available, and stays 0 otherwise; with it open, it drops by one only when a byte was already pending and is otherwise unchanged |
| ShieldProperties.ResetThenEnable | arduino/libraries/Zaber_ASCII/ZaberShield.cpp:94-95 | after the FIFO reset and the FIFO enable, both FIFOs are empty and enabled, MCR and LCR are unchanged, and the bus saw the IIR read and the two FCR writes |
| ShieldProperties.BeginSequence | arduino/libraries/Zaber_ASCII/ZaberShield.cpp:91-98 | begin puts exactly this ordered list of register transactions on the bus: reset, enable, the baud-rate sequence, the line format |
| ShieldProperties.BeginLeavesChipReady | arduino/libraries/Zaber_ASCII/ZaberShield.cpp:91-98 | after begin both FIFOs are empty and enabled, the latch is closed, LCR is 8N1 with the break bit kept, and DLH:DLL hold the divisor |
| ShieldProperties.DivisorAtCommonRates | arduino/libraries/Zaber_ASCII/ZaberShield.cpp:216 | the divisor for 115200 baud is 13; for 9600 baud it is 156 (prescaler 1) or 39 (prescaler 4) |
| ShieldProperties.DivisorTruncatedAtLowRates | arduino/libraries/Zaber_ASCII/ZaberShield.cpp:200-216 | the quotient stops fitting in 16 bits below 23 baud with prescaler 1 (68181 becomes 2645 at 22 baud) and below 6 baud with prescaler 4 (75000 becomes 9464 at 5 baud) |
| Shield.ZaberShield.constructor | arduino/libraries/Zaber_ASCII/ZaberShield.cpp:83-88 | the address is stored shifted right by one, the look-ahead is 0 and nothing is pending |
| Shield.ZaberShield.ReadRegister | arduino/libraries/Zaber_ASCII/ZaberShield.cpp:173-183 | the value and new state are those of ShieldModel.ReadRegister |
| Shield.ZaberShield.WriteRegister | arduino/libraries/Zaber_ASCII/ZaberShield.cpp:186-194 | the new state is that of ShieldModel.WriteRegister |
| Shield.ZaberShield.FifoAvailableData | arduino/libraries/Zaber_ASCII/ZaberShield.cpp:305-310 | the result and new state are those of ShieldModel.FifoAvailableData |
| Shield.ZaberShield.FifoAvailableSpace | arduino/libraries/Zaber_ASCII/ZaberShield.cpp:313-316 | the result and new state are those of ShieldModel.FifoAvailableSpace |
| Shield.ZaberShield.ReadByte | arduino/libraries/Zaber_ASCII/ZaberShield.cpp:331-343 | the result and new state are those of ShieldModel.ReadByte |
| Shield.ZaberShield.Available | arduino/libraries/Zaber_ASCII/ZaberShield.cpp:107-116 | the result and new state are those of ShieldModel.Available |
| Shield.ZaberShield.Peek | arduino/libraries/Zaber_ASCII/ZaberShield.cpp:119-131 | the result and the updated look-ahead fields are those of ShieldModel.Peek |
| Shield.ZaberShield.Read | arduino/libraries/Zaber_ASCII/ZaberShield.cpp:134-145 | the result and new state are those of ShieldModel.Read |
| Shield.ZaberShield.AvailableForWrite | arduino/libraries/Zaber_ASCII/ZaberShield.cpp:148-151 | returns TXLVL as an int in 0..255, with ShieldModel.FifoAvailableSpace's effect |
| Shield.ZaberShield.Flush | arduino/libraries/Zaber_ASCII/ZaberShield.cpp:154-162 | the do-while loop ends in the state of ShieldModel.Flush |
| Shield.ZaberShield.WriteByte | arduino/libraries/Zaber_ASCII/ZaberShield.cpp:319-328 | the spin and the THR write end in the state of ShieldModel.WriteByte |
| Shield.ZaberShield.Write | arduino/libraries/Zaber_ASCII/ZaberShield.cpp:165-169 | returns 1, with ShieldModel.Write's effect |
| Shield.ZaberShield.SetBaudrate | arduino/libraries/Zaber_ASCII/ZaberShield.cpp:198-230 | the new state is that of ShieldModel.SetBaudrate |
| Shield.ZaberShield.SetLcr | arduino/libraries/Zaber_ASCII/ZaberShield.cpp:251-269 | the new state is that of ShieldModel.SetLcr |
| Shield.ZaberShield.ResetDevice | arduino/libraries/Zaber_ASCII/ZaberShield.cpp:272-288 | the new state is that of ShieldModel.ResetDevice |
| Shield.ZaberShield.FifoEnable | arduino/libraries/Zaber_ASCII/ZaberShield.cpp:291-302 | the new state is that of ShieldModel.FifoEnable |
| Shield.ZaberShield.Begin | arduino/libraries/Zaber_ASCII/ZaberShield.cpp:91-98 | the new state is that of ShieldModel.Begin |
| ArduinoString.Substring | arduino/libraries/Zaber_ASCII/ZaberAscii.cpp:19-25 | the slice between the two indices in either order; when the larger index is past the end, the slice runs from the smaller one to the end; "" when the smaller index is at or past the end; never longer than the string |
| ArduinoString.StartsWithPrefix | arduino/libraries/Zaber_ASCII/ZaberAscii.cpp:74 | startsWith holds exactly when the string is the prefix followed by the rest, and always holds for the prefix followed by anything |
| ArduinoString.Trim | arduino/libraries/Zaber_ASCII/ZaberAscii.cpp:79-80 | the result is a slice of the input with only white space cut on either side, and it neither starts nor ends with white space |
| ArduinoString.SkipTrailingSpace | arduino/libraries/Zaber_ASCII/ZaberAscii.cpp:80 | a prefix of the input, not ending in white space, with only white space cut |
| ArduinoString.FromInt | arduino/libraries/Zaber_ASCII/ZaberAscii.cpp:51 | non-empty, starts with a digit or '-', and is all digits exactly when the number is not negative |
| ArduinoString.FromIntCanonical | arduino/libraries/Zaber_ASCII/ZaberAscii.cpp:51 | String(long) is the canonical decimal text: "0" exactly for zero, no leading zero, and after a '-' a non-zero digit followed only by digits |
| ArduinoString.ToIntReadsNumber | arduino/libraries/Zaber_ASCII/ZaberAscii.cpp:28-33 | toInt skips the leading white space, reads an optional '-' or '+', then takes the value of the longest run of digits that follows (0 if there is none) |
| ArduinoString.ToIntFromInt | arduino/libraries/Zaber_ASCII/ZaberAscii.cpp:28-33 | toInt reads back what String(long) wrote, whatever non-digit text follows |
| ArduinoString.ToIntOfDigits | arduino/libraries/Zaber_ASCII/ZaberAscii.cpp:28-29 | toInt of a run of digits is its decimal value |
| ArduinoString.SkipTrailingSpaceAfter | arduino/libraries/Zaber_ASCII/ZaberAscii.cpp:80 | removing trailing white space never reaches past a leading non-space character |
| AsciiProtocol.DecodeReply | arduino/libraries/Zaber_ASCII/ZaberAscii.cpp:16-40 | each field is read from its fixed columns: '@' at 0, device 1..2, axis 4, RJ at 6..7, BUSY at 9..12, warning 14..15 (a warning exactly when it is not "--"), data from 17 up to the last character; the flags and the data are stated for every length, including short lines |
| AsciiProtocol.DecodeShortLine | arduino/libraries/Zaber_ASCII/ZaberAscii.cpp:19-33 | on short lines a device, axis or warning field cut off by the end of the line is the part that is there, and a field past the end is "" (its number 0, and a warning is reported) |
| AsciiProtocol.ToIntFromIntAlone | arduino/libraries/Zaber_ASCII/ZaberAscii.cpp:51 | toInt reads back a rendered number on its own |
| AsciiProtocol.DataCommand | arduino/libraries/Zaber_ASCII/ZaberAscii.cpp:49-52 | the line is '/', the device, a space, the command, a space, the data, at these exact offsets |
| AsciiProtocol.AxisDataCommand | arduino/libraries/Zaber_ASCII/ZaberAscii.cpp:54-57 | the line is '/', device, axis, command and data, each separated by one space, at these exact offsets |
| AsciiProtocol.Command | arduino/libraries/Zaber_ASCII/ZaberAscii.cpp:59-62 | the line is '/', the device, a space and the command |
| AsciiProtocol.AxisCommand | arduino/libraries/Zaber_ASCII/ZaberAscii.cpp:64-67 | the line is '/', the device, a space, the axis, a space and the command |
| AsciiProtocol.DataCommandParses | arduino/libraries/Zaber_ASCII/ZaberAscii.cpp:49-52 | atol on the device and data columns of the line gives back the device and the data |
| AsciiProtocol.AxisDataCommandParses | arduino/libraries/Zaber_ASCII/ZaberAscii.cpp:54-57 | atol on the device, axis and data columns gives them back |
| AsciiProtocol.CommandParses | arduino/libraries/Zaber_ASCII/ZaberAscii.cpp:59-62 | atol after the '/' gives back the device |
| AsciiProtocol.AxisCommandParses | arduino/libraries/Zaber_ASCII/ZaberAscii.cpp:64-67 | atol on the device and axis columns gives them back |
| AsciiProtocol.FreeFormCommand | arduino/libraries/Zaber_ASCII/ZaberAscii.cpp:69-83 | the line is non-empty, starts with '/', does not end in white space, and is the command with only its trailing white space removed (with '/' in front when it lacked one) |
| AsciiProtocol.TrimSlashed | arduino/libraries/Zaber_ASCII/ZaberAscii.cpp:74-80 | trimming a line that starts with '/' only removes trailing white space |
| AsciiProtocol.TwoDigits | arduino/libraries/Zaber_ASCII/ZaberAscii.cpp:20 | two digits whose value is the device number (zero-padded) |
| AsciiProtocol.ReplyLine | arduino/libraries/Zaber_ASCII/ZaberAscii.cpp:16-25 | a reply as a device sends it up to the '\n': 18 fixed characters plus the data, starting with '@' and ending with '\r' |
| AsciiProtocol.ReplyLayout | arduino/libraries/Zaber_ASCII/ZaberAscii.cpp:19-25 | the pieces of a reply line sit at the columns decodeReply reads |
| AsciiProtocol.DecodeLayout | arduino/libraries/Zaber_ASCII/ZaberAscii.cpp:19-25 | decodeReply's slices of a reply line are its pieces |
| AsciiProtocol.ReplyNumbersParse | arduino/libraries/Zaber_ASCII/ZaberAscii.cpp:28-33 | toInt reads back the device, axis and data of a reply line |
| AsciiProtocol.ReplyWordsDecode | arduino/libraries/Zaber_ASCII/ZaberAscii.cpp:30-31 | OK/RJ and IDLE/BUSY decode to the flags they were written from |
| AsciiProtocol.DecodeReplyLine | arduino/libraries/Zaber_ASCII/ZaberAscii.cpp:16-40 | round trip: decoding a well-formed reply line gives exactly the device, axis, flags, warning and data it was built from |
| AsciiProtocol.BusyExampleLine | arduino/libraries/Zaber_ASCII/ZaberAscii.cpp:16-25 | the reply for device 1, axis 0, OK, BUSY, "--", 123 is "@01 0 OK BUSY -- 123\r" |
| AsciiProtocol.DecodeBusyExample | arduino/libraries/Zaber_ASCII/ZaberAscii.cpp:16-40 | that line decodes to a reply from device 1, axis 0, not rejected, busy, no warning, data 123 |
| AsciiProtocol.DecodeDropsLastCharacter | arduino/libraries/Zaber_ASCII/ZaberAscii.cpp:25 | without the '\r', the data of "@01 0 OK BUSY -- 123" is "12", i.e. 12 |
| AsciiProtocol.DecodeEmptyLine | arduino/libraries/Zaber_ASCII/ZaberAscii.cpp:16-40 | an empty line (a read that timed out) is not a reply, not busy, not rejected, has a warning, and all numbers are 0 |
| AsciiProtocol.FreeFormLeadingSpace | arduino/libraries/Zaber_ASCII/ZaberAscii.cpp:69-83 | "  /1 home" is sent as "/  /1 home" |
| AsciiProtocol.FreeFormTrailingSpace | arduino/libraries/Zaber_ASCII/ZaberAscii.cpp:69-83 | "/1 home \r\n" is sent as "/1 home" |
| AsciiProtocol.FreeFormInteriorNewline | arduino/libraries/Zaber_ASCII/ZaberAscii.cpp:79-82 | a line break inside the command is sent unchanged: "1\nhome" is sent as "/1\nhome" |
| Ascii.PollRounds | arduino/libraries/Zaber_ASCII/ZaberAscii.cpp:85-97 | the number of requests is between 1 and one more than the replies; every reply before the last one read is BUSY, and the last one read is not |
| Ascii.UnreadAfterPoll | arduino/libraries/Zaber_ASCII/ZaberAscii.cpp:85-97 | the replies pollUntilIdle leaves unread are exactly those after the PollRounds replies it consumed |
| Ascii.PollRoundsExact | arduino/libraries/Zaber_ASCII/ZaberAscii.cpp:85-97 | any count that skips only BUSY replies and stops at a non-busy one is PollRounds: N-1 busy replies then an idle one mean exactly N rounds |
| Ascii.IdleIffSingleRound | arduino/libraries/Zaber_ASCII/ZaberAscii.cpp:85-104 | isIdle is true exactly when pollUntilIdle would stop after its first request |
| Ascii.Repeat | arduino/libraries/Zaber_ASCII/ZaberAscii.cpp:88-95 | n copies of the same request line |
| Ascii.RepeatAppend | arduino/libraries/Zaber_ASCII/ZaberAscii.cpp:94 | one more request after n gives n + 1 |
| Ascii.LineStream.constructor | arduino/libraries/Zaber_ASCII/ZaberAscii.cpp:9-13 | the stream starts with the given replies and nothing sent |
| Ascii.LineStream.ReadStringUntilNewline | arduino/libraries/Zaber_ASCII/ZaberAscii.cpp:44 | returns the next line and consumes it; sends nothing |
| Ascii.LineStream.Println | arduino/libraries/Zaber_ASCII/ZaberAscii.cpp:51 | appends the line to what was sent; consumes nothing |
| Ascii.ZaberAscii.constructor | arduino/libraries/Zaber_ASCII/ZaberAscii.cpp:9-13 | the object keeps the serial stream it is given |
| Ascii.ZaberAscii.Receive | arduino/libraries/Zaber_ASCII/ZaberAscii.cpp:42-46 | returns the decoding of the next line and consumes exactly that line |
| Ascii.ZaberAscii.SendData | arduino/libraries/Zaber_ASCII/ZaberAscii.cpp:49-52 | sends exactly the DataCommand line |
| Ascii.ZaberAscii.SendAxisData | arduino/libraries/Zaber_ASCII/ZaberAscii.cpp:54-57 | sends exactly the AxisDataCommand line |
| Ascii.ZaberAscii.SendCommand | arduino/libraries/Zaber_ASCII/ZaberAscii.cpp:59-62 | sends exactly the Command line |
| Ascii.ZaberAscii.SendAxisCommand | arduino/libraries/Zaber_ASCII/ZaberAscii.cpp:64-67 | sends exactly the AxisCommand line |
| Ascii.ZaberAscii.SendString | arduino/libraries/Zaber_ASCII/ZaberAscii.cpp:69-83 | sends exactly FreeFormCommand of the argument |
| Ascii.ZaberAscii.IsIdle | arduino/libraries/Zaber_ASCII/ZaberAscii.cpp:99-104 | one status request and one reply; idle exactly when the reply is not BUSY, which is exactly when PollRounds is 1 |
| Ascii.ZaberAscii.PollUntilIdle | arduino/libraries/Zaber_ASCII/ZaberAscii.cpp:85-97 | sends exactly PollRounds status requests and consumes exactly that many replies (or all of them) |

## Left out

- The Wire library: `Wire.begin`, `end()`/`Wire.end` and the I2C transfer
  itself are not modelled. A register access is one logged transaction
  against the chip value, and the bus never fails or returns short.
- The chip is modelled only as far as the driver uses it. Bytes leaving the
  transmit FIFO, bytes arriving on the UART, interrupts, GPIO and the other
  registers are not modelled. LSR is a finite script of readings; once it is
  used up, LSR reports THR and TX empty. That is why the model's `flush`
  loop always ends.
- ShieldModel.SetBaudrate: returns nothing. In the source, the returned
  error value is computed only when the debug printout is enabled (otherwise
  it is uninitialised), and that computation is floating point.
- The debug printouts (`ZABERSHIELD_DEBUG_PRINT_ENABLE`) and `Serial` are not
  modelled.
- ShieldModel.Divisor: models 32-bit wrap-around of `baudrate * 16`, but
  requires it to be non-zero (a baud rate of 0 or a multiple of 2^28 divides
  by zero in the source).
- `delay(10)` in `pollUntilIdle` is left out, because time is not modelled.
- Ascii.LineStream: stands in for Arduino's `Stream`. The one-second timeout
  of `readStringUntil` becomes "" once no more lines come. `println` is
  recorded as the line it was given, without the "\r\n" it appends.
- Ascii.ZaberAscii.PollUntilIdle: is proved only against a finite sequence of
  replies. A device that answers BUSY forever makes the source loop forever;
  here the replies run out and the empty line ends the loop.
- ArduinoString.FromInt: renders an unbounded integer. The source's `int` and
  `long int` are 16 and 32 bits on AVR boards, and their overflow is not
  modelled.
- AsciiProtocol.DecodeReply: `toInt` is modelled without the overflow of
  `atol` into a 32-bit `long`, or of its result into the 16-bit `int` fields.
- The constructor's default address argument (`ZABERSHIELD_ADDRESS_AA`,
  0x90) is not modelled; the address is always passed explicitly.
- TXLVL is a free register value: writes to THR do not lower it, and the
  transmit FIFO has no 64-byte bound in the model.
- Ascii.LineStream: its lines may contain '\n', which a real
  `readStringUntil('\n')` never returns; the model does not exclude them.
- Running out of memory while building an Arduino `String` is not modelled.
- The Python scripts in the repository (the GUI, the microscope script and
  the examples) are not part of this model.
