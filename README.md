# Quectel L76 GNSS driver: command framing and driver lifecycle

A Dafny model of the part of the Zerynth driver for the Quectel L76 GNSS receiver that
lives in `l76.py` itself:

- the **PMTK command framing**: `set_rate` builds `"$" + "PMTK220," + str(rate) + "*" +
  hex(crc) + "\r\n"`, where `crc` is the exclusive-or of the character codes of the
  payload, the NMEA-0183 sentence checksum. The two fixed commands, standby
  `$PMTK161,0*28` and wake `$PMTK101*32`, are checked against the same rule.
- the **driver lifecycle**: the flags `running` and `talking` and the receiver-thread
  handle `th`, changed by the constructor, `start`, `stop`, `pause`, `resume` and the
  receiver loop `_run`. Every command written to the serial port, every call of the base
  receiver's `enable(on)` and `parse(buffer, chs)`, and every reset-pin pulse is recorded,
  in order, in a ghost trace of events. Opening and closing the port, starting the
  thread and the base receiver's constructor are not recorded (see "Left out").

Modules:

| file | module | contents |
|---|---|---|
| `wrappers.dfy` | `Wrappers` | `Option`, `Outcome`, `Result` |
| `nmea_checksum.dfy` | `NmeaChecksum` | the exclusive-or fold `XorAll`, its algebra, the checksum loop of `set_rate` |
| `nmea_frame.dfy` | `NmeaFrame` | `hex`, the two-digit checksum field, the framed sentence and its reading back |
| `decimal.dfy` | `Decimal` | `str` of an integer and the value of a digit string |
| `pmtk.dfy` | `Pmtk` | the standby and wake literals, the `set_rate` payload and command |
| `l76.dfy` | `L76Driver` | the class `L76`, its events, one loop iteration and the loop |

Modelling choices:

- `hex(crc, "")` is a runtime builtin whose definition is not part of this model. It is
  modelled as Python's `hex` without the `0x` prefix: lower-case digits and no zero
  padding. `Pmtk.RateCommandIsFramed` shows that for every rate of zero or more the
  padding question never arises, because the checksum always lies between 0x10 and 0x2f.
  The case question does arise: the low digit can be a letter. The fixed literals hold
  only decimal digits, so they give no evidence either way.
- `set_rate` does not check the 100–10000 ms range its documentation gives, and neither
  does the model: every integer rate is accepted. For a negative rate with an odd number
  of digits the checksum is below 0x10 and, under the no-padding reading of `hex`, is
  written as one digit (`Pmtk.NegativeRateChecksum`; for example, -5 gives
  `$PMTK220,-5*6\r\n`, `Pmtk.NegativeRateShortChecksum`).
- Characters are Unicode code points and `ord` is their code, held in 32 bits; code
  points are below 0x110000, so the exclusive-or is exact.
- The constructor refuses every mode but SERIAL, so no object ever has another mode. The
  `mode` field, and the I2C branches that raise UnsupportedError inside the methods, are
  therefore dead and not modelled.
- `th` is a boolean: whether a thread handle is held. The receiver thread is modelled
  sequentially. `Iterate` is one pass of the loop body, `LoopGuard` is the loop test
  together with the code after the loop, and `Run` is the loop over a finite sequence of
  read results with no caller acting in between.
- `pause` (l76.py:151-159) clears only `talking`; `running` stays set, and the loop
  keeps reading lines and dropping them (l76.py:249-250). The model follows this.
- The defaults of the source are kept: `SetRate` takes `rate := 1000` (l76.py:179), and
  `NewL76` takes `mode := SERIAL` and no reset pin (l76.py:57).
- `Valid()` is the invariant every operation keeps: talking implies running, and running
  implies that a thread handle is held. `State()` reads the three fields as one of
  Stopped, Stopping (stopped, loop not yet exited), Active or Paused.

## Model

| member | source | states |
|---|---|---|
| `NmeaChecksum.PayloadChecksum` | l76.py:189-191 | the loop's result is the exclusive-or of the codes of every character of the message, and a byte when every character fits in one byte |
| `NmeaChecksum.XorAllAppend` | l76.py:189-191 | the checksum of a concatenation is the exclusive-or of the checksums of its parts |
| `NmeaChecksum.XorAllIsByte` | l76.py:189-191 | on one-byte characters the checksum is below 256 |
| `NmeaChecksum.DigitsXorHighNibble` | l76.py:188-191 | the exclusive-or of n decimal digits has high nibble 3 for odd n and 0 for even n, and nothing set above the low byte |
| `NmeaFrame.Hex` | l76.py:192 | `hex` writes at least one digit, and exactly one when the value is below 16 |
| `NmeaFrame.HexOfByte` | l76.py:192 | for values from 0x10 to 0xff `hex` writes exactly the two-digit checksum field; below 0x10 a single digit |
| `NmeaFrame.ChecksumFieldRoundTrip` | l76.py:192 | the two-digit checksum field reads back as the byte it was written from |
| `NmeaFrame.UnframeSentence` | l76.py:192 | a framed sentence (`$`, payload, `*`, checksum field, CR LF) reads back as its payload under the NMEA-0183 rule |
| `NmeaFrame.UnframeRejectsWrongChecksum` | l76.py:192 | a sentence whose checksum field holds any other byte than the payload's checksum is rejected |
| `Decimal.NatToDecimal` | l76.py:188 | `str` of a natural number is a non-empty string of decimal digits with no leading zero |
| `Decimal.IntToDecimal` | l76.py:188 | `str` of an int n is digits denoting n when n is not negative, and otherwise a minus sign followed by digits denoting -n |
| `Decimal.DecimalRoundTrip` | l76.py:188 | the digits `str` writes denote the number written |
| `Pmtk.StandbyIsFramed` | l76.py:81 | the standby literal is the correctly framed sentence of `PMTK161,0` (checksum 0x28); the same literal is sent at l76.py:134 and 154 |
| `Pmtk.WakeIsFramed` | l76.py:101 | the wake literal is the correctly framed sentence of `PMTK101` (checksum 0x32); the same literal is sent at l76.py:172 |
| `Pmtk.RateChecksumRange` | l76.py:188-191 | for every rate of zero or more the payload's checksum lies between 0x10 and 0x2f |
| `Pmtk.RateMessage` | l76.py:188-192 | the message built from the payload, the checksum loop and `hex` is the `set_rate` command for the rate, and for a rate of zero or more it reads back as the payload |
| `Pmtk.RateCommandIsFramed` | l76.py:188-192 | for every rate of zero or more the command `set_rate` writes is the correctly framed sentence of its payload and reads back as that payload |
| `Pmtk.RatePayloadDenotesRate` | l76.py:188 | after `PMTK220,` the payload holds `str(rate)`: digits denoting the rate when it is not negative, otherwise a minus sign and digits denoting -rate |
| `Pmtk.NegativeRatePayload` | l76.py:188-191 | for a negative rate the payload is one-byte text whose checksum is 0x33 (that of `PMTK220,-`) exclusive-or the checksum of the digits of -rate |
| `Pmtk.NegativeRateChecksum` | l76.py:186-192 | no range check: for every negative rate with an odd number of digits the checksum is below 0x10 and `hex` writes one digit; with an even number it lies between 0x30 and 0x3f |
| `Pmtk.NegativeRateShortChecksum` | l76.py:186-192 | for example, rate -5 is sent as `$PMTK220,-5*6\r\n`, with a one-digit checksum |
| `L76Driver.NewL76` | l76.py:58-60 | any mode but SERIAL raises UnsupportedError; SERIAL gives a fresh, stopped driver |
| `L76Driver.L76.constructor` | l76.py:61-84 | running, talking and the thread handle all clear; a reset pulse if a reset pin is given, then the standby command |
| `L76Driver.StartEvents` | l76.py:98-117 | a successful start sends two events, one of them `enable(True)`: the wake command before it without a reset pin, a reset pulse after it with one |
| `L76Driver.L76.Start` | l76.py:95-118 | refused, with no change and nothing sent, exactly when a thread handle is held; otherwise the wake command (without reset pin), enable, running, talking and handle all set, the reset pulse (with reset pin) |
| `L76Driver.L76.Stop` | l76.py:130-141 | refused, with no change, exactly when not running; otherwise standby sent, running and talking cleared, the handle kept, the receiver disabled |
| `L76Driver.L76.Pause` | l76.py:151-159 | RuntimeError with no change when not running; otherwise standby sent, talking cleared, the receiver disabled, running and handle unchanged |
| `L76Driver.L76.Resume` | l76.py:169-177 | RuntimeError with no change when not running; otherwise wake sent, the receiver enabled, talking set, running and handle unchanged |
| `L76Driver.L76.SetRate` | l76.py:186-196 | RuntimeError with nothing sent when not running; otherwise exactly the `set_rate` command for the rate is sent, which for a rate of zero or more is the framed sentence of its payload |
| `L76Driver.L76.Iterate` | l76.py:246-257 | one pass adds exactly the events of `IterationEvents` for the current talking flag; no field changes |
| `L76Driver.IterationEvents` | l76.py:246-257 | a pass hands its line to the parser, as `parse(buffer, chs)`, if and only if talking holds and the read returned at least one character; otherwise, and after a raised read, it does nothing |
| `L76Driver.LoopSilentWhenNotTalking` | l76.py:244-250 | while not talking, a run of passes hands nothing to the parser |
| `L76Driver.LoopForwardsExactlyTheLines` | l76.py:244-257 | every line handed to the parser is one read with a count of at least one, and while talking every such line is handed over |
| `L76Driver.L76.LoopGuard` | l76.py:244-261 | the loop continues exactly while running; on exit the thread handle is dropped and the driver is Stopped |
| `L76Driver.L76.Run` | l76.py:240-261 | while running, every read is processed, running and talking do not change, and the trace grows by the loop's events; without running the loop exits at once and the handle is dropped |
| `L76Driver.RestartAfterLoopExit` | l76.py:95-261 | start succeeds, stop succeeds, start is refused until the loop has exited, then start succeeds again |

## Left out

- The NMEA receiver pipeline (line validation, sentence parsing, fix assembly, the fix
  and UTC slot, `fix()`, `has_fix()`, `utc()`, `has_utc()`): it lives in the base module
  `quectel.nmea`, which is not part of this model. `nmea.readline`, `parse` and `enable`
  are foreign calls: a read result is an input, `parse` and `enable` are trace events.
- Serial-port handling: opening and closing the port (`streams.serial`, `close`,
  l76.py:80, 83, 100, 103, 242, 260) leaves no event; only the written command strings
  are kept, as `Write` events.
- The base receiver's constructor (`nmea.NMEA_Receiver.__init__`, l76.py:69) and the
  thread start (`thread(self._run)`, l76.py:110) leave no event; the thread is the
  boolean `th`.
- The other constructor arguments (`ifc`, `baud`, `clock`, `addr`, `reset_on`) are not
  modelled: they only pick the port, its speed and the pin level.
- `SetRate`: `rate` is an integer; `str` of a value of another type, which the source
  would accept, is outside the model.
- Reset-pin sequencing (`pinMode`, `digitalWrite`) and every `sleep`: a pin sequence
  becomes one `ResetPulse` event, delays are not modelled.
- The 256-byte buffer `_run` reuses: it is filled by the foreign `readline` and read by
  the foreign `parse`, so the model takes its contents as part of the read result.
- Threads and the concurrency between `_run` and callers: the loop is modelled
  sequentially, so a read left blocked at `stop` and the race in which `stop` writes to a
  port the thread has not yet opened are outside it. `Run` takes a finite sequence of
  reads; the real loop would then block in `readline`.
- Debug printing (`print_d`, `self.debug`) and the logging inside the exception handler.
- The I2C mode and its branches, which only raise UnsupportedError and are unreachable
  once the constructor has accepted the mode.
- The two demo programs (`Fix/main.py`, `Fix GPS/main.py`), which only print results.
