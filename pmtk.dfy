/** The PMTK commands the driver writes to the receiver: the two fixed commands and the
    fix-interval command that `set_rate` builds. */
module Pmtk {
  import opened Wrappers
  import opened NmeaChecksum
  import opened NmeaFrame
  import opened Decimal

  /** Enter standby, the lowest-power mode (l76.py:81, 134, 154). */
  const STANDBY: string := "$PMTK161,0*28\r\n"
  /** Wake from standby, a hot start (l76.py:101, 172). */
  const WAKE: string := "$PMTK101*32\r\n"

  const RATE_PREFIX: string := "PMTK220,"

  /** The checksum of "PMTK" is 0x02; every command shares it. */
  lemma XorAllPmtk()
    ensures XorAll("PMTK") == 0x02
  {
    XorAllStep("", 'P', 0x50, "P", 0, 0x50);
    XorAllStep("P", 'M', 0x4D, "PM", 0x50, 0x1D);
    XorAllStep("PM", 'T', 0x54, "PMT", 0x1D, 0x49);
    XorAllStep("PMT", 'K', 0x4B, "PMTK", 0x49, 0x02);
  }

  lemma XorAllRatePrefix()
    ensures XorAll(RATE_PREFIX) == 0x1E
  {
    XorAllPmtk();
    XorAllStep("PMTK", '2', 0x32, "PMTK2", 0x02, 0x30);
    XorAllStep("PMTK2", '2', 0x32, "PMTK22", 0x30, 0x02);
    XorAllStep("PMTK22", '0', 0x30, "PMTK220", 0x02, 0x32);
    XorAllStep("PMTK220", ',', 0x2C, "PMTK220,", 0x32, 0x1E);
  }

  lemma XorAllStandbyPayload()
    ensures XorAll("PMTK161,0") == 0x28
  {
    XorAllPmtk();
    XorAllStep("PMTK", '1', 0x31, "PMTK1", 0x02, 0x33);
    XorAllStep("PMTK1", '6', 0x36, "PMTK16", 0x33, 0x05);
    XorAllStep("PMTK16", '1', 0x31, "PMTK161", 0x05, 0x34);
    XorAllStep("PMTK161", ',', 0x2C, "PMTK161,", 0x34, 0x18);
    XorAllStep("PMTK161,", '0', 0x30, "PMTK161,0", 0x18, 0x28);
  }

  lemma XorAllWakePayload()
    ensures XorAll("PMTK101") == 0x32
  {
    XorAllPmtk();
    XorAllStep("PMTK", '1', 0x31, "PMTK1", 0x02, 0x33);
    XorAllStep("PMTK1", '0', 0x30, "PMTK10", 0x33, 0x03);
    XorAllStep("PMTK10", '1', 0x31, "PMTK101", 0x03, 0x32);
  }

  /** The standby literal carries the correct checksum: it is the framed sentence of its payload. */
  lemma StandbyIsFramed()
    ensures OneByteChars("PMTK161,0") && STANDBY == Sentence("PMTK161,0")
  {
    assert OneByteChars("PMTK161,0") by {
      forall i | 0 <= i < 9 ensures "PMTK161,0"[i] as int < 256 {
      }
    }
    assert Checksum("PMTK161,0") == 0x28 by {
      XorAllStandbyPayload();
    }
    assert ChecksumField(0x28) == "28";
  }

  /** The wake literal carries the correct checksum: it is the framed sentence of its payload. */
  lemma WakeIsFramed()
    ensures OneByteChars("PMTK101") && WAKE == Sentence("PMTK101")
  {
    assert OneByteChars("PMTK101") by {
      forall i | 0 <= i < 7 ensures "PMTK101"[i] as int < 256 {
      }
    }
    assert Checksum("PMTK101") == 0x32 by {
      XorAllWakePayload();
    }
    assert ChecksumField(0x32) == "32";
  }

  /** The payload `set_rate` builds (l76.py:188): "PMTK220," followed by `str(rate)`. */
  function RatePayload(rate: int): (p: string)
    ensures |RATE_PREFIX| < |p| && p[..|RATE_PREFIX|] == RATE_PREFIX
  {
    RATE_PREFIX + IntToDecimal(rate)
  }

  /** The command `set_rate` writes, as written (l76.py:192): the payload framed with its
      checksum printed by `hex`. */
  function RateCommand(rate: int): string {
    "$" + RatePayload(rate) + "*" + Hex(XorAll(RatePayload(rate)) as int) + "\r\n"
  }

  /** The message construction of `set_rate` (l76.py:188-192): the payload, its checksum
      computed by the loop, and the framing with `hex`. */
  method RateMessage(rate: int) returns (msg: string)
    ensures msg == RateCommand(rate)
    ensures rate >= 0 ==> Unframe(msg) == Some(RatePayload(rate))
  {
    var payload := RatePayload(rate);
    var crc := PayloadChecksum(payload);
    msg := "$" + payload + "*" + Hex(crc as int) + "\r\n";
    if rate >= 0 {
      RateCommandIsFramed(rate);
    }
  }

  /** For every rate of zero or more, the checksum of the payload lies between 0x10 and
      0x2f: "PMTK220," contributes 0x1e and each digit contributes 3 to the high nibble. */
  lemma {:induction false} RateChecksumRange(rate: nat)
    ensures OneByteChars(RatePayload(rate))
    ensures 0x10 <= Checksum(RatePayload(rate)) <= 0x2f
  {
    var digits := NatToDecimal(rate);
    var p := RatePayload(rate);
    assert p == RATE_PREFIX + digits;
    assert OneByteChars(p) by {
      forall i | 0 <= i < |p| ensures p[i] as int < 256 {
        if i >= |RATE_PREFIX| {
          assert p[i] == digits[i - |RATE_PREFIX|];
        }
      }
    }
    XorAllAppend(RATE_PREFIX, digits);
    XorAllRatePrefix();
    DigitsXorHighNibble(digits);
    var x := XorAll(digits);
    assert XorAll(p) == 0x1E ^ x;
    assert (0x1E ^ x) & 0xFFFF_FFF0 == 0x10 ^ (x & 0xFFFF_FFF0);
  }

  /** For every rate of zero or more, `hex` writes exactly two digits, so the command
      `set_rate` sends is the correctly framed NMEA-0183 sentence of its payload, and
      reads back as that payload. */
  lemma {:induction false} RateCommandIsFramed(rate: nat)
    ensures OneByteChars(RatePayload(rate))
    ensures RateCommand(rate) == Sentence(RatePayload(rate))
    ensures Unframe(RateCommand(rate)) == Some(RatePayload(rate))
  {
    RateChecksumRange(rate);
    HexOfByte(Checksum(RatePayload(rate)));
    UnframeSentence(RatePayload(rate));
  }

  /** The rate field of the payload (what follows "PMTK220,") reads back as the rate: its
      digits for a rate of zero or more, a minus sign before the digits of -rate otherwise. */
  lemma {:induction false} RatePayloadDenotesRate(rate: int)
    ensures RatePayload(rate)[|RATE_PREFIX|..] == IntToDecimal(rate)
    ensures rate >= 0 ==>
      (AllDigits(RatePayload(rate)[|RATE_PREFIX|..])
       && DecimalValue(RatePayload(rate)[|RATE_PREFIX|..]) == rate)
    ensures rate < 0 ==>
      (RatePayload(rate)[|RATE_PREFIX|] == '-'
       && AllDigits(RatePayload(rate)[|RATE_PREFIX| + 1..])
       && DecimalValue(RatePayload(rate)[|RATE_PREFIX| + 1..]) == -rate)
  {
    var field := IntToDecimal(rate);
    assert RatePayload(rate)[|RATE_PREFIX|..] == field;
    if rate < 0 {
      assert RatePayload(rate)[|RATE_PREFIX| + 1..] == field[1..];
    }
  }

  lemma XorAllNegativeRatePrefix()
    ensures XorAll(RATE_PREFIX + "-") == 0x33
  {
    XorAllRatePrefix();
    XorAllStep(RATE_PREFIX, '-', 0x2D, RATE_PREFIX + "-", 0x1E, 0x33);
  }

  lemma NegativeRatePrefixIsOneByte()
    ensures OneByteChars(RATE_PREFIX + "-")
  {
    var head := RATE_PREFIX + "-";
    forall i | 0 <= i < 9 ensures head[i] as int < 256 {
    }
  }

  /** The payload of a negative rate is "PMTK220,-" followed by the digits of -rate. */
  lemma NegativeRatePayloadSplit(rate: int)
    requires rate < 0
    ensures RatePayload(rate) == (RATE_PREFIX + "-") + NatToDecimal(-rate)
  {
    var digits := NatToDecimal(-rate);
    assert IntToDecimal(rate) == "-" + digits;
    assert RATE_PREFIX + ("-" + digits) == (RATE_PREFIX + "-") + digits;
  }

  /** The checksum of a negative rate's payload: 0x33 for "PMTK220,-", then the digits. */
  lemma {:induction false} NegativeRatePayload(rate: int)
    requires rate < 0
    ensures OneByteChars(RatePayload(rate))
    ensures XorAll(RatePayload(rate)) == 0x33 ^ XorAll(NatToDecimal(-rate))
  {
    var digits := NatToDecimal(-rate);
    var head := RATE_PREFIX + "-";
    NegativeRatePayloadSplit(rate);
    NegativeRatePrefixIsOneByte();
    DigitsAreOneByte(digits);
    OneByteCharsAppend(head, digits);
    XorAllNegativeRatePrefix();
    XorAllAppend(head, digits);
  }

  /** For a negative rate the minus sign (0x2d) moves the high nibble of the checksum: with
      an odd number of digits the checksum is below 0x10, so `hex` writes a single digit;
      with an even number it lies between 0x30 and 0x3f. */
  lemma {:induction false} NegativeRateChecksum(rate: int)
    requires rate < 0
    ensures OneByteChars(RatePayload(rate))
    ensures |NatToDecimal(-rate)| % 2 == 1 ==>
      (Checksum(RatePayload(rate)) < 0x10 && |Hex(Checksum(RatePayload(rate)))| == 1)
    ensures |NatToDecimal(-rate)| % 2 == 0 ==> 0x30 <= Checksum(RatePayload(rate)) <= 0x3f
  {
    NegativeRatePayload(rate);
    var digits := NatToDecimal(-rate);
    DigitsXorHighNibble(digits);
    var x := XorAll(digits);
    assert (0x33 ^ x) & 0xFFFF_FFF0 == 0x30 ^ (x & 0xFFFF_FFF0);
  }

  lemma RatePayloadMinusFive()
    ensures RatePayload(-5) == "PMTK220,-5"
  {
    assert NatToDecimal(5) == "5";
    assert IntToDecimal(-5) == "-5";
  }

  lemma XorAllMinusFive()
    ensures XorAll("PMTK220,-5") == 6
  {
    XorAllNegativeRatePrefix();
    XorAllStep(RATE_PREFIX + "-", '5', 0x35, "PMTK220,-5", 0x33, 0x06);
  }

  /** A negative rate with an odd number of digits gives a checksum below 0x10, which
      `hex` writes as a single digit: for -5 the command is "$PMTK220,-5*6\r\n". */
  lemma NegativeRateShortChecksum()
    ensures RateCommand(-5) == "$PMTK220,-5*6\r\n"
  {
    RatePayloadMinusFive();
    XorAllMinusFive();
    assert Hex(6) == "6";
  }
}
