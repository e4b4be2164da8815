/** The NMEA-0183 sentence checksum: the exclusive-or of the character codes of every
    character between the `$` and the `*` of a sentence. */
module NmeaChecksum {

  /** The code of a character, as Python's `ord` gives it. Code points are below
      0x110000, so 32 bits hold every code and its exclusive-ors exactly. */
  function Ord(c: char): bv32 {
    c as bv32
  }

  /** Every character fits in one byte (the characters an NMEA sentence is made of). */
  predicate OneByteChars(s: string) {
    forall i :: 0 <= i < |s| ==> s[i] as int < 256
  }

  predicate IsDigit(c: char) {
    '0' <= c <= '9'
  }

  predicate AllDigits(s: string) {
    forall i :: 0 <= i < |s| ==> IsDigit(s[i])
  }

  lemma OneByteCharsAppend(a: string, b: string)
    requires OneByteChars(a) && OneByteChars(b)
    ensures OneByteChars(a + b)
  {
    forall i | 0 <= i < |a + b| ensures (a + b)[i] as int < 256 {
      if i >= |a| {
        assert (a + b)[i] == b[i - |a|];
      }
    }
  }

  lemma DigitsAreOneByte(s: string)
    requires AllDigits(s)
    ensures OneByteChars(s)
  {
    forall i | 0 <= i < |s| ensures s[i] as int < 256 {
      assert IsDigit(s[i]);
    }
  }

  /** The exclusive-or of the codes of all characters of s, folded from the left
      (0 for the empty string, the neutral element of exclusive-or). */
  function XorAll(s: string): bv32 {
    if |s| == 0 then 0 else XorAll(s[..|s| - 1]) ^ Ord(s[|s| - 1])
  }

  lemma {:induction false} XorAllSnoc(s: string, c: char)
    ensures XorAll(s + [c]) == XorAll(s) ^ Ord(c)
  {
    assert (s + [c])[..|s|] == s;
  }

  /** A character whose code is known as a number has that code as its `Ord`. */
  lemma OrdOf(c: char, code: bv32)
    requires c as int == code as int
    ensures Ord(c) == code
  {
  }

  /** One step of the fold, with the character's code and the values written out: used
      to evaluate the checksum of a literal command character by character. */
  lemma {:induction false} XorAllStep(s: string, c: char, code: bv32, t: string, v: bv32, w: bv32)
    requires c as int == code as int
    requires XorAll(s) == v && t == s + [c] && w == v ^ code
    ensures XorAll(t) == w
  {
    OrdOf(c, code);
    XorAllSnoc(s, c);
  }

  /** The checksum of a concatenation is the exclusive-or of the parts' checksums, so the
      checksum of a sentence can be computed part by part. */
  lemma {:induction false} XorAllAppend(a: string, b: string)
    ensures XorAll(a + b) == XorAll(a) ^ XorAll(b)
  {
    if |b| == 0 {
      assert a + b == a;
    } else {
      var init := b[..|b| - 1];
      assert (a + b)[..|a + b| - 1] == a + init;
      assert (a + b)[|a + b| - 1] == b[|b| - 1];
      XorAllAppend(a, init);
    }
  }

  /** The exclusive-or of two bytes is a byte. */
  lemma ByteXor(x: bv32, y: bv32)
    requires x < 256 && y < 256
    ensures x ^ y < 256
  {
    assert x & 0xFFFF_FF00 == 0 && y & 0xFFFF_FF00 == 0;
    assert (x ^ y) & 0xFFFF_FF00 == (x & 0xFFFF_FF00) ^ (y & 0xFFFF_FF00);
  }

  /** The code of a one-byte character is a byte. */
  lemma OrdBelow256(c: char)
    requires c as int < 256
    ensures Ord(c) < 256
  {
  }

  /** The codes of the digits run from 0x30 to 0x39. */
  lemma OrdOfDigit(c: char)
    requires IsDigit(c)
    ensures 0x30 <= Ord(c) <= 0x39
  {
  }

  lemma HighNibbleOfDigitCode(b: bv32)
    requires 0x30 <= b <= 0x39
    ensures b & 0xFFFF_FFF0 == 0x30
  {
  }

  /** The code of a digit has high nibble 3, nothing above it. */
  lemma DigitHighNibble(c: char)
    requires IsDigit(c)
    ensures Ord(c) & 0xFFFF_FFF0 == 0x30
  {
    OrdOfDigit(c);
    HighNibbleOfDigitCode(Ord(c));
  }

  /** Exclusive-or with a value of high nibble 3 flips the high nibble by 3. */
  lemma XorHighNibble(x: bv32, d: bv32)
    requires d & 0xFFFF_FFF0 == 0x30
    ensures (x ^ d) & 0xFFFF_FFF0 == (x & 0xFFFF_FFF0) ^ 0x30
  {
    assert (x ^ d) & 0xFFFF_FFF0 == (x & 0xFFFF_FFF0) ^ (d & 0xFFFF_FFF0);
  }

  /** On one-byte characters the checksum is a byte. */
  lemma {:induction false} XorAllIsByte(s: string)
    requires OneByteChars(s)
    ensures XorAll(s) < 256
  {
    if |s| > 0 {
      var init, last := s[..|s| - 1], s[|s| - 1];
      assert OneByteChars(init) by {
        forall i | 0 <= i < |init| ensures init[i] as int < 256 {
          assert init[i] == s[i];
        }
      }
      XorAllIsByte(init);
      assert last as int < 256;
      OrdBelow256(last);
      ByteXor(XorAll(init), Ord(last));
    }
  }

  /** Every decimal digit has code 0x3_ in its high nibble, so the high nibble of the
      exclusive-or of n digits is 3 when n is odd and 0 when n is even, and nothing
      above the low byte is set. */
  lemma {:induction false} DigitsXorHighNibble(ds: string)
    requires AllDigits(ds)
    ensures XorAll(ds) & 0xFFFF_FFF0 == if |ds| % 2 == 1 then 0x30 else 0
  {
    if |ds| > 0 {
      var init, last := ds[..|ds| - 1], ds[|ds| - 1];
      assert AllDigits(init) by {
        forall i | 0 <= i < |init| ensures IsDigit(init[i]) {
          assert init[i] == ds[i];
        }
      }
      DigitsXorHighNibble(init);
      assert IsDigit(last);
      DigitHighNibble(last);
      XorHighNibble(XorAll(init), Ord(last));
    }
  }

  /** The checksum loop of `set_rate` (l76.py:189-191): start from the code of the first
      character and exclusive-or in every following one. */
  method PayloadChecksum(msg: string) returns (crc: bv32)
    requires |msg| >= 1
    ensures crc == XorAll(msg)
    ensures OneByteChars(msg) ==> crc < 256
  {
    crc := Ord(msg[0]);
    assert msg[..1] == [] + [msg[0]];
    XorAllSnoc([], msg[0]);
    for i := 1 to |msg|
      invariant crc == XorAll(msg[..i])
    {
      assert msg[..i + 1] == msg[..i] + [msg[i]];
      XorAllSnoc(msg[..i], msg[i]);
      crc := crc ^ Ord(msg[i]);
    }
    assert msg[..|msg|] == msg;
    if OneByteChars(msg) {
      XorAllIsByte(msg);
    }
  }
}
