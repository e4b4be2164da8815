/** Hexadecimal formatting and the framing of an NMEA-0183 sentence:
    `$` payload `*` two hexadecimal checksum digits `\r\n`. */
module NmeaFrame {
  import opened Wrappers
  import opened NmeaChecksum

  /** A hexadecimal digit, lower case as Python's `hex` writes it. */
  function HexDigit(d: nat): (c: char)
    requires d < 16
  {
    if d < 10 then ('0' as int + d) as char else ('a' as int + d - 10) as char
  }

  /** The value of a hexadecimal digit of either case, or None for any other character. */
  function HexValue(c: char): (r: Option<nat>)
    ensures r.Some? ==> r.value < 16
  {
    if '0' <= c <= '9' then Some(c as int - '0' as int)
    else if 'a' <= c <= 'f' then Some(c as int - 'a' as int + 10)
    else if 'A' <= c <= 'F' then Some(c as int - 'A' as int + 10)
    else None
  }

  lemma HexValueOfDigit(d: nat)
    requires d < 16
    ensures HexValue(HexDigit(d)) == Some(d)
  {
  }

  /** What the runtime's `hex(n, "")` is taken to print: the base-16 digits of n, lower
      case, with no prefix and no leading zeros. */
  function Hex(n: nat): (s: string)
    ensures 1 <= |s|
    ensures n < 16 <==> |s| == 1
  {
    if n < 16 then [HexDigit(n)] else Hex(n / 16) + [HexDigit(n % 16)]
  }

  /** The checksum field of an NMEA-0183 sentence: exactly two hexadecimal digits. */
  function ChecksumField(b: nat): (s: string)
    requires b < 256
    ensures |s| == 2
  {
    [HexDigit(b / 16), HexDigit(b % 16)]
  }

  /** The value of a two-character checksum field, or None if it is not two hex digits. */
  function ParseChecksumField(s: string): (r: Option<nat>)
    ensures r.Some? ==> r.value < 256
  {
    if |s| != 2 then None
    else match (HexValue(s[0]), HexValue(s[1]))
      case (Some(hi), Some(lo)) => Some(16 * hi + lo)
      case _ => None
  }

  /** Reading the checksum field back gives the byte it was written from. */
  lemma ChecksumFieldRoundTrip(b: nat)
    requires b < 256
    ensures ParseChecksumField(ChecksumField(b)) == Some(b)
  {
    HexValueOfDigit(b / 16);
    HexValueOfDigit(b % 16);
  }

  /** Python-style `hex` and the two-digit field agree exactly on the values from 0x10 to
      0xff; below 0x10 `hex` writes a single digit. */
  lemma HexOfByte(n: nat)
    requires n < 256
    ensures 16 <= n ==> Hex(n) == ChecksumField(n)
    ensures n < 16 ==> Hex(n) == [HexDigit(n)]
  {
  }

  /** The checksum of a payload as a number. */
  function Checksum(payload: string): (c: nat)
    requires OneByteChars(payload)
    ensures c < 256
  {
    XorAllIsByte(payload);
    XorAll(payload) as int
  }

  /** The correctly framed NMEA-0183 sentence carrying payload. */
  function Sentence(payload: string): (s: string)
    requires OneByteChars(payload)
    ensures |s| == |payload| + 6
  {
    "$" + payload + "*" + ChecksumField(Checksum(payload)) + "\r\n"
  }

  /** The NMEA-0183 reading of a whole sentence: it starts with `$`, ends with `*`, two
      hexadecimal digits and `\r\n`, and the digits are the checksum of the characters in
      between; yields that payload, or None. */
  function Unframe(s: string): (r: Option<string>)
    ensures r.Some? ==> |r.value| + 6 == |s| && s == "$" + r.value + s[|s| - 5..]
  {
    if |s| < 6 || s[0] != '$' || s[|s| - 5] != '*' || s[|s| - 2..] != "\r\n" then None
    else
      var payload := s[1..|s| - 5];
      assert s == "$" + payload + s[|s| - 5..];
      if ParseChecksumField(s[|s| - 4..|s| - 2]) == Some(XorAll(payload) as int) then Some(payload)
      else None
  }

  /** A framed sentence reads back as its payload. */
  lemma {:induction false} UnframeSentence(payload: string)
    requires OneByteChars(payload)
    ensures Unframe(Sentence(payload)) == Some(payload)
  {
    var s := Sentence(payload);
    var n := |s|;
    assert s[0] == '$' && s[n - 5] == '*' && s[n - 2..] == "\r\n";
    assert s[1..n - 5] == payload;
    assert s[n - 4..n - 2] == ChecksumField(Checksum(payload));
    ChecksumFieldRoundTrip(Checksum(payload));
  }

  /** A sentence whose checksum field holds any other byte than the payload's checksum
      is rejected. */
  lemma {:induction false} UnframeRejectsWrongChecksum(payload: string, b: nat)
    requires OneByteChars(payload) && b < 256 && b != Checksum(payload)
    ensures Unframe("$" + payload + "*" + ChecksumField(b) + "\r\n") == None
  {
    var s := "$" + payload + "*" + ChecksumField(b) + "\r\n";
    var n := |s|;
    assert s[1..n - 5] == payload;
    assert s[n - 4..n - 2] == ChecksumField(b);
    ChecksumFieldRoundTrip(b);
  }
}
