/** The text form of a frame on the serial line: each byte as
    `b.toString(16).toUpperCase().padStart(2, '0')`, the pieces joined and
    a newline appended. The string operations are modelled on the values
    they receive here (a byte value, the digits `[0-9a-f]`, the pad `'0'`)
    and then proved to give two digits of the base16 alphabet
    (section 8 of RFC 4648) per byte, which can be decoded back. */
module Hex {

  /** The digits `Number.prototype.toString(16)` produces. */
  const LOWER_DIGITS: string := "0123456789abcdef"

  /** The base16 alphabet of section 8 of RFC 4648. */
  const UPPER_DIGITS: string := "0123456789ABCDEF"

  /** `n.toString(16)`: lower-case hexadecimal without leading zeros. */
  function ToStringRadix16(n: nat): (s: string)
    decreases n
  {
    if n < 16 then [LOWER_DIGITS[n]] else ToStringRadix16(n / 16) + [LOWER_DIGITS[n % 16]]
  }

  /** `toUpperCase` on one character (only ASCII letters occur here). */
  function UpperChar(c: char): (u: char)
    ensures forall d :: 0 <= d < 16 && c == LOWER_DIGITS[d] ==> u == UPPER_DIGITS[d]
  {
    if 'a' <= c <= 'z' then (c as int - 32) as char else c
  }

  /** `s.toUpperCase()`. */
  function ToUpperCase(s: string): (u: string)
    ensures |u| == |s|
  {
    seq(|s|, i requires 0 <= i < |s| => UpperChar(s[i]))
  }

  /** `s.padStart(width, pad)` with a one-character pad string. */
  function PadStart(s: string, width: nat, pad: char): (r: string)
    ensures |r| == if |s| >= width then |s| else width
    ensures r[|r| - |s|..] == s
  {
    if |s| >= width then s else seq(width - |s|, _ => pad) + s
  }

  /** The two characters one byte becomes on the wire: always two, since
      a single digit is padded (`HexByteDigits` says which two). */
  function HexByte(b: bv8): (h: string)
    ensures |h| == 2
  {
    Radix16Length(b as nat);
    PadStart(ToUpperCase(ToStringRadix16(b as nat)), 2, '0')
  }

  /** Upper-casing a lower-case hex digit gives the base16 digit of the same value. */
  lemma UpperDigit(d: nat)
    requires d < 16
    ensures UpperChar(LOWER_DIGITS[d]) == UPPER_DIGITS[d]
  {
  }

  /** `toString(16)` of a byte value: one digit below 16, two from 16 on. */
  lemma Radix16OfByte(n: nat)
    requires n < 256
    ensures n < 16 ==> ToStringRadix16(n) == [LOWER_DIGITS[n]]
    ensures n >= 16 ==> ToStringRadix16(n) == [LOWER_DIGITS[n / 16], LOWER_DIGITS[n % 16]]
  {
    if n >= 16 {
      assert ToStringRadix16(n / 16) == [LOWER_DIGITS[n / 16]];
    }
  }

  /** Upper-casing one or two lower-case hex digits. */
  lemma UpperDigits(d1: nat, d2: nat)
    requires d1 < 16 && d2 < 16
    ensures ToUpperCase([LOWER_DIGITS[d1]]) == [UPPER_DIGITS[d1]]
    ensures ToUpperCase([LOWER_DIGITS[d1], LOWER_DIGITS[d2]]) == [UPPER_DIGITS[d1], UPPER_DIGITS[d2]]
  {
    UpperDigit(d1);
    UpperDigit(d2);
  }

  /** Every byte value, padded or not, is written as exactly two base16
      digits: the high nibble, then the low nibble. */
  lemma PaddedDigits(n: nat)
    requires n < 256
    ensures PadStart(ToUpperCase(ToStringRadix16(n)), 2, '0') == [UPPER_DIGITS[n / 16], UPPER_DIGITS[n % 16]]
  {
    Radix16OfByte(n);
    UpperDigits(n / 16, n % 16);
    if n < 16 {
      UpperDigits(n, 0);
      assert PadStart([UPPER_DIGITS[n]], 2, '0') == ['0', UPPER_DIGITS[n]];
    }
  }

  /** The two characters of a byte are its high and low nibble digits. */
  lemma HexByteDigits(b: bv8)
    ensures HexByte(b) == [UPPER_DIGITS[b as nat / 16], UPPER_DIGITS[b as nat % 16]]
  {
    PaddedDigits(b as nat);
  }

  /** `toString(16)` of a byte value has one or two digits. */
  lemma Radix16Length(n: nat)
    requires n < 256
    ensures 1 <= |ToStringRadix16(n)| <= 2
  {
    if n >= 16 {
      assert |ToStringRadix16(n / 16)| == 1;
    }
  }

  /** A byte survives the trip through its numeric value. */
  lemma ByteValue(b: bv8)
    ensures b as nat < 256 && (b as nat) as bv8 == b
  {
  }

  /** `pieces.join('')`. */
  function Join(pieces: seq<string>): string {
    if pieces == [] then "" else pieces[0] + Join(pieces[1..])
  }

  /** Joining two-character pieces: piece `k` lands in characters `2k`
      and `2k + 1`. */
  lemma {:induction false} JoinPairs(pieces: seq<string>)
    requires forall i :: 0 <= i < |pieces| ==> |pieces[i]| == 2
    ensures |Join(pieces)| == 2 * |pieces|
    ensures forall k :: 0 <= k < |pieces| ==>
      Join(pieces)[2 * k] == pieces[k][0] && Join(pieces)[2 * k + 1] == pieces[k][1]
  {
    if pieces != [] {
      var tail := pieces[1..];
      JoinPairs(tail);
      assert Join(pieces) == pieces[0] + Join(tail);
      forall k | 1 <= k < |pieces|
        ensures Join(pieces)[2 * k] == pieces[k][0] && Join(pieces)[2 * k + 1] == pieces[k][1]
      {
        assert tail[k - 1] == pieces[k];
      }
    }
  }

  /** `Array.from(bytes).map(HexByte)`. */
  function HexPieces(bytes: seq<bv8>): (pieces: seq<string>)
    ensures |pieces| == |bytes|
    ensures forall i :: 0 <= i < |pieces| ==> |pieces[i]| == 2
  {
    seq(|bytes|, i requires 0 <= i < |bytes| => HexByte(bytes[i]))
  }

  /** `Array.from(bytes).map(HexByte).join('')`: two characters per byte. */
  function HexString(bytes: seq<bv8>): (s: string)
    ensures |s| == 2 * |bytes|
  {
    JoinPairs(HexPieces(bytes));
    Join(HexPieces(bytes))
  }

  /** The line `sendData` writes for a frame: the hex string, then one
      newline as its last character. */
  function WireLine(frame: seq<bv8>): (line: string)
    ensures |line| == 2 * |frame| + 1 && line[2 * |frame|] == '\n'
  {
    HexString(frame) + "\n"
  }

  /** Byte `k` occupies characters `2k` and `2k + 1` of the hex string. */
  lemma HexStringAt(bytes: seq<bv8>, k: nat)
    requires k < |bytes|
    ensures |HexString(bytes)| == 2 * |bytes|
    ensures HexString(bytes)[2 * k] == UPPER_DIGITS[bytes[k] as nat / 16]
    ensures HexString(bytes)[2 * k + 1] == UPPER_DIGITS[bytes[k] as nat % 16]
  {
    var pieces := HexPieces(bytes);
    JoinPairs(pieces);
    assert pieces[k] == HexByte(bytes[k]);
    HexByteDigits(bytes[k]);
  }

  /** A string laid out as two base16 digits per byte holds only base16 digits. */
  lemma DigitsInAlphabet(s: string, bytes: seq<bv8>)
    requires |s| == 2 * |bytes|
    requires forall k :: 0 <= k < |bytes| ==>
      s[2 * k] == UPPER_DIGITS[bytes[k] as nat / 16] && s[2 * k + 1] == UPPER_DIGITS[bytes[k] as nat % 16]
    ensures forall i :: 0 <= i < |s| ==> s[i] in UPPER_DIGITS
  {
    forall i | 0 <= i < |s|
      ensures s[i] in UPPER_DIGITS
    {
      var k := i / 2;
      var d := if i == 2 * k then bytes[k] as nat / 16 else bytes[k] as nat % 16;
      assert s[i] == UPPER_DIGITS[d];
    }
  }

  /** The wire line of an eight-byte frame matches `^[0-9A-F]{16}\n$`, with
      byte `k` zero-padded into positions `2k` and `2k + 1`. */
  lemma WireLineFormat(frame: seq<bv8>)
    requires |frame| == 8
    ensures |WireLine(frame)| == 17 && WireLine(frame)[16] == '\n'
    ensures forall i :: 0 <= i < 16 ==> WireLine(frame)[i] in UPPER_DIGITS
    ensures forall k :: 0 <= k < 8 ==>
      WireLine(frame)[2 * k] == UPPER_DIGITS[frame[k] as nat / 16] &&
      WireLine(frame)[2 * k + 1] == UPPER_DIGITS[frame[k] as nat % 16]
  {
    var hex := HexString(frame);
    assert WireLine(frame) == hex + "\n";
    forall k | 0 <= k < 8
      ensures hex[2 * k] == UPPER_DIGITS[frame[k] as nat / 16]
      ensures hex[2 * k + 1] == UPPER_DIGITS[frame[k] as nat % 16]
    {
      HexStringAt(frame, k);
    }
    DigitsInAlphabet(hex, frame);
  }

  /** The value of a base16 digit (0 for anything else). */
  function DigitValue(c: char): (v: nat)
    ensures v < 16
  {
    if '0' <= c <= '9' then c as int - '0' as int
    else if 'A' <= c <= 'F' then c as int - 'A' as int + 10
    else 0
  }

  /** Every base16 digit reads back as its own value. */
  lemma DigitRoundTrip(d: nat)
    requires d < 16
    ensures DigitValue(UPPER_DIGITS[d]) == d
  {
  }

  /** Reading a hex string back into bytes, two digits at a time. */
  function DecodeHex(s: string): (r: seq<bv8>)
    ensures |r| == |s| / 2
  {
    seq(|s| / 2, i requires 0 <= i < |s| / 2 => (16 * DigitValue(s[2 * i]) + DigitValue(s[2 * i + 1])) as bv8)
  }

  /** The two digits of a byte read back as that byte. */
  lemma DecodeHexByte(b: bv8)
    ensures |HexByte(b)| == 2
    ensures (16 * DigitValue(HexByte(b)[0]) + DigitValue(HexByte(b)[1])) as bv8 == b
  {
    var h := HexByte(b);
    HexByteDigits(b);
    DecodePair(h, b);
  }

  /** The two nibble digits of a byte, as any string, read back as that byte. */
  lemma DecodePair(h: string, b: bv8)
    requires h == [UPPER_DIGITS[b as nat / 16], UPPER_DIGITS[b as nat % 16]]
    ensures (16 * DigitValue(h[0]) + DigitValue(h[1])) as bv8 == b
  {
    var n := b as nat;
    DecodeDigits(n);
    assert 16 * DigitValue(h[0]) + DigitValue(h[1]) == n;
    ByteValue(b);
  }

  /** The two digits of a byte value read back as that value. */
  lemma DecodeDigits(n: nat)
    requires n < 256
    ensures 16 * DigitValue(UPPER_DIGITS[n / 16]) + DigitValue(UPPER_DIGITS[n % 16]) == n
  {
    DigitRoundTrip(n / 16);
    DigitRoundTrip(n % 16);
  }

  /** Decoding undoes the encoding of any byte sequence. */
  lemma DecodeHexString(bytes: seq<bv8>)
    ensures DecodeHex(HexString(bytes)) == bytes
  {
    var s := HexString(bytes);
    forall k | 0 <= k < |bytes|
      ensures (16 * DigitValue(s[2 * k]) + DigitValue(s[2 * k + 1])) as bv8 == bytes[k]
    {
      HexStringAt(bytes, k);
      DecodeDigits(bytes[k] as nat);
      ByteValue(bytes[k]);
    }
    DecodePairs(s, bytes);
  }

  /** A string whose pair `k` reads as byte `k`, for every `k`, decodes to
      those bytes. */
  lemma DecodePairs(s: string, bytes: seq<bv8>)
    requires |s| == 2 * |bytes|
    requires forall k :: 0 <= k < |bytes| ==>
      (16 * DigitValue(s[2 * k]) + DigitValue(s[2 * k + 1])) as bv8 == bytes[k]
    ensures DecodeHex(s) == bytes
  {
  }

  /** Two frames share a wire line only if they are the same frame. */
  lemma WireLineInjective(f: seq<bv8>, g: seq<bv8>)
    ensures WireLine(f) == WireLine(g) <==> f == g
  {
    if WireLine(f) == WireLine(g) {
      assert HexString(f) == WireLine(f)[..|WireLine(f)| - 1];
      assert HexString(g) == WireLine(g)[..|WireLine(g)| - 1];
      DecodeHexString(f);
      DecodeHexString(g);
    }
  }
}
