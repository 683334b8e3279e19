/**
 * The chat token: a version-4 UUID (section 4.4 of RFC 4122) in its 36-character
 * text form, lower-case hexadecimal in groups of 8-4-4-4-12 separated by `-`.
 * The 16 random bytes are a parameter; the version and variant bits are set
 * as section 4.4 prescribes.
 */
module Uuid {
  newtype Byte = x: int | 0 <= x < 256

  function HexDigit(n: int): (c: char)
    requires 0 <= n < 16
    ensures ('0' <= c <= '9') || ('a' <= c <= 'f')
  {
    if n < 10 then ('0' as int + n) as char else ('a' as int + n - 10) as char
  }

  /** The value of a lower-case hexadecimal digit, or -1 for any other character. */
  function HexValue(c: char): (n: int)
    ensures -1 <= n < 16
  {
    if '0' <= c <= '9' then c as int - '0' as int
    else if 'a' <= c <= 'f' then c as int - 'a' as int + 10
    else -1
  }

  lemma HexValueOfDigit(n: int)
    requires 0 <= n < 16
    ensures HexValue(HexDigit(n)) == n
  {
  }

  /** Each byte as two hexadecimal digits, high nibble first. */
  function Hex(bs: seq<Byte>): (s: string)
    ensures |s| == 2 * |bs|
    ensures forall i :: 0 <= i < |s| ==> ('0' <= s[i] <= '9') || ('a' <= s[i] <= 'f')
  {
    if bs == [] then [] else [HexDigit(bs[0] as int / 16), HexDigit(bs[0] as int % 16)] + Hex(bs[1..])
  }

  /** Reads pairs of hexadecimal digits back into bytes (the inverse of `Hex`). */
  function Unhex(s: string): (bs: seq<Byte>)
    ensures |bs| == |s| / 2
  {
    if |s| < 2 then []
    else
      var v := 16 * HexValue(s[0]) + HexValue(s[1]);
      [if 0 <= v < 256 then v as Byte else 0] + Unhex(s[2..])
  }

  lemma {:induction false} UnhexHex(bs: seq<Byte>)
    ensures Unhex(Hex(bs)) == bs
  {
    if bs != [] {
      var s := Hex(bs);
      HexValueOfDigit(bs[0] as int / 16);
      HexValueOfDigit(bs[0] as int % 16);
      assert s[2..] == Hex(bs[1..]);
      UnhexHex(bs[1..]);
    }
  }

  /** `UUID.toString()`: the 16 bytes in groups of 4-2-2-2-6 bytes, joined by hyphens. */
  function Format(bs: seq<Byte>): (s: string)
    requires |bs| == 16
    ensures |s| == 36
    ensures s[8] == '-' && s[13] == '-' && s[18] == '-' && s[23] == '-'
  {
    Hex(bs[..4]) + "-" + Hex(bs[4..6]) + "-" + Hex(bs[6..8]) + "-" + Hex(bs[8..10]) + "-" + Hex(bs[10..])
  }

  /** Reads the text form back: the hexadecimal groups between the hyphens. */
  function Parse(s: string): (bs: seq<Byte>)
    requires |s| == 36
  {
    Unhex(s[..8]) + Unhex(s[9..13]) + Unhex(s[14..18]) + Unhex(s[19..23]) + Unhex(s[24..])
  }

  /** The text form loses nothing: parsing it gives back the 16 bytes. */
  lemma ParseFormat(bs: seq<Byte>)
    requires |bs| == 16
    ensures Parse(Format(bs)) == bs
  {
    FormatGroups(bs);
    UnhexHex(bs[..4]);
    UnhexHex(bs[4..6]);
    UnhexHex(bs[6..8]);
    UnhexHex(bs[8..10]);
    UnhexHex(bs[10..]);
    Rejoin(bs);
  }

  /** Each group of the text form is the hexadecimal of its bytes. */
  lemma FormatGroups(bs: seq<Byte>)
    requires |bs| == 16
    ensures Format(bs)[..8] == Hex(bs[..4]) && Format(bs)[9..13] == Hex(bs[4..6])
    ensures Format(bs)[14..18] == Hex(bs[6..8]) && Format(bs)[19..23] == Hex(bs[8..10])
    ensures Format(bs)[24..] == Hex(bs[10..])
  {
    var h1, h2, h3, h4, h5 := Hex(bs[..4]), Hex(bs[4..6]), Hex(bs[6..8]), Hex(bs[8..10]), Hex(bs[10..]);
    var p2 := h1 + "-" + h2;
    var p3 := p2 + "-" + h3;
    var p4 := p3 + "-" + h4;
    var s := p4 + "-" + h5;
    assert s[..23] == p4 && s[24..] == h5;
    assert p4[..18] == p3 && p4[19..] == h4;
    assert p3[..13] == p2 && p3[14..] == h3;
    assert p2[..8] == h1 && p2[9..] == h2;
  }

  /** The five groups of bytes, put back together, are the 16 bytes. */
  lemma Rejoin(bs: seq<Byte>)
    requires |bs| == 16
    ensures bs[..4] + bs[4..6] + bs[6..8] + bs[8..10] + bs[10..] == bs
  {
    assert bs[..4] + bs[4..6] == bs[..6];
    assert bs[..6] + bs[6..8] == bs[..8];
    assert bs[..8] + bs[8..10] == bs[..10];
  }

  /** Sets the version (4, in the high nibble of byte 6) and the variant (binary 10, in the top bits of byte 8). */
  function Version4(random: seq<Byte>): (bs: seq<Byte>)
    requires |random| == 16
    ensures |bs| == 16
    ensures bs[6] as int / 16 == 4
    ensures bs[8] as int / 64 == 2
    ensures forall i :: 0 <= i < 16 && i != 6 && i != 8 ==> bs[i] == random[i]
  {
    random[6 := (random[6] as int % 16 + 64) as Byte][8 := (random[8] as int % 64 + 128) as Byte]
  }

  /** `gerarToken` / `UUID.randomUUID().toString()` for the given random bytes. */
  function RandomToken(random: seq<Byte>): (s: string)
    requires |random| == 16
    ensures |s| == 36
    ensures s[14] == '4'
    ensures s[19] in "89ab"
  {
    var bs := Version4(random);
    assert Format(bs)[14] == Hex(bs[6..8])[0];
    assert Format(bs)[19] == Hex(bs[8..10])[0];
    Format(bs)
  }

  /** Distinct random bytes outside the fixed bits give distinct tokens. */
  lemma RandomTokenInjective(r1: seq<Byte>, r2: seq<Byte>)
    requires |r1| == 16 && |r2| == 16
    requires RandomToken(r1) == RandomToken(r2)
    ensures Version4(r1) == Version4(r2)
  {
    ParseFormat(Version4(r1));
    ParseFormat(Version4(r2));
  }
}
