/** Bytes, big-endian numbers and hexadecimal text. */
module Bytes {
  import opened Wrappers
  import opened Text

  type byte = n: nat | n < 256

  // ----- Big-endian numbers -----

  function BigEndian(bytes: seq<byte>): nat {
    if bytes == [] then 0 else 256 * BigEndian(bytes[..|bytes| - 1]) + bytes[|bytes| - 1]
  }

  function ToBigEndian(n: nat, width: nat): (r: seq<byte>)
    ensures |r| == width
  {
    if width == 0 then [] else ToBigEndian(n / 256, width - 1) + [n % 256]
  }

  function Pow256(width: nat): (r: nat)
    ensures r > 0
  {
    if width == 0 then 1 else 256 * Pow256(width - 1)
  }

  lemma {:induction false} BigEndianRoundTrip(n: nat, width: nat)
    requires n < Pow256(width)
    ensures BigEndian(ToBigEndian(n, width)) == n
  {
    if width > 0 {
      BigEndianRoundTrip(n / 256, width - 1);
      assert ToBigEndian(n, width)[..width - 1] == ToBigEndian(n / 256, width - 1);
    }
  }

  lemma {:induction false} ToBigEndianRoundTrip(bytes: seq<byte>)
    ensures BigEndian(bytes) < Pow256(|bytes|)
    ensures ToBigEndian(BigEndian(bytes), |bytes|) == bytes
  {
    if bytes != [] {
      ToBigEndianRoundTrip(bytes[..|bytes| - 1]);
    }
  }

  // ----- Hexadecimal text -----

  predicate IsHexDigit(c: char) { '0' <= c <= '9' || 'a' <= c <= 'f' || 'A' <= c <= 'F' }

  predicate AllHex(s: string) { forall i :: 0 <= i < |s| ==> IsHexDigit(s[i]) }

  predicate IsLowerHexDigit(c: char) { '0' <= c <= '9' || 'a' <= c <= 'f' }

  predicate AllLowerHex(s: string) { forall i :: 0 <= i < |s| ==> IsLowerHexDigit(s[i]) }

  function Nibble(c: char): (r: nat)
    requires IsHexDigit(c)
    ensures r < 16
  {
    if c <= '9' then c as int - '0' as int
    else if c <= 'F' then c as int - 'A' as int + 10
    else c as int - 'a' as int + 10
  }

  function NibbleChar(n: nat): (c: char)
    requires n < 16
    ensures IsLowerHexDigit(c) && Nibble(c) == n
  {
    if n < 10 then ('0' as int + n) as char else ('a' as int + n - 10) as char
  }

  /** Two lower-case digits a byte. */
  function EncodeHex(bytes: seq<byte>): (s: string)
    ensures |s| == 2 * |bytes| && AllLowerHex(s) && AllHex(s)
  {
    if bytes == [] then ""
    else EncodeHex(bytes[..|bytes| - 1]) + [NibbleChar(bytes[|bytes| - 1] / 16), NibbleChar(bytes[|bytes| - 1] % 16)]
  }

  function PairValue(high: char, low: char): byte
    requires IsHexDigit(high) && IsHexDigit(low)
  {
    16 * Nibble(high) + Nibble(low)
  }

  function DecodeHex(s: string): (bytes: seq<byte>)
    requires AllHex(s) && |s| % 2 == 0
    ensures 2 * |bytes| == |s|
  {
    if s == "" then [] else DecodeHex(s[..|s| - 2]) + [PairValue(s[|s| - 2], s[|s| - 1])]
  }

  /** The number a string of digits writes. */
  function HexValue(s: string): nat
    requires AllHex(s)
  {
    if s == "" then 0 else 16 * HexValue(s[..|s| - 1]) + Nibble(s[|s| - 1])
  }

  lemma PairOfByte(b: byte)
    ensures PairValue(NibbleChar(b / 16), NibbleChar(b % 16)) == b
  {
  }

  lemma LastTwo(s: string, high: char, low: char)
    ensures var t := s + [high, low]; |t| == |s| + 2 && t[..|t| - 2] == s && t[|t| - 2] == high && t[|t| - 1] == low
  {
  }

  lemma DecodeOneMore(s: string, high: char, low: char)
    requires AllHex(s) && |s| % 2 == 0 && IsHexDigit(high) && IsHexDigit(low) && AllHex(s + [high, low])
    ensures DecodeHex(s + [high, low]) == DecodeHex(s) + [PairValue(high, low)]
  {
    LastTwo(s, high, low);
  }

  lemma EncodeOneMore(bytes: seq<byte>, last: byte)
    ensures EncodeHex(bytes + [last]) == EncodeHex(bytes) + [NibbleChar(last / 16), NibbleChar(last % 16)]
  {
    assert (bytes + [last])[..|bytes|] == bytes;
  }

  predicate ReadsBack(bytes: seq<byte>) { DecodeHex(EncodeHex(bytes)) == bytes }

  lemma ReadsBackStep(bytes: seq<byte>, last: byte)
    requires ReadsBack(bytes)
    ensures ReadsBack(bytes + [last])
  {
    EncodeOneMore(bytes, last);
    DecodeOneMore(EncodeHex(bytes), NibbleChar(last / 16), NibbleChar(last % 16));
    PairOfByte(last);
  }

  lemma {:induction false} ReadsBackAlways(bytes: seq<byte>)
    ensures ReadsBack(bytes)
  {
    if bytes != [] {
      var init: seq<byte>, last: byte := bytes[..|bytes| - 1], bytes[|bytes| - 1];
      assert bytes == init + [last];
      ReadsBackAlways(init);
      ReadsBackStep(init, last);
    }
  }

  lemma DecodeOfEncode(bytes: seq<byte>)
    ensures DecodeHex(EncodeHex(bytes)) == bytes
  {
    ReadsBackAlways(bytes);
  }

  lemma {:induction false} DecodeKeepsValue(s: string)
    requires AllHex(s) && |s| % 2 == 0
    ensures BigEndian(DecodeHex(s)) == HexValue(s)
  {
    if s != "" {
      DecodeKeepsValue(s[..|s| - 2]);
      var b := DecodeHex(s);
      assert b[..|b| - 1] == DecodeHex(s[..|s| - 2]);
      assert s[..|s| - 1][..|s| - 2] == s[..|s| - 2];
    }
  }

  function Zeros(n: nat): (s: string)
    ensures |s| == n && forall i :: 0 <= i < n ==> s[i] == '0'
  {
    seq(n, _ => '0')
  }

  lemma {:induction false} PaddingKeepsValue(n: nat, s: string)
    requires AllHex(s)
    ensures HexValue(Zeros(n) + s) == HexValue(s)
  {
    if s != "" {
      PaddingKeepsValue(n, s[..|s| - 1]);
      assert (Zeros(n) + s)[..n + |s| - 1] == Zeros(n) + s[..|s| - 1];
    } else if n > 0 {
      PaddingKeepsValue(n - 1, s);
      assert Zeros(n)[..n - 1] == Zeros(n - 1);
      assert Zeros(n) + s == Zeros(n) && Zeros(n - 1) + s == Zeros(n - 1);
    }
  }

  /** Drops one `0x` or `0X`. */
  function Strip0x(s: string): (r: string)
    ensures |r| <= |s|
  {
    if "0x" <= s || "0X" <= s then s[2..] else s
  }

  function LowerHexDigit(c: char): char
    requires IsHexDigit(c)
  {
    if 'A' <= c <= 'F' then (c as int + 32) as char else c
  }

  function LowerHex(s: string): (r: string)
    requires AllHex(s)
    ensures |r| == |s| && AllLowerHex(r)
    ensures forall i :: 0 <= i < |s| ==> Nibble(r[i]) == Nibble(s[i])
  {
    if s == "" then "" else [LowerHexDigit(s[0])] + LowerHex(s[1..])
  }

  lemma {:induction false} HexValueDependsOnNibbles(s: string, t: string)
    requires AllHex(s) && AllHex(t) && |s| == |t|
    ensures HexValue(s) == HexValue(t) <==> forall i :: 0 <= i < |s| ==> Nibble(s[i]) == Nibble(t[i])
  {
    if s != "" {
      var n := |s| - 1;
      HexValueDependsOnNibbles(s[..n], t[..n]);
      assert HexValue(s) == HexValue(t) <==> HexValue(s[..n]) == HexValue(t[..n]) && Nibble(s[n]) == Nibble(t[n]);
    }
  }

  lemma LowerDigitUnique(c: char, d: char)
    requires IsLowerHexDigit(c) && IsLowerHexDigit(d) && Nibble(c) == Nibble(d)
    ensures c == d
  {
  }

  lemma LowerHexUniqueByNibbles(s: string, t: string)
    requires AllHex(s) && AllHex(t) && |s| == |t|
    requires forall i :: 0 <= i < |s| ==> Nibble(s[i]) == Nibble(t[i])
    ensures LowerHex(s) == LowerHex(t)
  {
    forall i | 0 <= i < |s| ensures LowerHex(s)[i] == LowerHex(t)[i] {
      LowerDigitUnique(LowerHex(s)[i], LowerHex(t)[i]);
    }
  }

  /** Lower-case text of one length is determined by its number. */
  lemma LowerHexUnique(s: string, t: string)
    requires AllHex(s) && AllHex(t) && |s| == |t|
    ensures LowerHex(s) == LowerHex(t) <==> HexValue(s) == HexValue(t)
  {
    HexValueDependsOnNibbles(s, t);
    if HexValue(s) == HexValue(t) {
      LowerHexUniqueByNibbles(s, t);
    } else {
      var i :| 0 <= i < |s| && Nibble(s[i]) != Nibble(t[i]);
      assert Nibble(LowerHex(s)[i]) != Nibble(LowerHex(t)[i]);
    }
  }
}
