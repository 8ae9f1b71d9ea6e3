/**
 * Emitters as callers write them (wormhole-vaa-api/src/address.rs). Base58 decoding is a parameter; the hexadecimal
 * branch is complete.
 */
module Address {
  import opened Wrappers
  import opened Text
  import opened Bytes

  datatype AddressError = Hex(message: string) | TooLong(got: nat, max: nat)

  type Emitter = e: seq<byte> | |e| == 32 witness Zero32()

  function Zero32(): (z: seq<byte>)
    ensures |z| == 32
  {
    ToBigEndian(0, 32)
  }

  function EmitterHex(emitter: Emitter): (s: string)
    ensures |s| == 64
  {
    EncodeHex(emitter)
  }

  function HexPart(input: string): string { Trim(Strip0x(Trim(input))) }

  predicate IsHexForm(input: string) { HexPart(input) != "" && AllHex(HexPart(input)) }

  function NormalizeEmitter(input: string, base58: string -> Option<seq<byte>>): Result<Emitter, AddressError> {
    var hexpart := HexPart(input);
    if IsHexForm(input) then
      if |hexpart| > 64 then Err(TooLong(|hexpart|, 64))
      else
        var padded := Zeros(64 - |hexpart|) + hexpart;
        Ok(DecodeHex(padded))
    else
      match base58(Trim(input))
      case None => Err(Hex("not hex or base58"))
      case Some(bytes) => if |bytes| == 32 then Ok(bytes) else Err(TooLong(|bytes|, 32))
  }

  /** Written out and read back, an emitter is unchanged, whatever base58 decoder is used. */
  lemma EmitterRoundTrip(emitter: Emitter, base58: string -> Option<seq<byte>>)
    ensures NormalizeEmitter(EmitterHex(emitter), base58) == Ok(emitter)
  {
    var s := EmitterHex(emitter);
    LowerHexIsPlain(s);
    DecodeOfEncode(emitter);
    assert Zeros(0) + s == s;
  }

  lemma LowerHexIsPlain(s: string)
    requires AllLowerHex(s)
    ensures Trim(s) == s && Strip0x(s) == s && AllHex(s)
  {
    TrimCompact(s);
    if |s| >= 2 { assert IsLowerHexDigit(s[1]); }
  }

  lemma DecodedNumber(padded: string, width: nat)
    requires AllHex(padded) && |padded| == 2 * width
    ensures DecodeHex(padded) == ToBigEndian(HexValue(padded), width)
    ensures HexValue(padded) < Pow256(width)
  {
    var bytes := DecodeHex(padded);
    assert |bytes| == width;
    DecodeKeepsValue(padded);
    ToBigEndianRoundTrip(bytes);
  }

  lemma PaddedNumber(digits: string, width: nat)
    requires AllHex(digits) && |digits| <= 2 * width
    ensures AllHex(Zeros(2 * width - |digits|) + digits)
    ensures DecodeHex(Zeros(2 * width - |digits|) + digits) == ToBigEndian(HexValue(digits), width)
    ensures HexValue(digits) < Pow256(width)
  {
    PaddingKeepsValue(2 * width - |digits|, digits);
    DecodedNumber(Zeros(2 * width - |digits|) + digits, width);
  }

  /** The hexadecimal branch reads a number: the 32 bytes are the big-endian form of what the digits say. */
  lemma HexFormValue(input: string, base58: string -> Option<seq<byte>>)
    requires IsHexForm(input)
    ensures NormalizeEmitter(input, base58) ==
            if |HexPart(input)| > 64 then Err(TooLong(|HexPart(input)|, 64))
            else Ok(ToBigEndian(HexValue(HexPart(input)), 32))
  {
    if |HexPart(input)| <= 64 { PaddedNumber(HexPart(input), 32); }
  }

  /** Any prefix, padding or letter case: two hexadecimal spellings name one emitter exactly when they write one number. */
  lemma SameEmitterIffSameNumber(a: string, b: string, base58: string -> Option<seq<byte>>)
    requires IsHexForm(a) && IsHexForm(b) && |HexPart(a)| <= 64 && |HexPart(b)| <= 64
    ensures NormalizeEmitter(a, base58) == NormalizeEmitter(b, base58) <==> HexValue(HexPart(a)) == HexValue(HexPart(b))
  {
    HexFormValue(a, base58);
    HexFormValue(b, base58);
    PaddedNumber(HexPart(a), 32);
    PaddedNumber(HexPart(b), 32);
    BigEndianRoundTrip(HexValue(HexPart(a)), 32);
    BigEndianRoundTrip(HexValue(HexPart(b)), 32);
  }

  // ----- Spellings -----

  predicate IsPrefix0x(prefix: string) { prefix == "0x" || prefix == "0X" }

  lemma StripPrefix(prefix: string, text: string)
    requires IsPrefix0x(prefix)
    ensures Strip0x(prefix + text) == text
  {
    assert prefix <= prefix + text;
  }

  lemma TextPart(prefix: string, gap: string, digits: string)
    requires Blank(gap) && digits != "" && AllHex(digits) && (IsPrefix0x(prefix) || (prefix == "" && gap == ""))
    ensures Trim(Strip0x(prefix + (gap + digits))) == digits
  {
    if prefix == "" {
      assert prefix + (gap + digits) == digits;
      TrimCompact(digits);
      if |digits| >= 2 { assert IsHexDigit(digits[1]); }
    } else {
      StripPrefix(prefix, gap + digits);
      TrimAround(gap, digits, "");
      assert digits + "" == digits;
    }
  }

  /** The digits of a hexadecimal spelling: white space around them, and one prefix, are dropped. */
  lemma HexPartOf(lead: string, prefix: string, gap: string, digits: string, trail: string)
    requires Blank(lead) && Blank(gap) && Blank(trail) && digits != "" && AllHex(digits)
    requires IsPrefix0x(prefix) || (prefix == "" && gap == "")
    ensures HexPart(lead + ((prefix + (gap + digits)) + trail)) == digits
  {
    TrimAround(lead, prefix + (gap + digits), trail);
    TextPart(prefix, gap, digits);
  }

  /** An emitter may be written with or without `0x` and leading zeros; every spelling of a number is that number. */
  lemma EmitterSpelling(lead: string, prefix: string, gap: string, digits: string, trail: string,
                        base58: string -> Option<seq<byte>>)
    requires Blank(lead) && Blank(gap) && Blank(trail) && digits != "" && AllHex(digits)
    requires IsPrefix0x(prefix) || (prefix == "" && gap == "")
    ensures NormalizeEmitter(lead + ((prefix + (gap + digits)) + trail), base58) ==
            if |digits| <= 64 then Ok(ToBigEndian(HexValue(digits), 32)) else Err(TooLong(|digits|, 64))
  {
    HexPartOf(lead, prefix, gap, digits, trail);
    HexFormValue(lead + ((prefix + (gap + digits)) + trail), base58);
  }

  /** Text with another character than hexadecimal digits is base58, and must decode to 32 bytes. */
  lemma Base58Emitter(lead: string, text: string, trail: string, base58: string -> Option<seq<byte>>)
    requires Blank(lead) && Blank(trail) && Compact(text) && !("0x" <= text) && !("0X" <= text)
    requires exists i :: 0 <= i < |text| && !IsHexDigit(text[i])
    ensures var r, decoded := NormalizeEmitter(lead + (text + trail), base58), base58(text);
            && (r.Ok? <==> decoded.Some? && |decoded.value| == 32)
            && (r.Ok? ==> decoded == Some(r.value))
            && (r.Err? && decoded.Some? ==> r.error == TooLong(|decoded.value|, 32))
  {
    TrimAround(lead, text, trail);
    TrimCompact(text);
  }

  lemma NoPadding(prefix: string, s: string)
    ensures "" + ((prefix + ("" + s)) + "") == prefix + s
  {
  }

  /** With the usual prefix, too, an emitter written out is read back. */
  lemma PrefixedRoundTrip(emitter: Emitter, base58: string -> Option<seq<byte>>)
    ensures NormalizeEmitter("0x" + EmitterHex(emitter), base58) == Ok(emitter)
  {
    var s := EmitterHex(emitter);
    EmitterSpelling("", "0x", "", s, "", base58);
    NoPadding("0x", s);
    DecodedNumber(s, 32);
    DecodeOfEncode(emitter);
  }
}
