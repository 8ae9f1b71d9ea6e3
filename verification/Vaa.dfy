/** The header parser of signed VAAs, version 1 layout (wormhole-vaa-api/src/vaa.rs). */
module Vaa {
  import opened Wrappers
  import opened Bytes
  import opened Address

  const HEADER_PREFIX: nat := 6
  const SIGNATURE_RECORD: nat := 66
  const BODY_MIN: nat := 51

  datatype VaaError = TooShort(got: nat, need: nat)

  datatype VaaId = VaaId(emitterChain: nat, emitterAddress: Emitter, sequence: nat)

  function BodyOffset(data: seq<byte>): nat
    requires |data| >= HEADER_PREFIX
  {
    data[5] * SIGNATURE_RECORD + HEADER_PREFIX
  }

  predicate LongEnough(data: seq<byte>) {
    |data| >= HEADER_PREFIX && |data| >= BodyOffset(data) + BODY_MIN
  }

  /** Offsets stay far below the machine's word size, so the checked sums never overflow. */
  function ParseVaaId(data: seq<byte>): Result<VaaId, VaaError> {
    if |data| < HEADER_PREFIX then Err(TooShort(|data|, HEADER_PREFIX))
    else
      var bodyOff := BodyOffset(data);
      var need := bodyOff + BODY_MIN;
      if |data| < need then Err(TooShort(|data|, need))
      else
        Ok(VaaId(BigEndian([data[bodyOff + 8], data[bodyOff + 9]]),
                 data[bodyOff + 10..bodyOff + 42],
                 BigEndian(data[bodyOff + 42..bodyOff + 50])))
  }

  function SignatureCount(data: seq<byte>): byte {
    if |data| > 5 then data[5] else 0
  }

  // ----- The layout, written out -----

  datatype Signature = Signature(guardianIndex: byte, signature: seq<byte>)

  datatype SignedVaa = SignedVaa(
    version: byte, guardianSetIndex: nat, signatures: seq<Signature>,
    timestamp: nat, nonce: nat, emitterChain: nat, emitterAddress: Emitter, sequence: nat,
    consistencyLevel: byte, payload: seq<byte>)

  predicate WellFormed(v: SignedVaa) {
    && v.guardianSetIndex < Pow256(4) && |v.signatures| < 256
    && (forall i :: 0 <= i < |v.signatures| ==> |v.signatures[i].signature| == 65)
    && v.timestamp < Pow256(4) && v.nonce < Pow256(4) && v.emitterChain < Pow256(2) && v.sequence < Pow256(8)
  }

  function SignatureBytes(signatures: seq<Signature>): seq<byte> {
    if signatures == [] then []
    else [signatures[0].guardianIndex] + signatures[0].signature + SignatureBytes(signatures[1..])
  }

  function Header(v: SignedVaa): (h: seq<byte>)
    requires |v.signatures| < 256
    ensures |h| == 6 && h[5] == |v.signatures|
  {
    [v.version] + ToBigEndian(v.guardianSetIndex, 4) + [|v.signatures|]
  }

  /** Timestamp, nonce, chain, emitter, sequence and consistency level. */
  function Body(v: SignedVaa): (b: seq<byte>)
    ensures |b| == 51
  {
    ToBigEndian(v.timestamp, 4) + ToBigEndian(v.nonce, 4) + ToBigEndian(v.emitterChain, 2) + v.emitterAddress
    + ToBigEndian(v.sequence, 8) + [v.consistencyLevel]
  }

  function Serialize(v: SignedVaa): seq<byte>
    requires |v.signatures| < 256
  {
    Header(v) + (SignatureBytes(v.signatures) + (Body(v) + v.payload))
  }

  function IdOf(v: SignedVaa): VaaId { VaaId(v.emitterChain, v.emitterAddress, v.sequence) }

  lemma {:induction false} SignatureBytesLength(signatures: seq<Signature>)
    requires forall i :: 0 <= i < |signatures| ==> |signatures[i].signature| == 65
    ensures |SignatureBytes(signatures)| == 66 * |signatures|
  {
    if signatures != [] { SignatureBytesLength(signatures[1..]); }
  }

  lemma BodyFields(v: SignedVaa)
    ensures Body(v)[8..10] == ToBigEndian(v.emitterChain, 2)
    ensures Body(v)[10..42] == v.emitterAddress
    ensures Body(v)[42..50] == ToBigEndian(v.sequence, 8)
  {
    var a, b, c, d, e := ToBigEndian(v.timestamp, 4), ToBigEndian(v.nonce, 4), ToBigEndian(v.emitterChain, 2),
                         v.emitterAddress, ToBigEndian(v.sequence, 8);
    Segments(a + b, c, d, e, [v.consistencyLevel]);
  }

  lemma Segments(a: seq<byte>, b: seq<byte>, c: seq<byte>, d: seq<byte>, e: seq<byte>)
    ensures var s := a + b + c + d + e;
            && s[|a|..|a| + |b|] == b
            && s[|a| + |b|..|a| + |b| + |c|] == c
            && s[|a| + |b| + |c|..|a| + |b| + |c| + |d|] == d
  {
  }

  lemma SliceOfMiddle(front: seq<byte>, middle: seq<byte>, back: seq<byte>, i: nat, j: nat)
    requires i <= j <= |middle|
    ensures (front + (middle + back))[|front| + i..|front| + j] == middle[i..j]
  {
  }

  lemma ParseOfParts(front: seq<byte>, body: seq<byte>, payload: seq<byte>)
    requires |front| >= HEADER_PREFIX && |front| == BodyOffset(front) && |body| == BODY_MIN
    ensures |body[10..42]| == 32
    ensures ParseVaaId(front + (body + payload)) == Ok(VaaId(BigEndian(body[8..10]), body[10..42], BigEndian(body[42..50])))
    ensures SignatureCount(front + (body + payload)) == front[5]
  {
    var data, off := front + (body + payload), |front|;
    assert data[5] == front[5];
    SliceOfMiddle(front, body, payload, 8, 10);
    SliceOfMiddle(front, body, payload, 10, 42);
    SliceOfMiddle(front, body, payload, 42, 50);
    assert [data[off + 8], data[off + 9]] == data[off + 8..off + 10];
  }

  /** Parsing inverts the layout, for every signature count and payload. */
  lemma ParseOfSerialize(v: SignedVaa)
    requires WellFormed(v)
    ensures ParseVaaId(Serialize(v)) == Ok(IdOf(v))
    ensures SignatureCount(Serialize(v)) == |v.signatures|
  {
    var front := Header(v) + SignatureBytes(v.signatures);
    SignatureBytesLength(v.signatures);
    assert front[5] == Header(v)[5];
    assert Serialize(v) == front + (Body(v) + v.payload);
    ParseOfParts(front, Body(v), v.payload);
    BodyFields(v);
    BigEndianRoundTrip(v.emitterChain, 2);
    BigEndianRoundTrip(v.sequence, 8);
  }

  // ----- Nothing else parses -----

  function SignaturesIn(bytes: seq<byte>): (r: seq<Signature>)
    requires |bytes| % 66 == 0
    ensures 66 * |r| == |bytes|
    ensures forall i :: 0 <= i < |r| ==> |r[i].signature| == 65
    decreases |bytes|
  {
    if bytes == [] then [] else [Signature(bytes[0], bytes[1..66])] + SignaturesIn(bytes[66..])
  }

  lemma {:induction false} SignatureBytesOfSignaturesIn(bytes: seq<byte>)
    requires |bytes| % 66 == 0
    ensures SignatureBytes(SignaturesIn(bytes)) == bytes
    decreases |bytes|
  {
    if bytes != [] {
      SignatureBytesOfSignaturesIn(bytes[66..]);
      var r := SignaturesIn(bytes);
      assert r[1..] == SignaturesIn(bytes[66..]);
      assert [bytes[0]] + bytes[1..66] + bytes[66..] == bytes;
    }
  }

  /** The VAA that some long enough bytes are the layout of. */
  function Reading(data: seq<byte>): SignedVaa
    requires LongEnough(data)
  {
    var off := BodyOffset(data);
    assert |data[6..off]| % 66 == 0;
    SignedVaa(data[0], BigEndian(data[1..5]), SignaturesIn(data[6..off]),
              BigEndian(data[off..off + 4]), BigEndian(data[off + 4..off + 8]), BigEndian(data[off + 8..off + 10]),
              data[off + 10..off + 42], BigEndian(data[off + 42..off + 50]), data[off + 50], data[off + 51..])
  }

  lemma HeaderOfReading(data: seq<byte>)
    requires LongEnough(data)
    ensures BigEndian(data[1..5]) < Pow256(4) && |Reading(data).signatures| == data[5]
    ensures Header(Reading(data)) == data[..6]
  {
    ToBigEndianRoundTrip(data[1..5]);
    assert 66 * |Reading(data).signatures| == |data[6..BodyOffset(data)]| == BodyOffset(data) - 6;
  }

  lemma BodyOfReading(data: seq<byte>)
    requires LongEnough(data)
    ensures WellFormed(Reading(data))
    ensures Body(Reading(data)) == data[BodyOffset(data)..BodyOffset(data) + 51]
  {
    var off := BodyOffset(data);
    HeaderOfReading(data);
    ToBigEndianRoundTrip(data[off..off + 4]);
    ToBigEndianRoundTrip(data[off + 4..off + 8]);
    ToBigEndianRoundTrip(data[off + 8..off + 10]);
    ToBigEndianRoundTrip(data[off + 42..off + 50]);
    BodyOfParts(data, off);
  }

  lemma FourParts(data: seq<byte>, i: nat, j: nat, k: nat)
    requires i <= j <= k <= |data|
    ensures data == data[..i] + (data[i..j] + (data[j..k] + data[k..]))
  {
  }

  lemma SignaturesOfReading(data: seq<byte>)
    requires LongEnough(data)
    ensures SignatureBytes(Reading(data).signatures) == data[6..BodyOffset(data)]
    ensures Reading(data).payload == data[BodyOffset(data) + 51..]
  {
    assert |data[6..BodyOffset(data)]| % 66 == 0;
    SignatureBytesOfSignaturesIn(data[6..BodyOffset(data)]);
  }

  lemma SerializeOfReading(data: seq<byte>)
    requires LongEnough(data)
    ensures WellFormed(Reading(data)) && Serialize(Reading(data)) == data
  {
    var off := BodyOffset(data);
    HeaderOfReading(data);
    BodyOfReading(data);
    SignaturesOfReading(data);
    FourParts(data, 6, off, off + 51);
  }

  lemma BodyOfParts(data: seq<byte>, off: nat)
    requires |data| >= off + 51
    ensures data[off..off + 4] + data[off + 4..off + 8] + data[off + 8..off + 10] + data[off + 10..off + 42]
            + data[off + 42..off + 50] + [data[off + 50]]
         == data[off..off + 51]
  {
  }

  /** Some bytes parse exactly when they are the layout of a VAA, and then to the triple of each such VAA. */
  lemma ParsesIffLayout(data: seq<byte>, id: VaaId)
    ensures ParseVaaId(data) == Ok(id) <==> exists v :: WellFormed(v) && Serialize(v) == data && IdOf(v) == id
  {
    if ParseVaaId(data) == Ok(id) {
      SerializeOfReading(data);
      ParseOfSerialize(Reading(data));
      assert IdOf(Reading(data)) == id;
    }
    forall v | WellFormed(v) && Serialize(v) == data && IdOf(v) == id ensures ParseVaaId(data) == Ok(id) {
      ParseOfSerialize(v);
    }
  }

  /**
   * Bytes that do not parse are too short, and the error says by how much: with a whole header, any extension parses
   * exactly from the length it names on; without one it asks for the header, and no signature is counted.
   */
  lemma ShortfallIs(data: seq<byte>, more: seq<byte>)
    requires ParseVaaId(data).Err?
    ensures var e := ParseVaaId(data).error;
            && e.got == |data| < e.need
            && (|data| >= 6 ==> (ParseVaaId(data + more).Ok? <==> |data + more| >= e.need))
            && (|data| < 6 ==> e.need == 6 && SignatureCount(data) == 0)
  {
    if |data| >= 6 { assert (data + more)[5] == data[5]; }
  }
}
