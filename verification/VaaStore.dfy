/**
 * The Redis keyspace of the VAA service (wormhole-vaa-api/src/store.rs) under its writers: the spy stream
 * (wormhole-vaa-api/src/spy.rs), the wormholescan fallback and the resolution cache (wormhole-vaa-api/src/api.rs).
 */
module VaaStore {
  import opened Wrappers
  import opened Text
  import opened Bytes
  import opened Address
  import opened Vaa
  import opened SolanaLogs
  import opened Resolver
  import opened TxCache

  // ----- Keys -----

  function VaaKeyPrefix(chain: nat, emitter: Emitter): string {
    "vaa:" + (Decimal(chain) + (":" + (EmitterHex(emitter) + ":")))
  }

  function VaaKey(chain: nat, emitter: Emitter, sequence: nat): string {
    VaaKeyPrefix(chain, emitter) + Decimal(sequence)
  }

  function KeyOf(id: VaaId): string { VaaKey(id.emitterChain, id.emitterAddress, id.sequence) }

  function TxresKey(hash: string): string { "txres:" + hash }

  lemma SplitMiddle(a: string, x: string, b: string, s: string, y: string, t: string)
    requires a + (x + (b + s)) == a + (y + (b + t)) && |s| == |t|
    ensures x == y && s == t
  {
    var whole := a + (x + (b + s));
    assert |x| == |y|;
    assert whole[|a|..|a| + |x|] == x;
    assert (a + (y + (b + t)))[|a|..|a| + |y|] == y;
    assert whole[|whole| - |s|..] == s;
    assert (a + (y + (b + t)))[|whole| - |t|..] == t;
  }

  lemma EmitterHexUnique(e: Emitter, f: Emitter)
    requires EmitterHex(e) == EmitterHex(f)
    ensures e == f
  {
    DecodeOfEncode(e);
    DecodeOfEncode(f);
  }

  /** A key determines chain, emitter and sequence. */
  lemma VaaKeyInjective(a: VaaId, b: VaaId)
    ensures KeyOf(a) == KeyOf(b) <==> a == b
  {
    if KeyOf(a) == KeyOf(b) {
      var p, q := VaaKeyPrefix(a.emitterChain, a.emitterAddress), VaaKeyPrefix(b.emitterChain, b.emitterAddress);
      PrefixEndsInColon(a.emitterChain, a.emitterAddress);
      PrefixEndsInColon(b.emitterChain, b.emitterAddress);
      DecimalSuffixUnique(p, a.sequence, q, b.sequence);
      SplitMiddle("vaa:", Decimal(a.emitterChain), ":", EmitterHex(a.emitterAddress) + ":",
                  Decimal(b.emitterChain), EmitterHex(b.emitterAddress) + ":");
      ValueOfDecimal(a.emitterChain);
      ValueOfDecimal(b.emitterChain);
      assert (EmitterHex(a.emitterAddress) + ":")[..64] == EmitterHex(a.emitterAddress);
      assert (EmitterHex(b.emitterAddress) + ":")[..64] == EmitterHex(b.emitterAddress);
      EmitterHexUnique(a.emitterAddress, b.emitterAddress);
    }
  }

  lemma PrefixEndsInColon(chain: nat, emitter: Emitter)
    ensures EndsInNonDigit(VaaKeyPrefix(chain, emitter))
  {
    assert VaaKeyPrefix(chain, emitter)[|VaaKeyPrefix(chain, emitter)| - 1] == ':';
  }

  /** The two key families share the keyspace without meeting, and a cache key determines its hash. */
  lemma KeyFamiliesApart(id: VaaId, hash: string, other: string)
    ensures "vaa:" <= KeyOf(id) && "txres:" <= TxresKey(hash) && KeyOf(id) != TxresKey(hash)
    ensures TxresKey(hash) == TxresKey(other) <==> hash == other
  {
    assert KeyOf(id)[0] == 'v' && TxresKey(hash)[0] == 't';
    assert TxresKey(hash)[6..] == hash && TxresKey(other)[6..] == other;
  }

  // ----- The store -----

  datatype Value = Raw(bytes: seq<byte>) | Json(cached: seq<CachedResolution>)

  type Entries = map<string, Value>

  /** A write either lands or fails and leaves everything as it was; expiry removes a key at any time. */
  datatype Event =
    | Ingest(bytes: seq<byte>, lands: bool)
    | CacheVaa(bytes: seq<byte>, lands: bool)
    | CacheResolution(hash: string, resolutions: seq<Resolution>, lands: bool)
    | Expire(key: string)

  /** What the spy stream accepts. */
  predicate Accepted(bytes: seq<byte>) { ParseVaaId(bytes).Ok? && SignatureCount(bytes) != 0 }

  function Step(m: Entries, e: Event, base58: Base58): Entries {
    match e
    case Ingest(bytes, lands) =>
      if lands && Accepted(bytes) then m[KeyOf(ParseVaaId(bytes).value) := Raw(bytes)] else m
    case CacheVaa(bytes, lands) =>
      if lands && ParseVaaId(bytes).Ok? then m[KeyOf(ParseVaaId(bytes).value) := Raw(bytes)] else m
    case CacheResolution(hash, resolutions, lands) =>
      if lands && resolutions != []
      then m[TxresKey(NormalizeHash(hash, base58)) := Json(FromResolutions(resolutions))] else m
    case Expire(key) => m - {key}
  }

  function LookupVaa(m: Entries, id: VaaId): Option<seq<byte>> {
    if KeyOf(id) in m && m[KeyOf(id)].Raw? then Some(m[KeyOf(id)].bytes) else None
  }

  function LookupTxres(m: Entries, hash: string, base58: Base58): Option<seq<Resolution>> {
    var key := TxresKey(NormalizeHash(hash, base58));
    if key in m && m[key].Json? then Some(ToResolutions(m[key].cached, base58)) else None
  }

  class Store {
    var entries: Entries

    constructor ()
      ensures entries == map[]
    {
      entries := map[];
    }

    /** `put_vaa`, with the outcome of the command. */
    method PutVaa(id: VaaId, raw: seq<byte>, lands: bool)
      modifies this
      ensures entries == if lands then old(entries)[KeyOf(id) := Raw(raw)] else old(entries)
    {
      if lands { entries := entries[KeyOf(id) := Raw(raw)]; }
    }

    /** One message of the spy stream. */
    method IngestMessage(bytes: seq<byte>, lands: bool, base58: Base58) returns (stored: bool)
      modifies this
      ensures entries == Step(old(entries), Ingest(bytes, lands), base58)
      ensures stored <==> lands && Accepted(bytes)
    {
      var id := ParseVaaId(bytes);
      if id.Err? { return false; }
      if SignatureCount(bytes) == 0 { return false; }
      PutVaa(id.value, bytes, lands);
      return lands;
    }

    /** A VAA fetched from wormholescan; its signatures are not looked at. */
    method CacheFetched(bytes: seq<byte>, lands: bool, base58: Base58)
      modifies this
      ensures entries == Step(old(entries), CacheVaa(bytes, lands), base58)
    {
      var id := ParseVaaId(bytes);
      if id.Ok? { PutVaa(id.value, bytes, lands); }
    }

    method PutTxres(hash: string, resolutions: seq<Resolution>, lands: bool, base58: Base58)
      requires resolutions != []
      modifies this
      ensures entries == Step(old(entries), CacheResolution(hash, resolutions, lands), base58)
    {
      if lands { entries := entries[TxresKey(NormalizeHash(hash, base58)) := Json(FromResolutions(resolutions))]; }
    }
  }

  // ----- Agreement over every run -----

  function Exec(m: Entries, events: seq<Event>, base58: Base58): Entries
    decreases |events|
  {
    if events == [] then m else Exec(Step(m, events[0], base58), events[1..], base58)
  }

  lemma {:induction false} ExecSplits(m: Entries, a: seq<Event>, b: seq<Event>, base58: Base58)
    ensures Exec(m, a + b, base58) == Exec(Exec(m, a, base58), b, base58)
    decreases |a|
  {
    if a == [] {
      assert a + b == b;
    } else {
      assert (a + b)[1..] == a[1..] + b;
      ExecSplits(Step(m, a[0], base58), a[1..], b, base58);
    }
  }

  lemma ExecOne(m: Entries, e: Event, base58: Base58)
    ensures Exec(m, [e], base58) == Step(m, e, base58)
  {
    assert Exec(m, [e], base58) == Exec(Step(m, e, base58), [], base58);
  }

  predicate Agrees(m: Entries) {
    forall k :: k in m && m[k].Raw? ==> ParseVaaId(m[k].bytes).Ok? && k == KeyOf(ParseVaaId(m[k].bytes).value)
  }

  lemma StepKeepsAgreement(m: Entries, e: Event, base58: Base58)
    requires Agrees(m)
    ensures Agrees(Step(m, e, base58))
  {
  }

  lemma {:induction false} ExecKeepsAgreement(m: Entries, events: seq<Event>, base58: Base58)
    requires Agrees(m)
    ensures Agrees(Exec(m, events, base58))
    decreases |events|
  {
    if events != [] {
      StepKeepsAgreement(m, events[0], base58);
      ExecKeepsAgreement(Step(m, events[0], base58), events[1..], base58);
    }
  }

  lemma AgreementServes(m: Entries, id: VaaId)
    requires Agrees(m) && LookupVaa(m, id).Some?
    ensures ParseVaaId(LookupVaa(m, id).value) == Ok(id)
  {
    VaaKeyInjective(id, ParseVaaId(LookupVaa(m, id).value).value);
  }

  /** Store agreement: in every reachable store, bytes found under a triple parse to that triple. */
  lemma StoreAgreement(events: seq<Event>, id: VaaId, base58: Base58)
    requires LookupVaa(Exec(map[], events, base58), id).Some?
    ensures ParseVaaId(LookupVaa(Exec(map[], events, base58), id).value) == Ok(id)
  {
    ExecKeepsAgreement(map[], events, base58);
    AgreementServes(Exec(map[], events, base58), id);
  }

  lemma StepKeepsFound(m: Entries, e: Event, id: VaaId, base58: Base58)
    requires LookupVaa(m, id).Some? && e != Expire(KeyOf(id))
    ensures LookupVaa(Step(m, e, base58), id).Some?
  {
    if e.CacheResolution? { KeyFamiliesApart(id, NormalizeHash(e.hash, base58), ""); }
  }

  lemma {:induction false} StaysFound(m: Entries, events: seq<Event>, id: VaaId, base58: Base58)
    requires LookupVaa(m, id).Some? && Expire(KeyOf(id)) !in events
    ensures LookupVaa(Exec(m, events, base58), id).Some?
    decreases |events|
  {
    if events != [] {
      StepKeepsFound(m, events[0], id, base58);
      StaysFound(Step(m, events[0], base58), events[1..], id, base58);
    }
  }

  /** Once stored, a VAA is found under its triple until that key expires, whatever else the store takes in. */
  lemma StoredIsFound(m: Entries, v: SignedVaa, events: seq<Event>, base58: Base58)
    requires Agrees(m) && Vaa.WellFormed(v) && v.signatures != [] && Expire(KeyOf(IdOf(v))) !in events
    ensures var after := Exec(Step(m, Ingest(Serialize(v), true), base58), events, base58);
            LookupVaa(after, IdOf(v)).Some? && ParseVaaId(LookupVaa(after, IdOf(v)).value) == Ok(IdOf(v))
  {
    ParseOfSerialize(v);
    var stored := Step(m, Ingest(Serialize(v), true), base58);
    StaysFound(stored, events, IdOf(v), base58);
    StepKeepsAgreement(m, Ingest(Serialize(v), true), base58);
    ExecKeepsAgreement(stored, events, base58);
    AgreementServes(Exec(stored, events, base58), IdOf(v));
  }

  // ----- Unsigned VAAs -----

  predicate AllSigned(m: Entries) { forall k :: k in m && m[k].Raw? ==> SignatureCount(m[k].bytes) != 0 }

  /**
   * The spy's refusal of unsigned VAAs does not protect the store alone: a step lets one in exactly when it is a
   * fallback write of parseable bytes without signatures.
   */
  lemma StaysSignedIff(m: Entries, e: Event, base58: Base58)
    requires AllSigned(m)
    ensures AllSigned(Step(m, e, base58)) <==>
            !(e.CacheVaa? && e.lands && ParseVaaId(e.bytes).Ok? && SignatureCount(e.bytes) == 0)
  {
    if e.CacheVaa? && e.lands && ParseVaaId(e.bytes).Ok? {
      assert Step(m, e, base58)[KeyOf(ParseVaaId(e.bytes).value)] == Raw(e.bytes);
    }
  }

  /** Such bytes are then found by a lookup, although the stream would have refused them. */
  lemma UnsignedVaaIsServed(m: Entries, v: SignedVaa, base58: Base58)
    requires Vaa.WellFormed(v) && v.signatures == []
    ensures LookupVaa(Step(m, CacheVaa(Serialize(v), true), base58), IdOf(v)) == Some(Serialize(v))
    ensures Step(m, Ingest(Serialize(v), true), base58) == m
  {
    ParseOfSerialize(v);
  }

  // ----- The last write -----

  predicate WritesTo(e: Event, id: VaaId) {
    || (e.Ingest? && e.lands && Accepted(e.bytes) && ParseVaaId(e.bytes) == Ok(id))
    || (e.CacheVaa? && e.lands && ParseVaaId(e.bytes) == Ok(id))
  }

  /** The last write under the triple that has not expired since. */
  function LastWrite(events: seq<Event>, id: VaaId): (r: Option<Event>)
    ensures r.Some? ==> WritesTo(r.value, id)
  {
    if events == [] then None
    else
      var last := events[|events| - 1];
      if WritesTo(last, id) then Some(last)
      else if last == Expire(KeyOf(id)) then None
      else LastWrite(events[..|events| - 1], id)
  }

  lemma LookupAfterStep(m: Entries, e: Event, id: VaaId, base58: Base58)
    ensures LookupVaa(Step(m, e, base58), id) ==
            if WritesTo(e, id) then Some(e.bytes) else if e == Expire(KeyOf(id)) then None else LookupVaa(m, id)
  {
    if (e.Ingest? || e.CacheVaa?) && ParseVaaId(e.bytes).Ok? { VaaKeyInjective(id, ParseVaaId(e.bytes).value); }
    if e.CacheResolution? { KeyFamiliesApart(id, NormalizeHash(e.hash, base58), ""); }
  }

  /** A lookup finds what the last write left, and nothing else. */
  lemma {:induction false} LookupIsLastWrite(events: seq<Event>, id: VaaId, base58: Base58)
    ensures LookupVaa(Exec(map[], events, base58), id) ==
            if LastWrite(events, id).Some? then Some(LastWrite(events, id).value.bytes) else None
  {
    if events != [] {
      var init, last := events[..|events| - 1], events[|events| - 1];
      assert events == init + [last];
      LookupIsLastWrite(init, id, base58);
      ExecSplits(map[], init, [last], base58);
      ExecOne(Exec(map[], init, base58), last, base58);
      LookupAfterStep(Exec(map[], init, base58), last, id, base58);
    }
  }

  /** A VAA that carries the triple and at least one signature. */
  predicate Genuine(bytes: seq<byte>, id: VaaId) { ParseVaaId(bytes) == Ok(id) && SignatureCount(bytes) != 0 }

  /** A write by the fallback of bytes without signatures. */
  predicate SpoiledBy(e: Option<Event>) { e.Some? && e.value.CacheVaa? && SignatureCount(e.value.bytes) == 0 }

  /** In every reachable store a VAA is genuine unless the fallback wrote it last, without signatures. */
  lemma StoredGenuineIff(events: seq<Event>, id: VaaId, base58: Base58)
    requires LookupVaa(Exec(map[], events, base58), id).Some?
    ensures Genuine(LookupVaa(Exec(map[], events, base58), id).value, id) <==> !SpoiledBy(LastWrite(events, id))
  {
    LookupIsLastWrite(events, id, base58);
  }

  // ----- Cached resolutions -----

  /** The run caches this answer for a hash with this cache key. */
  predicate Caches(e: Event, key: string, rs: seq<Resolution>, base58: Base58) {
    e.CacheResolution? && e.lands && NormalizeHash(e.hash, base58) == key && e.resolutions == rs && rs != []
  }

  /** Every cached answer is one of `events`, kept whole. */
  ghost predicate FromRun(m: Entries, events: seq<Event>, base58: Base58) {
    forall hash :: TxresKey(hash) in m && m[TxresKey(hash)].Json? ==>
      exists i :: 0 <= i < |events| && Caches(events[i], hash, ToResolutions(m[TxresKey(hash)].cached, base58), base58)
  }

  lemma StepKeepsFromRun(m: Entries, past: seq<Event>, e: Event, base58: Base58)
    requires FromRun(m, past, base58)
    ensures FromRun(Step(m, e, base58), past + [e], base58)
  {
    var m', all := Step(m, e, base58), past + [e];
    forall hash | TxresKey(hash) in m' && m'[TxresKey(hash)].Json?
      ensures exists i :: 0 <= i < |all| && Caches(all[i], hash, ToResolutions(m'[TxresKey(hash)].cached, base58), base58)
    {
      if e.CacheResolution? && e.lands && e.resolutions != [] && NormalizeHash(e.hash, base58) == hash {
        CacheRoundTrip(e.resolutions, base58);
        assert all[|past|] == e;
      } else {
        if e.CacheResolution? {
          KeyFamiliesApart(VaaId(0, Zero32(), 0), hash, NormalizeHash(e.hash, base58));
        }
        assert m'[TxresKey(hash)] == m[TxresKey(hash)];
        var i :| 0 <= i < |past| && Caches(past[i], hash, ToResolutions(m[TxresKey(hash)].cached, base58), base58);
        assert all[i] == past[i];
      }
    }
  }

  lemma {:induction false} ExecKeepsFromRun(m: Entries, past: seq<Event>, events: seq<Event>, base58: Base58)
    requires FromRun(m, past, base58)
    ensures FromRun(Exec(m, events, base58), past + events, base58)
    decreases |events|
  {
    if events == [] {
      assert past + events == past;
    } else {
      StepKeepsFromRun(m, past, events[0], base58);
      ExecKeepsFromRun(Step(m, events[0], base58), past + [events[0]], events[1..], base58);
      assert past + [events[0]] + events[1..] == past + events;
    }
  }

  /** The run cached this non-empty answer for the transaction. */
  ghost predicate AnsweredBefore(e: Event, hash: string, rs: seq<Resolution>, base58: Base58) {
    e.CacheResolution? && e.lands && e.resolutions == rs && rs != [] && SameTransaction(e.hash, hash, base58)
  }

  /** A cache hit is a non-empty answer that a resolution of the same transaction stored earlier, entire and in order. */
  lemma CacheHitIsEarlierAnswer(events: seq<Event>, hash: string, base58: Base58)
    ensures var hit := LookupTxres(Exec(map[], events, base58), hash, base58);
            hit.Some? ==> exists e :: e in events && AnsweredBefore(e, hash, hit.value, base58)
  {
    var m, key := Exec(map[], events, base58), NormalizeHash(hash, base58);
    if LookupTxres(m, hash, base58).Some? {
      ExecKeepsFromRun(map[], [], events, base58);
      assert [] + events == events;
      var i :| 0 <= i < |events| && Caches(events[i], key, ToResolutions(m[TxresKey(key)].cached, base58), base58);
      SameKeyIffSameTransaction(events[i].hash, hash, base58);
      assert events[i] in events && AnsweredBefore(events[i], hash, LookupTxres(m, hash, base58).value, base58);
    }
  }

  /** An answer to another transaction than `hash`, or none: it leaves what is cached for `hash` alone. */
  ghost predicate Spares(e: Event, hash: string, base58: Base58) {
    && e != Expire(TxresKey(NormalizeHash(hash, base58)))
    && !(e.CacheResolution? && SameTransaction(e.hash, hash, base58))
  }

  lemma OtherKeysKept(m: Entries, e: Event, key: string, base58: Base58)
    requires e != Expire(TxresKey(key)) && !(e.CacheResolution? && NormalizeHash(e.hash, base58) == key)
    ensures var k, t := TxresKey(key), Step(m, e, base58); k in t <==> k in m
    ensures var k, t := TxresKey(key), Step(m, e, base58); k in m ==> t[k] == m[k]
  {
    match e
    case CacheResolution(other, _, _) => KeyFamiliesApart(VaaId(0, Zero32(), 0), key, NormalizeHash(other, base58));
    case Ingest(bytes, _) => if ParseVaaId(bytes).Ok? { KeyFamiliesApart(ParseVaaId(bytes).value, key, key); }
    case CacheVaa(bytes, _) => if ParseVaaId(bytes).Ok? { KeyFamiliesApart(ParseVaaId(bytes).value, key, key); }
    case Expire(_) =>
  }

  lemma SparedIsKept(m: Entries, e: Event, hash: string, base58: Base58)
    requires Spares(e, hash, base58)
    ensures LookupTxres(Step(m, e, base58), hash, base58) == LookupTxres(m, hash, base58)
  {
    if e.CacheResolution? { SameKeyIffSameTransaction(e.hash, hash, base58); }
    OtherKeysKept(m, e, NormalizeHash(hash, base58), base58);
  }

  lemma {:induction false} SparedRunKeeps(m: Entries, events: seq<Event>, hash: string, base58: Base58)
    requires forall i :: 0 <= i < |events| ==> Spares(events[i], hash, base58)
    ensures LookupTxres(Exec(m, events, base58), hash, base58) == LookupTxres(m, hash, base58)
    decreases |events|
  {
    if events != [] {
      SparedIsKept(m, events[0], hash, base58);
      SparedRunKeeps(Step(m, events[0], base58), events[1..], hash, base58);
    }
  }

  /**
   * A cached answer is found again: under every spelling of the transaction, entire and in order, until its key
   * expires or the transaction is cached anew. Empty answers are never cached.
   */
  lemma CachedIsFound(m: Entries, hash: string, rs: seq<Resolution>, other: string, events: seq<Event>, base58: Base58)
    requires SameTransaction(hash, other, base58)
    requires forall i :: 0 <= i < |events| ==> Spares(events[i], other, base58)
    ensures var after := Exec(Step(m, CacheResolution(hash, rs, true), base58), events, base58);
            LookupTxres(after, other, base58) == if rs == [] then LookupTxres(m, other, base58) else Some(rs)
  {
    var stored := Step(m, CacheResolution(hash, rs, true), base58);
    SparedRunKeeps(stored, events, other, base58);
    SameKeyIffSameTransaction(hash, other, base58);
    CacheRoundTrip(rs, base58);
  }

  /** The same in a run. */
  lemma CachedInRunIsFound(past: seq<Event>, hash: string, rs: seq<Resolution>, other: string, later: seq<Event>,
                           base58: Base58)
    requires SameTransaction(hash, other, base58) && rs != []
    requires forall i :: 0 <= i < |later| ==> Spares(later[i], other, base58)
    ensures LookupTxres(Exec(map[], past + ([CacheResolution(hash, rs, true)] + later), base58), other, base58) == Some(rs)
  {
    var m, e := Exec(map[], past, base58), CacheResolution(hash, rs, true);
    ExecSplits(map[], past, [e] + later, base58);
    ExecSplits(m, [e], later, base58);
    ExecOne(m, e, base58);
    CachedIsFound(m, hash, rs, other, later, base58);
  }
}
