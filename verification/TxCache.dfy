/** Cached resolutions, with the emitter as text (wormhole-vaa-api/src/api.rs). */
module TxCache {
  import opened Wrappers
  import opened Address
  import opened SolanaLogs
  import opened Resolver

  datatype CachedResolution = CachedResolution(chain: nat, emitter: string, sequence: nat)

  function FromResolution(r: Resolution): CachedResolution {
    CachedResolution(r.chain, EmitterHex(r.emitter), r.sequence)
  }

  function ToResolution(c: CachedResolution, base58: Base58): Option<Resolution> {
    match NormalizeEmitter(c.emitter, base58)
    case Ok(emitter) => Some(Resolution(c.chain, emitter, c.sequence))
    case Err(_) => None
  }

  function FromResolutions(rs: seq<Resolution>): seq<CachedResolution> {
    if rs == [] then [] else [FromResolution(rs[0])] + FromResolutions(rs[1..])
  }

  /** Entries that do not convert are skipped. */
  function ToResolutions(cs: seq<CachedResolution>, base58: Base58): seq<Resolution> {
    if cs == [] then []
    else
      var first := ToResolution(cs[0], base58);
      (if first.Some? then [first.value] else []) + ToResolutions(cs[1..], base58)
  }

  lemma OneRoundTrip(r: Resolution, base58: Base58)
    ensures ToResolution(FromResolution(r), base58) == Some(r)
  {
    EmitterRoundTrip(r.emitter, base58);
  }

  lemma ToResolutionsCons(c: CachedResolution, cs: seq<CachedResolution>, base58: Base58)
    requires ToResolution(c, base58).Some?
    ensures ToResolutions([c] + cs, base58) == [ToResolution(c, base58).value] + ToResolutions(cs, base58)
  {
    assert ([c] + cs)[1..] == cs;
  }

  /** The round trip through the cache drops nothing and changes nothing. */
  lemma {:induction false} CacheRoundTrip(rs: seq<Resolution>, base58: Base58)
    ensures ToResolutions(FromResolutions(rs), base58) == rs
  {
    if rs != [] {
      CacheRoundTrip(rs[1..], base58);
      OneRoundTrip(rs[0], base58);
      ToResolutionsCons(FromResolution(rs[0]), FromResolutions(rs[1..]), base58);
      assert rs == [rs[0]] + rs[1..];
    }
  }
}
