/**
 * The two lookup endpoints (wormhole-vaa-api/src/api.rs). Redis reads, wormholescan calls and chain probes answer as
 * they like; writes go to the store of module VaaStore. Raw bytes stand for their base64 text.
 */
module VaaApi {
  import opened Wrappers
  import opened Text
  import opened Bytes
  import opened Address
  import opened Vaa
  import opened SolanaLogs
  import opened Resolver
  import opened TxCache
  import opened VaaStore

  datatype Unavailable = Unavailable

  type Fetched = Result<Option<seq<byte>>, Unavailable>

  /** `NotFound` is 404, `Internal` is 500, `Found` is 200 with its VAAs in order. */
  datatype Response = NotFound | Internal | Found(data: seq<seq<byte>>)

  /** What the world answers about one identity: the store read, wormholescan's reply, and whether a write lands. */
  datatype Lookup = Lookup(read: Fetched, scan: Fetched, lands: bool)

  /** What the world answers to one request by transaction; an undecodable cache entry reads as a missing one. */
  datatype TxWorld<!R> = TxWorld(
    cacheRead: Result<Option<seq<CachedResolution>>, Unavailable>,
    evm: seq<Completed<EvmTarget, R>>, parse: (R, string, nat) -> seq<Resolution>,
    svm: seq<Completed<SvmTarget, SvmTx>>, cacheLands: bool,
    lookups: nat -> Lookup,
    scanByTx: Result<seq<seq<byte>>, Unavailable>, scanLands: nat -> bool)

  // ----- One identity -----

  function Fallback(l: Lookup, configured: bool): Fetched {
    if configured then l.scan else Ok(None)
  }

  /** The store, and wormholescan where the store has nothing. */
  function Answer(l: Lookup, configured: bool): Fetched {
    if l.read == Ok(None) then Fallback(l, configured) else l.read
  }

  function FallbackWrites(l: Lookup, configured: bool): seq<Event> {
    if configured && l.scan.Ok? && l.scan.value.Some? then [CacheVaa(l.scan.value.value, l.lands)] else []
  }

  function AnswerWrites(l: Lookup, configured: bool): seq<Event> {
    if l.read == Ok(None) then FallbackWrites(l, configured) else []
  }

  // ----- All identities of a transaction -----

  datatype Gathered = Gathered(writes: seq<Event>, data: Result<seq<seq<byte>>, Unavailable>)

  function OptionToSeq(o: Option<seq<byte>>): seq<seq<byte>> {
    if o.Some? then [o.value] else []
  }

  function Prepend(writes: seq<Event>, data: seq<seq<byte>>, g: Gathered): Gathered {
    Gathered(writes + g.writes, if g.data.Ok? then Ok(data + g.data.value) else g.data)
  }

  /** In order, up to the first identity whose answer is a failure. */
  function Gather(lookups: nat -> Lookup, i: nat, n: nat, configured: bool): Gathered
    requires i <= n
    decreases n - i
  {
    if i == n then Gathered([], Ok([]))
    else
      var l := lookups(i);
      match Answer(l, configured)
      case Err(e) => Gathered(AnswerWrites(l, configured), Err(e))
      case Ok(o) => Prepend(AnswerWrites(l, configured), OptionToSeq(o), Gather(lookups, i + 1, n, configured))
  }

  // ----- Resolution through the cache -----

  function Resolved<R>(hash: string, w: TxWorld<R>, base58: Base58): Result<seq<Resolution>, ResolveError> {
    match ClassifyHash(hash, base58)
    case EvmHash => Outcome(EvmProbes(w.evm, w.parse))
    case SvmHash => Outcome(SvmProbes(w.svm))
    case UnknownHash => Ok([])
  }

  predicate CacheHit<R>(w: TxWorld<R>) { w.cacheRead.Ok? && w.cacheRead.value.Some? }

  function ResolvedWithCache<R>(hash: string, w: TxWorld<R>, base58: Base58): Result<seq<Resolution>, ResolveError> {
    if CacheHit(w) then Ok(ToResolutions(w.cacheRead.value.value, base58)) else Resolved(hash, w, base58)
  }

  function ResolveWrites<R>(hash: string, w: TxWorld<R>, base58: Base58): seq<Event> {
    var r := Resolved(hash, w, base58);
    if !CacheHit(w) && r.Ok? && r.value != [] then [CacheResolution(hash, r.value, w.cacheLands)] else []
  }

  // ----- A request by transaction -----

  function ScanWrites(vaas: seq<seq<byte>>, lands: nat -> bool): (r: seq<Event>)
    ensures |r| == |vaas|
  {
    seq(|vaas|, i requires 0 <= i < |vaas| => CacheVaa(vaas[i], lands(i)))
  }

  /** The response and the store writes of a request with a non-empty hash. */
  function ByTx<R>(hash: string, w: TxWorld<R>, configured: bool, base58: Base58): (Response, seq<Event>) {
    var resolved := ResolvedWithCache(hash, w, base58);
    var writes := ResolveWrites(hash, w, base58);
    if resolved.Err? then (Internal, writes)
    else Respond(resolved.value, writes, Gather(w.lookups, 0, |resolved.value|, configured), w, configured)
  }

  /** The response to a resolved transaction, `writes` being those of the resolution and `g` what was gathered. */
  function Respond<R>(rs: seq<Resolution>, writes: seq<Event>, g: Gathered, w: TxWorld<R>, configured: bool)
    : (Response, seq<Event>)
  {
    if g.data.Err? then (Internal, writes + g.writes)
    else if rs == [] && configured then
      match w.scanByTx
      case Err(_) => (Internal, writes)
      case Ok(vaas) => (if vaas == [] then NotFound else Found(vaas), writes + ScanWrites(vaas, w.scanLands))
    else (if g.data.value == [] then NotFound else Found(g.data.value), writes + g.writes)
  }

  class Service {
    const store: Store
    const scanConfigured: bool
    const base58: Base58

    constructor (store: Store, scanConfigured: bool, base58: Base58)
      ensures this.store == store && this.scanConfigured == scanConfigured && this.base58 == base58
    {
      this.store, this.scanConfigured, this.base58 := store, scanConfigured, base58;
    }

    method FallbackGetVaa(l: Lookup) returns (r: Fetched)
      modifies store
      ensures r == Fallback(l, scanConfigured)
      ensures scanConfigured ==> r == l.scan
      ensures !scanConfigured ==> r == Ok(None)
      ensures store.entries == if scanConfigured && l.scan.Ok? && l.scan.value.Some?
                               then VaaStore.Step(old(store.entries), CacheVaa(l.scan.value.value, l.lands), base58)
                               else old(store.entries)
      ensures store.entries == Exec(old(store.entries), FallbackWrites(l, scanConfigured), base58)
    {
      if !scanConfigured { return Ok(None); }
      match l.scan {
        case Ok(Some(bytes)) =>
          ExecOne(store.entries, CacheVaa(bytes, l.lands), base58);
          store.CacheFetched(bytes, l.lands, base58);
          return Ok(Some(bytes));
        case Ok(None) => return Ok(None);
        case Err(e) => return Err(e);
      }
    }

    /** By chain, emitter and sequence; a path segment that is no number comes as `None`. */
    method GetVaa(chain: Option<nat>, emitter: string, sequence: Option<nat>, l: Lookup) returns (r: Response)
      modifies store
      ensures var malformed := chain.None? || NormalizeEmitter(emitter, base58).Err? || sequence.None?;
              && (r == NotFound <==> malformed || (l.read == Ok(None) && (scanConfigured ==> l.scan == Ok(None))))
              && (r == Internal <==> !malformed && (l.read.Err? || (l.read == Ok(None) && scanConfigured && l.scan.Err?)))
              && (r.Found? ==> l.read.Ok? && r.data == OptionToSeq(if l.read == Ok(None) then l.scan.value else l.read.value))
              && store.entries == if malformed then old(store.entries)
                                  else Exec(old(store.entries), AnswerWrites(l, scanConfigured), base58)
    {
      if chain.None? || NormalizeEmitter(emitter, base58).Err? || sequence.None? { return NotFound; }
      match l.read {
        case Ok(Some(bytes)) => return Found([bytes]);
        case Ok(None) =>
          var fetched := FallbackGetVaa(l);
          match fetched {
            case Ok(Some(bytes)) => return Found([bytes]);
            case Ok(None) => return NotFound;
            case Err(_) => return Internal;
          }
        case Err(_) => return Internal;
      }
    }

    method Resolve<R>(hash: string, w: TxWorld<R>) returns (r: Result<seq<Resolution>, ResolveError>)
      ensures r == Resolved(hash, w, base58)
      ensures IsEvmText(Trim(hash)) ==> r == Outcome(EvmProbes(w.evm, w.parse))
      ensures ClassifyHash(hash, base58) == SvmHash ==> r == Outcome(SvmProbes(w.svm))
      ensures ClassifyHash(hash, base58) == UnknownHash ==> r == Ok([])
    {
      match ClassifyHash(hash, base58) {
        case EvmHash => r := ResolveEvm(w.evm, w.parse);
        case SvmHash => r := ResolveSvm(w.svm);
        case UnknownHash => r := Ok([]);
      }
    }

    method ResolveWithCache<R>(hash: string, w: TxWorld<R>) returns (r: Result<seq<Resolution>, ResolveError>)
      modifies store
      ensures r == ResolvedWithCache(hash, w, base58)
      ensures store.entries == Exec(old(store.entries), ResolveWrites(hash, w, base58), base58)
    {
      if CacheHit(w) { return Ok(ToResolutions(w.cacheRead.value.value, base58)); }
      r := Resolve(hash, w);
      if r.Ok? && r.value != [] {
        ExecOne(store.entries, CacheResolution(hash, r.value, w.cacheLands), base58);
        store.PutTxres(hash, r.value, w.cacheLands, base58);
      }
    }

    /** The loop over the resolved identities. */
    method Collect(n: nat, lookups: nat -> Lookup) returns (r: Result<seq<seq<byte>>, Unavailable>)
      modifies store
      ensures var g := Gather(lookups, 0, n, scanConfigured);
              r == g.data && store.entries == Exec(old(store.entries), g.writes, base58)
    {
      ghost var start, whole := store.entries, Gather(lookups, 0, n, scanConfigured);
      ghost var done: seq<Event> := [];
      var data: seq<seq<byte>> := [];
      PrependNothing(whole);
      for i := 0 to n
        invariant whole == Prepend(done, data, Gather(lookups, i, n, scanConfigured))
        invariant store.entries == Exec(start, done, base58)
      {
        var l := lookups(i);
        ghost var step := AnswerWrites(l, scanConfigured);
        ExecSplits(start, done, step, base58);
        var answer := Ask(l);
        if answer.Err? {
          GatherFails(done, data, lookups, i, n, scanConfigured);
          return Err(answer.error);
        }
        GatherStep(done, data, lookups, i, n, scanConfigured);
        ghost var more := data + OptionToSeq(answer.value);
        done := done + step;
        if answer.value.Some? { data := data + [answer.value.value]; }
        assert data == more;
      }
      GatherEnds(done, data, lookups, n, scanConfigured);
      return Ok(data);
    }

    /** The store read and, on a miss, the fallback. */
    method Ask(l: Lookup) returns (answer: Fetched)
      modifies store
      ensures answer == Answer(l, scanConfigured)
      ensures store.entries == Exec(old(store.entries), AnswerWrites(l, scanConfigured), base58)
    {
      if l.read == Ok(None) {
        answer := FallbackGetVaa(l);
      } else {
        answer := l.read;
      }
    }

    method GetVaaByTx<R>(txHash: Option<string>, w: TxWorld<R>) returns (r: Response)
      modifies store
      ensures (txHash.None? || txHash.value == "") ==> r == NotFound && store.entries == old(store.entries)
      ensures txHash.Some? && txHash.value != "" ==>
                var (response, writes) := ByTx(txHash.value, w, scanConfigured, base58);
                r == response && store.entries == Exec(old(store.entries), writes, base58)
    {
      if txHash.None? || txHash.value == "" { return NotFound; }
      var hash := txHash.value;
      ghost var start, resolving := store.entries, ResolveWrites(hash, w, base58);
      var resolutions := ResolveWithCache(hash, w);
      if resolutions.Err? { return Internal; }
      ghost var gathering := Gather(w.lookups, 0, |resolutions.value|, scanConfigured).writes;
      ExecSplits(start, resolving, gathering, base58);
      var collected := Collect(|resolutions.value|, w.lookups);
      if collected.Err? { return Internal; }
      var data := collected.value;
      if resolutions.value == [] && scanConfigured {
        match w.scanByTx {
          case Err(_) => return Internal;
          case Ok(vaas) =>
            ExecSplits(start, resolving, ScanWrites(vaas, w.scanLands), base58);
            data := CacheAll(vaas, w.scanLands);
        }
      }
      return if data == [] then NotFound else Found(data);
    }

    method CacheAll(vaas: seq<seq<byte>>, lands: nat -> bool) returns (data: seq<seq<byte>>)
      modifies store
      ensures data == vaas
      ensures store.entries == Exec(old(store.entries), ScanWrites(vaas, lands), base58)
    {
      data := [];
      ghost var all := ScanWrites(vaas, lands);
      for i := 0 to |vaas|
        invariant data == vaas[..i]
        invariant store.entries == Exec(old(store.entries), all[..i], base58)
      {
        assert all[..i + 1] == all[..i] + [all[i]];
        ExecSplits(old(store.entries), all[..i], [all[i]], base58);
        ExecOne(store.entries, all[i], base58);
        store.CacheFetched(vaas[i], lands(i), base58);
        data := data + [vaas[i]];
      }
      assert all[..|vaas|] == all;
    }
  }

  lemma PrependNothing(g: Gathered)
    ensures Prepend([], [], g) == g
  {
    assert [] + g.writes == g.writes;
    if g.data.Ok? { assert [] + g.data.value == g.data.value; }
  }

  lemma PrependMore(w: seq<Event>, d: seq<seq<byte>>, w': seq<Event>, d': seq<seq<byte>>, g: Gathered)
    ensures Prepend(w, d, Prepend(w', d', g)) == Prepend(w + w', d + d', g)
  {
    assert w + (w' + g.writes) == w + w' + g.writes;
    if g.data.Ok? { assert d + (d' + g.data.value) == d + d' + g.data.value; }
  }

  lemma GatherStep(w: seq<Event>, d: seq<seq<byte>>, lookups: nat -> Lookup, i: nat, n: nat, configured: bool)
    requires i < n && Answer(lookups(i), configured).Ok?
    ensures Prepend(w, d, Gather(lookups, i, n, configured))
         == Prepend(w + AnswerWrites(lookups(i), configured), d + OptionToSeq(Answer(lookups(i), configured).value),
                    Gather(lookups, i + 1, n, configured))
  {
    PrependMore(w, d, AnswerWrites(lookups(i), configured), OptionToSeq(Answer(lookups(i), configured).value),
                Gather(lookups, i + 1, n, configured));
  }

  lemma GatherFails(w: seq<Event>, d: seq<seq<byte>>, lookups: nat -> Lookup, i: nat, n: nat, configured: bool)
    requires i < n && Answer(lookups(i), configured).Err?
    ensures Prepend(w, d, Gather(lookups, i, n, configured))
         == Gathered(w + AnswerWrites(lookups(i), configured), Err(Answer(lookups(i), configured).error))
  {
  }

  lemma GatherEnds(w: seq<Event>, d: seq<seq<byte>>, lookups: nat -> Lookup, n: nat, configured: bool)
    ensures Prepend(w, d, Gather(lookups, n, n, configured)) == Gathered(w, Ok(d))
  {
    assert w + [] == w && d + [] == d;
  }

  // ----- What a response means -----

  /** Every identity from `i` on is answered. */
  predicate AllAnswered(lookups: nat -> Lookup, i: nat, n: nat, configured: bool) {
    forall j: nat :: i <= j < n ==> Answer(lookups(j), configured).Ok?
  }

  predicate AllAbsent(lookups: nat -> Lookup, i: nat, n: nat, configured: bool) {
    forall j: nat :: i <= j < n ==> Answer(lookups(j), configured) == Ok(None)
  }

  lemma {:induction false} GatherMeaning(lookups: nat -> Lookup, i: nat, n: nat, configured: bool)
    requires i <= n
    ensures Gather(lookups, i, n, configured).data.Ok? <==> AllAnswered(lookups, i, n, configured)
    ensures Gather(lookups, i, n, configured).data == Ok([]) <==> AllAbsent(lookups, i, n, configured)
    decreases n - i
  {
    if i < n {
      GatherMeaning(lookups, i + 1, n, configured);
      if Answer(lookups(i), configured).Ok? {
        assert AllAnswered(lookups, i, n, configured) <==> AllAnswered(lookups, i + 1, n, configured);
      }
      if Answer(lookups(i), configured) == Ok(None) {
        assert AllAbsent(lookups, i, n, configured) <==> AllAbsent(lookups, i + 1, n, configured);
      }
    }
  }

  /** 404: the transaction resolved, and every source that was asked said that it has nothing. */
  lemma NotFoundIff<R>(hash: string, w: TxWorld<R>, configured: bool, base58: Base58)
    ensures ByTx(hash, w, configured, base58).0 == NotFound <==>
            var resolved := ResolvedWithCache(hash, w, base58);
            && resolved.Ok?
            && AllAbsent(w.lookups, 0, |resolved.value|, configured)
            && (resolved.value == [] && configured ==> w.scanByTx == Ok([]))
  {
    var resolved := ResolvedWithCache(hash, w, base58);
    if resolved.Ok? { GatherMeaning(w.lookups, 0, |resolved.value|, configured); }
  }

  /** 500: something that was asked could not answer. */
  lemma InternalIff<R>(hash: string, w: TxWorld<R>, configured: bool, base58: Base58)
    ensures ByTx(hash, w, configured, base58).0 == Internal <==>
            var resolved := ResolvedWithCache(hash, w, base58);
            || resolved.Err?
            || !AllAnswered(w.lookups, 0, |resolved.value|, configured)
            || (resolved.value == [] && configured && w.scanByTx.Err?)
  {
    var resolved := ResolvedWithCache(hash, w, base58);
    if resolved.Ok? { GatherMeaning(w.lookups, 0, |resolved.value|, configured); }
  }

  function FamilyProbes<R>(hash: string, w: TxWorld<R>, base58: Base58): seq<Probe> {
    match ClassifyHash(hash, base58)
    case EvmHash => EvmProbes(w.evm, w.parse)
    case SvmHash => SvmProbes(w.svm)
    case UnknownHash => []
  }

  /**
   * No false 404, for every request: behind a 404 no VAA read and no wormholescan call failed; and if the resolution
   * was not cached, no chain probe either unless another chain was found to hold the transaction.
   */
  lemma NoFalseNotFound<R>(hash: string, w: TxWorld<R>, configured: bool, base58: Base58)
    requires ByTx(hash, w, configured, base58).0 == NotFound
    ensures ResolvedWithCache(hash, w, base58).Ok?
    ensures var rs := ResolvedWithCache(hash, w, base58).value;
            && (forall i: nat :: i < |rs| ==>
                  w.lookups(i).read == Ok(None) && (configured ==> w.lookups(i).scan == Ok(None)))
            && (rs == [] && configured ==> w.scanByTx == Ok([]))
    ensures var probes := FamilyProbes(hash, w, base58);
            !CacheHit(w) && AnyFailed(probes) ==> AnyMatch(probes)
  {
    NotFoundIff(hash, w, configured, base58);
    MissIffAllAnsweredEmpty(FamilyProbes(hash, w, base58));
    assert Resolved(hash, w, base58) == Outcome(FamilyProbes(hash, w, base58));
    var rs := ResolvedWithCache(hash, w, base58).value;
    forall i: nat | i < |rs|
      ensures w.lookups(i).read == Ok(None) && (configured ==> w.lookups(i).scan == Ok(None))
    {
      assert Answer(w.lookups(i), configured) == Ok(None);
    }
  }

  /**
   * A failed probe behind a 404, exactly: when some probe fails, the answer is a 404 if and only if another chain
   * holds the transaction and all of its messages are confirmed absent.
   */
  lemma FailedProbeBehindNotFoundIff<R>(hash: string, w: TxWorld<R>, configured: bool, base58: Base58)
    requires !CacheHit(w) && AnyFailed(FamilyProbes(hash, w, base58))
    ensures ByTx(hash, w, configured, base58).0 == NotFound <==>
            var probes := FamilyProbes(hash, w, base58);
            AnyMatch(probes) && AllAbsent(w.lookups, 0, |FirstMatch(probes)|, configured)
  {
    NotFoundIff(hash, w, configured, base58);
    assert Resolved(hash, w, base58) == Outcome(FamilyProbes(hash, w, base58));
  }

  /** One chain's node is down, another reports one message, and both sources confirm that its VAA is absent. */
  function PartlyDown(): TxWorld<Resolution> {
    TxWorld(Ok(None),
            [Completed(EvmTarget("", 2), Err("timeout")),
             Completed(EvmTarget("", 30), Ok(Some(Resolution(30, Zero32(), 1))))],
            (r, core, chain) => [r], [], true, i => Lookup(Ok(None), Ok(None), true), Ok([]), i => true)
  }

  /** So a 404 does not promise that every probe succeeded. */
  lemma NotFoundDespiteFailedProbe(base58: Base58)
    ensures var hash, w := Zeros(64), PartlyDown();
            && AnyFailed(FamilyProbes(hash, w, base58))
            && ByTx(hash, w, true, base58).0 == NotFound
  {
    var hash, w := Zeros(64), PartlyDown();
    TrimCompact(hash);
    assert !("0x" <= hash) && !("0X" <= hash) by { assert hash[1] == '0'; }
    assert ClassifyHash(hash, base58) == EvmHash;
    var probes := EvmProbes(w.evm, w.parse);
    assert probes[0] == ProbeFailed;
    assert IsMatch(probes[1]);
    FailedProbeBehindNotFoundIff(hash, w, true, base58);
  }

  // ----- Polling -----

  function IdOfResolution(r: Resolution): VaaId { VaaId(r.chain, r.emitter, r.sequence) }

  /** The lookups read the store as it is in `m`. */
  ghost predicate Reads(lookups: nat -> Lookup, rs: seq<Resolution>, m: Entries) {
    forall i: nat :: i < |rs| ==> lookups(i).read == Ok(LookupVaa(m, IdOfResolution(rs[i])))
  }

  predicate AllStored(rs: seq<Resolution>, m: Entries) {
    forall i :: 0 <= i < |rs| ==> LookupVaa(m, IdOfResolution(rs[i])).Some?
  }

  function StoredBytes(rs: seq<Resolution>, m: Entries): (r: seq<seq<byte>>)
    requires AllStored(rs, m)
    ensures |r| == |rs| && forall i :: 0 <= i < |rs| ==> LookupVaa(m, IdOfResolution(rs[i])) == Some(r[i])
  {
    seq(|rs|, i requires 0 <= i < |rs| => LookupVaa(m, IdOfResolution(rs[i])).value)
  }

  lemma GatherFound(lookups: nat -> Lookup, i: nat, n: nat, found: seq<byte>, rest: seq<seq<byte>>, configured: bool)
    requires i < n && lookups(i).read == Ok(Some(found))
    requires Gather(lookups, i + 1, n, configured) == Gathered([], Ok(rest))
    ensures Gather(lookups, i, n, configured) == Gathered([], Ok([found] + rest))
  {
  }

  lemma GatherOneStored(lookups: nat -> Lookup, rs: seq<Resolution>, i: nat, m: Entries, configured: bool)
    requires i < |rs| && Reads(lookups, rs, m) && AllStored(rs, m)
    requires Gather(lookups, i + 1, |rs|, configured) == Gathered([], Ok(StoredBytes(rs, m)[i + 1..]))
    ensures Gather(lookups, i, |rs|, configured) == Gathered([], Ok(StoredBytes(rs, m)[i..]))
  {
    var all := StoredBytes(rs, m);
    assert lookups(i).read == Ok(LookupVaa(m, IdOfResolution(rs[i])));
    GatherFound(lookups, i, |rs|, all[i], all[i + 1..], configured);
    Tail(all, i);
  }

  lemma Tail<T>(s: seq<T>, i: nat)
    requires i < |s|
    ensures s[i..] == [s[i]] + s[i + 1..]
  {
  }

  lemma {:induction false} GatherStored(lookups: nat -> Lookup, rs: seq<Resolution>, i: nat, m: Entries, configured: bool)
    requires i <= |rs| && Reads(lookups, rs, m) && AllStored(rs, m)
    ensures Gather(lookups, i, |rs|, configured) == Gathered([], Ok(StoredBytes(rs, m)[i..]))
    decreases |rs| - i
  {
    if i < |rs| {
      GatherStored(lookups, rs, i + 1, m, configured);
      GatherOneStored(lookups, rs, i, m, configured);
    } else {
      assert StoredBytes(rs, m)[i..] == [];
    }
  }

  /**
   * A relayer that polls is served in the end: once all messages of a resolved transaction are in the store, the
   * next poll reads the cached resolution and answers with exactly those messages, in order, each under its own
   * triple, with no chain probe and no call to wormholescan.
   */
  lemma PollSucceeds<R>(past: seq<Event>, hash: string, w: TxWorld<R>, rs: seq<Resolution>, configured: bool, base58: Base58)
    requires var m := Exec(map[], past, base58);
             && LookupTxres(m, hash, base58) == Some(rs) && AllStored(rs, m)
             && w.cacheRead.Ok? && w.cacheRead.value.Some? && rs == ToResolutions(w.cacheRead.value.value, base58)
             && Reads(w.lookups, rs, m)
    ensures var (response, writes) := ByTx(hash, w, configured, base58);
            && response.Found? && |response.data| == |rs| && writes == []
            && forall i :: 0 <= i < |rs| ==> ParseVaaId(response.data[i]) == Ok(IdOfResolution(rs[i]))
  {
    var m := Exec(map[], past, base58);
    CacheHitIsEarlierAnswer(past, hash, base58);
    GatherStored(w.lookups, rs, 0, m, configured);
    assert StoredBytes(rs, m)[0..] == StoredBytes(rs, m);
    ExecKeepsAgreement(map[], past, base58);
    forall i | 0 <= i < |rs| ensures ParseVaaId(StoredBytes(rs, m)[i]) == Ok(IdOfResolution(rs[i])) {
      AgreementServes(m, IdOfResolution(rs[i]));
    }
  }

  /**
   * The gap heals itself: after a request served by wormholescan with the VAA that was asked for, the store has it,
   * so until it expires the same request is answered without wormholescan, even if that is down.
   */
  lemma FallbackHeals(past: seq<Event>, id: VaaId, l: Lookup, later: seq<Event>, next: Lookup, base58: Base58)
    requires l.read == Ok(None) && l.scan.Ok? && l.scan.value.Some? && l.lands
    requires ParseVaaId(l.scan.value.value) == Ok(id) && Expire(KeyOf(id)) !in later
    requires next.read == Ok(LookupVaa(Exec(map[], past + AnswerWrites(l, true) + later, base58), id))
    ensures Answer(next, true).Ok? && Answer(next, true).value.Some? && AnswerWrites(next, true) == []
    ensures ParseVaaId(Answer(next, true).value.value) == Ok(id)
  {
    var e := CacheVaa(l.scan.value.value, true);
    ExecSplits(map[], past + AnswerWrites(l, true), later, base58);
    ExecSplits(map[], past, [e], base58);
    ExecOne(Exec(map[], past, base58), e, base58);
    var healed := Exec(map[], past + [e], base58);
    assert LookupVaa(healed, id) == Some(l.scan.value.value);
    StaysFound(healed, later, id, base58);
    StoreAgreement(past + AnswerWrites(l, true) + later, id, base58);
  }

  lemma {:induction false} GatherWritesVaas(lookups: nat -> Lookup, i: nat, n: nat, configured: bool)
    requires i <= n
    ensures forall e :: e in Gather(lookups, i, n, configured).writes ==> e.CacheVaa?
    decreases n - i
  {
    if i < n { GatherWritesVaas(lookups, i + 1, n, configured); }
  }

  /**
   * Later polls skip the chains: once a request has resolved its transaction and the cache write lands, that answer is
   * found under every spelling of the transaction until it expires or is cached anew.
   */
  lemma ResolutionIsCached<R>(past: seq<Event>, hash: string, w: TxWorld<R>, rs: seq<Resolution>, other: string,
                              later: seq<Event>, configured: bool, base58: Base58)
    requires w.cacheRead.Err? || w.cacheRead.value.None?
    requires Resolved(hash, w, base58) == Ok(rs) && rs != [] && w.cacheLands && SameTransaction(hash, other, base58)
    requires forall i :: 0 <= i < |later| ==> Spares(later[i], other, base58)
    ensures LookupTxres(Exec(map[], past + ByTx(hash, w, configured, base58).1 + later, base58), other, base58) == Some(rs)
  {
    var gathered := Gather(w.lookups, 0, |rs|, configured).writes;
    ResolvingWrites(hash, w, rs, configured, base58);
    GatherWritesVaas(w.lookups, 0, |rs|, configured);
    VaasSpare(gathered, later, other, base58);
    Regrouped(past, CacheResolution(hash, rs, true), gathered, later);
    CachedInRunIsFound(past, hash, rs, other, gathered + later, base58);
  }

  lemma Regrouped<T>(a: seq<T>, x: T, b: seq<T>, c: seq<T>)
    ensures a + ([x] + b) + c == a + ([x] + (b + c))
  {
  }

  lemma VaasSpare(vaas: seq<Event>, later: seq<Event>, hash: string, base58: Base58)
    requires forall e :: e in vaas ==> e.CacheVaa?
    requires forall i :: 0 <= i < |later| ==> Spares(later[i], hash, base58)
    ensures forall i :: 0 <= i < |vaas + later| ==> Spares((vaas + later)[i], hash, base58)
  {
    forall i | 0 <= i < |vaas + later| ensures Spares((vaas + later)[i], hash, base58) {
      if i < |vaas| {
        assert vaas[i] in vaas;
      } else {
        assert (vaas + later)[i] == later[i - |vaas|];
      }
    }
  }

  lemma ResolvingWrites<R>(hash: string, w: TxWorld<R>, rs: seq<Resolution>, configured: bool, base58: Base58)
    requires w.cacheRead.Err? || w.cacheRead.value.None?
    requires Resolved(hash, w, base58) == Ok(rs) && rs != [] && w.cacheLands
    ensures ByTx(hash, w, configured, base58).1
         == [CacheResolution(hash, rs, true)] + Gather(w.lookups, 0, |rs|, configured).writes
  {
    assert ResolveWrites(hash, w, base58) == [CacheResolution(hash, rs, true)];
    WritesOfResolved(hash, w, rs, configured, base58);
  }

  lemma WritesOfResolved<R>(hash: string, w: TxWorld<R>, rs: seq<Resolution>, configured: bool, base58: Base58)
    requires ResolvedWithCache(hash, w, base58) == Ok(rs) && rs != []
    ensures ByTx(hash, w, configured, base58).1
         == ResolveWrites(hash, w, base58) + Gather(w.lookups, 0, |rs|, configured).writes
  {
    RespondWrites(rs, ResolveWrites(hash, w, base58), Gather(w.lookups, 0, |rs|, configured), w, configured);
  }

  lemma RespondWrites<R>(rs: seq<Resolution>, writes: seq<Event>, g: Gathered, w: TxWorld<R>, configured: bool)
    requires rs != []
    ensures Respond(rs, writes, g, w, configured).1 == writes + g.writes
  {
  }

  lemma {:induction false} ScanWriteIsFound(m: Entries, vaas: seq<seq<byte>>, lands: nat -> bool, i: nat, id: VaaId,
                                            base58: Base58)
    requires i < |vaas| && lands(i) && ParseVaaId(vaas[i]) == Ok(id)
    ensures LookupVaa(Exec(m, ScanWrites(vaas, lands), base58), id).Some?
  {
    var writes := ScanWrites(vaas, lands);
    var before := Exec(m, writes[..i], base58);
    assert writes == writes[..i] + ([writes[i]] + writes[i + 1..]);
    ExecSplits(m, writes[..i], [writes[i]] + writes[i + 1..], base58);
    ExecSplits(before, [writes[i]], writes[i + 1..], base58);
    ExecOne(before, writes[i], base58);
    StaysFound(Step(before, writes[i], base58), writes[i + 1..], id, base58);
  }

  /**
   * A transaction that the resolver does not know is answered by wormholescan with all that it holds, in its order; and
   * every VAA of it whose write lands is found under its triple until that expires.
   */
  lemma ScanAnswerHeals<R>(past: seq<Event>, hash: string, w: TxWorld<R>, vaas: seq<seq<byte>>, i: nat, id: VaaId,
                           later: seq<Event>, base58: Base58)
    requires ResolvedWithCache(hash, w, base58) == Ok([]) && w.scanByTx == Ok(vaas) && i < |vaas|
    requires w.scanLands(i) && ParseVaaId(vaas[i]) == Ok(id) && Expire(KeyOf(id)) !in later
    ensures var (response, writes) := ByTx(hash, w, true, base58);
            && response == Found(vaas)
            && LookupVaa(Exec(map[], past + writes + later, base58), id).Some?
            && ParseVaaId(LookupVaa(Exec(map[], past + writes + later, base58), id).value) == Ok(id)
  {
    var writes := ByTx(hash, w, true, base58).1;
    var start := Exec(map[], past, base58);
    assert writes == ScanWrites(vaas, w.scanLands);
    assert past + writes + later == past + (writes + later);
    ExecSplits(map[], past, writes + later, base58);
    ExecSplits(start, writes, later, base58);
    ScanWriteIsFound(start, vaas, w.scanLands, i, id, base58);
    StaysFound(Exec(start, writes, base58), later, id, base58);
    StoreAgreement(past + writes + later, id, base58);
  }

  // ----- Genuine answers -----

  /** The lookup read the store as the run `past` left it, if it read it at all. */
  ghost predicate ReadsRun(l: Lookup, past: seq<Event>, id: VaaId, base58: Base58) {
    l.read.Ok? ==> l.read == Ok(LookupVaa(Exec(map[], past, base58), id))
  }

  /** Where the answer comes from can be trusted: the last write of the stored VAA, or wormholescan's reply. */
  predicate SourceGenuine(l: Lookup, past: seq<Event>, id: VaaId) {
    if l.read == Ok(None) then l.scan.Ok? && l.scan.value.Some? && Genuine(l.scan.value.value, id)
    else !SpoiledBy(LastWrite(past, id))
  }

  /**
   * A VAA that is served under a triple carries that triple and signatures if and only if its source does: in the
   * store everything but an unsigned write of the fallback, outside whatever wormholescan replied.
   */
  lemma ServedGenuineIff(past: seq<Event>, id: VaaId, l: Lookup, configured: bool, base58: Base58)
    requires ReadsRun(l, past, id, base58)
    requires Answer(l, configured).Ok? && Answer(l, configured).value.Some?
    ensures Genuine(Answer(l, configured).value.value, id) <==> SourceGenuine(l, past, id)
  {
    if l.read != Ok(None) { StoredGenuineIff(past, id, base58); }
  }

  /** The identities that have an answer, from the `i`-th on. */
  function ServedIds(lookups: nat -> Lookup, rs: seq<Resolution>, i: nat, configured: bool): seq<VaaId>
    requires i <= |rs|
    decreases |rs| - i
  {
    if i == |rs| then []
    else
      var answer := Answer(lookups(i), configured);
      (if answer.Ok? && answer.value.Some? then [IdOfResolution(rs[i])] else []) + ServedIds(lookups, rs, i + 1, configured)
  }

  /** The data is that of the identities, one for one, each with signatures. */
  predicate AllGenuine(data: seq<seq<byte>>, ids: seq<VaaId>) {
    if data == [] || ids == [] then data == [] && ids == []
    else Genuine(data[0], ids[0]) && AllGenuine(data[1..], ids[1..])
  }

  lemma {:induction false} AllGenuineMeans(data: seq<seq<byte>>, ids: seq<VaaId>)
    ensures AllGenuine(data, ids) <==> |data| == |ids| && forall k :: 0 <= k < |data| ==> Genuine(data[k], ids[k])
  {
    if data != [] && ids != [] {
      AllGenuineMeans(data[1..], ids[1..]);
      assert |data| == |ids| ==> forall k :: 1 <= k < |data| ==> data[k] == data[1..][k - 1] && ids[k] == ids[1..][k - 1];
    }
  }

  predicate Answered(lookups: nat -> Lookup, i: nat, configured: bool) {
    Answer(lookups(i), configured).Ok? && Answer(lookups(i), configured).value.Some?
  }

  /** Every source that is asked from the `i`-th identity on. */
  predicate SourcesGenuine(lookups: nat -> Lookup, rs: seq<Resolution>, i: nat, configured: bool, past: seq<Event>)
    requires i <= |rs|
    decreases |rs| - i
  {
    i < |rs| ==>
      && (Answered(lookups, i, configured) ==> SourceGenuine(lookups(i), past, IdOfResolution(rs[i])))
      && SourcesGenuine(lookups, rs, i + 1, configured, past)
  }

  lemma {:induction false} SourcesGenuineMeans(lookups: nat -> Lookup, rs: seq<Resolution>, i: nat, configured: bool,
                                               past: seq<Event>)
    requires i <= |rs|
    ensures SourcesGenuine(lookups, rs, i, configured, past) <==>
            forall j: nat :: i <= j < |rs| && Answered(lookups, j, configured) ==>
              SourceGenuine(lookups(j), past, IdOfResolution(rs[j]))
    decreases |rs| - i
  {
    if i < |rs| { SourcesGenuineMeans(lookups, rs, i + 1, configured, past); }
  }

  lemma AllGenuineCons(b: seq<byte>, id: VaaId, data: seq<seq<byte>>, ids: seq<VaaId>)
    ensures AllGenuine([b] + data, [id] + ids) <==> Genuine(b, id) && AllGenuine(data, ids)
  {
    assert ([b] + data)[1..] == data && ([id] + ids)[1..] == ids;
  }

  /** One more answer, if there is one, and its identity. */
  lemma AllGenuineStep(o: Option<seq<byte>>, id: VaaId, data: seq<seq<byte>>, ids: seq<VaaId>)
    ensures AllGenuine(OptionToSeq(o) + data, (if o.Some? then [id] else []) + ids) <==>
            (o.Some? ==> Genuine(o.value, id)) && AllGenuine(data, ids)
  {
    if o.Some? {
      AllGenuineCons(o.value, id, data, ids);
    } else {
      assert [] + data == data && [] + ids == ids;
    }
  }

  lemma ServedIdsStep(lookups: nat -> Lookup, rs: seq<Resolution>, i: nat, configured: bool)
    requires i < |rs| && Answer(lookups(i), configured).Ok?
    ensures ServedIds(lookups, rs, i, configured)
         == (if Answer(lookups(i), configured).value.Some? then [IdOfResolution(rs[i])] else [])
            + ServedIds(lookups, rs, i + 1, configured)
  {
  }

  lemma GatherData(lookups: nat -> Lookup, i: nat, n: nat, configured: bool)
    requires i < n && Gather(lookups, i, n, configured).data.Ok?
    ensures Answer(lookups(i), configured).Ok? && Gather(lookups, i + 1, n, configured).data.Ok?
    ensures Gather(lookups, i, n, configured).data.value
         == OptionToSeq(Answer(lookups(i), configured).value) + Gather(lookups, i + 1, n, configured).data.value
  {
  }

  /** From the `i`-th identity on, the data, if all are answered, is genuine exactly when its sources are. */
  predicate GenuineFrom(past: seq<Event>, lookups: nat -> Lookup, rs: seq<Resolution>, i: nat, configured: bool)
    requires i <= |rs|
  {
    var gathered, ids := Gather(lookups, i, |rs|, configured).data, ServedIds(lookups, rs, i, configured);
    gathered.Ok? ==> (AllGenuine(gathered.value, ids) <==> SourcesGenuine(lookups, rs, i, configured, past))
  }

  ghost predicate ReadsRuns(lookups: nat -> Lookup, rs: seq<Resolution>, past: seq<Event>, base58: Base58) {
    forall j: nat {:trigger ReadsRun(lookups(j), past, IdOfResolution(rs[j]), base58)} ::
      j < |rs| ==> ReadsRun(lookups(j), past, IdOfResolution(rs[j]), base58)
  }

  lemma GenuineFromStep(past: seq<Event>, lookups: nat -> Lookup, rs: seq<Resolution>, i: nat, configured: bool, base58: Base58)
    requires i < |rs| && ReadsRuns(lookups, rs, past, base58)
    requires GenuineFrom(past, lookups, rs, i + 1, configured)
    ensures GenuineFrom(past, lookups, rs, i, configured)
  {
    if Gather(lookups, i, |rs|, configured).data.Ok? {
      GatherData(lookups, i, |rs|, configured);
      var data, ids := Gather(lookups, i + 1, |rs|, configured).data.value, ServedIds(lookups, rs, i + 1, configured);
      var answer, id := Answer(lookups(i), configured).value, IdOfResolution(rs[i]);
      AllGenuineStep(answer, id, data, ids);
      ServedIdsStep(lookups, rs, i, configured);
      assert ReadsRun(lookups(i), past, id, base58);
      if answer.Some? { ServedGenuineIff(past, id, lookups(i), configured, base58); }
    }
  }

  lemma GenuineFromEnd(past: seq<Event>, lookups: nat -> Lookup, rs: seq<Resolution>, configured: bool)
    ensures GenuineFrom(past, lookups, rs, |rs|, configured)
  {
  }

  lemma {:induction false} GatherGenuineIff(past: seq<Event>, lookups: nat -> Lookup, rs: seq<Resolution>, i: nat,
                                            configured: bool, base58: Base58)
    requires i <= |rs| && ReadsRuns(lookups, rs, past, base58)
    ensures GenuineFrom(past, lookups, rs, i, configured)
    decreases |rs| - i
  {
    if i == |rs| {
      GenuineFromEnd(past, lookups, rs, configured);
    } else {
      GatherGenuineIff(past, lookups, rs, i + 1, configured, base58);
      GenuineFromStep(past, lookups, rs, i, configured, base58);
    }
  }

  /**
   * 200 with real, fully signed VAAs, exactly: the answer to a resolved transaction carries the triples asked for, in
   * order, each with signatures, if and only if no source of it spoils that.
   */
  lemma FoundGenuineIff<R>(past: seq<Event>, hash: string, w: TxWorld<R>, configured: bool, base58: Base58)
    requires ByTx(hash, w, configured, base58).0.Found? && ResolvedWithCache(hash, w, base58).value != []
    requires ReadsRuns(w.lookups, ResolvedWithCache(hash, w, base58).value, past, base58)
    ensures var rs := ResolvedWithCache(hash, w, base58).value;
            AllGenuine(ByTx(hash, w, configured, base58).0.data, ServedIds(w.lookups, rs, 0, configured)) <==>
            SourcesGenuine(w.lookups, rs, 0, configured, past)
  {
    GatherGenuineIff(past, w.lookups, ResolvedWithCache(hash, w, base58).value, 0, configured, base58);
  }
}
