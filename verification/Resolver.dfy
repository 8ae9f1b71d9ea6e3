/** From a transaction hash to Wormhole message identities (wormhole-vaa-api/src/resolver/mod.rs). */
module Resolver {
  import opened Wrappers
  import opened Text
  import opened Bytes
  import opened Address
  import opened SolanaLogs

  // ----- Hashes -----

  datatype HashShape = EvmHash | SvmHash | UnknownHash

  type Base58 = string -> Option<seq<byte>>

  predicate IsEvmText(h: string) { |Strip0x(h)| == 64 && AllHex(Strip0x(h)) }

  function ClassifyHash(hash: string, base58: Base58): HashShape {
    var h := Trim(hash);
    if IsEvmText(h) then EvmHash
    else if 40 <= |h| <= 100 && base58(h).Some? && |base58(h).value| == 64 then SvmHash
    else UnknownHash
  }

  function NormalizeHash(hash: string, base58: Base58): string {
    var h := Trim(hash);
    TrimTwice(hash);
    if ClassifyHash(h, base58) == EvmHash then LowerHex(Strip0x(h)) else h
  }

  lemma {:induction false} TrimStartSettles(s: string)
    ensures TrimStart(s) == "" || !IsWhiteSpace(TrimStart(s)[0])
  {
    if s != "" && IsWhiteSpace(s[0]) { TrimStartSettles(s[1..]); }
  }

  lemma {:induction false} TrimEndSettles(s: string)
    ensures TrimEnd(s) <= s
    ensures TrimEnd(s) == "" || !IsWhiteSpace(TrimEnd(s)[|TrimEnd(s)| - 1])
  {
    if s != "" && IsWhiteSpace(s[|s| - 1]) { TrimEndSettles(s[..|s| - 1]); }
  }

  lemma TrimTwice(s: string)
    ensures Trim(Trim(s)) == Trim(s)
  {
    TrimStartSettles(s);
    TrimEndSettles(TrimStart(s));
  }

  lemma EvmKey(hash: string, base58: Base58)
    requires ClassifyHash(hash, base58) == EvmHash
    ensures IsEvmText(Trim(hash))
    ensures NormalizeHash(hash, base58) == LowerHex(Strip0x(Trim(hash)))
    ensures ClassifyHash(NormalizeHash(hash, base58), base58) == EvmHash
    ensures NormalizeHash(NormalizeHash(hash, base58), base58) == NormalizeHash(hash, base58)
  {
    TrimTwice(hash);
    var key := NormalizeHash(hash, base58);
    LowerHexIsPlain(key);
    LowerHexFixed(key);
  }

  lemma {:induction false} LowerHexFixed(s: string)
    requires AllLowerHex(s)
    ensures AllHex(s) && LowerHex(s) == s
  {
    if s != "" { LowerHexFixed(s[1..]); }
  }

  lemma OtherKey(hash: string, base58: Base58)
    requires ClassifyHash(hash, base58) != EvmHash
    ensures NormalizeHash(hash, base58) == Trim(hash)
    ensures ClassifyHash(Trim(hash), base58) == ClassifyHash(hash, base58)
  {
    TrimTwice(hash);
  }

  /** The cache key keeps the shape of the hash and is its own normal form. */
  lemma NormalizeKeepsShape(hash: string, base58: Base58)
    ensures ClassifyHash(NormalizeHash(hash, base58), base58) == ClassifyHash(hash, base58)
    ensures NormalizeHash(NormalizeHash(hash, base58), base58) == NormalizeHash(hash, base58)
  {
    TrimTwice(hash);
    if ClassifyHash(hash, base58) == EvmHash { EvmKey(hash, base58); } else { OtherKey(hash, base58); }
  }

  /** Two spellings name one transaction: the same 256-bit number, or the same text for a hash of another shape. */
  ghost predicate SameTransaction(a: string, b: string, base58: Base58) {
    ClassifyHash(a, base58) == ClassifyHash(b, base58)
    && if IsEvmText(Trim(a)) && IsEvmText(Trim(b))
       then HexValue(Strip0x(Trim(a))) == HexValue(Strip0x(Trim(b)))
       else Trim(a) == Trim(b)
  }

  /** Hashes share a cache key exactly when they name one transaction. */
  lemma SameKeyIffSameTransaction(a: string, b: string, base58: Base58)
    ensures NormalizeHash(a, base58) == NormalizeHash(b, base58) <==> SameTransaction(a, b, base58)
  {
    NormalizeKeepsShape(a, base58);
    NormalizeKeepsShape(b, base58);
    if ClassifyHash(a, base58) == ClassifyHash(b, base58) {
      if ClassifyHash(a, base58) == EvmHash {
        EvmKey(a, base58);
        EvmKey(b, base58);
        LowerHexUnique(Strip0x(Trim(a)), Strip0x(Trim(b)));
      } else {
        OtherKey(a, base58);
        OtherKey(b, base58);
      }
    }
  }

  /** Every spelling of 64 hexadecimal digits is an EVM hash, cached under those digits in lower case. */
  lemma EvmHashSpelling(lead: string, prefix: string, digits: string, trail: string, base58: Base58)
    requires Blank(lead) && Blank(trail) && |digits| == 64 && AllHex(digits) && (IsPrefix0x(prefix) || prefix == "")
    ensures ClassifyHash(lead + ((prefix + digits) + trail), base58) == EvmHash
    ensures NormalizeHash(lead + ((prefix + digits) + trail), base58) == LowerHex(digits)
  {
    TrimAround(lead, prefix + digits, trail);
    if prefix == "" {
      assert prefix + digits == digits;
      assert IsHexDigit(digits[1]);
    } else {
      StripPrefix(prefix, digits);
    }
    EvmKey(lead + ((prefix + digits) + trail), base58);
  }

  /** Other text is a Solana signature exactly when it has 40 to 100 characters and decodes to 64 bytes. */
  lemma SvmHashIff(lead: string, text: string, trail: string, base58: Base58)
    requires Blank(lead) && Blank(trail) && Compact(text) && !("0x" <= text) && !("0X" <= text)
    requires text != "" && (|text| != 64 || exists i :: 0 <= i < |text| && !IsHexDigit(text[i]))
    ensures ClassifyHash(lead + (text + trail), base58) ==
            if 40 <= |text| <= 100 && base58(text).Some? && |base58(text).value| == 64 then SvmHash else UnknownHash
    ensures NormalizeHash(lead + (text + trail), base58) == text
  {
    TrimAround(lead, text, trail);
    OtherKey(lead + (text + trail), base58);
  }

  // ----- Probes -----

  /** What one chain said: the messages found in its answer, possibly none, or nothing usable. */
  datatype Probe = Answered(resolutions: seq<Resolution>) | ProbeFailed

  datatype ResolveError = ProbesFailed

  predicate IsMatch(p: Probe) { p.Answered? && p.resolutions != [] }

  predicate AnyMatch(probes: seq<Probe>) { exists i :: 0 <= i < |probes| && IsMatch(probes[i]) }

  predicate AnyFailed(probes: seq<Probe>) { ProbeFailed in probes }

  /** The messages of the first match, in completion order. */
  function FirstMatch(probes: seq<Probe>): (r: seq<Resolution>)
    ensures r != [] <==> AnyMatch(probes)
    ensures r != [] ==> exists i :: 0 <= i < |probes| && IsMatch(probes[i]) && probes[i].resolutions == r
  {
    if probes == [] then []
    else if IsMatch(probes[0]) then probes[0].resolutions
    else
      assert AnyMatch(probes[1..]) ==> AnyMatch(probes);
      FirstMatch(probes[1..])
  }

  /** A match if there is one, else a failure if there is one, else a definite miss. */
  function Outcome(probes: seq<Probe>): Result<seq<Resolution>, ResolveError> {
    if AnyMatch(probes) then Ok(FirstMatch(probes))
    else if AnyFailed(probes) then Err(ProbesFailed)
    else Ok([])
  }

  lemma {:induction false} FirstMatchOf(probes: seq<Probe>, i: nat)
    requires i < |probes| && IsMatch(probes[i]) && !AnyMatch(probes[..i])
    ensures FirstMatch(probes) == probes[i].resolutions
  {
    if i > 0 {
      assert !IsMatch(probes[..i][0]);
      var before := probes[1..][..i - 1];
      forall j | 0 <= j < |before| ensures !IsMatch(before[j]) {
        assert before[j] == probes[..i][j + 1];
      }
      FirstMatchOf(probes[1..], i - 1);
    }
  }

  datatype SvmTarget = SvmTarget(emitter: Emitter, whChainId: nat, programId: string)

  datatype EvmTarget = EvmTarget(coreHex: string, whChainId: nat)

  /** A probe that completed: the transport failed, the node answered `null`, or it answered with `body`. */
  datatype Completed<T, A> = Completed(target: T, answer: Result<Option<A>, string>)

  /** The log messages of a Solana transaction, if it has any. */
  type SvmTx = Option<seq<Option<string>>>

  function SvmProbe(c: Completed<SvmTarget, SvmTx>): Probe {
    match c.answer
    case Err(_) => ProbeFailed
    case Ok(None) => Answered([])
    case Ok(Some(logs)) =>
      if logs.None? then Answered([])
      else Answered(Stamp(Scan(Strings(logs.value), [], c.target.programId), c.target.whChainId, c.target.emitter))
  }

  function EvmProbe<R>(c: Completed<EvmTarget, R>, parse: (R, string, nat) -> seq<Resolution>): Probe {
    match c.answer
    case Err(_) => ProbeFailed
    case Ok(None) => Answered([])
    case Ok(Some(receipt)) => Answered(parse(receipt, c.target.coreHex, c.target.whChainId))
  }

  function SvmProbes(completed: seq<Completed<SvmTarget, SvmTx>>): (r: seq<Probe>)
    ensures |r| == |completed| && forall i :: 0 <= i < |r| ==> r[i] == SvmProbe(completed[i])
  {
    seq(|completed|, i requires 0 <= i < |completed| => SvmProbe(completed[i]))
  }

  function EvmProbes<R>(completed: seq<Completed<EvmTarget, R>>, parse: (R, string, nat) -> seq<Resolution>): (r: seq<Probe>)
    ensures |r| == |completed| && forall i :: 0 <= i < |r| ==> r[i] == EvmProbe(completed[i], parse)
  {
    seq(|completed|, i requires 0 <= i < |completed| => EvmProbe(completed[i], parse))
  }

  method ResolveEvm<R>(completed: seq<Completed<EvmTarget, R>>, parse: (R, string, nat) -> seq<Resolution>)
    returns (r: Result<seq<Resolution>, ResolveError>)
    ensures r == Outcome(EvmProbes(completed, parse))
  {
    ghost var probes := EvmProbes(completed, parse);
    if completed == [] { return Ok([]); }
    var anyErr := false;
    for i := 0 to |completed|
      invariant !AnyMatch(probes[..i])
      invariant anyErr <==> AnyFailed(probes[..i])
    {
      assert probes[..i + 1] == probes[..i] + [probes[i]];
      var c := completed[i];
      match c.answer {
        case Ok(None) =>
        case Ok(Some(receipt)) =>
          var resolutions := parse(receipt, c.target.coreHex, c.target.whChainId);
          if resolutions != [] {
            FirstMatchOf(probes, i);
            return Ok(resolutions);
          }
        case Err(_) => anyErr := true;
      }
    }
    assert probes[..|completed|] == probes;
    return if anyErr then Err(ProbesFailed) else Ok([]);
  }

  method ResolveSvm(completed: seq<Completed<SvmTarget, SvmTx>>) returns (r: Result<seq<Resolution>, ResolveError>)
    ensures r == Outcome(SvmProbes(completed))
  {
    ghost var probes := SvmProbes(completed);
    if completed == [] { return Ok([]); }
    var anyErr := false;
    for i := 0 to |completed|
      invariant !AnyMatch(probes[..i])
      invariant anyErr <==> AnyFailed(probes[..i])
    {
      assert probes[..i + 1] == probes[..i] + [probes[i]];
      var c := completed[i];
      match c.answer {
        case Ok(None) =>
        case Ok(Some(logs)) =>
          var resolutions := ParseTx(logs, c.target.whChainId, c.target.emitter, c.target.programId);
          if resolutions != [] {
            FirstMatchOf(probes, i);
            return Ok(resolutions);
          }
        case Err(_) => anyErr := true;
      }
    }
    assert probes[..|completed|] == probes;
    return if anyErr then Err(ProbesFailed) else Ok([]);
  }

  /**
   * The answer to an EVM hash, told by what the nodes said: the messages of a receipt that has some, no earlier
   * receipt having any; an error when no receipt has any and some node failed; otherwise no messages.
   */
  lemma EvmAnswerIs<R>(completed: seq<Completed<EvmTarget, R>>, parse: (R, string, nat) -> seq<Resolution>)
    ensures var none := forall i :: 0 <= i < |completed| && completed[i].answer.Ok? && completed[i].answer.value.Some? ==>
                          parse(completed[i].answer.value.value, completed[i].target.coreHex, completed[i].target.whChainId) == [];
            var failed := exists i :: 0 <= i < |completed| && completed[i].answer.Err?;
            && (Outcome(EvmProbes(completed, parse)).Err? <==> none && failed)
            && (Outcome(EvmProbes(completed, parse)) == Ok([]) <==> none && !failed)
  {
    var probes := EvmProbes(completed, parse);
    MissIffAllAnsweredEmpty(probes);
    if i :| 0 <= i < |completed| && completed[i].answer.Err? { assert probes[i] == ProbeFailed; }
    if i :| 0 <= i < |completed| && completed[i].answer.Ok? && completed[i].answer.value.Some? &&
            parse(completed[i].answer.value.value, completed[i].target.coreHex, completed[i].target.whChainId) != [] {
      assert IsMatch(probes[i]);
    }
  }

  /** The first receipt with messages decides. */
  lemma EvmMatchDecides<R>(completed: seq<Completed<EvmTarget, R>>, parse: (R, string, nat) -> seq<Resolution>, i: nat,
                           receipt: R)
    requires i < |completed| && completed[i].answer == Ok(Some(receipt))
    requires parse(receipt, completed[i].target.coreHex, completed[i].target.whChainId) != []
    requires forall j :: 0 <= j < i && completed[j].answer.Ok? && completed[j].answer.value.Some? ==>
               parse(completed[j].answer.value.value, completed[j].target.coreHex, completed[j].target.whChainId) == []
    ensures Outcome(EvmProbes(completed, parse))
         == Ok(parse(receipt, completed[i].target.coreHex, completed[i].target.whChainId))
  {
    var probes := EvmProbes(completed, parse);
    assert IsMatch(probes[i]);
    FirstMatchOf(probes, i);
  }

  predicate HasLogs(answer: Result<Option<SvmTx>, string>) {
    answer.Ok? && answer.value.Some? && answer.value.value.Some?
  }

  /** The same for a Solana signature, whose messages are the sequence numbers that its logs report. */
  lemma SvmAnswerIs(completed: seq<Completed<SvmTarget, SvmTx>>)
    ensures var none := forall i :: 0 <= i < |completed| && HasLogs(completed[i].answer) ==>
                          Scan(Strings(completed[i].answer.value.value.value), [], completed[i].target.programId) == [];
            var failed := exists i :: 0 <= i < |completed| && completed[i].answer.Err?;
            && (Outcome(SvmProbes(completed)).Err? <==> none && failed)
            && (Outcome(SvmProbes(completed)) == Ok([]) <==> none && !failed)
  {
    var probes := SvmProbes(completed);
    MissIffAllAnsweredEmpty(probes);
    forall i | 0 <= i < |completed|
      ensures probes[i] == ProbeFailed <==> completed[i].answer.Err?
      ensures IsMatch(probes[i]) <==>
                HasLogs(completed[i].answer) && Scan(Strings(completed[i].answer.value.value.value), [], completed[i].target.programId) != []
    {
      SvmProbeIs(completed[i]);
    }
  }

  lemma SvmProbeIs(c: Completed<SvmTarget, SvmTx>)
    ensures SvmProbe(c) == ProbeFailed <==> c.answer.Err?
    ensures IsMatch(SvmProbe(c)) <==>
              HasLogs(c.answer) && Scan(Strings(c.answer.value.value.value), [], c.target.programId) != []
  {
  }

  /** The first logs that report a sequence number decide; all that they report are stamped with their chain and emitter. */
  lemma SvmMatchDecides(completed: seq<Completed<SvmTarget, SvmTx>>, i: nat, logs: seq<Option<string>>, ns: seq<nat>)
    requires i < |completed| && completed[i].answer == Ok(Some(Some(logs)))
    requires ns == Scan(Strings(logs), [], completed[i].target.programId) && ns != []
    requires forall j :: 0 <= j < i && HasLogs(completed[j].answer) ==>
               Scan(Strings(completed[j].answer.value.value.value), [], completed[j].target.programId) == []
    ensures var r := Outcome(SvmProbes(completed));
            && r.Ok? && |r.value| == |ns|
            && forall k :: 0 <= k < |ns| ==>
                 r.value[k] == Resolution(completed[i].target.whChainId, completed[i].target.emitter, ns[k])
  {
    var probes := SvmProbes(completed);
    forall j | 0 <= j <= i ensures IsMatch(probes[j]) <==> j == i { SvmProbeIs(completed[j]); }
    FirstMatchOf(probes, i);
    SvmProbeStamps(completed[i], logs);
  }

  lemma SvmProbeStamps(c: Completed<SvmTarget, SvmTx>, logs: seq<Option<string>>)
    requires c.answer == Ok(Some(Some(logs)))
    ensures var ns, p := Scan(Strings(logs), [], c.target.programId), SvmProbe(c);
            && p.Answered? && |p.resolutions| == |ns|
            && forall k :: 0 <= k < |ns| ==> p.resolutions[k] == Resolution(c.target.whChainId, c.target.emitter, ns[k])
  {
  }

  // ----- Independence of the schedule -----

  /** All chains that match report the same messages; in particular when a hash lives on one chain only. */
  predicate OneAnswer(probes: seq<Probe>) {
    forall i, j :: 0 <= i < |probes| && 0 <= j < |probes| && IsMatch(probes[i]) && IsMatch(probes[j])
      ==> probes[i] == probes[j]
  }

  predicate Reorders(a: seq<Probe>, b: seq<Probe>) { multiset(a) == multiset(b) }

  lemma ReorderKeepsMembers(a: seq<Probe>, b: seq<Probe>, p: Probe)
    requires Reorders(a, b)
    ensures p in a <==> p in b
  {
    assert p in multiset(a) <==> p in multiset(b);
  }

  lemma ReorderKeepsOutcome(a: seq<Probe>, b: seq<Probe>)
    requires Reorders(a, b) && OneAnswer(a)
    ensures Outcome(a) == Outcome(b)
  {
    ReorderKeepsMembers(a, b, ProbeFailed);
    if AnyMatch(a) {
      var i :| 0 <= i < |a| && IsMatch(a[i]) && a[i].resolutions == FirstMatch(a);
      ReorderKeepsMembers(a, b, a[i]);
      var k :| 0 <= k < |b| && b[k] == a[i];
      assert AnyMatch(b);
      var j :| 0 <= j < |b| && IsMatch(b[j]) && b[j].resolutions == FirstMatch(b);
      ReorderKeepsMembers(a, b, b[j]);
      var l :| 0 <= l < |a| && a[l] == b[j];
      assert a[i] == a[l];
    } else if AnyMatch(b) {
      var j :| 0 <= j < |b| && IsMatch(b[j]);
      ReorderKeepsMembers(a, b, b[j]);
    }
  }

  /** The schedule in which probe `i` completes first. */
  function First(probes: seq<Probe>, i: nat): (r: seq<Probe>)
    requires i < |probes|
    ensures Reorders(probes, r)
  {
    assert probes == probes[..i] + ([probes[i]] + probes[i + 1..]);
    [probes[i]] + (probes[..i] + probes[i + 1..])
  }

  lemma FirstDecides(probes: seq<Probe>, i: nat)
    requires i < |probes| && IsMatch(probes[i])
    ensures Outcome(First(probes, i)) == Ok(probes[i].resolutions)
  {
    assert IsMatch(First(probes, i)[0]);
    FirstMatchOf(First(probes, i), 0);
  }

  ghost predicate ScheduleFree(probes: seq<Probe>) {
    forall other :: Reorders(probes, other) ==> Outcome(other) == Outcome(probes)
  }

  /** The completion order of the probes is irrelevant exactly when the matching chains agree. */
  lemma ScheduleFreeIffOneAnswer(probes: seq<Probe>)
    ensures ScheduleFree(probes) <==> OneAnswer(probes)
  {
    if OneAnswer(probes) {
      forall other | Reorders(probes, other) ensures Outcome(other) == Outcome(probes) {
        ReorderKeepsOutcome(probes, other);
      }
    } else {
      var i, j :| 0 <= i < |probes| && 0 <= j < |probes| && IsMatch(probes[i]) && IsMatch(probes[j]) && probes[i] != probes[j];
      FirstDecides(probes, i);
      FirstDecides(probes, j);
      assert Reorders(probes, First(probes, i)) && Reorders(probes, First(probes, j));
    }
  }

  /** A match already seen settles the answer, whatever the slower probes would have said. */
  lemma EarlyReturnIsSafe(seen: seq<Probe>, slower: seq<Probe>)
    requires AnyMatch(seen)
    ensures Outcome(seen + slower) == Outcome(seen)
  {
    var i :| 0 <= i < |seen| && IsMatch(seen[i]);
    assert IsMatch((seen + slower)[i]);
    FirstMatchOfPrefix(seen, slower);
  }

  lemma {:induction false} FirstMatchOfPrefix(seen: seq<Probe>, slower: seq<Probe>)
    requires AnyMatch(seen)
    ensures FirstMatch(seen + slower) == FirstMatch(seen)
  {
    if !IsMatch(seen[0]) {
      assert (seen + slower)[1..] == seen[1..] + slower;
      assert AnyMatch(seen[1..]);
      FirstMatchOfPrefix(seen[1..], slower);
    }
  }

  /** A definite miss means that every probe answered; a failed probe never hides behind one. */
  lemma MissIffAllAnsweredEmpty(probes: seq<Probe>)
    ensures Outcome(probes) == Ok([]) <==> forall i :: 0 <= i < |probes| ==> probes[i] == Answered([])
    ensures Outcome(probes).Err? <==> AnyFailed(probes) && !AnyMatch(probes)
  {
    if Outcome(probes) != Ok([]) {
      if AnyMatch(probes) {
        var i :| 0 <= i < |probes| && IsMatch(probes[i]);
        assert probes[i] != Answered([]);
      } else {
        assert ProbeFailed in probes;
      }
    }
  }
}
