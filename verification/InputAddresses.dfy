/**
 * The spending addresses of a UTXO transaction's inputs, by de-duplicated and batched lookups
 * (omni-relayer/src/utils/utxo.rs), against one lookup per input.
 */
module InputAddresses {
  import opened Wrappers
  import opened Chains
  import opened Batches

  const MAX_BATCH_SIZE: nat := 50

  datatype Vin = Vin(coinbase: Option<string>, txid: Option<string>, vout: Option<nat>)
  datatype RawTxVin = RawTxVin(vin: Option<seq<Vin>>)
  datatype Vout = Vout(address: Option<string>)
  datatype RawTxVout = RawTxVout(vout: seq<Vout>)
  datatype PrevOut = PrevOut(txid: string, vout: nat)
  datatype OmniAddress = OmniAddress(chain: ChainKind, address: string)

  datatype FetchError =
    | UnsupportedChain
    | VinMissing
    | IdOutOfRange(id: nat)
    | NodeError(txid: string)
    | NullResult(txid: string)
    | RequestFailed

  /** One answer of a JSON-RPC batch; `hasError` says whether it carries a non-null error. */
  datatype BatchEntry = BatchEntry(id: nat, result: Option<RawTxVout>, hasError: bool)

  type Outputs = map<string, RawTxVout>
  type Node = seq<string> -> Result<seq<BatchEntry>, FetchError>

  // ----- Collecting references -----

  predicate IsSpend(v: Vin) { v.coinbase.None? && v.txid.Some? && v.vout.Some? }

  /** The previous outputs the inputs spend, in input order. */
  function Refs(vin: seq<Vin>): seq<PrevOut> {
    if vin == [] then []
    else
      var last := vin[|vin| - 1];
      Refs(vin[..|vin| - 1]) + if IsSpend(last) then [PrevOut(last.txid.value, last.vout.value)] else []
  }

  /** Transaction ids at their first mention. */
  function Uniques(refs: seq<PrevOut>): seq<string> {
    if refs == [] then []
    else
      var earlier, txid := Uniques(refs[..|refs| - 1]), refs[|refs| - 1].txid;
      if txid in earlier then earlier else earlier + [txid]
  }

  lemma {:induction false} UniquesSpec(refs: seq<PrevOut>)
    ensures forall i, j :: 0 <= i < j < |Uniques(refs)| ==> Uniques(refs)[i] != Uniques(refs)[j]
    ensures forall t :: t in Uniques(refs) <==> exists i :: 0 <= i < |refs| && refs[i].txid == t
  {
    if refs != [] {
      var init := refs[..|refs| - 1];
      UniquesSpec(init);
      forall t ensures t in Uniques(refs) <==> exists i :: 0 <= i < |refs| && refs[i].txid == t {
        if t in Uniques(refs) {
          if t in Uniques(init) {
            var i :| 0 <= i < |init| && init[i].txid == t;
            assert refs[i].txid == t;
          } else {
            assert refs[|refs| - 1].txid == t;
          }
        } else {
          forall i | 0 <= i < |refs| ensures refs[i].txid != t {
            if i < |init| { assert init[i].txid == refs[i].txid; }
          }
        }
      }
    }
  }

  method CollectInputRefs(tx: RawTxVin) returns (r: Result<(seq<PrevOut>, seq<string>), FetchError>)
    ensures tx.vin.None? ==> r == Err(VinMissing)
    ensures tx.vin.Some? ==> r == Ok((Refs(tx.vin.value), Uniques(Refs(tx.vin.value))))
  {
    if tx.vin.None? { return Err(VinMissing); }
    var vin := tx.vin.value;
    var refs: seq<PrevOut>, uniques: seq<string> := [], [];
    for i := 0 to |vin|
      invariant refs == Refs(vin[..i]) && uniques == Uniques(refs)
    {
      var input := vin[i];
      assert vin[..i + 1][..i] == vin[..i];
      if input.coinbase.Some? { continue; }
      if input.txid.None? { continue; }
      if input.vout.None? { continue; }
      if input.txid.value !in uniques {
        uniques := uniques + [input.txid.value];
      }
      ghost var before := refs;
      refs := refs + [PrevOut(input.txid.value, input.vout.value)];
      assert refs[..|refs| - 1] == before;
    }
    assert vin[..|vin|] == vin;
    return Ok((refs, uniques));
  }

  // ----- One batch -----

  function Problem(txids: seq<string>, e: BatchEntry): Option<FetchError> {
    if e.id >= |txids| then Some(IdOutOfRange(e.id))
    else if e.result.Some? then None
    else if e.hasError then Some(NodeError(txids[e.id]))
    else Some(NullResult(txids[e.id]))
  }

  /** Answers by transaction id, or the first problem; a repeated id counts with its last answer. */
  function Index(txids: seq<string>, entries: seq<BatchEntry>): Result<Outputs, FetchError> {
    if entries == [] then Ok(map[])
    else
      match Index(txids, entries[..|entries| - 1])
      case Err(e) => Err(e)
      case Ok(m) =>
        var last := entries[|entries| - 1];
        var problem := Problem(txids, last);
        if problem.Some? then Err(problem.value) else Ok(m[txids[last.id] := last.result.value])
  }

  lemma {:induction false} IndexFailsAt(txids: seq<string>, entries: seq<BatchEntry>, i: nat)
    requires i < |entries| && Index(txids, entries[..i]).Ok? && Problem(txids, entries[i]).Some?
    ensures Index(txids, entries) == Err(Problem(txids, entries[i]).value)
    decreases |entries|
  {
    var init := entries[..|entries| - 1];
    if i == |entries| - 1 {
    } else {
      assert init[..i] == entries[..i];
      IndexFailsAt(txids, init, i);
    }
  }

  /** The first entry that is no answer decides the error. */
  lemma {:induction false} IndexErrorIs(txids: seq<string>, entries: seq<BatchEntry>, i: nat)
    requires i < |entries|
    requires forall j :: 0 <= j < i ==> entries[j].id < |txids| && entries[j].result.Some?
    ensures var e := entries[i];
            && (e.id >= |txids| ==> Index(txids, entries) == Err(IdOutOfRange(e.id)))
            && (e.id < |txids| && e.result.None? ==>
                  Index(txids, entries) == Err(if e.hasError then NodeError(txids[e.id]) else NullResult(txids[e.id])))
  {
    IndexOkIff(txids, entries[..i]);
    if entries[i].id >= |txids| || entries[i].result.None? { IndexFailsAt(txids, entries, i); }
  }

  method IndexBatchResponses(txids: seq<string>, entries: seq<BatchEntry>) returns (r: Result<Outputs, FetchError>)
    ensures r == Index(txids, entries)
  {
    var byTxid: Outputs := map[];
    for i := 0 to |entries|
      invariant Index(txids, entries[..i]) == Ok(byTxid)
    {
      var entry := entries[i];
      assert entries[..i + 1][..i] == entries[..i];
      if entry.id >= |txids| {
        IndexFailsAt(txids, entries, i);
        return Err(IdOutOfRange(entry.id));
      }
      var txid := txids[entry.id];
      if entry.result.None? {
        IndexFailsAt(txids, entries, i);
        if entry.hasError { return Err(NodeError(txid)); }
        return Err(NullResult(txid));
      }
      byTxid := byTxid[txid := entry.result.value];
    }
    assert entries[..|entries|] == entries;
    return Ok(byTxid);
  }

  // ----- All batches -----

  function Lookup(chunks: seq<seq<string>>, node: Node): Result<Outputs, FetchError> {
    if chunks == [] then Ok(map[])
    else
      var init, chunk := chunks[..|chunks| - 1], chunks[|chunks| - 1];
      match Lookup(init, node)
      case Err(e) => Err(e)
      case Ok(m) =>
        match node(chunk)
        case Err(e) => Err(e)
        case Ok(entries) =>
          match Index(chunk, entries)
          case Err(e) => Err(e)
          case Ok(more) => Ok(m + more)
  }

  lemma {:induction false} LookupFailsAt(chunks: seq<seq<string>>, node: Node, i: nat)
    requires i <= |chunks| && Lookup(chunks[..i], node).Err?
    ensures Lookup(chunks, node) == Lookup(chunks[..i], node)
    decreases |chunks|
  {
    if i == |chunks| {
      assert chunks[..i] == chunks;
    } else {
      var init := chunks[..|chunks| - 1];
      assert init[..i] == chunks[..i];
      LookupFailsAt(init, node, i);
    }
  }

  method GetRawTransactionsBatch(txids: seq<string>, node: Node) returns (r: Result<Outputs, FetchError>)
    ensures r == Lookup(Chunks(txids, MAX_BATCH_SIZE), node)
  {
    var byTxid: Outputs := map[];
    var chunks := Chunks(txids, MAX_BATCH_SIZE);
    for i := 0 to |chunks|
      invariant Lookup(chunks[..i], node) == Ok(byTxid)
    {
      var chunk := chunks[i];
      assert chunks[..i + 1][..i] == chunks[..i];
      var entries := node(chunk);
      if entries.Err? {
        LookupFailsAt(chunks, node, i + 1);
        return Err(entries.error);
      }
      var indexed := IndexBatchResponses(chunk, entries.value);
      if indexed.Err? {
        LookupFailsAt(chunks, node, i + 1);
        return Err(indexed.error);
      }
      byTxid := byTxid + indexed.value;
    }
    assert chunks[..|chunks|] == chunks;
    return Ok(byTxid);
  }

  // ----- Resolving -----

  /** The address behind one previous output, if it can be derived. */
  function AddressOf(chain: ChainKind, ref: PrevOut, outputs: Outputs): Option<OmniAddress> {
    if ref.txid !in outputs then None
    else if ref.vout >= |outputs[ref.txid].vout| then None
    else if outputs[ref.txid].vout[ref.vout].address.None? then None
    else if !IsUtxoChain(chain) then None
    else Some(OmniAddress(chain, outputs[ref.txid].vout[ref.vout].address.value))
  }

  /** One lookup per reference, in order. */
  function Resolve(chain: ChainKind, refs: seq<PrevOut>, outputs: Outputs): seq<OmniAddress> {
    if refs == [] then []
    else
      var a := AddressOf(chain, refs[|refs| - 1], outputs);
      Resolve(chain, refs[..|refs| - 1], outputs) + if a.Some? then [a.value] else []
  }

  method ResolveAddresses(chain: ChainKind, refs: seq<PrevOut>, outputs: Outputs) returns (addresses: seq<OmniAddress>)
    ensures addresses == Resolve(chain, refs, outputs)
    ensures chain != Btc && chain != Zcash ==> addresses == []
  {
    addresses := [];
    for i := 0 to |refs|
      invariant addresses == Resolve(chain, refs[..i], outputs)
      invariant chain != Btc && chain != Zcash ==> addresses == []
    {
      var ref := refs[i];
      assert refs[..i + 1][..i] == refs[..i];
      if ref.txid !in outputs { continue; }
      var tx := outputs[ref.txid];
      if ref.vout >= |tx.vout| { continue; }
      var address := tx.vout[ref.vout].address;
      if address.None? { continue; }
      if !IsUtxoChain(chain) { continue; }
      addresses := addresses + [OmniAddress(chain, address.value)];
    }
    assert refs[..|refs|] == refs;
  }

  /** The pipeline as a value. */
  function Fetched(chain: ChainKind, tx: Result<RawTxVin, FetchError>, node: Node): Result<seq<OmniAddress>, FetchError> {
    if !IsUtxoChain(chain) then Err(UnsupportedChain)
    else
      match tx
      case Err(e) => Err(e)
      case Ok(t) =>
        if t.vin.None? then Err(VinMissing)
        else
          var refs := Refs(t.vin.value);
          match Lookup(Chunks(Uniques(refs), MAX_BATCH_SIZE), node)
          case Err(e) => Err(e)
          case Ok(outputs) => Ok(Resolve(chain, refs, outputs))
  }

  /** `tx` is the node's answer for the transaction itself, `node` answers batches of previous transactions. */
  method FetchInputAddresses(chain: ChainKind, tx: Result<RawTxVin, FetchError>, node: Node)
    returns (r: Result<seq<OmniAddress>, FetchError>)
    ensures r == Fetched(chain, tx, node)
    ensures chain != Btc && chain != Zcash ==> r == Err(UnsupportedChain)
    ensures chain == Btc || chain == Zcash ==>
              && (tx.Err? ==> r == Err(tx.error))
              && (tx.Ok? && tx.value.vin.None? ==> r == Err(VinMissing))
  {
    if !IsUtxoChain(chain) { return Err(UnsupportedChain); }
    if tx.Err? { return Err(tx.error); }
    var collected := CollectInputRefs(tx.value);
    if collected.Err? { return Err(collected.error); }
    var (refs, uniques) := collected.value;
    var outputs := GetRawTransactionsBatch(uniques, node);
    if outputs.Err? { return Err(outputs.error); }
    var addresses := ResolveAddresses(chain, refs, outputs.value);
    return Ok(addresses);
  }

  lemma {:induction false} IndexOkIff(txids: seq<string>, entries: seq<BatchEntry>)
    ensures Index(txids, entries).Ok? <==> forall i :: 0 <= i < |entries| ==> Problem(txids, entries[i]).None?
  {
    if entries != [] {
      var init, last := entries[..|entries| - 1], entries[|entries| - 1];
      assert entries == init + [last];
      IndexOkIff(txids, init);
    }
  }

  /** The node answered the batch, every id is one of the batch, and every entry carries a result. */
  predicate Usable(txids: seq<string>, node: Node) {
    node(txids).Ok? && forall e :: e in node(txids).value ==> e.id < |txids| && e.result.Some?
  }

  lemma {:induction false} LookupOkIff(chunks: seq<seq<string>>, node: Node)
    ensures Lookup(chunks, node).Ok? <==> forall i :: 0 <= i < |chunks| ==> Usable(chunks[i], node)
  {
    if chunks != [] {
      var init, chunk := chunks[..|chunks| - 1], chunks[|chunks| - 1];
      assert chunks == init + [chunk];
      LookupOkIff(init, node);
      if node(chunk).Ok? { IndexOkIff(chunk, node(chunk).value); }
    }
  }

  /** All or nothing: a single unusable answer makes the whole pipeline fail, so screening never sees part of it. */
  lemma FetchSucceedsIff(chain: ChainKind, tx: Result<RawTxVin, FetchError>, node: Node)
    ensures Fetched(chain, tx, node).Ok? <==>
            && (chain == Btc || chain == Zcash) && tx.Ok? && tx.value.vin.Some?
            && forall c :: c in Chunks(Uniques(Refs(tx.value.vin.value)), MAX_BATCH_SIZE) ==> Usable(c, node)
  {
    if tx.Ok? && tx.value.vin.Some? {
      LookupOkIff(Chunks(Uniques(Refs(tx.value.vin.value)), MAX_BATCH_SIZE), node);
    }
  }

  // ----- Batched against naive -----

  /** The ledger gives output `v.vout` of transaction `v.txid` an address, and `v` is no coinbase input. */
  predicate HasAddress(v: Vin, ledger: Outputs) {
    && v.coinbase.None? && v.txid.Some? && v.vout.Some?
    && v.txid.value in ledger && v.vout.value < |ledger[v.txid.value].vout|
    && ledger[v.txid.value].vout[v.vout.value].address.Some?
  }

  /** The naive pipeline, on the ledger itself: the address of the output each input spends, in input order. */
  function Naive(chain: ChainKind, vin: seq<Vin>, ledger: Outputs): seq<OmniAddress> {
    if vin == [] then []
    else
      var v := vin[0];
      (if HasAddress(v, ledger)
       then [OmniAddress(chain, ledger[v.txid.value].vout[v.vout.value].address.value)] else [])
      + Naive(chain, vin[1..], ledger)
  }

  /** Every answer is about an id of the batch and tells what the ledger says. */
  predicate Truthful(ledger: Outputs, txids: seq<string>, entries: seq<BatchEntry>) {
    forall i :: 0 <= i < |entries| ==>
      && entries[i].id < |txids| && txids[entries[i].id] in ledger
      && entries[i].result == Some(ledger[txids[entries[i].id]])
  }

  predicate TruthfulNode(ledger: Outputs, chunks: seq<seq<string>>, node: Node) {
    forall i :: 0 <= i < |chunks| ==> node(chunks[i]).Ok? && Truthful(ledger, chunks[i], node(chunks[i]).value)
  }

  /** Every id of the batch is answered, in whatever order. */
  predicate Complete(txids: seq<string>, entries: seq<BatchEntry>) {
    forall k :: 0 <= k < |txids| ==> HasId(entries, k)
  }

  predicate HasId(entries: seq<BatchEntry>, k: nat) { exists i :: 0 <= i < |entries| && entries[i].id == k }

  predicate Answers(txids: seq<string>, entries: seq<BatchEntry>, txid: string) {
    exists i :: 0 <= i < |entries| && entries[i].id < |txids| && txids[entries[i].id] == txid
  }

  /** Some batch contains an answer about `txid`. */
  predicate Answered(chunks: seq<seq<string>>, node: Node, txid: string) {
    exists i :: 0 <= i < |chunks| && node(chunks[i]).Ok? && Answers(chunks[i], node(chunks[i]).value, txid)
  }

  lemma AnswersOneMore(txids: seq<string>, init: seq<BatchEntry>, last: BatchEntry, t: string)
    requires last.id < |txids|
    ensures Answers(txids, init + [last], t) <==> Answers(txids, init, t) || t == txids[last.id]
  {
    var entries := init + [last];
    assert entries[|init|] == last;
    if Answers(txids, init, t) {
      var i :| 0 <= i < |init| && init[i].id < |txids| && txids[init[i].id] == t;
      assert entries[i] == init[i];
    }
    if Answers(txids, entries, t) && t != txids[last.id] {
      var i :| 0 <= i < |entries| && entries[i].id < |txids| && txids[entries[i].id] == t;
      assert init[i] == entries[i];
    }
  }

  lemma {:induction false} IndexTruthful(ledger: Outputs, txids: seq<string>, entries: seq<BatchEntry>)
    requires Truthful(ledger, txids, entries)
    ensures Index(txids, entries).Ok?
    ensures forall t :: t in Index(txids, entries).value <==> Answers(txids, entries, t)
    ensures forall t :: t in Index(txids, entries).value ==> t in ledger && Index(txids, entries).value[t] == ledger[t]
  {
    if entries != [] {
      var init, last := entries[..|entries| - 1], entries[|entries| - 1];
      assert entries == init + [last];
      IndexTruthful(ledger, txids, init);
      forall t ensures Answers(txids, entries, t) <==> Answers(txids, init, t) || t == txids[last.id] {
        AnswersOneMore(txids, init, last, t);
      }
    }
  }

  lemma AnsweredOneMore(init: seq<seq<string>>, chunk: seq<string>, node: Node, t: string)
    requires node(chunk).Ok?
    ensures Answered(init + [chunk], node, t) <==> Answered(init, node, t) || Answers(chunk, node(chunk).value, t)
  {
    var chunks := init + [chunk];
    assert chunks[|init|] == chunk;
    if Answered(init, node, t) {
      var i :| 0 <= i < |init| && node(init[i]).Ok? && Answers(init[i], node(init[i]).value, t);
      assert chunks[i] == init[i];
    }
    if Answered(chunks, node, t) && !Answers(chunk, node(chunk).value, t) {
      var i :| 0 <= i < |chunks| && node(chunks[i]).Ok? && Answers(chunks[i], node(chunks[i]).value, t);
      assert init[i] == chunks[i];
    }
  }

  predicate AgreesWith(outputs: Outputs, ledger: Outputs) {
    forall t | t in outputs :: t in ledger && outputs[t] == ledger[t]
  }

  lemma {:induction false} LookupTruthful(ledger: Outputs, chunks: seq<seq<string>>, node: Node)
    requires TruthfulNode(ledger, chunks, node)
    ensures Lookup(chunks, node).Ok? && AgreesWith(Lookup(chunks, node).value, ledger)
    ensures forall t :: t in Lookup(chunks, node).value <==> Answered(chunks, node, t)
  {
    if chunks != [] {
      var init, chunk := chunks[..|chunks| - 1], chunks[|chunks| - 1];
      LookupTruthful(ledger, init, node);
      assert node(chunk).Ok? && Truthful(ledger, chunk, node(chunk).value);
      IndexTruthful(ledger, chunk, node(chunk).value);
      assert init + [chunk] == chunks;
      forall t ensures t in Lookup(chunks, node).value <==> Answered(chunks, node, t) {
        AnsweredOneMore(init, chunk, node, t);
      }
    }
  }

  lemma NaiveCons(chain: ChainKind, head: Vin, rest: seq<Vin>, ledger: Outputs)
    ensures Naive(chain, [head] + rest, ledger) == Naive(chain, [head], ledger) + Naive(chain, rest, ledger)
  {
    assert ([head] + rest)[1..] == rest;
    assert [head][1..] == [] && Naive(chain, [], ledger) == [];
  }

  lemma {:induction false} NaiveSnoc(chain: ChainKind, vin: seq<Vin>, last: Vin, ledger: Outputs)
    ensures Naive(chain, vin + [last], ledger) == Naive(chain, vin, ledger) + Naive(chain, [last], ledger)
  {
    if vin == [] {
      assert vin + [last] == [last];
    } else {
      var head, rest := vin[0], vin[1..];
      assert vin == [head] + rest && vin + [last] == [head] + (rest + [last]);
      NaiveSnoc(chain, rest, last, ledger);
      NaiveCons(chain, head, rest, ledger);
      NaiveCons(chain, head, rest + [last], ledger);
    }
  }

  lemma {:induction false} ResolveIsNaive(chain: ChainKind, vin: seq<Vin>, ledger: Outputs)
    requires chain == Btc || chain == Zcash
    ensures Resolve(chain, Refs(vin), ledger) == Naive(chain, vin, ledger)
  {
    if vin != [] {
      var init, last := vin[..|vin| - 1], vin[|vin| - 1];
      ResolveIsNaive(chain, init, ledger);
      NaiveSnoc(chain, init, last, ledger);
      assert init + [last] == vin;
      ResolveSnoc(chain, init, last, ledger);
    }
  }

  lemma ResolveSnoc(chain: ChainKind, init: seq<Vin>, last: Vin, ledger: Outputs)
    requires chain == Btc || chain == Zcash
    ensures Resolve(chain, Refs(init + [last]), ledger) == Resolve(chain, Refs(init), ledger) + Naive(chain, [last], ledger)
  {
    var vin := init + [last];
    assert vin[..|vin| - 1] == init;
    assert [last][1..] == [] && Naive(chain, [], ledger) == [];
    var refs := Refs(vin);
    if IsSpend(last) {
      assert refs[..|refs| - 1] == Refs(init);
    } else {
      assert refs == Refs(init);
    }
  }

  /** A reference whose address the ledger knows but no answer covered. */
  predicate Missed(chain: ChainKind, ref: PrevOut, part: Outputs, ledger: Outputs) {
    AddressOf(chain, ref, ledger).Some? && ref.txid !in part
  }

  lemma {:induction false} ResolvePart(chain: ChainKind, refs: seq<PrevOut>, part: Outputs, ledger: Outputs)
    requires AgreesWith(part, ledger)
    ensures |Resolve(chain, refs, part)| <= |Resolve(chain, refs, ledger)|
    ensures (forall i :: 0 <= i < |refs| ==> !Missed(chain, refs[i], part, ledger))
       ==> Resolve(chain, refs, part) == Resolve(chain, refs, ledger)
    ensures (exists i :: 0 <= i < |refs| && Missed(chain, refs[i], part, ledger))
       ==> |Resolve(chain, refs, part)| < |Resolve(chain, refs, ledger)|
  {
    if refs != [] {
      var init, last := refs[..|refs| - 1], refs[|refs| - 1];
      ResolvePart(chain, init, part, ledger);
      assert forall i :: 0 <= i < |init| ==> init[i] == refs[i];
      if exists i :: 0 <= i < |refs| && Missed(chain, refs[i], part, ledger) {
        var i :| 0 <= i < |refs| && Missed(chain, refs[i], part, ledger);
        assert i < |init| ==> Missed(chain, init[i], part, ledger);
      }
    }
  }

  /** An input whose address the ledger knows but no answer covered. */
  predicate Skipped(v: Vin, chunks: seq<seq<string>>, node: Node, ledger: Outputs) {
    HasAddress(v, ledger) && !Answered(chunks, node, v.txid.value)
  }

  lemma MissedIffSkipped(chain: ChainKind, vin: seq<Vin>, chunks: seq<seq<string>>, node: Node, part: Outputs, ledger: Outputs)
    requires chain == Btc || chain == Zcash
    requires forall t :: t in part <==> Answered(chunks, node, t)
    ensures (exists k :: 0 <= k < |Refs(vin)| && Missed(chain, Refs(vin)[k], part, ledger))
       <==> exists i :: 0 <= i < |vin| && Skipped(vin[i], chunks, node, ledger)
  {
    var refs := Refs(vin);
    if i :| 0 <= i < |vin| && Skipped(vin[i], chunks, node, ledger) {
      RefOfInput(vin, i);
      var k :| 0 <= k < |refs| && refs[k] == PrevOut(vin[i].txid.value, vin[i].vout.value);
      assert Missed(chain, refs[k], part, ledger);
    }
    if k :| 0 <= k < |refs| && Missed(chain, refs[k], part, ledger) {
      var i := InputOfRef(vin, k);
      assert Skipped(vin[i], chunks, node, ledger);
    }
  }

  /**
   * With truthful answers the pipeline succeeds, and it agrees with the naive one exactly when every input whose
   * address the ledger knows was answered for: an id the node leaves out silently drops that input's address.
   */
  lemma BatchedEqualsNaiveIff(chain: ChainKind, vin: seq<Vin>, ledger: Outputs, node: Node)
    requires chain == Btc || chain == Zcash
    requires TruthfulNode(ledger, Chunks(Uniques(Refs(vin)), MAX_BATCH_SIZE), node)
    ensures Fetched(chain, Ok(RawTxVin(Some(vin))), node).Ok?
    ensures Fetched(chain, Ok(RawTxVin(Some(vin))), node).value == Naive(chain, vin, ledger) <==>
            forall i :: 0 <= i < |vin| ==> !Skipped(vin[i], Chunks(Uniques(Refs(vin)), MAX_BATCH_SIZE), node, ledger)
  {
    var chunks := Chunks(Uniques(Refs(vin)), MAX_BATCH_SIZE);
    LookupTruthful(ledger, chunks, node);
    var part := Lookup(chunks, node).value;
    ResolveIsNaive(chain, vin, ledger);
    ResolvePart(chain, Refs(vin), part, ledger);
    MissedIffSkipped(chain, vin, chunks, node, part, ledger);
  }

  lemma {:induction false} RefOfInput(vin: seq<Vin>, i: nat)
    requires i < |vin| && vin[i].coinbase.None? && vin[i].txid.Some? && vin[i].vout.Some?
    ensures PrevOut(vin[i].txid.value, vin[i].vout.value) in Refs(vin)
  {
    if i < |vin| - 1 { RefOfInput(vin[..|vin| - 1], i); }
  }

  lemma {:induction false} InputOfRef(vin: seq<Vin>, k: nat) returns (i: nat)
    requires k < |Refs(vin)|
    ensures i < |vin| && vin[i].coinbase.None? && vin[i].txid.Some? && vin[i].vout.Some?
    ensures Refs(vin)[k] == PrevOut(vin[i].txid.value, vin[i].vout.value)
  {
    var init := vin[..|vin| - 1];
    if k < |Refs(init)| { i := InputOfRef(init, k); } else { i := |vin| - 1; }
  }

  lemma CompleteAnswers(refs: seq<PrevOut>, node: Node, i: nat)
    requires i < |refs|
    ensures var chunks := Chunks(Uniques(refs), MAX_BATCH_SIZE);
            (forall c :: c in chunks ==> node(c).Ok? && Complete(c, node(c).value)) ==> Answered(chunks, node, refs[i].txid)
  {
    var uniques, t := Uniques(refs), refs[i].txid;
    var chunks := Chunks(uniques, MAX_BATCH_SIZE);
    if forall c :: c in chunks ==> node(c).Ok? && Complete(c, node(c).value) {
      UniquesSpec(refs);
      ChunksPartition(uniques, MAX_BATCH_SIZE);
      var c := InSomeChunk(chunks, t);
      var k :| 0 <= k < |chunks[c]| && chunks[c][k] == t;
      assert chunks[c] in chunks;
      assert HasId(node(chunks[c]).value, k);
      assert Answers(chunks[c], node(chunks[c]).value, t);
    }
  }

  /**
   * The batched lookup equals the naive one: if the node answers every id of every batch truthfully, in any order
   * and however often, the result is what one lookup per non-coinbase input gives, in input order.
   */
  lemma BatchedEqualsNaive(chain: ChainKind, vin: seq<Vin>, ledger: Outputs, node: Node)
    requires chain == Btc || chain == Zcash
    requires TruthfulNode(ledger, Chunks(Uniques(Refs(vin)), MAX_BATCH_SIZE), node)
    requires forall c :: c in Chunks(Uniques(Refs(vin)), MAX_BATCH_SIZE) ==> node(c).Ok? && Complete(c, node(c).value)
    ensures Fetched(chain, Ok(RawTxVin(Some(vin))), node) == Ok(Naive(chain, vin, ledger))
  {
    forall i | 0 <= i < |vin|
      ensures !Skipped(vin[i], Chunks(Uniques(Refs(vin)), MAX_BATCH_SIZE), node, ledger)
    {
      if HasAddress(vin[i], ledger) {
        RefOfInput(vin, i);
        var k :| 0 <= k < |Refs(vin)| && Refs(vin)[k] == PrevOut(vin[i].txid.value, vin[i].vout.value);
        CompleteAnswers(Refs(vin), node, k);
      }
    }
    BatchedEqualsNaiveIff(chain, vin, ledger, node);
  }

  /** The smallest case, spelled out: an input that spends output `n` of `t` is found to belong to that output's address. */
  lemma OneInput(chain: ChainKind, t: string, n: nat, out: RawTxVout, a: string, node: Node)
    requires chain == Btc || chain == Zcash
    requires n < |out.vout| && out.vout[n].address == Some(a)
    requires node([t]) == Ok([BatchEntry(0, Some(out), false)])
    ensures Fetched(chain, Ok(RawTxVin(Some([Vin(None, Some(t), Some(n))]))), node) == Ok([OmniAddress(chain, a)])
  {
    var v, ledger := Vin(None, Some(t), Some(n)), map[t := out];
    OneRef(t, n);
    var entries := [BatchEntry(0, Some(out), false)];
    assert Truthful(ledger, [t], entries);
    assert Complete([t], entries) by { assert entries[0].id == 0; }
    BatchedEqualsNaive(chain, [v], ledger, node);
    assert HasAddress(v, ledger) && ledger[v.txid.value].vout[v.vout.value].address.value == a;
    assert [v][1..] == [] && Naive(chain, [v][1..], ledger) == [];
    assert Naive(chain, [v], ledger) == [OmniAddress(chain, a)];
  }

  lemma OneRef(t: string, n: nat)
    ensures Refs([Vin(None, Some(t), Some(n))]) == [PrevOut(t, n)]
    ensures Chunks(Uniques(Refs([Vin(None, Some(t), Some(n))])), MAX_BATCH_SIZE) == [[t]]
  {
    assert [Vin(None, Some(t), Some(n))][..0] == [];
    assert [PrevOut(t, n)][..0] == [];
    assert Uniques([PrevOut(t, n)]) == [t];
  }
}
