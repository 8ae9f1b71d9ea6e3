/** Compliance screening of transfer senders (omni-relayer/src/utils/kyt.rs), in batches. */
module KytScreening {
  import opened Wrappers
  import opened Chains
  import opened Batches
  import opened InputAddresses

  const MAX_KYT_BATCH_SIZE: nat := 500

  datatype SuggestedAction = NoAction | StopRelaying
  datatype KytAddress = KytAddress(address: string, blockchain: string)
  datatype KytError = KytError(message: string)

  /** The screening service, answering the `i`-th call; equal batches may be answered differently. */
  type Screen = (nat, seq<KytAddress>) -> Result<SuggestedAction, KytError>

  function BlockchainTag(chain: ChainKind): Option<string> {
    match chain
    case Near => Some("near")
    case Eth => Some("eth")
    case Base => Some("base")
    case Arb => Some("arb")
    case Bnb => Some("bsc")
    case Pol => Some("pol")
    case Sol => Some("sol")
    case Strk => Some("starknet")
    case Btc => Some("btc")
    case Zcash => Some("zec")
    case _ => None
  }

  function ToKytAddress(sender: OmniAddress): Option<KytAddress> {
    match BlockchainTag(sender.chain)
    case None => None
    case Some(tag) => Some(KytAddress(sender.address, tag))
  }

  function Screenable(senders: seq<OmniAddress>): seq<KytAddress> {
    if senders == [] then []
    else
      var last := ToKytAddress(senders[|senders| - 1]);
      Screenable(senders[..|senders| - 1]) + if last.Some? then [last.value] else []
  }

  /** Of the batches from the `i`-th on, the first that is not answered `NoAction` decides. */
  function Verdict(batches: seq<seq<KytAddress>>, screen: Screen, i: nat): Result<SuggestedAction, KytError>
    requires i <= |batches|
    decreases |batches| - i
  {
    if i == |batches| then Ok(NoAction)
    else if screen(i, batches[i]) == Ok(NoAction) then Verdict(batches, screen, i + 1)
    else screen(i, batches[i])
  }

  /** `url` is the configured service address; it is only needed when there is something to screen. */
  method CheckSenders(senders: seq<OmniAddress>, url: Option<string>, screen: Screen)
    returns (r: Result<SuggestedAction, KytError>)
    ensures Screenable(senders) == [] ==> r == Ok(NoAction)
    ensures Screenable(senders) != [] && url.None? ==> r.Err?
    ensures Screenable(senders) != [] && url.Some? ==>
              r == Verdict(Chunks(Screenable(senders), MAX_KYT_BATCH_SIZE), screen, 0)
  {
    var addresses: seq<KytAddress> := [];
    for i := 0 to |senders|
      invariant addresses == Screenable(senders[..i])
    {
      assert senders[..i + 1][..i] == senders[..i];
      var address := ToKytAddress(senders[i]);
      if address.Some? { addresses := addresses + [address.value]; }
    }
    assert senders[..|senders|] == senders;
    if addresses == [] { return Ok(NoAction); }
    if url.None? { return Err(KytError("KYT_API_URL env var is not set")); }
    var batches := Chunks(addresses, MAX_KYT_BATCH_SIZE);
    for i := 0 to |batches|
      invariant Verdict(batches, screen, 0) == Verdict(batches, screen, i)
    {
      var answer := screen(i, batches[i]);
      if answer.Err? { return answer; }
      if answer.value.StopRelaying? { return Ok(StopRelaying); }
    }
    return Ok(NoAction);
  }

  /** The first call that does not pass settles the matter with its answer; later batches are not screened. */
  lemma {:induction false} FirstAnswerDecides(batches: seq<seq<KytAddress>>, screen: Screen, i: nat, k: nat)
    requires i <= k < |batches| && screen(k, batches[k]) != Ok(NoAction)
    requires forall j :: i <= j < k ==> screen(j, batches[j]) == Ok(NoAction)
    ensures Verdict(batches, screen, i) == screen(k, batches[k])
    decreases k - i
  {
    if i < k { FirstAnswerDecides(batches, screen, i + 1, k); }
  }

  /** The service's names of the chains it knows. */
  function Tags(): set<(ChainKind, string)> {
    {(Near, "near"), (Eth, "eth"), (Base, "base"), (Arb, "arb"), (Bnb, "bsc"), (Pol, "pol"), (Sol, "sol"),
     (Strk, "starknet"), (Btc, "btc"), (Zcash, "zec")}
  }

  /** Every chain has its own tag, but for the four that have none. */
  lemma TagsApart(a: ChainKind, b: ChainKind)
    ensures BlockchainTag(a).None? <==> a in {HyperEvm, Abs, Fogo, Aptos}
    ensures BlockchainTag(a).Some? && BlockchainTag(a) == BlockchainTag(b) ==> a == b
    ensures BlockchainTag(a).Some? ==> (a, BlockchainTag(a).value) in Tags()
  {
  }

  /** Nothing else is screened: each address is that of a sender, under the tag of its chain. */
  lemma {:induction false} ScreensOnlySenders(senders: seq<OmniAddress>, a: KytAddress)
    ensures a in Screenable(senders) <==>
            exists i :: 0 <= i < |senders| && BlockchainTag(senders[i].chain) == Some(a.blockchain)
                        && senders[i].address == a.address
  {
    if senders != [] {
      var init, last := senders[..|senders| - 1], senders[|senders| - 1];
      ScreensOnlySenders(init, a);
      assert senders == init + [last];
      assert forall i :: 0 <= i < |init| ==> senders[i] == init[i];
      assert senders[|init|] == last;
    }
  }

  lemma {:induction false} PassesIff(batches: seq<seq<KytAddress>>, screen: Screen, i: nat)
    requires i <= |batches|
    ensures Verdict(batches, screen, i) == Ok(NoAction) <==>
            forall j :: i <= j < |batches| ==> screen(j, batches[j]) == Ok(NoAction)
    decreases |batches| - i
  {
    if i < |batches| { PassesIff(batches, screen, i + 1); }
  }

  lemma TaggedIsScreened(sender: OmniAddress)
    requires BlockchainTag(sender.chain).Some?
    ensures ToKytAddress(sender).Some?
  {
  }

  lemma {:induction false} ScreenableHas(senders: seq<OmniAddress>, i: nat)
    requires i < |senders| && ToKytAddress(senders[i]).Some?
    ensures ToKytAddress(senders[i]).value in Screenable(senders)
  {
    if i < |senders| - 1 { ScreenableHas(senders[..|senders| - 1], i); }
  }

  /** The address was in a batch of legal size that was answered with no action. */
  predicate Cleared(address: KytAddress, batches: seq<seq<KytAddress>>, screen: Screen) {
    exists j :: 0 <= j < |batches| && address in batches[j] && |batches[j]| <= MAX_KYT_BATCH_SIZE
                && screen(j, batches[j]) == Ok(NoAction)
  }

  lemma PassClears(addresses: seq<KytAddress>, screen: Screen, address: KytAddress)
    requires address in addresses && Verdict(Chunks(addresses, MAX_KYT_BATCH_SIZE), screen, 0) == Ok(NoAction)
    ensures Cleared(address, Chunks(addresses, MAX_KYT_BATCH_SIZE), screen)
  {
    var batches := Chunks(addresses, MAX_KYT_BATCH_SIZE);
    ChunksPartition(addresses, MAX_KYT_BATCH_SIZE);
    var k := InSomeChunk(batches, address);
    PassesIff(batches, screen, 0);
    assert screen(k, batches[k]) == Ok(NoAction);
  }

  /**
   * A pass means that every sender whose chain has a tag was part of a batch of at most 500 addresses that was
   * answered with no action.
   */
  lemma PassScreensEverySender(senders: seq<OmniAddress>, screen: Screen, i: nat)
    requires i < |senders| && BlockchainTag(senders[i].chain).Some?
    ensures ToKytAddress(senders[i]).Some?
    ensures Verdict(Chunks(Screenable(senders), MAX_KYT_BATCH_SIZE), screen, 0) == Ok(NoAction) ==>
              Cleared(ToKytAddress(senders[i]).value, Chunks(Screenable(senders), MAX_KYT_BATCH_SIZE), screen)
  {
    TaggedIsScreened(senders[i]);
    ScreenableHas(senders, i);
    if Verdict(Chunks(Screenable(senders), MAX_KYT_BATCH_SIZE), screen, 0) == Ok(NoAction) {
      PassClears(Screenable(senders), screen, ToKytAddress(senders[i]).value);
    }
  }

  lemma {:induction false} NaiveOnChain(chain: ChainKind, vin: seq<Vin>, ledger: Outputs)
    ensures forall i :: 0 <= i < |Naive(chain, vin, ledger)| ==> Naive(chain, vin, ledger)[i].chain == chain
  {
    if vin != [] { NaiveOnChain(chain, vin[1..], ledger); }
  }

  /**
   * The whole input check of a UTXO deposit: with a complete and truthful node, a pass means that the address of
   * every input, as one lookup per input finds it, was in a batch answered with no action.
   */
  lemma DepositPassScreensEveryInput(chain: ChainKind, vin: seq<Vin>, ledger: Outputs, node: Node, screen: Screen, i: nat)
    requires chain == Btc || chain == Zcash
    requires TruthfulNode(ledger, Chunks(Uniques(Refs(vin)), MAX_BATCH_SIZE), node)
    requires forall c :: c in Chunks(Uniques(Refs(vin)), MAX_BATCH_SIZE) ==> node(c).Ok? && Complete(c, node(c).value)
    requires Fetched(chain, Ok(RawTxVin(Some(vin))), node).Ok?
    requires var senders := Fetched(chain, Ok(RawTxVin(Some(vin))), node).value;
             Verdict(Chunks(Screenable(senders), MAX_KYT_BATCH_SIZE), screen, 0) == Ok(NoAction)
    requires i < |Naive(chain, vin, ledger)|
    ensures var a := Naive(chain, vin, ledger)[i];
            Cleared(KytAddress(a.address, if chain == Btc then "btc" else "zec"),
                    Chunks(Screenable(Naive(chain, vin, ledger)), MAX_KYT_BATCH_SIZE), screen)
  {
    BatchedEqualsNaive(chain, vin, ledger, node);
    PassScreensAddress(chain, vin, ledger, screen, i);
  }

  lemma UtxoChainIsTagged(chain: ChainKind)
    requires chain == Btc || chain == Zcash
    ensures BlockchainTag(chain) == Some(if chain == Btc then "btc" else "zec")
  {
  }

  lemma PassScreensAddress(chain: ChainKind, vin: seq<Vin>, ledger: Outputs, screen: Screen, i: nat)
    requires (chain == Btc || chain == Zcash) && i < |Naive(chain, vin, ledger)|
    requires Verdict(Chunks(Screenable(Naive(chain, vin, ledger)), MAX_KYT_BATCH_SIZE), screen, 0) == Ok(NoAction)
    ensures var a := Naive(chain, vin, ledger)[i];
            Cleared(KytAddress(a.address, if chain == Btc then "btc" else "zec"),
                    Chunks(Screenable(Naive(chain, vin, ledger)), MAX_KYT_BATCH_SIZE), screen)
  {
    UtxoChainIsTagged(chain);
    NaiveOnChain(chain, vin, ledger);
    PassScreensEverySender(Naive(chain, vin, ledger), screen, i);
  }
}
