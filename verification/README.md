# Omni Bridge services, modelled in Dafny

Dafny models of the stateful protocols and the arithmetic and parsing kernels of three services, with proofs of what
they promise:

- **omni-relayer**: the life of a stream message (ack, terminate, hand back with backoff), UTXO work parked until the
  light client catches up, the shared UTXO cache under concurrent submitters, compliance screening of transaction
  inputs, the fee check with its remembered first quote, replacement fees and the queue of pending EVM transactions.
- **omni-proxy**: the sliding window of upstream failures and failover, longest-prefix routing, and health objects that
  keep their identity over configuration reloads.
- **wormhole-vaa-api**: sequences out of Solana logs, hash resolution by parallel probes, VAA parsing, the store's keys
  and contents, the two lookup endpoints, and `${VAR}` expansion in configuration strings.

`dafny verify dfyconfig.toml` checks everything. One module per component. Code that updates state in place is a class
or a method with loops, proved equal to a function of the old state; runs with concurrency, crashes or an unreliable
world are step relations, and their theorems quantify over all schedules.

| modules | subject |
|---|---|
| `AckPolicy`, `DeferralProtocol`, `DeferralSafety`, `DeferralLoss`, `DeferralProgress`, `LcPoller`, `PollRefinement` | stream answers, no loss, no dead end, redelivery bound, replay |
| `UtxoCache`, `UtxoProtocol`, `TransferRefinement` | the UTXO set as a class, all interleavings of its users, and the former as a run of the latter |
| `Batches`, `InputAddresses`, `KytScreening` | batched lookups against naive ones, screening |
| `FeeCheck`, `FeeBump`, `PendingQueue`, `PendingLoop` | fee sufficiency, first quote, fee bumps, pending transactions |
| `UpstreamHealth`, `RouteMatch`, `RouteReload`, `LiveRoutes` | failover, routing, reloads over runs and over real references |
| `SolanaLogs`, `Resolver`, `TxCache` | logs to call trees, probes, cached resolutions |
| `Bytes`, `Address`, `Vaa`, `VaaStore`, `VaaApi` | encodings, VAA layout, store, endpoints |
| `EnvTemplate`, `Text`, `Arithmetic`, `Chains`, `Wrappers` | configuration strings and shared primitives |

## Findings

Places where the code does less than one would expect. Each is a theorem here: an exact condition, a counterexample,
or both.

- A refresh of the UTXO cache re-adds outpoints that are in flight, so two submitters can take the same one from the
  cache; what is taken is conserved exactly from refreshes at which nothing is in flight (`RefreshConservesIff`,
  `TwoSubmittersShareAnOutPoint`).
- What is submitted is the draft, not what was taken. A submitter that is handed an empty snapshot may draft outpoints
  straight from the contract, and those can be in flight or spent already, even when the last refresh found nothing in
  flight. As long as drafts come from the cache no outpoint is submitted twice; the first one that does not collides
  exactly if it names an outpoint of the last refresh that is no longer cached (`NoDoubleDraft`,
  `FirstUnbackedDraftIff`, `DraftStaysDisjointIff`, `SnapshotCollidesIff`, `EmptySnapshotCollision`).
- A deferral key is made unique by a millisecond timestamp. If the clock repeats one while the stream remembers the id,
  the replay is swallowed as a duplicate and the item is lost, then or later (`ReplayKeepsAliveIff`,
  `ReusedStampLosesItem`). Exactly which steps lose something is `StepKeepsAllIff` and `NoLossThroughoutIff`.
- A publish is not awaited until the stream has answered. If the stream does not store a message that its client
  accepted, the poller removes the entry all the same and the item is lost (`UnstoredReplayLosesItem`); the fee-bumping
  loop loses a pending transaction in the same way (`UnstoredReplayLosesEntry`).
- With a maximal backoff of 0 seconds there is no bound on redeliveries (`BoundedIffBackoffPositive`).
- A node that leaves an id out of a batch answer silently removes that input from screening (`BatchedEqualsNaiveIff`).
- A higher discount can turn a sufficient fee insufficient when it rounds one of two requirements to zero
  (`DiscountHelpsIff`, `DiscountBreaksSufficiency`).
- In a build without overflow checks the product in `should_bump` wraps for enormous fees. A bump raises a fee by the
  percentage exactly if the product fits or the suggestion is that high anyway; otherwise it can keep the old fee, any
  number of times (`BumpRaisesIff`, `BumpKeepsFeeIff`, `WrappedBumpIsNoIncrease`, `WrappedChainIsUnbounded`).
- A crash between removing a pending EVM transaction and adding its bumped copy loses the entry, also when an entry of
  the same nonce and source event was replayed before (`StepKeepsTrackedIff`, `CrashLosesEntry`).
- A program log that reads like a frame line breaks the attribution of Solana sequences (`RefinementFailsOnFrameLikeLogs`).
- The documentation of `Resolver::resolve` promises an error only when every probe failed. The code answers with an
  error as soon as any probe failed and none matched (`MissIffAllAnsweredEmpty`); the model follows the code.
- A 404 by transaction hash is possible although a probe failed, namely when another chain matched and its messages are
  confirmed absent (`FailedProbeBehindNotFoundIff`, `NotFoundDespiteFailedProbe`).
- The spy refuses VAAs without signatures so that none is ever served. The wormholescan fallback has no such check: it
  caches and serves them (`StaysSignedIff`, `UnsignedVaaIsServed`). Nor is the triple of its reply compared with the
  request. A served VAA is signed and carries the triple asked for exactly if its source does (`FoundGenuineIff`).
- With a failure threshold of 0 every upstream counts as degraded (`ZeroThresholdDegradesAll`).

## Model

| member | source | states |
|---|---|---|
| AckPolicy.HandleNatsAck | omni-relayer/src/workers/mod.rs:538-614 | the message leaves the queue exactly when a terminal answer landed, which is decided on exactly for a terminal verdict or a readable age past the limit; a scheduled wait within the age limit is granted up to the configured maximum, any other retry waits for its power of three up to that |
| AckPolicy.BackoffIsExact | omni-relayer/src/workers/mod.rs:115-140 | within the age limit the delay is min(3^(d-1), maximum) for every delivery number, despite saturation at 64 and 32 bits |
| AckPolicy.BackoffOfOddCounts | omni-relayer/src/workers/mod.rs:133-138 | a delivery count of zero waits like the first, a negative one as long as configured |
| AckPolicy.BackoffGrows | omni-relayer/src/workers/mod.rs:133-138 | delays never decrease from one delivery to a later one |
| AckPolicy.AgeOfRun | omni-relayer/src/workers/mod.rs:115-140 | in every run of failed deliveries the age at the k-th one is at least the sum of the delays, and all but the last are within the limit |
| AckPolicy.RedeliveryBound | omni-relayer/src/workers/mod.rs:115-140 | a message that keeps failing is delivered at most log3(maximum) + max age / maximum + 2 times |
| AckPolicy.BoundedIffBackoffPositive | omni-relayer/src/workers/mod.rs:115-140 | a bound on failing runs exists if and only if the maximal backoff is at least one second |
| AckPolicy.PromptRunEnds | omni-relayer/src/workers/mod.rs:115-140 | delivered promptly after each delay, the message is aged out at the first delivery past its limit and handed back before |
| UtxoCache.OutPointKeyInjective | omni-relayer/src/utils/utxo.rs:127-142 | `txid@vout` keys determine the outpoint, whatever characters the txid has |
| UtxoCache.OutPointKeyReads | omni-relayer/src/utils/utxo.rs:127-142 | a key reads back as the transaction id, an `@` and the output number in decimal |
| UtxoCache.UtxoSet.MarkDirty | omni-relayer/src/utils/utxo.rs:68-72 | sets the flag of the named chain's slot and touches neither its map nor the other chain's slot |
| UtxoCache.UtxoSet.Lock | omni-relayer/src/utils/utxo.rs:85-106 | per chain: refreshes exactly when its flag was set and the fetch succeeded; a failed fetch and a mark during the fetch leave the flag set; the other chain is untouched |
| UtxoCache.UtxoSet.TakeOutpoints | omni-relayer/src/utils/utxo.rs:127-144 | removes the draft's outpoints from the named chain's cache and returns the cached entries among them once each; no guard, nothing taken |
| UtxoCache.UtxoSet.RestoreOutpoints | omni-relayer/src/utils/utxo.rs:146-157 | the named chain's cache afterwards is the old one extended by the restored entries; the other chain's slot is untouched |
| UtxoCache.UtxoSet.SubmitTransfer | omni-relayer/src/workers/near.rs:295-392 | undisturbed, a transfer removes exactly the drafted outpoints of its chain on success, gives all back on failure, and marks the set after an RPC error |
| UtxoCache.TakenIsRestriction | omni-relayer/src/utils/utxo.rs:127-144 | what is taken is the cache restricted to the draft's keys, values unchanged, repetitions in the draft ignored |
| UtxoCache.RestoreUndoesTake | omni-relayer/src/utils/utxo.rs:127-157 | restoring what was taken gives back the cache, for every draft |
| UtxoProtocol.ConservedUntilNextRefresh | omni-relayer/src/utils/utxo.rs:127-157 | over every interleaving until the next refresh, cached, in-flight and spent outpoints are disjoint and together the fetched set, values unchanged |
| UtxoProtocol.StepConserves | omni-relayer/src/workers/near.rs:295-392 | every atomic step other than a refresh keeps conservation |
| UtxoProtocol.RefreshConservesIff | omni-relayer/src/utils/utxo.rs:91-104 | a refresh starts a conserving epoch if and only if nothing is in flight |
| UtxoProtocol.RefreshExposesInFlight | omni-relayer/src/utils/utxo.rs:91-104 | whatever is in flight and still listed by the contract can be taken a second time after a refresh |
| UtxoProtocol.TwoSubmittersShareAnOutPoint | omni-relayer/src/workers/near.rs:295-339 | a schedule from the initial state that ends with two submitters holding one outpoint |
| UtxoProtocol.StepKeepsInv | omni-relayer/src/utils/utxo.rs:68-157 | mutual exclusion, the record of marks and swaps, and conservation of clean epochs are inductive |
| UtxoProtocol.NoLostInvalidation | omni-relayer/src/utils/utxo.rs:68-106 | in every reachable state with no fetch under way a clear flag means the cache stems from a fetch whose flag swap came after the latest mark |
| UtxoProtocol.NoDoubleSelection | omni-relayer/src/workers/near.rs:295-339 | in an epoch begun with nothing in flight no two submitters ever have the same outpoint taken from the cache |
| UtxoProtocol.NoDoubleDraft | omni-relayer/src/workers/near.rs:295-339 | in every reachable state whose drafts since such a refresh all came from the cache, the drafts under way are disjoint from each other and from what was spent |
| UtxoProtocol.OrderlyRunsAreDisjoint | omni-relayer/src/workers/near.rs:295-339 | the same told by the schedule alone: in every run whose refreshes meet nobody in mid-transfer and whose drafts name cached outpoints, no outpoint is submitted twice |
| UtxoProtocol.FirstUnbackedDraftIff | omni-relayer/src/workers/near.rs:299-328 | the next draft, from the cache or not, keeps that if and only if it names no outpoint of the last refresh that has left the cache |
| UtxoProtocol.DraftStaysDisjointIff | omni-relayer/src/workers/near.rs:299-328 | at any later point of a clean epoch, if and only if it also names none that an earlier draft named without its being cached |
| UtxoProtocol.CollidesIff | omni-relayer/src/utils/utxo.rs:121-144 | the same per state: exactly which drafts collide with one under way or with what was spent |
| UtxoProtocol.SnapshotCollidesIff | omni-relayer/src/utils/utxo.rs:121-126 | for an SDK that leaves the snapshot only when it is empty: a draft collides if and only if the cache is empty and it names an outpoint of the last refresh, or it names one that an earlier draft named uncached; the latter is impossible while all earlier drafts came from the cache |
| UtxoProtocol.UnseenDraftIsShared | omni-relayer/src/utils/utxo.rs:121-144 | any outpoint under way that the snapshot does not show can be drafted a second time |
| UtxoProtocol.EmptySnapshotCollision | omni-relayer/src/workers/near.rs:295-339 | a schedule from the initial state with one clean refresh that ends with two submitters submitting one outpoint |
| TransferRefinement.TransferIsRun | omni-relayer/src/workers/near.rs:295-392 | from any state with a free guard the sequential transfer is a run of the concurrent protocol with the same effect on cache and flag and none on other submitters |
| DeferralProtocol.EntryKeyInjective | omni-relayer/src/utils/utxo.rs:264-285 | the id a parked item is replayed under determines its name, target and time stamp |
| DeferralSafety.StepKeepsInv | omni-relayer/src/workers/utxo.rs:694-716 | every step of workers, stream and pollers keeps the no-loss invariant while stamps are fresh and accepted publishes stored |
| DeferralSafety.NothingIsLost | omni-relayer/src/startup/utxo_lc_poller.rs:56-119 | over every run with fresh stamps and stored publishes each ingestion once stored is unacked on the stream or pending until a delivery of it ends for good, equal payloads kept apart |
| DeferralProgress.EveryIngestionCanFinish | omni-relayer/src/workers/utxo.rs:694-716 | after every such run each ingestion still has a continuation that ends with a delivery of it done for good |
| DeferralProgress.CanBeFinished | omni-relayer/src/startup/utxo_lc_poller.rs:56-119 | from any state with numbers in order, whatever is on the stream, pending or finished can be finished, through replay and redelivery |
| DeferralProgress.PendsAfter | omni-relayer/src/utils/utxo.rs:264-285 | exactly which steps park an ingestion and which take it out of the pending set |
| DeferralProgress.StreamsAfter | omni-relayer/src/utils/nats.rs:75-95 | exactly which steps put an ingestion on the stream and which take it off |
| DeferralLoss.StepKeepsAllIff | omni-relayer/src/workers/utxo.rs:694-716 | with any stamps and publishes, a step leaves an ingestion without a carrier if and only if it is the landed ack of a parked delivery, or the removal of an entry, that was its last one |
| DeferralLoss.NoLossThroughoutIff | omni-relayer/src/startup/utxo_lc_poller.rs:56-119 | over every run nothing is without a carrier at any point if and only if no step is a losing one |
| DeferralLoss.LossHasCause | omni-relayer/src/utils/utxo.rs:278-285 | a run has a losing step only if a stamp was reused or an accepted publish not stored |
| DeferralProtocol.NoEarlyReplay | omni-relayer/src/startup/utxo_lc_poller.rs:83-119 | in every run each replay is of an entry whose target is at or below the tip its poller had just read |
| DeferralLoss.ReplayKeepsAliveIff | omni-relayer/src/utils/nats.rs:75-95 | in any state a replay keeps an ingestion it is for alive exactly when the stream stored it, not remembering its id, or something else stands for it |
| DeferralLoss.ReusedStampLosesItem | omni-relayer/src/utils/utxo.rs:278-285 | a run in which a repeated time stamp loses an item although every accepted publish is stored |
| DeferralLoss.UnstoredReplayLosesItem | omni-relayer/src/utils/nats.rs:85-93 | a run with fresh stamps that loses an item by an accepted publish that is not stored |
| LcPoller.Poller.Poll | omni-relayer/src/startup/utxo_lc_poller.rs:56-119 | the new pending set, the replays and the stale mark after one iteration, as functions of the old state and the answers |
| LcPoller.Poller.Replay | omni-relayer/src/startup/utxo_lc_poller.rs:91-119 | offers the ready entries in order; exactly the accepted and removable ones leave |
| LcPoller.PollOfEntry | omni-relayer/src/startup/utxo_lc_poller.rs:83-119 | an entry is replayed if and only if due and accepted, and stays parked if and only if not due, not accepted or not removable |
| PollRefinement.PollIsRun | omni-relayer/src/startup/utxo_lc_poller.rs:83-119 | every poller iteration is a run of the concurrent protocol with the same pending set, after which the stream knows the id of each entry replayed and stored |
| PollRefinement.ReplayIsRun | omni-relayer/src/startup/utxo_lc_poller.rs:91-119 | the same for the replay loop, from any point of an iteration |
| Batches.ChunksPartition | omni-relayer/src/utils/utxo.rs:487-498 | chunks concatenate to the list and all are full but the last, which is not empty |
| InputAddresses.UniquesSpec | omni-relayer/src/utils/utxo.rs:375-405 | the collected ids are distinct and are exactly those referenced |
| InputAddresses.CollectInputRefs | omni-relayer/src/utils/utxo.rs:375-405 | all spends in input order and the distinct ids by first mention; an error exactly without `vin` |
| InputAddresses.IndexBatchResponses | omni-relayer/src/utils/utxo.rs:433-457 | answers by transaction id, or the first problem in the batch |
| InputAddresses.IndexErrorIs | omni-relayer/src/utils/utxo.rs:433-457 | the first entry that is no answer decides which error is returned |
| InputAddresses.GetRawTransactionsBatch | omni-relayer/src/utils/utxo.rs:487-498 | the union over all batches, or the first failing batch's error |
| InputAddresses.ResolveAddresses | omni-relayer/src/utils/utxo.rs:407-431 | the derivable addresses of the references, in order |
| InputAddresses.FetchInputAddresses | omni-relayer/src/utils/utxo.rs:544-560 | the composed pipeline with each error exit |
| InputAddresses.ResolveIsNaive | omni-relayer/src/utils/utxo.rs:375-431 | collecting and then resolving reads, for each spend, the address of the very output it names in the ledger |
| InputAddresses.FetchSucceedsIff | omni-relayer/src/utils/utxo.rs:433-560 | the pipeline succeeds if and only if chain, transaction and every entry of every batch are usable; one bad answer fails it as a whole |
| InputAddresses.BatchedEqualsNaive | omni-relayer/src/utils/utxo.rs:375-560 | with complete truthful answers in any order the pipeline equals one ledger lookup per input, in input order |
| InputAddresses.BatchedEqualsNaiveIff | omni-relayer/src/utils/utxo.rs:375-560 | with truthful answers it does so if and only if every input with a known address was answered for |
| InputAddresses.OneInput | omni-relayer/src/utils/utxo.rs:375-560 | a transaction that spends output n of another has exactly the address of that output as its sender |
| KytScreening.CheckSenders | omni-relayer/src/utils/kyt.rs:89-117 | the verdict of the first batch that does not pass, in batches of 500; no call and a pass when nothing is screenable |
| KytScreening.PassesIff | omni-relayer/src/utils/kyt.rs:105-117 | a pass is returned if and only if every call was answered with no action, equal batches being answered independently |
| KytScreening.FirstAnswerDecides | omni-relayer/src/utils/kyt.rs:105-117 | the first call that does not pass settles the matter with its own answer |
| KytScreening.ScreensOnlySenders | omni-relayer/src/utils/kyt.rs:77-104 | an address is screened if and only if it is that of a sender, under the tag of its chain |
| KytScreening.TagsApart | omni-relayer/src/utils/kyt.rs:61-75 | every chain has a tag of its own but for the four that have none |
| KytScreening.PassScreensEverySender | omni-relayer/src/utils/kyt.rs:89-117 | on a pass every sender with a tagged chain was in a batch answered with no action |
| KytScreening.DepositPassScreensEveryInput | omni-relayer/src/workers/utxo.rs:197-228 | end to end, a passed deposit had the naive address of each of its inputs screened |
| UpstreamHealth.Health.RecentFailures | omni-proxy/src/proxy.rs:42-52 | prunes the deque to the window and counts what is left |
| UpstreamHealth.Health.RecordSuccess | omni-proxy/src/proxy.rs:38-40 | forgets the oldest failure and no other |
| UpstreamHealth.Health.IsDegraded | omni-proxy/src/proxy.rs:54-56 | degraded exactly when the pruned count reaches the threshold |
| UpstreamHealth.WindowBounds | omni-proxy/src/proxy.rs:34-56 | over any run of failures, successes and queries on a monotone clock the deque is sorted and the recent count lies between F-S and F |
| UpstreamHealth.Select | omni-proxy/src/proxy.rs:98-115 | the loop chooses as specified, even with shared health objects, and its pruning changes no count taken later |
| UpstreamHealth.ChooseIs | omni-proxy/src/proxy.rs:98-131 | the first upstream below the threshold is chosen; index 0 is the primary |
| UpstreamHealth.ChooseNone | omni-proxy/src/proxy.rs:98-115 | with every upstream degraded the choice falls back to the primary |
| UpstreamHealth.FailoverReaches | omni-proxy/src/proxy.rs:34-115 | enough recent failures net of successes on all earlier upstreams move the traffic to a healthy one |
| UpstreamHealth.PrimaryRecovers | omni-proxy/src/proxy.rs:34-115 | a primary without failures in the last window is chosen again, unless the threshold is 0 |
| UpstreamHealth.ZeroThresholdDegradesAll | omni-proxy/src/proxy.rs:54-56 | with threshold 0 no past makes an upstream healthy |
| RouteMatch.MatchRoute | omni-proxy/src/proxy.rs:282-291 | for every iteration order the result is the longest matching prefix, and none exactly when nothing matches |
| RouteMatch.BestIsUnique | omni-proxy/src/proxy.rs:282-291 | the choice is determined by the set of prefixes, not by the order of iteration |
| RouteMatch.MatchesIffSegmentPrefix | omni-proxy/src/proxy.rs:285-288 | matching is the prefix relation on `/`-separated segments |
| RouteMatch.BestHasMostSegments | omni-proxy/src/proxy.rs:282-291 | the chosen route is the longest prefix segment by segment |
| RouteReload.BuildOwns | omni-proxy/src/proxy.rs:197-209 | a rebuilt table uses each health object for one prefix and endpoint only, and health is parallel to the upstreams |
| RouteReload.BuildKeeps | omni-proxy/src/proxy.rs:73-96 | a reload keeps the object of every prefix and endpoint in both configurations |
| RouteReload.BuildCovers | omni-proxy/src/proxy.rs:197-209 | a rebuilt table has exactly the routes of the configuration, with their upstreams |
| RouteReload.ReloadTakesEffect | omni-proxy/src/proxy.rs:187-209 | a reload is possible at any time; requests that begin after it see the new routes, earlier ones keep their tables |
| RouteReload.SharedHealthSameEndpoint | omni-proxy/src/proxy.rs:187-209 | over any run an old request's table and the newest one share an object only for the same prefix and endpoint |
| RouteReload.NewestTableIsOwned | omni-proxy/src/proxy.rs:73-96 | in every reachable table distinct endpoints have distinct objects, one per upstream |
| RouteReload.HealthSurvives | omni-proxy/src/proxy.rs:187-209 | over any chain of reloads that keep a prefix and endpoint its object stays the same |
| RouteReload.OldRequestCountsInNewestTable | omni-proxy/src/proxy.rs:628-659 | a request that ends after any number of such reloads is counted at the object the newest table uses, and nowhere else |
| LiveRoutes.MergeLive | omni-proxy/src/proxy.rs:73-96 | over real references: an endpoint the old state has keeps its very object, every other gets an empty new one of its own |
| LiveRoutes.KeptObjectIs | omni-proxy/src/proxy.rs:73-96 | the object kept for an endpoint is the one at its first place in the old state |
| LiveRoutes.RoutesHandle.Apply | omni-proxy/src/proxy.rs:187-209 | the same for the whole table, new objects distinct across routes and no existing object changed |
| LiveRoutes.Finish | omni-proxy/src/proxy.rs:628-659 | the end of a request on any old table changes the one object at its place |
| FeeBump.BumpRaisesIff | omni-relayer/src/startup/evm_fee_bumping.rs:227-260 | for every accepted bump, each fee is raised by the percentage if and only if that does not wrap or the suggestion is that high |
| FeeBump.BumpKeepsFeeIff | omni-relayer/src/startup/evm_fee_bumping.rs:240-246 | exactly when an accepted bump leaves the maximal fee as it was |
| FeeBump.AcceptedBump | omni-relayer/src/startup/evm_fee_bumping.rs:227-260 | with the original in range and any cap, an accepted bump raises both fees by the percentage, meets the suggestion, stays within the cap, is minimal, and stays valid |
| FeeBump.AcceptedIff | omni-relayer/src/startup/evm_fee_bumping.rs:227-260 | a bump is accepted if and only if the suggestion is not lower and suggestion and demand fit the cap; the demand is the raised fee where that is in range, and less than it where the product wraps |
| FeeBump.NeverFalls | omni-relayer/src/startup/evm_fee_bumping.rs:232-238 | fees never fall along a chain of bumps, in range or not |
| FeeBump.ChainClimbs | omni-relayer/src/startup/evm_fee_bumping.rs:227-260 | over any chain of bumps whose last original is in range fees stay valid and capped and climb by at least the first increment each time |
| FeeBump.ChainIsBounded | omni-relayer/src/startup/evm_fee_bumping.rs:227-260 | if fee times percentage reaches 100 such a chain strictly increases and is no longer than cap minus first fee |
| FeeBump.WrappedBumpIsNoIncrease | omni-relayer/src/startup/evm_fee_bumping.rs:240-242 | a fee at which the 128-bit product wraps and the bump is no increase |
| FeeBump.WrappedChainIsUnbounded | omni-relayer/src/startup/evm_fee_bumping.rs:240-242 | from that fee chains of every length exist |
| PendingQueue.EntriesAreTrackedIff | omni-relayer/src/startup/evm_fee_bumping.rs:72-224 | over every run each addition is at the end queued, in hand, or was itself seen included or replayed, if and only if no step was a losing one |
| PendingQueue.StepKeepsTrackedIff | omni-relayer/src/startup/evm_fee_bumping.rs:98-221 | a step leaves an addition untracked if and only if it is a crash with an unreplayed entry in hand, or removes a member of which an addition's replay was not stored |
| PendingQueue.LeavesOnlyBy | omni-relayer/src/startup/evm_fee_bumping.rs:119-145 | an addition leaves queue and hand only when itself seen included, removed after a replay of its member, or by a crash in hand; it is settled only by what was seen of its own member |
| PendingQueue.EntriesKeepLineage | omni-relayer/src/startup/evm_fee_bumping.rs:200-218 | in every run an addition stands in one place and keeps its nonce and source event through any number of bumps |
| PendingQueue.StepKeepsPlaces | omni-relayer/src/startup/evm_fee_bumping.rs:98-221 | the invariant behind it is kept by every step of the loop, the workers and crashes |
| PendingQueue.CrashLosesEntry | omni-relayer/src/startup/evm_fee_bumping.rs:200-218 | from any idle state with an empty queue a crash run that loses the entry added, whatever was replayed before |
| PendingQueue.UnstoredReplayLosesEntry | omni-relayer/src/startup/evm_fee_bumping.rs:125-145 | a run that loses an entry by an accepted replay that is not stored |
| PendingLoop.PendingTransactions.Iterate | omni-relayer/src/startup/evm_fee_bumping.rs:72-221 | one iteration over the score-ordered queue: what happens to the head, the rest untouched, order kept |
| PendingLoop.HeadAfter | omni-relayer/src/startup/evm_fee_bumping.rs:90-221 | the head stays until it and its last bump are old enough and the node has answered; then it leaves, or gives way to a copy that has the new hash and time and is otherwise the same |
| PendingLoop.IterationKeepsLineages | omni-relayer/src/startup/evm_fee_bumping.rs:200-218 | a bump keeps the nonces in order and the nonces and source events of the entries, and the order of those unless nonces tie; anything else removes the first at most |
| PendingLoop.IterationIsRun | omni-relayer/src/startup/evm_fee_bumping.rs:72-221 | the iteration is a crash-free run of the concurrent model with the same members, other entries' additions untouched |
| FeeCheck.SufficiencyIsPays | omni-relayer/src/utils/bridge_api.rs:108-162 | while the discount products do not overflow a word, the double-word test equals the test over the integers, for words of any size and so for 128 and 256 bits |
| FeeCheck.SufficientIffFractionsReachOne | omni-relayer/src/utils/bridge_api.rs:143-162 | with both requirements positive a fee suffices if and only if the paid fractions add up to at least one |
| FeeCheck.PayingMoreSuffices | omni-relayer/src/utils/bridge_api.rs:152-161 | sufficiency is monotone in what is provided |
| FeeCheck.SmallerDuesSuffice | omni-relayer/src/utils/bridge_api.rs:152-161 | sufficiency is antitone in the requirements while both stay positive |
| FeeCheck.DiscountHelpsIff | omni-relayer/src/utils/bridge_api.rs:108-162 | raising the discount keeps every sufficient fee sufficient unless it rounds exactly one of two positive requirements to zero |
| FeeCheck.DiscountBreaksSufficiency | omni-relayer/src/utils/bridge_api.rs:108-162 | a quote and a payment that pass undiscounted and fail at 50 percent |
| FeeCheck.FeeMapping.CheckFee | omni-relayer/src/utils/bridge_api.rs:164-232 | which action a check demands, and the remembered quotes afterwards: only a first rejection of an offered fee is remembered |
| FeeCheck.RejectionEndsIff | omni-relayer/src/utils/bridge_api.rs:180-232 | a rejected transfer that offers a fee and has a key stays on the stream until it expires; one without a fee or a key leaves as soon as its answer lands |
| FeeCheck.FirstQuoteSticks | omni-relayer/src/workers/mod.rs:751-774 | after a first rejection and until an owner's terminal answer lands, a nonzero fee proceeds if and only if it meets the current or the first quote |
| FeeCheck.QuoteForgottenIff | omni-relayer/src/workers/mod.rs:751-774 | one settlement makes a transfer lose its first quote if and only if the message left the queue and its stage owns the key |
| FeeCheck.ProceedsIff | omni-relayer/src/utils/bridge_api.rs:164-232 | after every run of attempts and settlements from the empty mapping, a nonzero fee proceeds if and only if it meets the current quote or that of the first rejection since the key was last cleaned |
| FeeCheck.ForgottenByStage | omni-relayer/src/workers/mod.rs:751-774 | stage by stage, what has to come of a landed answer for the quote to be forgotten |
| SolanaLogs.ParseTx | wormhole-vaa-api/src/resolver/svm.rs:26-56 | the stack machine reports what the recursive scan of the log does, stamped with chain and emitter |
| SolanaLogs.ScanRefinesCallTree | wormhole-vaa-api/src/resolver/svm.rs:26-78 | on the flattened log of every well-formed call forest the scan is the in-order list of sequences below the bridge program |
| SolanaLogs.ScanRefinesOrdinaryTree | wormhole-vaa-api/src/resolver/svm.rs:26-78 | the same for every call forest of ordinary program output, with nothing assumed about how lines are classified |
| SolanaLogs.BridgeLineIsRead | wormhole-vaa-api/src/resolver/svm.rs:26-92 | the line `Program log: Sequence: n` among any ordinary output yields n below the bridge program and nothing below another one |
| SolanaLogs.FrameLineIff | wormhole-vaa-api/src/resolver/svm.rs:58-78 | for all words, separators and rest: a line is an invocation or an end exactly by its first and third word |
| SolanaLogs.ShortLineIsNoFrame | wormhole-vaa-api/src/resolver/svm.rs:58-78 | a line of fewer than three words is neither |
| SolanaLogs.ScanForest | wormhole-vaa-api/src/resolver/svm.rs:40-54 | the same under any stack of open calls and before any further lines; the stack is as before afterwards |
| SolanaLogs.RefinementFailsOnFrameLikeLogs | wormhole-vaa-api/src/resolver/svm.rs:58-78 | a log payload is tolerated by the probe forest if and only if it does not read as a frame line, which FrameLineIff makes explicit |
| SolanaLogs.ScanOfTruncatedLog | wormhole-vaa-api/src/resolver/svm.rs:26-56 | a truncated log yields a prefix of the true list |
| SolanaLogs.SequenceLineRoundTrip | wormhole-vaa-api/src/resolver/svm.rs:80-92 | a logged sequence number is read back exactly, up to the 64-bit limit, whatever precedes the first marker and follows the number |
| SolanaLogs.NoSequenceInLine | wormhole-vaa-api/src/resolver/svm.rs:80-92 | a line without the marker, or without digits behind it, has no sequence |
| SolanaLogs.InvokeLineIsInvoke | wormhole-vaa-api/src/resolver/svm.rs:58-66 | the runtime's invoke line is recognised with its program id, for every id and depth |
| SolanaLogs.ExitLineIsEnd | wormhole-vaa-api/src/resolver/svm.rs:68-78 | success and failure lines are recognised as ends and never as invocations |
| Resolver.NormalizeKeepsShape | wormhole-vaa-api/src/resolver/mod.rs:200-232 | normalising keeps the shape of a hash and is idempotent |
| Resolver.SameKeyIffSameTransaction | wormhole-vaa-api/src/resolver/mod.rs:216-232 | two hashes share a cache key if and only if they name one transaction |
| Resolver.EvmHashSpelling | wormhole-vaa-api/src/resolver/mod.rs:200-232 | 64 hexadecimal digits, with any prefix and surrounding white space, are an EVM hash, cached under the digits in lower case |
| Resolver.SvmHashIff | wormhole-vaa-api/src/resolver/mod.rs:200-232 | other text is a Solana signature if and only if it has 40 to 100 characters and decodes to 64 bytes; it is its own key |
| Resolver.ResolveEvm | wormhole-vaa-api/src/resolver/mod.rs:97-150 | the early-returning loop computes: first match, else error if a probe failed, else empty |
| Resolver.ResolveSvm | wormhole-vaa-api/src/resolver/mod.rs:152-197 | the same over Solana transactions, with their logs parsed by `SolanaLogs.ParseTx` |
| Resolver.EvmAnswerIs | wormhole-vaa-api/src/resolver/mod.rs:119-150 | in terms of the nodes' answers: an error if and only if no receipt has messages and some node failed, empty if and only if none has and none failed |
| Resolver.EvmMatchDecides | wormhole-vaa-api/src/resolver/mod.rs:119-141 | the first receipt with messages gives the answer |
| Resolver.SvmAnswerIs | wormhole-vaa-api/src/resolver/mod.rs:152-197 | the same for Solana transactions, where missing logs count as no messages |
| Resolver.SvmMatchDecides | wormhole-vaa-api/src/resolver/mod.rs:170-187 | the first logs that report sequences decide, each sequence stamped with their chain and emitter |
| Resolver.ScheduleFreeIffOneAnswer | wormhole-vaa-api/src/resolver/mod.rs:97-197 | the result is the same for every completion order if and only if all matching chains report the same messages |
| Resolver.EarlyReturnIsSafe | wormhole-vaa-api/src/resolver/mod.rs:119-141 | probes slower than a match cannot change the result |
| Resolver.MissIffAllAnsweredEmpty | wormhole-vaa-api/src/resolver/mod.rs:142-150 | a definite miss means every probe answered without a match; an error means one failed and none matched |
| Address.EmitterRoundTrip | wormhole-vaa-api/src/address.rs:17-45 | an emitter written as hex is read back unchanged |
| Address.HexFormValue | wormhole-vaa-api/src/address.rs:17-31 | the hex branch yields the 32-byte big-endian form of the number the digits write, or the length error |
| Address.SameEmitterIffSameNumber | wormhole-vaa-api/src/address.rs:17-31 | two hex spellings name one emitter if and only if they write one number, whatever prefix, padding and case |
| Address.EmitterSpelling | wormhole-vaa-api/src/address.rs:17-65 | with or without `0x` and white space, up to 64 digits are the emitter they number, and more are refused |
| Address.Base58Emitter | wormhole-vaa-api/src/address.rs:38-44 | other text is an emitter if and only if it decodes to 32 bytes, and then those bytes |
| Address.PrefixedRoundTrip | wormhole-vaa-api/src/address.rs:17-45 | an emitter written as hex behind `0x` is read back unchanged |
| Vaa.ParseOfSerialize | wormhole-vaa-api/src/vaa.rs:30-77 | parsing inverts the version 1 layout for every signature count and payload |
| Vaa.ParsesIffLayout | wormhole-vaa-api/src/vaa.rs:30-71 | bytes parse to a triple if and only if they are the layout of some VAA with that triple |
| Vaa.ShortfallIs | wormhole-vaa-api/src/vaa.rs:30-77 | bytes that do not parse are too short by what the error says: any extension parses exactly from the length it names on |
| TxCache.CacheRoundTrip | wormhole-vaa-api/src/api.rs:58-82 | the cached form of a resolution list converts back to that list, nothing dropped |
| VaaStore.VaaKeyInjective | wormhole-vaa-api/src/store.rs:66-68 | store keys determine chain, emitter and sequence |
| VaaStore.KeyFamiliesApart | wormhole-vaa-api/src/store.rs:66-72 | VAA keys and resolution keys never meet, and the latter determine their hash |
| VaaStore.Store.IngestMessage | wormhole-vaa-api/src/spy.rs:119-155 | stores exactly parseable messages with signatures, under their own triple |
| VaaStore.Store.CacheFetched | wormhole-vaa-api/src/api.rs:180-189 | stores exactly parseable fallback bytes, under their own triple |
| VaaStore.StoreAgreement | wormhole-vaa-api/src/store.rs:74-95 | in every reachable store, bytes found under a triple parse to that triple |
| VaaStore.StoredIsFound | wormhole-vaa-api/src/store.rs:74-95 | an ingested VAA is found under its triple until that key expires, whatever else happens |
| VaaStore.StaysSignedIff | wormhole-vaa-api/src/spy.rs:128-138 | a step lets an unsigned VAA into the store if and only if it is a fallback write of one |
| VaaStore.UnsignedVaaIsServed | wormhole-vaa-api/src/api.rs:180-189 | an unsigned VAA from the fallback is found afterwards, although the stream refuses it |
| VaaStore.LookupIsLastWrite | wormhole-vaa-api/src/store.rs:74-95 | after any run a lookup finds what the last unexpired write under the triple left |
| VaaStore.StoredGenuineIff | wormhole-vaa-api/src/spy.rs:128-138 | in every reachable store a VAA found is signed and carries its triple unless the fallback wrote it last, without signatures |
| VaaStore.CacheHitIsEarlierAnswer | wormhole-vaa-api/src/store.rs:97-108 | in every reachable store a cached resolution is a complete non-empty answer given earlier for the same transaction |
| VaaStore.CachedIsFound | wormhole-vaa-api/src/store.rs:97-108 | a cached answer is found under every spelling of its transaction until it expires or is cached anew |
| VaaApi.Service.FallbackGetVaa | wormhole-vaa-api/src/api.rs:139-176 | the fallback's answer, and the one write it makes |
| VaaApi.Service.GetVaa | wormhole-vaa-api/src/api.rs:98-132 | 404, 500 and 200 by identity, each if and only if, and the store afterwards |
| VaaApi.Service.ResolveWithCache | wormhole-vaa-api/src/api.rs:281-318 | a hit answers from the cache, a failed cache read from the probes, and only non-empty answers are cached |
| VaaApi.Service.GetVaaByTx | wormhole-vaa-api/src/api.rs:198-278 | the handler's response and all its store writes, in order |
| VaaApi.NotFoundIff | wormhole-vaa-api/src/api.rs:198-278 | 404 if and only if the hash resolved and every source asked said it has nothing |
| VaaApi.InternalIff | wormhole-vaa-api/src/api.rs:198-278 | 500 if and only if something asked could not answer |
| VaaApi.NoFalseNotFound | wormhole-vaa-api/src/api.rs:198-318 | behind every 404 no VAA read and no wormholescan call failed; with the resolution uncached, no probe either unless another chain matched |
| VaaApi.FailedProbeBehindNotFoundIff | wormhole-vaa-api/src/resolver/mod.rs:119-150 | with a failed probe the answer is 404 if and only if another chain matched and all its messages are confirmed absent |
| VaaApi.NotFoundDespiteFailedProbe | wormhole-vaa-api/src/api.rs:198-278 | a request answered 404 although a probe failed |
| VaaApi.PollSucceeds | wormhole-vaa-api/src/store.rs:7-10 | once all messages of a resolved transaction are stored, the next poll serves exactly them in order, without probes or fallback |
| VaaApi.FallbackHeals | wormhole-vaa-api/src/api.rs:134-176 | after a fallback hit that was cached, the store answers until expiry without wormholescan |
| VaaApi.ResolutionIsCached | wormhole-vaa-api/src/api.rs:281-318 | once a request has resolved its transaction, every spelling of it is answered from the cache until expiry |
| VaaApi.ScanAnswerHeals | wormhole-vaa-api/src/api.rs:238-265 | a transaction the resolver does not know is answered with all that wormholescan holds, in order, and what was cached of it is found later |
| VaaApi.ServedGenuineIff | wormhole-vaa-api/src/api.rs:5-9 | a VAA served under a triple is signed and carries it if and only if its source, the last store write or wormholescan's reply, does |
| VaaApi.FoundGenuineIff | wormhole-vaa-api/src/api.rs:5-9 | a 200 for a resolved transaction carries the triples asked for in order, all signed, if and only if no source spoils that |
| EnvTemplate.ExpandEnv | wormhole-vaa-api/src/config.rs:215-231 | the loop equals evaluating the string's decomposition; it terminates on every input |
| EnvTemplate.ExpandText | wormhole-vaa-api/src/config.rs:215-231 | text without a reference is its own expansion |
| EnvTemplate.ExpandReference | wormhole-vaa-api/src/config.rs:215-231 | a reference stands for its variable's value, the rest is expanded as if it stood alone, and a missing variable is the error |
| EnvTemplate.ExpandOpen | wormhole-vaa-api/src/config.rs:215-227 | a reference that is never closed is an error that names the whole text |
| EnvTemplate.ExpansionOfRendering | wormhole-vaa-api/src/config.rs:215-231 | expanding a rendered template concatenates literals and values in one pass, values never expanded again |
| EnvTemplate.RenderOfDecompose | wormhole-vaa-api/src/config.rs:215-231 | every string is the rendering of a well-formed template, so every success comes from one |
| EnvTemplate.DecomposeOfRender | wormhole-vaa-api/src/config.rs:215-231 | a string has only one reading |
| EnvTemplate.SucceedsIff | wormhole-vaa-api/src/config.rs:220-227 | expansion succeeds if and only if no reference is unterminated and every variable is set |

## Left out

- Network clients, chain RPCs, the bridge SDK, NATS and Redis plumbing: the stream is a set of unacked messages with id de-duplication, Redis is maps and score-ordered sets, and every external answer is arbitrary.
- Metrics, logging, command line, TOML and JSON (de)serialisation, secrets and signers.
- The per-chain workers for EVM, Solana, Aptos, StarkNet and HyperEVM: only the verdict they return appears.
- `NonceManager`, the ingestion of chain events and the mapping of events to work items: easy claims per branch.
- Base58, base64, protobuf and hash functions: a base58 decoder is a parameter of every theorem that could depend on it, and base64 text is identified with its bytes.
- The `f64` estimate `usd_fee`: used in a log message only.
- EVM receipt parsing: an arbitrary function of the receipt.
- Machine words: fees have their 128-bit and 256-bit wrap-around written out; lengths and offsets are unbounded, assuming 64-bit `usize`.
- Strings are sequences of characters: byte offsets inside multi-byte characters are not part of this model.
- DeferralSafety.NothingIsLost: assumes that no deferral repeats an id that was already published and that the stream stores, at once, what its client accepted, because the property is false otherwise (ReusedStampLosesItem, UnstoredReplayLosesItem); publishing to the stream at ingestion only warns on failure, so the claim starts at the relayer stream.
- AckPolicy.BoundedIffBackoffPositive: the consumer's own limit `max_deliver` is -1 (no limit), as in the example configurations; any other value bounds redeliveries by itself.
- DeferralLoss.LossHasCause: assumes `max_deliver` -1 as well, and so does NothingIsLost; with a limit the stream stops delivering an unacked message. A consumer created anew starts at the last message of the stream; that is not part of this model.
- UtxoProtocol.ConservedUntilNextRefresh: claims nothing across a refresh, because a refresh re-adds what is in flight; RefreshConservesIff says when it may be carried over.
- UpstreamHealth.WindowBounds: one fixed window and a monotone clock; a reload that changes the window is not covered.
- UpstreamHealth.Select: examination times do not decrease along the list, as a monotone clock gives them.
- RouteReload.HealthSurvives: over runs, health objects are numbers and their deques a heap; LiveRoutes states one reload over real references. The atomic swap of the table is one step.
- RouteReload.OldRequestCountsInNewestTable: endpoints of the request's route are distinct, because with repeated endpoints the first occurrence wins; configuration validation rejects repeated prefixes.
- FeeBump.AcceptedBump: the original fee times the raised percentage fits 128 bits; BumpRaisesIff and BumpKeepsFeeIff say what holds beyond.
- FeeCheck.FirstQuoteSticks: Redis is reliable and the attempts of one transfer come one at a time.
- FeeCheck.SufficiencyIsPays: the discount products do not overflow 128 bits; beyond that the build decides between a panic and a wrap.
- PendingLoop.PendingTransactions.Iterate: entries of equal nonce are ordered by an arbitrary relation, standing for the serialised form Redis compares.
- PendingQueue.EntriesAreTrackedIff: Redis is reliable; crashes and unstored replays are part of the statement.
- UtxoProtocol.SnapshotCollidesIff: the SDK's selection is not part of this model; that it stays within a snapshot that is not empty is taken from utxo.rs:121-126, and DraftStaysDisjointIff does without it.
- VaaApi.FoundGenuineIff: covers transactions this service resolved; for others wormholescan's list is served as it comes, and no triple was asked for.
- VaaApi.PollSucceeds: the reads of one request see one state of the store; the endpoint theorems before it allow any answers.
- Time to live: a key may expire at any moment; the length of the interval is not part of this model.
