# cosmos-validator-watcher: a verified model of its ledgers

The watcher listens to several RPC nodes of one chain. Blocks reach it repeated, late, with gaps, or again
after a node rewound, and it turns them into counters that operators alert on. This project models the parts
whose results depend on the whole history of what arrived, and proves each result equal to an independent
function of that history.

| file | models | form |
|---|---|---|
| `Seqs.dfy` | counting, filtering, searching | functions and lemmas |
| `Records.dfy` | running maxima and strict left-to-right maxima, shared by all watchers | functions and lemmas |
| `BlockTypes.dfy` | blocks, the digest `BlockInfo`, the signed ratio | method with a loop, functions |
| `CommitStatus.dfy` | what a commit says about a tracked validator | functions and lemmas |
| `BlockLedger.dfy` | one block against the ledger; runs; which deliveries are accepted | functions and lemmas |
| `HeightLedger.dfy`, `ValidatorLedger.dfy`, `CustomWebhooks.dfy` | the ledger as a function of history | lemmas |
| `BlockHistory.dfy` | the block counters read off the blocks, commits and validator sets themselves | lemmas over whole runs |
| `BlockWatcher.dfy` | `BlockWatcher` | class, tied to `BlockLedger` |
| `RpcNode.dfy` | `Node` (cache, catch-up poll, callbacks) and `Pool` | classes |
| `Confluence.dfy` | interleaved deliveries of several nodes | lemmas |
| `Pipeline.dfy` | nodes and watcher as one state machine, a step for each block received | lemmas over whole runs |
| `LostHeights.dfy` | two concrete runs in which a poll loses heights | lemmas |
| `Wiring.dfy` | pool, nodes and watcher objects together follow the state machine | methods and lemmas |
| `Upgrade.dfy` | `UpgradeWatcher` and plan selection | class, lemmas over whole runs |
| `VoteLedger.dfy`, `Babylon.dfy` | `BabylonWatcher` | class, lemmas over whole runs |
| `BabylonHistory.dfy` | the Babylon counters and gauges read off the transactions themselves | lemmas over whole runs |
| `Validators.dfy` | ranking sort, seat price, rank lookup | array methods, class, lemmas |

A class method states its new state through a function of the old one (`Value() == Handle(old(Value()),
...)`); the lemmas say what any number of such steps amounts to, in the end in terms of the raw input: commit
slots, transactions and their messages, refreshes, proposals, fetched heights, the unsorted validators. The
word "accepted" is defined without the code's running latest height: a delivery is accepted when it is a
strict left-to-right maximum (`Records.Record`).

## Results where the code and its documentation part

The model follows the code. Each point has a concrete case and the exact condition.

- `skipped_blocks` is documented as the blocks not tracked (README.md:125). It is larger by one for every gap:
  36 then 41 adds 5, as pkg/watcher/block_test.go:158 also expects, while the log line says 4. The counter is
  right iff no gap occurred (`SkippedIsUntrackedIffContiguous`, `SkippedOvercounts`).
- `seat_price` is documented as the minimum to be in the active set (README.md:123). The fold uses zero for
  "none yet", so a bonded validator without tokens is forgotten if a jailed validator with tokens is still
  marked bonded. Given non-negative tokens that is the only failure (`SeatPriceExactly`, `ZeroForgottenExample`).
- A catch-up poll is meant to leave no gap within 20 blocks. Every node works on its own, so blocks of other nodes
  arrive between two blocks of one poll. A served poll leaves no gap above its start iff no block of another node,
  received before the latest height reaches the head, is more than one above both the latest height and the start
  (`PollComplete`); a single height is lost iff another node takes the latest height past it (`OvertakenHeight`).
  From 100, a poll to 103 overtaken by another node's 104 loses 102 and 103, and 3 is counted
  (`OvertakingLosesHeights`). The start itself is not above the latest height, within 20 blocks, as long as the
  node's cache is not ahead of the watcher, which holds in every run where blocks that move the cache also pass the
  sync gate (`CacheNeverAhead`); a block pushed while the node is catching up moves the cache alone
  (`ClosedGateLosesHeights`).
- The upgrade webhook goes out at the first block that is both synced and above every block seen from any
  node. A lagging node that is first with the last block before the upgrade can silence it
  (`HeldPlanFires`, `UnsyncedNodeSilences`). A different plan at or below a height already announced is never
  announced (`HeldPlanAnnouncedIff`).
- `babylon_checkpoint_vote` is documented as equal to the number of epochs (README.md:144). Over any stretch under
  one interval it grows by the epochs opened iff every height that opens one was accepted, not jumped over, and
  carried a decodable checkpoint; with an interval of one no height opens an epoch (`CheckpointVotesPerEpoch`).
- Rounding to 16 decimals makes "more than 66% signed" inexact only above 4 * 10^14 commit slots
  (`SoloMissExactly`, `SoloMissBoundIsTight`).

## Assumptions

- One chain id, so it is not a label here. A series that was never touched reads as zero.
- Float counters are integers; heights and counts stay within their 64-bit range.
- Division is the decimal library's default: 16 digits after the point, rounded half up for these
  non-negative operands.
- Whether a node is synced is an input of each event. A step is one block received by the watcher. The block is
  digested in that step, with the validator set of that moment; a node's cache, which only that node reads, is saved
  in the step that delivers the block. For the other watchers a step is one callback.
- A sort leaves ties in any order: the ranking lemmas are about every sorted permutation. `Sort` is the
  insertion sort that the sort library uses for short slices; its other strategies are not part of this model.
- Decodability of a transaction or message is a flag of the value. Addresses are opaque strings. The epoch
  interval is positive.

## Model

| member | source | states |
|---|---|---|
| `BlockTypes.NewBlockInfo` | pkg/watcher/block_types.go:18-36 | the loop counts exactly the signatures that are not absent; the other fields are those of the block |
| `BlockTypes.DigestMeaning` | pkg/watcher/block_types.go:18-36 | signed is the size of the set of slots that are not absent, below the total exactly when some slot is absent; the other fields are the block's |
| `BlockTypes.SoloMissExactly` | pkg/watcher/block_types.go:38-45 | for every digest, the rounded ratio exceeds 0.66 iff 4e14 * (50 signed - 33 total) >= total, and never for an empty commit |
| `BlockTypes.SoloMissIsTwoThirds` | pkg/watcher/block.go:225-227 | up to 4e14 slots a miss is solo iff 50 signed > 33 total |
| `BlockTypes.SoloMissBoundIsTight` | pkg/watcher/block.go:225-227 | three slots more and a commit above 66% is not reported |
| `CommitStatus.StatusMeaning` | pkg/watcher/block.go:246-273 | signed iff some non-absent signature has the address; rank is the first such position; signed implies bonded; bonded iff in the set or in the commit; unsigned ranks are the last slot |
| `CommitStatus.SlotsInjective` | pkg/watcher/block.go:253-262 | signed validators with different addresses point at different commit slots |
| `CommitStatus.SignedCountsAgree` | pkg/watcher/block_types.go:18-36 | signed tracked validators <= signed validators <= total validators |
| `Records.RecordBeatsHighest` | pkg/watcher/block.go:174-177 | beating the running maximum is the same as beating everything before; the Babylon and upgrade watchers rest on it too |
| `BlockLedger.RecordBeatsTop` | pkg/watcher/block.go:174-177 | beating every earlier delivery is the same as beating the last accepted block |
| `BlockLedger.RunReplaysRecords` | pkg/watcher/block.go:171-244 | the whole ledger after any deliveries is the unfiltered replay of their strict left-to-right maxima |
| `BlockLedger.StaleDeliveryIsInvisible` | pkg/watcher/block.go:174-177 | inserting any delivery at or below the running maximum changes nothing, then or later |
| `HeightLedger.HeightConservation` | pkg/watcher/block.go:189-198 | skipped = untracked heights + gaps, tracked + skipped = last - first + 1 + gaps, transactions are summed over accepted blocks, block height is the maximum delivered |
| `HeightLedger.SkippedIsUntrackedIffContiguous` | README.md:125 | the documented meaning of skipped blocks holds iff accepted heights are consecutive |
| `HeightLedger.SkippedOvercounts` | pkg/watcher/block_test.go:154-158 | heights 36 and 41 report five skipped blocks for four missing ones |
| `ValidatorLedger.ValidatorConservation` | pkg/watcher/block.go:202-230 | over every run the six counters are the tally of the outcomes; validated + missed + idle = tracked; empty <= proposed <= validated; solo <= missed |
| `ValidatorLedger.ConsecutiveMisses` | pkg/watcher/block.go:214-222 | the gauge is the number of misses after the last validated outcome; idle blocks neither reset nor extend it |
| `ValidatorLedger.ProposerCredit` | pkg/watcher/block.go:204-212 | proposed and empty count the accepted blocks other than the latest with that proposer, and those without transactions |
| `ValidatorLedger.ApplyStatusesRow` | pkg/watcher/block.go:202-230 | with distinct labels each validator is moved once, by its own entry, whatever its position |
| `BlockHistory.CountersByBlocks` | pkg/watcher/block.go:202-230 | over every run each of the six counters is the number of accepted blocks of which the proposer of the block before, the slots of the commit and the validator set say so; solo misses by the set of present slots |
| `BlockHistory.TotalsByBlocks` | pkg/watcher/block.go:195-198 | transactions is the sum over the accepted blocks, the active set the number of slots of the last one |
| `CustomWebhooks.WebhooksExactlyOnce` | pkg/watcher/block.go:284-301 | fired plus pending is the initial multiset; firings are in block order, then registration order; each is timely; nothing overdue is pending |
| `CustomWebhooks.TimelyIsFirst` | pkg/watcher/block.go:291-298 | timely means sent at the lowest accepted height at or above the webhook's own |
| `CustomWebhooks.WebhooksInOrder` | pkg/watcher/block.go:291-298 | firings follow the blocks and, within a block, the registered positions |
| `BlockWatchers.BlockWatcher.constructor` | pkg/watcher/block.go:37-46 | the ledger starts empty with every custom webhook pending |
| `BlockWatchers.BlockWatcher.HandleBlockInfo` | pkg/watcher/block.go:171-244 | the new ledger is the filtered step on the old one |
| `BlockWatchers.BlockWatcher.CountValidators` | pkg/watcher/block.go:202-230 | the loop applies every status in order |
| `BlockWatchers.BlockWatcher.CountValidator` | pkg/watcher/block.go:204-228 | the branches of one status, on the six series |
| `BlockWatchers.BlockWatcher.SendWebhooks` | pkg/watcher/block.go:284-301 | due webhooks are sent in order, the rest stay pending in order |
| `BlockWatchers.BlockWatcher.IsValidatorActive` | pkg/watcher/block.go:275-282 | true iff the address is in the stored set |
| `BlockWatchers.BlockWatcher.ScanCommit` | pkg/watcher/block.go:250-269 | the early-exit scan computes the first-signature, else last-slot, status |
| `BlockWatchers.BlockWatcher.ComputeValidatorStatus` | pkg/watcher/block.go:246-273 | one status for each tracked validator, in order |
| `BlockWatchers.BlockWatcher.HandleNodeBlock` | pkg/watcher/block.go:118-130 | the node height is recorded and the observed digest is handled |
| `BlockWatchers.BlockWatcher.OnNewBlock` | pkg/watcher/block.go:93-105 | nothing is recorded for a node that is not synced |
| `BlockWatchers.BlockWatcher.OnNodeStart` | pkg/watcher/block.go:59-71 | a failed set sync stops the start; the first block is handled without the sync gate |
| `BlockWatchers.BlockWatcher.SyncValidatorSet` | pkg/watcher/block.go:141-169 | for any server: one to five calls, stop at the first complete page, store all or nothing |
| `BlockWatchers.PagingStoresPrefix` | pkg/watcher/block.go:141-169 | against a server slicing a list of n: the first min(n, 500) entries after max(1, ceil(min(n, 500) / 100)) calls |
| `BlockWatchers.ActiveAfterSync` | pkg/watcher/block.go:275-282 | with at most 500 validators activity is exact membership in the server's list |
| `RpcNodes.Node.SyncBlocks` | pkg/rpc/node.go:297-351 | every callback gets, in order, the events of the bounded window and then the head, whose block is cached even if lower |
| `RpcNodes.PollMeaning` | pkg/rpc/node.go:313-350 | whatever fails, a poll announces in rising order the block answered at each height above the cache, above head - 20 and below the head, then the head |
| `RpcNodes.ServedPollMeaning` | pkg/rpc/node.go:313-350 | with every answer served, exactly the heights max(cache, head - 20) + 1 up to the head, or the head alone |
| `RpcNodes.Node.FetchSkipped` | pkg/rpc/node.go:326-340 | one announcement for each height strictly inside the window that could be fetched |
| `RpcNodes.Node.HandleEvent` | pkg/rpc/node.go:277-283 | every callback of the type is called once per registration, in order |
| `RpcNodes.FanOutAt` | pkg/rpc/node.go:277-283 | the calls come event by event and, for each event, in registration order |
| `RpcNodes.Node.OnWebsocketBlock` | pkg/rpc/node.go:185-189 | the pushed block is cached and announced |
| `RpcNodes.Node.OnEvent` | pkg/rpc/node.go:104-106 | a registration extends one list and no other |
| `RpcNodes.Pool.OnNodeEvent` | pkg/rpc/pool.go:98-102 | every node of the pool gets the callback appended, once for each time it is listed; nothing else changes |
| `RpcNodes.FanOutReachesEachOnce` | pkg/rpc/node.go:277-283 | a callback registered once sees exactly the node's events, whatever else is registered |
| `Confluence.MultiNodeConfluence` | pkg/watcher/block.go:171-244 | any interleaving of contiguous streams that agree on the chain ends in the ledger of one in-order pass, with nothing skipped |
| `Confluence.InterleavingsAgree` | pkg/rpc/pool.go:98-102 | two interleavings of the same streams end in the same ledger |
| `Confluence.InOrderPass` | pkg/watcher/block.go:174-193 | a log without jumps is equivalent to the in-order pass up to its maximum |
| `Pipeline.SystemConservation` | pkg/watcher/block.go:202-230 | in every run of the whole system every tracked validator's counters balance against tracked blocks |
| `Pipeline.TrackedUnlessCrossed` | pkg/watcher/block.go:174-193 | in any run of any nodes a height above the start is tracked iff it was reached and no step took the latest height across it |
| `Pipeline.OvertakenHeight` | pkg/rpc/node.go:326-348 | a height that a poll asks for and is served stays untracked iff another node takes the latest height past it first, whatever else fails or interleaves |
| `Pipeline.PollComplete` | pkg/rpc/pool.go:29-54 | a served poll, interleaved with anything, leaves no gap above its start iff no other node's block received meanwhile jumps ahead |
| `Pipeline.PollTracks` | pkg/rpc/node.go:320-350 | with failures and gates arbitrary, a poll that no other node disturbs adds to the tracked heights exactly what it brought above the latest height |
| `Pipeline.PollGap` | pkg/rpc/node.go:320-348 | from any state and any cache, the hole a served, undisturbed poll leaves is exactly the span up to max(cache, head - 20); empty iff that is not above the latest height |
| `Pipeline.CacheNeverAhead` | pkg/rpc/node.go:185-189 | in every gate-open run of any nodes no cache is ahead of the watcher, in the middle of polls too |
| `Pipeline.CatchUp` | pkg/rpc/node.go:320-350 | after any gate-open run a served, undisturbed poll leaves max(0, head - latest - 20) heights untracked and adds those above |
| `Pipeline.PollAdds` | pkg/rpc/node.go:320-350 | the heights added form one consecutive stretch up to the head |
| `Pipeline.BridgedRunNeverSkips` | pkg/rpc/node.go:297-351 | for any interleaving with every answer served, nothing is counted as skipped iff each push is at most one above the latest height when it arrives and no poll goes on above it |
| `Pipeline.ApplySkips` | pkg/watcher/block.go:189-193 | what one step adds to the skipped counter: the whole height difference when it jumps, else nothing |
| `LostHeights.ClosedGateLosesHeights` | pkg/watcher/block.go:94-97 | a push from an unsynced node makes a later poll lose ten heights inside the window |
| `LostHeights.OvertakingLosesHeights` | pkg/watcher/block.go:129-129 | two synced nodes, every answer served: a block of one that arrives between two blocks of the poll of the other loses two heights and counts three |
| `Wiring.DeliverAll` | pkg/watcher/block.go:93-130 | the watcher object, fed a node's events, reaches the run over the observed log |
| `Wiring.Register` | pkg/rpc/pool.go:98-102 | registering on the pool subscribes the watcher once to every node |
| `Wiring.PollNode` | pkg/rpc/node.go:297-351 | one poll of a node object, fanned out to the watcher object, is one uninterrupted poll of the state machine; the other nodes stay |
| `Wiring.PushToNode` | pkg/rpc/node.go:185-189 | one pushed block is one push of the state machine |
| `Wiring.StartNode` | pkg/watcher/block.go:59-71 | a start is a refresh of the validator set and a first block, or nothing when the set cannot be fetched |
| `Wiring.RequestsAreCalm` | pkg/rpc/node.go:326-348 | an uninterrupted poll with every answer served meets the conditions of the catch-up results |
| `Upgrade.NeverTwice` | pkg/watcher/upgrade.go:95-108 | over every run sent plan heights and triggering blocks strictly increase, none is early, none goes out without a webhook |
| `Upgrade.SentIffDue` | pkg/watcher/upgrade.go:69-111 | for every run and event: a plan is sent, and dropped, iff the event is a block of a synced node above all blocks before, reaching the plan of the last refresh, with nothing as high sent before |
| `Upgrade.SentWasInstalled` | pkg/watcher/upgrade.go:243-244 | whatever was sent is the plan of the last refresh before its block, so a removed or replaced plan is never sent |
| `Upgrade.HeldPlanFires` | pkg/watcher/upgrade.go:69-111 | a plan every refresh keeps goes out exactly once, at the first synced block that reaches it and beats all blocks seen, and not at all if there is none |
| `Upgrade.HeldPlanAnnouncedIff` | pkg/watcher/upgrade.go:95-108 | for every held plan: announced iff it is above the last announced height and some event announces it |
| `Upgrade.SyncedPlanFiresAtFirstBlock` | pkg/watcher/upgrade.go:95-98 | with synced nodes only, that is the first block at or above the one before the upgrade |
| `Upgrade.UnsyncedNodeSilences` | pkg/watcher/upgrade.go:73-93 | a lagging node bringing that block first suppresses the webhook |
| `Upgrade.VerdictMeaning` | pkg/watcher/upgrade.go:175-187 | a plan is selected iff it is the first upcoming one and nothing before it failed to decode; an error iff an undecodable upgrade comes first |
| `Upgrade.VerdictSelected` | pkg/watcher/upgrade.go:175-187 | over proposals and their messages: the first upcoming upgrade in reading order, if nothing before it fails to decode |
| `Upgrade.FlatAgreesWithNested` | pkg/watcher/upgrade.go:202-212 | the flat search agrees with the nested one on one-message proposals |
| `Upgrade.UpgradeWatcher.OnNewBlock` | pkg/watcher/upgrade.go:69-111 | the chain of early returns is one step of the state machine |
| `Upgrade.UpgradeWatcher.FetchUpgrade` | pkg/watcher/upgrade.go:131-157 | a failed query changes nothing; an on-chain plan, or none without checking, is installed; else exactly the plan selected among the proposals' messages, or none |
| `Upgrade.UpgradeWatcher.CheckUpgradeProposalsV1` | pkg/watcher/upgrade.go:175-187 | the nested loops give the verdict over the flattened messages |
| `Upgrade.UpgradeWatcher.CheckMessages` | pkg/watcher/upgrade.go:176-184 | the loop over one list gives its verdict |
| `Upgrade.UpgradeWatcher.CheckUpgradeProposalsV1Beta1` | pkg/watcher/upgrade.go:202-212 | the flat loop gives the verdict over the contents |
| `VoteLedgers.RoundsRow` | pkg/watcher/babylon.go:215-228 | over any rounds committed + missed = rounds, and the gauge is the length of the trailing run of misses |
| `Babylon.FinalitySigsMeaning` | pkg/watcher/babylon.go:178-204 | a block counts iff its flattening holds signatures and all decode; then they are all kept in order |
| `Babylon.CheckpointMeaning` | pkg/watcher/babylon.go:240-264 | the checkpoint is the first injected one, if that one decodes |
| `Babylon.RunIsRounds` | pkg/watcher/babylon.go:153-176 | after any run both ledgers are the rounds of the accepted blocks that count |
| `Babylon.FinalityConservation` | pkg/watcher/babylon.go:206-230 | over every run committed + missed = finality votes = counted blocks; the gauge is the trailing miss run over counted blocks |
| `Babylon.CheckpointConservation` | pkg/watcher/babylon.go:266-302 | the same for checkpoint votes |
| `BabylonHistory.FinalityByTransactions` | pkg/watcher/babylon.go:178-230 | over every run, by the messages of the accepted blocks' transactions: a provider is credited in each counted block that carries its signature and misses the other counted ones |
| `BabylonHistory.CheckpointsByTransactions` | pkg/watcher/babylon.go:240-302 | the same for a validator's vote in the first injected checkpoint of each accepted block that opens an epoch |
| `BabylonHistory.EpochGauge` | pkg/watcher/babylon.go:266-277 | for every run and event: the epoch gauge takes what an answered query or a counted checkpoint brings, and stays otherwise |
| `BabylonHistory.IntervalMeaning` | pkg/watcher/babylon.go:142-142 | the interval is that of the last answered query, 360 before any |
| `Babylon.EpochsOpened` | pkg/watcher/babylon.go:171-175 | over consecutive heights a+1..b checkpoint handling runs floor((b-1)/n) - floor((a-1)/n) times |
| `Babylon.CheckpointVotesPerEpoch` | pkg/watcher/babylon.go:171-175 | over any stretch under one interval, gaps and repeats included, the counter grows by the epochs opened between the two latest heights iff each opening height was accepted with a decodable checkpoint, and by less otherwise |
| `Babylon.BabylonWatcher.Handle` | pkg/watcher/babylon.go:153-176 | the new state is the filtered step on the old one |
| `Babylon.BabylonWatcher.OnNewBlock` | pkg/watcher/babylon.go:105-115 | blocks of unsynced nodes are dropped |
| `Babylon.BabylonWatcher.SyncEpochParams` | pkg/watcher/babylon.go:117-151 | a failed query changes nothing, else interval and epoch are replaced |
| `Babylon.BabylonWatcher.FindMsgAddFinalitySig` | pkg/watcher/babylon.go:178-204 | the nested scan with its early return refines the flattening |
| `Babylon.BabylonWatcher.HandleMsgAddFinalitySig` | pkg/watcher/babylon.go:206-230 | one round over the finality providers, none without signatures |
| `Babylon.BabylonWatcher.FindMsgInjectedCheckpoint` | pkg/watcher/babylon.go:240-264 | the nested scan refines the first-checkpoint search |
| `Babylon.BabylonWatcher.HandleMsgInjectedCheckpoint` | pkg/watcher/babylon.go:266-302 | one round over the tracked validators and the epoch gauge |
| `Validators.StrictWeakOrder` | pkg/watcher/validators.go:165-181 | the comparison is irreflexive and transitive, and so is incomparability |
| `Validators.RankingOrder` | pkg/watcher/validators.go:165-181 | in the sorted slice no jailed validator precedes a free one, then no unbonded a bonded one, then no poorer a richer one |
| `Validators.Swap` | pkg/watcher/validators.go:164-164 | the two elements trade places |
| `Validators.Sort` | pkg/watcher/validators.go:122-122 | in place, a sorted permutation |
| `Validators.FourSegments` | pkg/watcher/validators.go:165-181 | four contiguous groups cut at the sizes of the input's groups, tokens descending in each |
| `Validators.RankBounds` | pkg/watcher/validators.go:141-151 | strictly better < rank <= n - strictly worse for any order of ties; 1 + strictly better without ties |
| `Validators.PositiveFoldIsMinimum` | pkg/watcher/validators.go:129-136 | with positive tokens the fold is the minimum over bonded validators, in any order |
| `Validators.SeatPriceExactly` | pkg/watcher/validators.go:120-136 | after the sort the fold is the minimum iff no zero is forgotten, a condition on the unsorted input |
| `Validators.ZeroForgottenExample` | pkg/watcher/validators.go:132-134 | a zero seat and a jailed bonded validator with 7 tokens report 7 |
| `Validators.SeatPriceIsLatestValidator` | README.md:123 | with nobody both jailed and bonded the price is the tokens at rank #bonded |
| `Validators.ScaledOrder` | pkg/watcher/validators.go:131-132 | scaling by the exponent keeps comparisons and zero |
| `Validators.ScaledMeaning` | pkg/watcher/validators.go:124-131 | scaling divides by ten, as often as the exponent says |
| `Validators.ValidatorsWatcher.HandleValidators` | pkg/watcher/validators.go:120-159 | for each tracked address in the input: its rank lies above all strictly better and below all strictly worse of the input, and bonded, jailed and tokens are those of its entry; all other gauges stay; the seat price is the fold, with exponent zero taken for one |
| `Validators.ValidatorsWatcher.SetSeatPrice` | pkg/watcher/validators.go:129-136 | the loop on scaled tokens is the fold on raw tokens |
| `Validators.ValidatorsWatcher.SetStandings` | pkg/watcher/validators.go:138-158 | each tracked validator gets the standing at the first position with its address |

## Left out

- RPC, gRPC, websocket and HTTP calls, retries and the sending of webhooks: a fetch is an input, a sent webhook an entry of a log.
- Interleaving of the class methods: `Wiring` runs one method at a time, so its polls are uninterrupted; what other nodes do during a poll is the subject of `Pipeline`.
- A refresh of the validator set between the digest of a block and its reception.
- Creation of a series at zero on the first accepted block (pkg/watcher/block.go:179-187), and the `upgrade_plan` gauge with its stale labels.
- `RpcNodes.Node.SyncBlocks`: does not model a fetched answer whose block is nil inside the loop, which the code does not check.
- `RpcNodes.Node.FetchSkipped`: does not model a fetched answer whose block is nil, as above.
- `Babylon.BabylonWatcher.FindMsgAddFinalitySig`: does not model a decoded transaction without a body.
- `Babylon.BabylonWatcher.FindMsgInjectedCheckpoint`: does not model a decoded transaction without a body.
- `Babylon.BabylonWatcher.Handle`: does not model an epoch interval of zero or less.
- `Validators.Sort`: does not model the library's strategies for slices longer than twelve; the lemmas hold for any sorted permutation.
- `Validators.ValidatorsWatcher.HandleValidators`: does not model the rounding of the gauges to a float.
- `Validators.ValidatorsWatcher.SetSeatPrice`: does not model the rounding of the seat price gauge to a float.
- `Validators.ValidatorsWatcher.SetStandings`: does not model the rounding of the tokens gauge to a float.
- Node status, freshness of the sync flag, start callbacks after the first block, the ticker loops and the started channels.
- Commission, slashing, vote and status watchers, the missed-blocks window, label parsing, key hashing and bech32: one-pass copies or libraries.
- Log lines and the printed block lines.
