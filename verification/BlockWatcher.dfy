/** The block watcher itself: fields updated in place, each method tied to the ledger it implements. */
module BlockWatchers {
  import opened Seqs
  import opened BlockTypes
  import opened BlockLedger
  import opened CommitStatus

  /** One page of the validator set as the RPC answers it. */
  datatype PageResponse = PageError | Page(validators: seq<string>, total: int)

  /** The first k pages, one after the other; a page that failed adds nothing. */
  function Collected(server: nat -> PageResponse, k: nat): seq<string> {
    if k == 0 then []
    else Collected(server, k - 1) + (match server(k) case PageError => [] case Page(vals, _) => vals)
  }

  datatype BlockResponse = NoBlock | GotBlock(block: Block)

  class BlockWatcher {
    const trackedValidators: seq<TrackedValidator>
    var validatorSet: seq<string>
    var latestBlock: BlockInfo
    var customWebhooks: seq<BlockWebhook>
    ghost var fired: seq<Firing>

    // Metrics. Series are keyed by the (address, name) labels.
    var nodeBlockHeight: map<string, int>
    var blockHeight: int
    var activeSet: int
    var trackedBlocks: nat
    var transactions: nat
    var skippedBlocks: int
    var validatedBlocks: Series
    var missedBlocks: Series
    var soloMissedBlocks: Series
    var consecutiveMissedBlocks: Series
    var emptyBlocks: Series
    var proposedBlocks: Series

    ghost function Value(): Ledger
      reads this
    {
      Ledger(latestBlock, customWebhooks, fired, blockHeight, activeSet, trackedBlocks, transactions,
             skippedBlocks, validatedBlocks, missedBlocks, soloMissedBlocks, consecutiveMissedBlocks,
             emptyBlocks, proposedBlocks)
    }

    constructor (validators: seq<TrackedValidator>, webhooks: seq<BlockWebhook>)
      ensures Value() == Initial(webhooks)
      ensures trackedValidators == validators && validatorSet == []
    {
      trackedValidators := validators;
      validatorSet := [];
      latestBlock := NO_BLOCK;
      customWebhooks := webhooks;
      fired := [];
      nodeBlockHeight := map[];
      blockHeight, activeSet, trackedBlocks, transactions, skippedBlocks := 0, 0, 0, 0, 0;
      validatedBlocks, missedBlocks, soloMissedBlocks := map[], map[], map[];
      consecutiveMissedBlocks, emptyBlocks, proposedBlocks := map[], map[], map[];
    }

    method HandleBlockInfo(block: BlockInfo)
      modifies this
      ensures Value() == Handle(old(Value()), block)
      ensures validatorSet == old(validatorSet) && nodeBlockHeight == old(nodeBlockHeight)
    {
      if latestBlock.height >= block.height {
        return;
      }
      CountHeights(block);
      ghost var counted := Value();
      CountValidators(block);
      ghost var applied := Value();
      SendWebhooks(block.height);
      ghost var sent := Value();
      latestBlock := block;
      assert Value() == sent.(latest := block);
      assert applied == ApplyStatuses(counted, block, |block.validatorStatus|);
    }

    method CountHeights(block: BlockInfo)
      modifies this`skippedBlocks, this`blockHeight, this`activeSet, this`trackedBlocks, this`transactions
      ensures Value() == CountBlock(old(Value()), block)
    {
      var blockDiff := block.height - latestBlock.height;
      if latestBlock.height > 0 && blockDiff > 1 {
        skippedBlocks := skippedBlocks + blockDiff;
      }
      blockHeight := block.height;
      activeSet := block.totalValidators;
      trackedBlocks := trackedBlocks + 1;
      transactions := transactions + block.transactions;
    }

    method CountValidators(block: BlockInfo)
      modifies this
      ensures Value() == ApplyStatuses(old(Value()), block, |block.validatorStatus|)
      ensures validatorSet == old(validatorSet) && nodeBlockHeight == old(nodeBlockHeight)
    {
      for i := 0 to |block.validatorStatus|
        invariant Value() == ApplyStatuses(old(Value()), block, i)
        invariant validatorSet == old(validatorSet) && nodeBlockHeight == old(nodeBlockHeight)
      {
        CountValidator(block, block.validatorStatus[i]);
      }
    }

    /** The body of the status loop. */
    method CountValidator(block: BlockInfo, res: ValidatorStatus)
      modifies this
      ensures Value() == ApplyStatus(old(Value()), block, res)
      ensures validatorSet == old(validatorSet) && nodeBlockHeight == old(nodeBlockHeight)
    {
      var k := (res.address, res.name);
      if latestBlock.proposerAddress == res.address {
        CountProposer(k);
      } else if res.signed {
        validatedBlocks := Inc(validatedBlocks, k);
        consecutiveMissedBlocks := Reset(consecutiveMissedBlocks, k);
      } else if res.bonded {
        CountMiss(block, k);
      }
    }

    method CountProposer(k: Key)
      modifies this`emptyBlocks, this`proposedBlocks, this`validatedBlocks, this`consecutiveMissedBlocks
      ensures emptyBlocks == if latestBlock.transactions == 0 then Inc(old(emptyBlocks), k) else old(emptyBlocks)
      ensures proposedBlocks == Inc(old(proposedBlocks), k) && validatedBlocks == Inc(old(validatedBlocks), k)
      ensures consecutiveMissedBlocks == Reset(old(consecutiveMissedBlocks), k)
    {
      if latestBlock.transactions == 0 {
        emptyBlocks := Inc(emptyBlocks, k);
      }
      proposedBlocks := Inc(proposedBlocks, k);
      validatedBlocks := Inc(validatedBlocks, k);
      consecutiveMissedBlocks := Reset(consecutiveMissedBlocks, k);
    }

    method CountMiss(block: BlockInfo, k: Key)
      modifies this`missedBlocks, this`consecutiveMissedBlocks, this`soloMissedBlocks
      ensures missedBlocks == Inc(old(missedBlocks), k)
      ensures consecutiveMissedBlocks == Inc(old(consecutiveMissedBlocks), k)
      ensures soloMissedBlocks == if SoloMiss(block) then Inc(old(soloMissedBlocks), k) else old(soloMissedBlocks)
    {
      missedBlocks := Inc(missedBlocks, k);
      consecutiveMissedBlocks := Inc(consecutiveMissedBlocks, k);
      if SignedRatio(block) > SOLO_THRESHOLD {
        soloMissedBlocks := Inc(soloMissedBlocks, k);
      }
    }

    method SendWebhooks(height: int)
      modifies this`customWebhooks, this`fired
      ensures Value() == HandleWebhooks(old(Value()), height)
    {
      if |customWebhooks| == 0 {
        assert FireAt([], height) == [];
        return;
      }
      var newWebhooks := [];
      ghost var all := customWebhooks;
      for i := 0 to |customWebhooks|
        invariant customWebhooks == all
        invariant newWebhooks == Filter(all[..i], After(height))
        invariant fired == old(fired) + FireAt(Filter(all[..i], Due(height)), height)
      {
        var webhook := customWebhooks[i];
        assert all[..i + 1] == all[..i] + [webhook];
        FilterSnoc(all[..i], webhook, After(height));
        FilterSnoc(all[..i], webhook, Due(height));
        if webhook.height <= height {
          fired := fired + [Firing(webhook, height)];
        } else {
          newWebhooks := newWebhooks + [webhook];
        }
      }
      assert all[..|all|] == all;
      customWebhooks := newWebhooks;
    }

    method IsValidatorActive(address: string) returns (active: bool)
      ensures active <==> address in validatorSet
    {
      for i := 0 to |validatorSet|
        invariant address !in validatorSet[..i]
      {
        if validatorSet[i] == address {
          return true;
        }
      }
      return false;
    }

    /** The scan of the commit for one validator; it stops at the first signature. */
    method ScanCommit(val: TrackedValidator, sigs: seq<CommitSig>) returns (st: ValidatorStatus)
      ensures st == StatusOf(val, validatorSet, sigs)
    {
      var bonded := IsValidatorActive(val.address);
      var signed, rank := false, 0;
      var i := 0;
      while i < |sigs|
        invariant 0 <= i <= |sigs| && !signed
        invariant bonded == (val.address in validatorSet || rank > 0)
        invariant rank <= i && (rank > 0 ==> SlotOf(val.address)(sigs[rank - 1]))
        invariant forall j :: rank <= j < i ==> !SlotOf(val.address)(sigs[j])
        invariant forall j :: 0 <= j < i ==> !SignedBy(val.address)(sigs[j])
      {
        if val.address == sigs[i].validatorAddress {
          bonded := true;
          signed := sigs[i].flag != FlagAbsent;
          rank := i + 1;
        }
        if signed {
          assert SignedBy(val.address)(sigs[i]);
          break;
        }
        i := i + 1;
      }
      st := ValidatorStatus(val.address, val.name, bonded, signed, rank);
    }

    method ComputeValidatorStatus(block: Block) returns (status: seq<ValidatorStatus>)
      ensures status == Statuses(trackedValidators, validatorSet, block.signatures)
    {
      status := [];
      for i := 0 to |trackedValidators|
        invariant |status| == i
        invariant forall j :: 0 <= j < i ==>
                    status[j] == StatusOf(trackedValidators[j], validatorSet, block.signatures)
      {
        var st := ScanCommit(trackedValidators[i], block.signatures);
        status := status + [st];
      }
    }

    /** Whatever is sent on the block channel is received, and handled, before the next send. */
    method HandleNodeBlock(endpoint: string, block: Block)
      modifies this
      ensures Value() == Handle(old(Value()), Observe(block, trackedValidators, validatorSet))
      ensures validatorSet == old(validatorSet)
      ensures nodeBlockHeight == old(nodeBlockHeight)[endpoint := block.height]
    {
      nodeBlockHeight := nodeBlockHeight[endpoint := block.height];
      var status := ComputeValidatorStatus(block);
      var info := NewBlockInfo(block, status);
      HandleBlockInfo(info);
    }

    /** Blocks of a node that is catching up are dropped before anything is recorded. */
    method OnNewBlock(endpoint: string, synced: bool, block: Block)
      modifies this
      ensures Value() == if synced then Handle(old(Value()), Observe(block, trackedValidators, validatorSet))
                         else old(Value())
      ensures validatorSet == old(validatorSet)
      ensures nodeBlockHeight == if synced then old(nodeBlockHeight)[endpoint := block.height]
                                 else old(nodeBlockHeight)
    {
      if !synced {
        return;
      }
      HandleNodeBlock(endpoint, block);
    }

    /** The start callback asks for the validator set and then for one block, synced or not. */
    method OnNodeStart(endpoint: string, server: nat -> PageResponse, head: BlockResponse)
      returns (ok: bool, calls: nat)
      modifies this
      ensures 1 <= calls <= 5 && (ok <==> server(calls).Page?)
      ensures validatorSet == if ok then Collected(server, calls) else old(validatorSet)
      ensures Value() == if ok && head.GotBlock?
                         then Handle(old(Value()), Observe(head.block, trackedValidators, validatorSet))
                         else old(Value())
      ensures nodeBlockHeight == if ok && head.GotBlock? then old(nodeBlockHeight)[endpoint := head.block.height]
                                 else old(nodeBlockHeight)
    {
      ok, calls := SyncValidatorSet(server);
      if ok && head.GotBlock? {
        HandleNodeBlock(endpoint, head.block);
      }
    }

    /** At most five pages; the set is replaced only when no page failed. */
    method SyncValidatorSet(server: nat -> PageResponse) returns (ok: bool, calls: nat)
      modifies this`validatorSet
      ensures 1 <= calls <= 5
      ensures forall k :: 1 <= k < calls ==> server(k).Page? && |Collected(server, k)| < server(k).total
      ensures ok <==> server(calls).Page?
      ensures ok ==> validatorSet == Collected(server, calls)
      ensures ok ==> calls == 5 || |Collected(server, calls)| >= server(calls).total
      ensures !ok ==> validatorSet == old(validatorSet)
    {
      var validators := [];
      calls := 0;
      while calls < 5
        invariant 0 <= calls <= 5
        invariant validators == Collected(server, calls)
        invariant validatorSet == old(validatorSet)
        invariant forall k :: 1 <= k <= calls ==> server(k).Page? && |Collected(server, k)| < server(k).total
      {
        calls := calls + 1;
        var result := server(calls);
        if result.PageError? {
          return false, calls;
        }
        validators := validators + result.validators;
        if |validators| >= result.total {
          break;
        }
      }
      validatorSet := validators;
      ok := true;
    }
  }

  // ---- Paging against a server that slices one list ----

  function Min(a: int, b: int): int {
    if a < b then a else b
  }

  /** Page k of the list, a hundred entries a page. */
  function Slices(list: seq<string>): nat -> PageResponse {
    (k: nat) =>
      var lo := if k == 0 then 0 else Min(100 * (k - 1), |list|);
      Page(list[lo..Min(lo + 100, |list|)], |list|)
  }

  lemma {:induction false} SlicesCollected(list: seq<string>, k: nat)
    ensures Collected(Slices(list), k) == list[..Min(100 * k, |list|)]
  {
    if k > 0 { SlicesCollected(list, k - 1); }
  }

  /** What the contract of SyncValidatorSet says of such a server: how many calls, and what is stored. */
  lemma PagingStoresPrefix(list: seq<string>, calls: nat)
    requires 1 <= calls <= 5
    requires forall k :: 1 <= k < calls ==> |Collected(Slices(list), k)| < Slices(list)(k).total
    requires calls == 5 || |Collected(Slices(list), calls)| >= Slices(list)(calls).total
    ensures Collected(Slices(list), calls) == list[..Min(500, |list|)]
    ensures var pages := (Min(500, |list|) + 99) / 100;
            calls == if pages == 0 then 1 else pages
  {
    SlicesCollected(list, calls);
    if calls > 1 {
      SlicesCollected(list, calls - 1);
      assert |Collected(Slices(list), calls - 1)| < Slices(list)(calls - 1).total;
    }
  }

  /** With at most 500 validators the activity check is exact membership in the server's list. */
  method ActiveAfterSync(w: BlockWatcher, list: seq<string>, address: string) returns (active: bool)
    modifies w
    ensures |list| <= 500 ==> (active <==> address in list)
    ensures active ==> address in list
  {
    var ok, calls := w.SyncValidatorSet(Slices(list));
    PagingStoresPrefix(list, calls);
    active := w.IsValidatorActive(address);
  }
}
