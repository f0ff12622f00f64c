/** The block counters in terms of the blocks the watcher saw, their commits and the validator sets. */
module BlockHistory {
  import opened Seqs
  import opened BlockTypes
  import opened Records
  import opened CommitStatus
  import opened BlockLedger
  import opened HeightLedger
  import opened ValidatorLedger

  /** A block that reached the watcher, and the validator set it knew then. */
  datatype Sight = Sight(block: Block, vals: seq<string>)

  function Observed(ss: seq<Sight>, tracked: seq<TrackedValidator>): (r: seq<BlockInfo>)
    ensures |r| == |ss|
    ensures forall i :: 0 <= i < |ss| ==>
              r[i].height == ss[i].block.height && |r[i].validatorStatus| == |tracked|
  {
    seq(|ss|, i requires 0 <= i < |ss| => Observe(ss[i].block, tracked, ss[i].vals))
  }

  function SightHeight(s: Sight): int {
    s.block.height
  }

  /** The sights whose height is above zero and above every height before. */
  function Kept(ss: seq<Sight>): seq<Sight> {
    if |ss| == 0 then []
    else Kept(ss[..|ss| - 1]) + (if Record(ss, SightHeight, 0, |ss| - 1) then [ss[|ss| - 1]] else [])
  }

  lemma SameRecords(ss: seq<Sight>, tracked: seq<TrackedValidator>, i: nat)
    requires i < |ss|
    ensures Record(Observed(ss, tracked), HeightOf, 0, i) <==> Record(ss, SightHeight, 0, i)
  {
  }

  lemma {:induction false} KeptIsAccepted(ss: seq<Sight>, tracked: seq<TrackedValidator>)
    ensures Accepted(Observed(ss, tracked)) == Observed(Kept(ss), tracked)
  {
    if |ss| > 0 {
      KeptIsAccepted(ss[..|ss| - 1], tracked);
      SameRecords(ss, tracked, |ss| - 1);
      assert Observed(ss, tracked)[..|ss| - 1] == Observed(ss[..|ss| - 1], tracked);
    }
  }

  // ---- What one kept block means for one validator ----

  ghost predicate SignedHere(s: Sight, address: string) {
    exists p :: 0 <= p < |s.block.signatures| && Gives(s.block.signatures[p], address)
  }

  /** In the validator set, or anywhere in the commit. */
  ghost predicate Seated(s: Sight, address: string) {
    || address in s.vals
    || exists p :: 0 <= p < |s.block.signatures| && s.block.signatures[p].validatorAddress == address
  }

  /** The block kept just before the i-th was proposed by the validator. */
  predicate ProposedBefore(a: seq<Sight>, i: nat, address: string)
    requires i < |a|
  {
    i > 0 && a[i - 1].block.proposerAddress == address
  }

  predicate EmptyBefore(a: seq<Sight>, i: nat, address: string)
    requires i < |a|
  {
    ProposedBefore(a, i, address) && |a[i - 1].block.txs| == 0
  }

  ghost predicate ValidatedAt(a: seq<Sight>, i: nat, address: string)
    requires i < |a|
  {
    ProposedBefore(a, i, address) || SignedHere(a[i], address)
  }

  ghost predicate MissedAt(a: seq<Sight>, i: nat, address: string)
    requires i < |a|
  {
    !ValidatedAt(a, i, address) && Seated(a[i], address)
  }

  /** More than 66% of the slots are present, up to the rounding of the ratio. */
  predicate MostPresent(sigs: seq<CommitSig>) {
    |sigs| > 0 && 400_000_000_000_000 * (50 * |PresentAt(sigs)| - 33 * |sigs|) >= |sigs|
  }

  ghost predicate SoloMissedAt(a: seq<Sight>, i: nat, address: string)
    requires i < |a|
  {
    MissedAt(a, i, address) && MostPresent(a[i].block.signatures)
  }

  /** Missed, and not validated since. */
  ghost predicate MissedSince(a: seq<Sight>, i: nat, address: string)
    requires i < |a|
  {
    MissedAt(a, i, address) && forall j :: i <= j < |a| ==> !ValidatedAt(a, j, address)
  }

  function Previous(o: seq<BlockInfo>, i: nat): BlockInfo
    requires i < |o|
  {
    if i == 0 then NO_BLOCK else o[i - 1]
  }

  lemma {:induction false} OutcomeAt(o: seq<BlockInfo>, j: nat, i: nat)
    requires i < |o| && forall k :: 0 <= k < |o| ==> j < |o[k].validatorStatus|
    ensures Outcomes(o, j)[i] == OutcomeOf(Previous(o, i), o[i], o[i].validatorStatus[j])
    decreases |o|
  {
    if i < |o| - 1 {
      OutcomeAt(o[..|o| - 1], j, i);
    }
  }

  lemma SightDigest(s: Sight, tracked: seq<TrackedValidator>, j: nat)
    requires j < |tracked|
    ensures var info, address := Observe(s.block, tracked, s.vals), tracked[j].address;
            && j < |info.validatorStatus|
            && var st := info.validatorStatus[j];
               && st.address == address
               && (st.signed <==> SignedHere(s, address)) && (st.bonded <==> Seated(s, address))
               && (SoloMiss(info) <==> MostPresent(s.block.signatures))
               && info.proposerAddress == s.block.proposerAddress && info.transactions == |s.block.txs|
  {
    StatusMeaning(tracked[j], s.vals, s.block.signatures);
    DigestMeaning(s.block, Statuses(tracked, s.vals, s.block.signatures));
    SoloMissExactly(Observe(s.block, tracked, s.vals));
  }

  /** The outcome that the ledger sees is what the blocks say. */
  ghost predicate Fits(o: Outcome, a: seq<Sight>, i: nat, address: string)
    requires i < |a|
  {
    && (Proposes(o) <==> ProposedBefore(a, i, address))
    && (ProposesEmpty(o) <==> EmptyBefore(a, i, address))
    && (Validates(o) <==> ValidatedAt(a, i, address))
    && (Misses(o) <==> MissedAt(a, i, address))
    && (MissesSolo(o) <==> SoloMissedAt(a, i, address))
  }

  lemma ObservedAt(a: seq<Sight>, tracked: seq<TrackedValidator>, i: nat)
    requires i < |a|
    ensures Observed(a, tracked)[i] == Observe(a[i].block, tracked, a[i].vals)
    ensures Previous(Observed(a, tracked), i) ==
            if i == 0 then NO_BLOCK else Observe(a[i - 1].block, tracked, a[i - 1].vals)
  {
  }

  lemma SightOutcome(a: seq<Sight>, tracked: seq<TrackedValidator>, j: nat, i: nat)
    requires i < |a| && j < |tracked| && tracked[j].address != ""
    ensures var infos := Observed(a, tracked);
            Fits(OutcomeOf(Previous(infos, i), infos[i], infos[i].validatorStatus[j]), a, i, tracked[j].address)
  {
    ObservedAt(a, tracked, i);
    OutcomeOfSight(a, tracked, j, i, Previous(Observed(a, tracked), i), Observed(a, tracked)[i]);
  }

  lemma OutcomeOfSight(a: seq<Sight>, tracked: seq<TrackedValidator>, j: nat, i: nat, prev: BlockInfo, info: BlockInfo)
    requires i < |a| && j < |tracked| && tracked[j].address != ""
    requires info == Observe(a[i].block, tracked, a[i].vals)
    requires prev == if i == 0 then NO_BLOCK else Observe(a[i - 1].block, tracked, a[i - 1].vals)
    ensures Fits(OutcomeOf(prev, info, info.validatorStatus[j]), a, i, tracked[j].address)
  {
    SightDigest(a[i], tracked, j);
    PreviousProposer(a, tracked, j, i, prev);
  }

  lemma PreviousProposer(a: seq<Sight>, tracked: seq<TrackedValidator>, j: nat, i: nat, prev: BlockInfo)
    requires i < |a| && j < |tracked| && tracked[j].address != ""
    requires prev == if i == 0 then NO_BLOCK else Observe(a[i - 1].block, tracked, a[i - 1].vals)
    ensures prev.proposerAddress == tracked[j].address <==> ProposedBefore(a, i, tracked[j].address)
    ensures i > 0 ==> prev.transactions == |a[i - 1].block.txs|
  {
    if i > 0 { SightDigest(a[i - 1], tracked, j); }
  }

  // ---- The counters ----

  /** The positions of a with property f. */
  ghost function Where(n: nat, f: nat -> bool): (r: set<nat>)
    ensures forall i: nat :: i in r <==> i < n && f(i)
  {
    set i: nat | i < n && f(i)
  }

  /** Each outcome of a sequence fits the block it came from. */
  ghost predicate AllFit(os: seq<Outcome>, a: seq<Sight>, address: string) {
    |os| == |a| && forall i :: 0 <= i < |a| ==> Fits(os[i], a, i, address)
  }

  lemma AllOutcomesFit(a: seq<Sight>, tracked: seq<TrackedValidator>, j: nat)
    requires j < |tracked| && tracked[j].address != ""
    ensures AllFit(Outcomes(Observed(a, tracked), j), a, tracked[j].address)
  {
    forall i | 0 <= i < |a| ensures Fits(Outcomes(Observed(a, tracked), j)[i], a, i, tracked[j].address) {
      OutcomeAt(Observed(a, tracked), j, i);
      SightOutcome(a, tracked, j, i);
    }
  }

  lemma CountWhere<T(!new)>(s: seq<T>, p: T -> bool, f: nat -> bool)
    requires forall i :: 0 <= i < |s| ==> (p(s[i]) <==> f(i))
    ensures CountIf(s, p) == |Where(|s|, f)|
  {
    CountFrom(s, 0, p);
    assert s[0..] == s;
    assert PositionsFrom(s, 0, p) == Where(|s|, f);
  }

  /** Misses after the last hit are the misses that no hit follows. */
  lemma MissesWhere(os: seq<Outcome>, a: seq<Sight>, address: string)
    requires AllFit(os, a, address)
    ensures MissesSinceHit(os, Validates, Misses) ==
            |Where(|a|, (i: nat) => i < |a| && MissedSince(a, i, address))|
  {
    var k, f := AfterLast(os, Validates), (i: nat) => i < |a| && MissedSince(a, i, address);
    CountFrom(os, k, Misses);
    forall i: nat | i < |os| ensures k <= i && Misses(os[i]) <==> f(i) {
      assert Fits(os[i], a, i, address);
      if k <= i {
        forall l | i <= l < |a| ensures !ValidatedAt(a, l, address) {
          assert Fits(os[l], a, l, address) && !Validates(os[l]);
        }
      } else {
        assert Fits(os[k - 1], a, k - 1, address) && Validates(os[k - 1]);
      }
    }
    assert PositionsFrom(os, k, Misses) == Where(|a|, f);
  }

  /** The six counters of one validator are counted off the blocks. */
  ghost predicate CountedOff(c: Counters, a: seq<Sight>, address: string) {
    && c.validated == |Where(|a|, (i: nat) => i < |a| && ValidatedAt(a, i, address))|
    && c.missed == |Where(|a|, (i: nat) => i < |a| && MissedAt(a, i, address))|
    && c.soloMissed == |Where(|a|, (i: nat) => i < |a| && SoloMissedAt(a, i, address))|
    && c.consecutiveMissed == |Where(|a|, (i: nat) => i < |a| && MissedSince(a, i, address))|
    && c.proposed == |Where(|a|, (i: nat) => i < |a| && ProposedBefore(a, i, address))|
    && c.empty == |Where(|a|, (i: nat) => i < |a| && EmptyBefore(a, i, address))|
  }

  lemma TallyCountsOff(os: seq<Outcome>, a: seq<Sight>, address: string)
    requires AllFit(os, a, address)
    ensures CountedOff(Tally(os), a, address)
  {
    CountWhere(os, Validates, (i: nat) => i < |a| && ValidatedAt(a, i, address));
    CountWhere(os, Misses, (i: nat) => i < |a| && MissedAt(a, i, address));
    CountWhere(os, MissesSolo, (i: nat) => i < |a| && SoloMissedAt(a, i, address));
    CountWhere(os, Proposes, (i: nat) => i < |a| && ProposedBefore(a, i, address));
    CountWhere(os, ProposesEmpty, (i: nat) => i < |a| && EmptyBefore(a, i, address));
    MissesWhere(os, a, address);
  }

  function TotalTxs(a: seq<Sight>): nat {
    if |a| == 0 then 0 else TotalTxs(a[..|a| - 1]) + |a[|a| - 1].block.txs|
  }

  lemma {:induction false} TransactionsAddUp(a: seq<Sight>, tracked: seq<TrackedValidator>)
    ensures TotalTransactions(Observed(a, tracked)) == TotalTxs(a)
  {
    if |a| > 0 {
      TransactionsAddUp(a[..|a| - 1], tracked);
      assert Observed(a, tracked)[..|a| - 1] == Observed(a[..|a| - 1], tracked);
      DigestMeaning(a[|a| - 1].block, Statuses(tracked, a[|a| - 1].vals, a[|a| - 1].block.signatures));
    }
  }

  /**
   * Over every run: each counter of a tracked validator is the number of kept blocks of which the blocks,
   * their commits and the validator sets say so.
   */
  lemma CountersByBlocks(webhooks: seq<BlockWebhook>, tracked: seq<TrackedValidator>, ss: seq<Sight>, j: nat)
    requires DistinctKeys(tracked) && j < |tracked| && tracked[j].address != ""
    ensures CountedOff(Row(Run(Initial(webhooks), Observed(ss, tracked)), KeyOf(tracked[j])), Kept(ss),
                       tracked[j].address)
  {
    RowIsTally(webhooks, tracked, ss, j);
    TallyOfSights(Kept(ss), tracked, j);
  }

  lemma TallyOfSights(a: seq<Sight>, tracked: seq<TrackedValidator>, j: nat)
    requires j < |tracked| && tracked[j].address != ""
    ensures CountedOff(Tally(Outcomes(Observed(a, tracked), j)), a, tracked[j].address)
  {
    AllOutcomesFit(a, tracked, j);
    TallyCountsOff(Outcomes(Observed(a, tracked), j), a, tracked[j].address);
  }

  lemma RowIsTally(webhooks: seq<BlockWebhook>, tracked: seq<TrackedValidator>, ss: seq<Sight>, j: nat)
    requires DistinctKeys(tracked) && j < |tracked|
    ensures Row(Run(Initial(webhooks), Observed(ss, tracked)), KeyOf(tracked[j])) ==
            Tally(Outcomes(Observed(Kept(ss), tracked), j))
  {
    KeptIsAccepted(ss, tracked);
    ValidatorConservation(webhooks, tracked, Observed(ss, tracked), j);
  }

  /** The chain-wide counters, once a block was kept. */
  lemma TotalsByBlocks(webhooks: seq<BlockWebhook>, tracked: seq<TrackedValidator>, ss: seq<Sight>)
    requires |Kept(ss)| > 0
    ensures var l, a := Run(Initial(webhooks), Observed(ss, tracked)), Kept(ss);
            var last := a[|a| - 1].block;
            && l.trackedBlocks == |a| && l.transactions == TotalTxs(a)
            && l.blockHeight == last.height && l.activeSet == |last.signatures|
  {
    KeptIsAccepted(ss, tracked);
    HeightConservation(webhooks, Observed(ss, tracked));
    TransactionsAddUp(Kept(ss), tracked);
    var last := Kept(ss)[|Kept(ss)| - 1];
    DigestMeaning(last.block, Statuses(tracked, last.vals, last.block.signatures));
  }
}
