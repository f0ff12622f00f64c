/** The per-validator counters as functions of the accepted blocks. */
module ValidatorLedger {
  import opened Seqs
  import opened BlockTypes
  import opened BlockLedger

  /** What one accepted block means for one validator. */
  datatype Outcome = Proposer(empty: bool) | Signer | Misser(solo: bool) | Bystander

  datatype Counters = Counters(
    validated: nat, missed: nat, soloMissed: nat, consecutiveMissed: nat, empty: nat, proposed: nat)

  predicate Validates(o: Outcome) { o.Proposer? || o.Signer? }
  predicate Proposes(o: Outcome) { o.Proposer? }
  predicate ProposesEmpty(o: Outcome) { o.Proposer? && o.empty }
  predicate Misses(o: Outcome) { o.Misser? }
  predicate MissesSolo(o: Outcome) { o.Misser? && o.solo }
  predicate Idles(o: Outcome) { o.Bystander? }

  /** The proposer that counts is the one of the previously accepted block. */
  function OutcomeOf(prev: BlockInfo, b: BlockInfo, res: ValidatorStatus): Outcome {
    if prev.proposerAddress == res.address then Proposer(prev.transactions == 0)
    else if res.signed then Signer
    else if res.bonded then Misser(SoloMiss(b))
    else Bystander
  }

  /** The outcomes of the j-th tracked validator, one for each accepted block. */
  function Outcomes(a: seq<BlockInfo>, j: nat): (os: seq<Outcome>)
    requires forall i :: 0 <= i < |a| ==> j < |a[i].validatorStatus|
    ensures |os| == |a|
  {
    if |a| == 0 then []
    else
      var init, b := a[..|a| - 1], a[|a| - 1];
      Outcomes(init, j) + [OutcomeOf(Top(init), b, b.validatorStatus[j])]
  }

  function Tally(os: seq<Outcome>): Counters {
    Counters(CountIf(os, Validates), CountIf(os, Misses), CountIf(os, MissesSolo),
             MissesSinceHit(os, Validates, Misses), CountIf(os, ProposesEmpty), CountIf(os, Proposes))
  }

  /** The series of a ledger that carry the labels of k. */
  function Row(l: Ledger, k: Key): Counters {
    Counters(Get(l.validated, k), Get(l.missed, k), Get(l.soloMissed, k),
             Get(l.consecutiveMissed, k), Get(l.empty, k), Get(l.proposed, k))
  }

  function Bump(c: Counters, o: Outcome): Counters {
    match o
    case Proposer(empty) =>
      c.(validated := c.validated + 1, proposed := c.proposed + 1, consecutiveMissed := 0,
         empty := if empty then c.empty + 1 else c.empty)
    case Signer => c.(validated := c.validated + 1, consecutiveMissed := 0)
    case Misser(solo) =>
      c.(missed := c.missed + 1, consecutiveMissed := c.consecutiveMissed + 1,
         soloMissed := if solo then c.soloMissed + 1 else c.soloMissed)
    case Bystander => c
  }

  /** One status entry for each tracked validator, in order. */
  predicate Aligned(b: BlockInfo, tracked: seq<TrackedValidator>) {
    && |b.validatorStatus| == |tracked|
    && forall i :: 0 <= i < |tracked| ==>
         (b.validatorStatus[i].address, b.validatorStatus[i].name) == KeyOf(tracked[i])
  }

  predicate AllAligned(ds: seq<BlockInfo>, tracked: seq<TrackedValidator>) {
    forall i :: 0 <= i < |ds| ==> Aligned(ds[i], tracked)
  }

  predicate DistinctKeys(tracked: seq<TrackedValidator>) {
    forall i, j :: 0 <= i < j < |tracked| ==> KeyOf(tracked[i]) != KeyOf(tracked[j])
  }

  lemma TallySnoc(os: seq<Outcome>, o: Outcome)
    ensures Tally(os + [o]) == Bump(Tally(os), o)
  {
    CountIfSnoc(os, o, Validates);
    CountIfSnoc(os, o, Misses);
    CountIfSnoc(os, o, MissesSolo);
    CountIfSnoc(os, o, ProposesEmpty);
    CountIfSnoc(os, o, Proposes);
    MissesSinceHitSnoc(os, o, Validates, Misses);
  }

  lemma ApplyStatusRow(l: Ledger, b: BlockInfo, res: ValidatorStatus, k: Key)
    ensures Row(ApplyStatus(l, b, res), k) ==
            if k == (res.address, res.name) then Bump(Row(l, k), OutcomeOf(l.latest, b, res)) else Row(l, k)
  {
  }

  lemma EntryKey(b: BlockInfo, tracked: seq<TrackedValidator>, j: nat, m: nat)
    requires Aligned(b, tracked) && DistinctKeys(tracked) && j < |tracked| && m < |tracked|
    ensures KeyOf(tracked[j]) == (b.validatorStatus[m].address, b.validatorStatus[m].name) <==> j == m
  {
    assert KeyOf(tracked[m]) == (b.validatorStatus[m].address, b.validatorStatus[m].name);
  }

  /** With distinct keys each validator is moved once, by its own entry, wherever it stands in the list. */
  lemma {:induction false} ApplyStatusesRow(l: Ledger, b: BlockInfo, tracked: seq<TrackedValidator>, j: nat, n: nat)
    requires Aligned(b, tracked) && DistinctKeys(tracked) && j < |tracked| && n <= |tracked|
    ensures Row(ApplyStatuses(l, b, n), KeyOf(tracked[j])) ==
            if j < n then Bump(Row(l, KeyOf(tracked[j])), OutcomeOf(l.latest, b, b.validatorStatus[j]))
            else Row(l, KeyOf(tracked[j]))
  {
    if n > 0 {
      ApplyStatusesRow(l, b, tracked, j, n - 1);
      ApplyStatusesLatest(l, b, n - 1);
      ApplyStatusRow(ApplyStatuses(l, b, n - 1), b, b.validatorStatus[n - 1], KeyOf(tracked[j]));
      EntryKey(b, tracked, j, n - 1);
    }
  }

  lemma AcceptRow(l: Ledger, b: BlockInfo, tracked: seq<TrackedValidator>, j: nat)
    requires Aligned(b, tracked) && DistinctKeys(tracked) && j < |tracked|
    ensures Row(Accept(l, b), KeyOf(tracked[j])) ==
            Bump(Row(l, KeyOf(tracked[j])), OutcomeOf(l.latest, b, b.validatorStatus[j]))
  {
    ApplyStatusesRow(CountBlock(l, b), b, tracked, j, |tracked|);
  }

  lemma {:induction false} ReplayRow(webhooks: seq<BlockWebhook>, tracked: seq<TrackedValidator>,
                                     a: seq<BlockInfo>, j: nat)
    requires AllAligned(a, tracked)
    requires DistinctKeys(tracked) && j < |tracked|
    ensures Row(Replay(Initial(webhooks), a), KeyOf(tracked[j])) == Tally(Outcomes(a, j))
  {
    if |a| > 0 {
      var init, b := a[..|a| - 1], a[|a| - 1];
      ReplayRow(webhooks, tracked, init, j);
      ReplayLatest(webhooks, init);
      AcceptRow(Replay(Initial(webhooks), init), b, tracked, j);
      TallySnoc(Outcomes(init, j), OutcomeOf(Top(init), b, b.validatorStatus[j]));
    }
  }

  lemma AcceptedAligned(ds: seq<BlockInfo>, tracked: seq<TrackedValidator>)
    requires AllAligned(ds, tracked)
    ensures AllAligned(Accepted(ds), tracked)
  {
    AcceptedTop(ds);
    forall i | 0 <= i < |Accepted(ds)| ensures Aligned(Accepted(ds)[i], tracked) {
      assert Accepted(ds)[i] in Accepted(ds);
    }
  }

  /** After any run the counters of a tracked validator are the tally of its outcomes, and they balance. */
  lemma ValidatorConservation(webhooks: seq<BlockWebhook>, tracked: seq<TrackedValidator>,
                              ds: seq<BlockInfo>, j: nat)
    requires AllAligned(ds, tracked)
    requires DistinctKeys(tracked) && j < |tracked|
    ensures AllAligned(Accepted(ds), tracked)
    ensures var c, os := Row(Run(Initial(webhooks), ds), KeyOf(tracked[j])), Outcomes(Accepted(ds), j);
            && c == Tally(os)
            && c.validated + c.missed + CountIf(os, Idles) == |Accepted(ds)|
            && c.empty <= c.proposed <= c.validated
            && c.soloMissed <= c.missed
  {
    AcceptedAligned(ds, tracked);
    RunReplaysRecords(webhooks, ds);
    var a := Accepted(ds);
    ReplayRow(webhooks, tracked, a, j);
    OutcomesBalance(Outcomes(a, j));
  }

  lemma {:induction false} OutcomesBalance(os: seq<Outcome>)
    ensures CountIf(os, Validates) + CountIf(os, Misses) + CountIf(os, Idles) == |os|
    ensures CountIf(os, ProposesEmpty) <= CountIf(os, Proposes) <= CountIf(os, Validates)
    ensures CountIf(os, MissesSolo) <= CountIf(os, Misses)
  {
    if |os| > 0 { OutcomesBalance(os[..|os| - 1]); }
  }

  /**
   * The consecutive-miss gauge counts the misses after the last validated outcome: that outcome exists
   * unless the count starts at the beginning, nothing after it validates, and idle blocks are not counted.
   */
  lemma ConsecutiveMisses(webhooks: seq<BlockWebhook>, tracked: seq<TrackedValidator>,
                          ds: seq<BlockInfo>, j: nat) returns (from: nat)
    requires AllAligned(ds, tracked)
    requires DistinctKeys(tracked) && j < |tracked|
    ensures AllAligned(Accepted(ds), tracked)
    ensures var c, os := Row(Run(Initial(webhooks), ds), KeyOf(tracked[j])), Outcomes(Accepted(ds), j);
            && from <= |os|
            && (from > 0 ==> Validates(os[from - 1]))
            && (forall i :: from <= i < |os| ==> !Validates(os[i]))
            && c.consecutiveMissed == CountIf(os[from..], Misses)
            && c.consecutiveMissed <= c.missed
  {
    ValidatorConservation(webhooks, tracked, ds, j);
    from := AfterLast(Outcomes(Accepted(ds), j), Validates);
    SuffixCounts(Outcomes(Accepted(ds), j), from);
  }

  lemma SuffixCounts(os: seq<Outcome>, from: nat)
    requires from <= |os|
    ensures CountIf(os[from..], Misses) <= CountIf(os, Misses)
  {
    CountIfConcat(os[..from], os[from..], Misses);
    assert os[..from] + os[from..] == os;
  }

  // ---- Deferred proposer credit ----

  function ProposedBy(address: string): BlockInfo -> bool {
    (b: BlockInfo) => b.proposerAddress == address
  }

  function ProposedEmptyBy(address: string): BlockInfo -> bool {
    (b: BlockInfo) => b.proposerAddress == address && b.transactions == 0
  }

  lemma {:induction false} OutcomesCredit(tracked: seq<TrackedValidator>, a: seq<BlockInfo>, j: nat)
    requires |a| > 0 && AllAligned(a, tracked)
    requires j < |tracked| && tracked[j].address != ""
    ensures CountIf(Outcomes(a, j), Proposes) == CountIf(a[..|a| - 1], ProposedBy(tracked[j].address))
    ensures CountIf(Outcomes(a, j), ProposesEmpty) == CountIf(a[..|a| - 1], ProposedEmptyBy(tracked[j].address))
  {
    var init, b, v := a[..|a| - 1], a[|a| - 1], tracked[j];
    assert (b.validatorStatus[j].address, b.validatorStatus[j].name) == KeyOf(v);
    var o := OutcomeOf(Top(init), b, b.validatorStatus[j]);
    CountIfSnoc(Outcomes(init, j), o, Proposes);
    CountIfSnoc(Outcomes(init, j), o, ProposesEmpty);
    if |init| > 0 {
      OutcomesCredit(tracked, init, j);
      assert init == init[..|init| - 1] + [Top(init)];
      CountIfSnoc(init[..|init| - 1], Top(init), ProposedBy(v.address));
      CountIfSnoc(init[..|init| - 1], Top(init), ProposedEmptyBy(v.address));
    }
  }

  /** Credit is for every accepted block but the latest, however many deliveries were stale or missing. */
  lemma ProposerCredit(webhooks: seq<BlockWebhook>, tracked: seq<TrackedValidator>, ds: seq<BlockInfo>, j: nat)
    requires AllAligned(ds, tracked)
    requires DistinctKeys(tracked) && j < |tracked| && tracked[j].address != ""
    requires |Accepted(ds)| > 0
    ensures var c, a := Row(Run(Initial(webhooks), ds), KeyOf(tracked[j])), Accepted(ds);
            && c.proposed == CountIf(a[..|a| - 1], ProposedBy(tracked[j].address))
            && c.empty == CountIf(a[..|a| - 1], ProposedEmptyBy(tracked[j].address))
  {
    AcceptedAligned(ds, tracked);
    ValidatorConservation(webhooks, tracked, ds, j);
    OutcomesCredit(tracked, Accepted(ds), j);
  }
}
