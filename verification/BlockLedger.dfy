/** What the block watcher keeps between blocks, and how one block changes it. */
module BlockLedger {
  import opened Seqs
  import opened BlockTypes
  import opened Records

  datatype BlockWebhook = BlockWebhook(height: int, metadata: map<string, string>)

  /** A custom webhook that was sent, and the height of the block that triggered it. */
  datatype Firing = Firing(webhook: BlockWebhook, at: int)

  datatype Ledger = Ledger(
    latest: BlockInfo,
    pending: seq<BlockWebhook>,
    fired: seq<Firing>,
    blockHeight: int,
    activeSet: int,
    trackedBlocks: nat,
    transactions: nat,
    skippedBlocks: int,
    validated: Series,
    missed: Series,
    soloMissed: Series,
    consecutiveMissed: Series,
    empty: Series,
    proposed: Series)

  const NO_BLOCK := BlockInfo(0, 0, 0, 0, "", [])

  function Initial(webhooks: seq<BlockWebhook>): Ledger {
    Ledger(NO_BLOCK, webhooks, [], 0, 0, 0, 0, 0, map[], map[], map[], map[], map[], map[])
  }

  function ApplyStatus(l: Ledger, b: BlockInfo, res: ValidatorStatus): Ledger {
    var k := (res.address, res.name);
    if l.latest.proposerAddress == res.address then
      l.(empty := if l.latest.transactions == 0 then Inc(l.empty, k) else l.empty,
         proposed := Inc(l.proposed, k),
         validated := Inc(l.validated, k),
         consecutiveMissed := Reset(l.consecutiveMissed, k))
    else if res.signed then
      l.(validated := Inc(l.validated, k), consecutiveMissed := Reset(l.consecutiveMissed, k))
    else if res.bonded then
      l.(missed := Inc(l.missed, k),
         consecutiveMissed := Inc(l.consecutiveMissed, k),
         soloMissed := if SoloMiss(b) then Inc(l.soloMissed, k) else l.soloMissed)
    else
      l
  }

  /** The first n statuses of b applied in order. */
  function ApplyStatuses(l: Ledger, b: BlockInfo, n: nat): Ledger
    requires n <= |b.validatorStatus|
  {
    if n == 0 then l else ApplyStatus(ApplyStatuses(l, b, n - 1), b, b.validatorStatus[n - 1])
  }

  function CountBlock(l: Ledger, b: BlockInfo): Ledger {
    var diff := b.height - l.latest.height;
    l.(skippedBlocks := if l.latest.height > 0 && diff > 1 then l.skippedBlocks + diff else l.skippedBlocks,
       blockHeight := b.height,
       activeSet := b.totalValidators,
       trackedBlocks := l.trackedBlocks + 1,
       transactions := l.transactions + b.transactions)
  }

  function Due(height: int): BlockWebhook -> bool {
    (w: BlockWebhook) => w.height <= height
  }

  function After(height: int): BlockWebhook -> bool {
    (w: BlockWebhook) => w.height > height
  }

  function FireAt(hooks: seq<BlockWebhook>, height: int): seq<Firing> {
    seq(|hooks|, i requires 0 <= i < |hooks| => Firing(hooks[i], height))
  }

  function HandleWebhooks(l: Ledger, height: int): Ledger {
    l.(fired := l.fired + FireAt(Filter(l.pending, Due(height)), height),
       pending := Filter(l.pending, After(height)))
  }

  /** An accepted block. */
  function Accept(l: Ledger, b: BlockInfo): Ledger {
    HandleWebhooks(ApplyStatuses(CountBlock(l, b), b, |b.validatorStatus|), b.height).(latest := b)
  }

  /** A delivered block: heights that are not above the latest one are ignored. */
  function Handle(l: Ledger, b: BlockInfo): Ledger {
    if l.latest.height >= b.height then l else Accept(l, b)
  }

  function Run(l: Ledger, deliveries: seq<BlockInfo>): Ledger {
    if |deliveries| == 0 then l
    else Handle(Run(l, deliveries[..|deliveries| - 1]), deliveries[|deliveries| - 1])
  }

  /** Applying statuses moves only the per-validator series. */
  lemma {:induction false} ApplyStatusesFrame(l: Ledger, b: BlockInfo, n: nat)
    requires n <= |b.validatorStatus|
    ensures var r := ApplyStatuses(l, b, n);
            r == l.(validated := r.validated, missed := r.missed, soloMissed := r.soloMissed,
                    consecutiveMissed := r.consecutiveMissed, empty := r.empty, proposed := r.proposed)
  {
    if n > 0 { ApplyStatusesFrame(l, b, n - 1); }
  }

  lemma {:induction false} ApplyStatusesLatest(l: Ledger, b: BlockInfo, n: nat)
    requires n <= |b.validatorStatus|
    ensures ApplyStatuses(l, b, n).latest == l.latest
  {
    if n > 0 { ApplyStatusesLatest(l, b, n - 1); }
  }

  // ---- Which deliveries are accepted ----

  function HeightOf(b: BlockInfo): int {
    b.height
  }

  /** The strict left-to-right maxima of the delivered heights. */
  function Accepted(ds: seq<BlockInfo>): seq<BlockInfo> {
    if |ds| == 0 then []
    else Accepted(ds[..|ds| - 1]) + (if Record(ds, HeightOf, 0, |ds| - 1) then [ds[|ds| - 1]] else [])
  }

  predicate Ascending(a: seq<BlockInfo>) {
    && (forall i :: 0 <= i < |a| ==> a[i].height > 0)
    && (forall i, j :: 0 <= i < j < |a| ==> a[i].height < a[j].height)
  }

  function Top(a: seq<BlockInfo>): BlockInfo {
    if |a| == 0 then NO_BLOCK else a[|a| - 1]
  }

  /** Accepting every block of a, with no filter. */
  function Replay(l: Ledger, a: seq<BlockInfo>): Ledger {
    if |a| == 0 then l else Accept(Replay(l, a[..|a| - 1]), a[|a| - 1])
  }

  lemma ReplaySnoc(l: Ledger, a: seq<BlockInfo>, b: BlockInfo)
    ensures Replay(l, a + [b]) == Accept(Replay(l, a), b)
  {
    assert (a + [b])[..|a|] == a;
  }

  lemma {:induction false} ReplayLatest(webhooks: seq<BlockWebhook>, a: seq<BlockInfo>)
    ensures Replay(Initial(webhooks), a).latest == Top(a)
  {
  }

  lemma {:induction false} AcceptedMembers(ds: seq<BlockInfo>)
    ensures forall b :: b in Accepted(ds) ==> b in ds
  {
    if |ds| > 0 { AcceptedMembers(ds[..|ds| - 1]); }
  }

  lemma {:induction false} AcceptedAscending(ds: seq<BlockInfo>)
    ensures Ascending(Accepted(ds))
  {
    if |ds| > 0 {
      var init, d := ds[..|ds| - 1], ds[|ds| - 1];
      AcceptedAscending(init);
      AcceptedMembers(init);
      if Record(ds, HeightOf, 0, |ds| - 1) {
        forall b | b in Accepted(init) ensures b.height < d.height {
          var j :| 0 <= j < |init| && init[j] == b;
          assert HeightOf(ds[j]) < HeightOf(d);
        }
        AscendingSnoc(Accepted(init), d);
      }
    }
  }

  lemma AscendingSnoc(a: seq<BlockInfo>, d: BlockInfo)
    requires Ascending(a) && d.height > 0 && forall b :: b in a ==> b.height < d.height
    ensures Ascending(a + [d])
  {
    assert forall i :: 0 <= i < |a| ==> a[i] in a;
  }

  /** The last accepted block has the highest height delivered. */
  lemma {:induction false} AcceptedHighest(ds: seq<BlockInfo>)
    ensures Top(Accepted(ds)).height == Highest(ds, HeightOf, 0)
  {
    if |ds| > 0 {
      AcceptedHighest(ds[..|ds| - 1]);
      RecordBeatsHighest(ds, HeightOf, 0);
    }
  }

  /** The last accepted block tops everything delivered so far. */
  lemma AcceptedTop(ds: seq<BlockInfo>)
    ensures Ascending(Accepted(ds))
    ensures forall i :: 0 <= i < |ds| ==> ds[i].height <= Top(Accepted(ds)).height
    ensures Top(Accepted(ds)).height >= 0
    ensures forall b :: b in Accepted(ds) ==> b in ds
  {
    AcceptedMembers(ds);
    AcceptedAscending(ds);
    AcceptedHighest(ds);
    HighestBounds(ds, HeightOf, 0);
    forall i | 0 <= i < |ds| ensures ds[i].height <= Top(Accepted(ds)).height {
      assert HeightOf(ds[i]) <= Highest(ds, HeightOf, 0);
    }
  }

  /** Beating every earlier delivery is the same as beating the last accepted block. */
  lemma RecordBeatsTop(init: seq<BlockInfo>, d: BlockInfo)
    ensures Accepted(init + [d]) ==
            if d.height > Top(Accepted(init)).height then Accepted(init) + [d] else Accepted(init)
  {
    assert (init + [d])[..|init|] == init;
    AcceptedHighest(init);
    RecordBeatsHighest(init + [d], HeightOf, 0);
  }

  lemma RunSnoc(l: Ledger, ds: seq<BlockInfo>, d: BlockInfo)
    ensures Run(l, ds + [d]) == Handle(Run(l, ds), d)
  {
    assert (ds + [d])[..|ds|] == ds;
  }

  /** One delivery on a ledger whose history is known. */
  lemma HandleRecord(webhooks: seq<BlockWebhook>, a: seq<BlockInfo>, d: BlockInfo)
    ensures Handle(Replay(Initial(webhooks), a), d) ==
            Replay(Initial(webhooks), if d.height > Top(a).height then a + [d] else a)
  {
    ReplayLatest(webhooks, a);
    ReplaySnoc(Initial(webhooks), a, d);
  }

  /** The whole ledger is a function of the strict left-to-right maxima of the deliveries. */
  lemma {:induction false} RunReplaysRecords(webhooks: seq<BlockWebhook>, ds: seq<BlockInfo>)
    ensures Run(Initial(webhooks), ds) == Replay(Initial(webhooks), Accepted(ds))
  {
    if |ds| > 0 {
      var init, d := ds[..|ds| - 1], ds[|ds| - 1];
      assert ds == init + [d];
      RunReplaysRecords(webhooks, init);
      RunSnoc(Initial(webhooks), init, d);
      RecordBeatsTop(init, d);
      HandleRecord(webhooks, Accepted(init), d);
    }
  }

  lemma {:induction false} RunConcat(l: Ledger, a: seq<BlockInfo>, b: seq<BlockInfo>)
    ensures Run(l, a + b) == Run(Run(l, a), b)
  {
    if |b| == 0 {
      assert a + b == a;
    } else {
      assert (a + b)[..|a + b| - 1] == a + b[..|b| - 1];
      RunConcat(l, a, b[..|b| - 1]);
    }
  }

  /** Inserting a delivery at or below the running maximum changes nothing, then or later. */
  lemma StaleDeliveryIsInvisible(webhooks: seq<BlockWebhook>, before: seq<BlockInfo>, d: BlockInfo,
                                 later: seq<BlockInfo>)
    requires d.height <= 0 || exists i :: 0 <= i < |before| && d.height <= before[i].height
    ensures Run(Initial(webhooks), before + [d] + later) == Run(Initial(webhooks), before + later)
  {
    var l := Initial(webhooks);
    RunReplaysRecords(webhooks, before);
    AcceptedTop(before);
    ReplayLatest(webhooks, Accepted(before));
    assert (before + [d])[..|before|] == before;
    RunConcat(l, before, later);
    RunConcat(l, before + [d], later);
  }
}
