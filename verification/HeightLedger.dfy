/** The chain-wide counters as functions of everything that was delivered. */
module HeightLedger {
  import opened Seqs
  import opened BlockTypes
  import opened BlockLedger

  function Heights(a: seq<BlockInfo>): set<int> {
    set b | b in a :: b.height
  }

  /** How many times two neighbouring accepted blocks are more than one height apart. */
  function Gaps(a: seq<BlockInfo>): nat {
    if |a| < 2 then 0
    else Gaps(a[..|a| - 1]) + (if a[|a| - 1].height - a[|a| - 2].height > 1 then 1 else 0)
  }

  function TotalTransactions(a: seq<BlockInfo>): nat {
    if |a| == 0 then 0 else TotalTransactions(a[..|a| - 1]) + a[|a| - 1].transactions
  }

  /** The heights between the first and the last accepted block that no accepted block has. */
  function Untracked(a: seq<BlockInfo>): set<int>
    requires |a| > 0
  {
    Span(a[0].height - 1, Top(a).height) - Heights(a)
  }

  lemma {:induction false} HeightsSize(a: seq<BlockInfo>)
    requires Ascending(a)
    ensures |Heights(a)| == |a|
  {
    if |a| > 0 {
      AscendingPrefix(a);
      HeightsSize(a[..|a| - 1]);
      HeightsSnoc(a[..|a| - 1], a[|a| - 1]);
      assert a == a[..|a| - 1] + [a[|a| - 1]];
    }
  }

  ghost predicate AllBelow(a: seq<BlockInfo>, height: int) {
    forall x :: x in a ==> x.height < height
  }

  lemma AscendingPrefix(a: seq<BlockInfo>)
    requires Ascending(a) && |a| > 0
    ensures Ascending(a[..|a| - 1]) && AllBelow(a[..|a| - 1], a[|a| - 1].height)
  {
    var init := a[..|a| - 1];
    forall x | x in init ensures x.height < a[|a| - 1].height {
      var i :| 0 <= i < |init| && init[i] == x;
      assert a[i] == x;
    }
  }

  lemma HeightsSnoc(init: seq<BlockInfo>, b: BlockInfo)
    requires AllBelow(init, b.height)
    ensures |Heights(init + [b])| == |Heights(init)| + 1
  {
    assert forall x :: x in init + [b] <==> x in init || x == b;
    assert Heights(init + [b]) == Heights(init) + {b.height};
  }

  lemma UntrackedSize(a: seq<BlockInfo>)
    requires Ascending(a) && |a| > 0
    ensures |Untracked(a)| == Top(a).height - a[0].height + 1 - |a|
  {
    HeightsSize(a);
    var span := Span(a[0].height - 1, Top(a).height);
    assert Heights(a) <= span;
    assert span * Heights(a) == Heights(a);
  }

  lemma {:induction false} ReplayHeights(webhooks: seq<BlockWebhook>, a: seq<BlockInfo>)
    requires Ascending(a) && |a| > 0
    ensures var l := Replay(Initial(webhooks), a);
            && l.latest == Top(a)
            && l.trackedBlocks == |a|
            && l.blockHeight == Top(a).height
            && l.activeSet == Top(a).totalValidators
            && l.transactions == TotalTransactions(a)
            && l.trackedBlocks + l.skippedBlocks == Top(a).height - a[0].height + 1 + Gaps(a)
  {
    var init, b := a[..|a| - 1], a[|a| - 1];
    var l := Replay(Initial(webhooks), init);
    ApplyStatusesFrame(CountBlock(l, b), b, |b.validatorStatus|);
    if |init| > 0 { ReplayHeights(webhooks, init); }
  }

  /** Every delivered height is accounted for: tracked, or skipped with one extra per gap. */
  lemma HeightConservation(webhooks: seq<BlockWebhook>, ds: seq<BlockInfo>)
    requires |Accepted(ds)| > 0
    ensures var l, a := Run(Initial(webhooks), ds), Accepted(ds);
            && l.latest == Top(a)
            && l.blockHeight == Top(a).height
            && l.activeSet == Top(a).totalValidators
            && l.trackedBlocks == |a|
            && l.transactions == TotalTransactions(a)
            && l.skippedBlocks == |Untracked(a)| + Gaps(a)
            && l.trackedBlocks + l.skippedBlocks == Top(a).height - a[0].height + 1 + Gaps(a)
            && forall i :: 0 <= i < |ds| ==> ds[i].height <= l.blockHeight
  {
    RunReplaysRecords(webhooks, ds);
    AcceptedTop(ds);
    ReplayHeights(webhooks, Accepted(ds));
    UntrackedSize(Accepted(ds));
  }

  lemma TrackedIsAccepted(webhooks: seq<BlockWebhook>, ds: seq<BlockInfo>)
    ensures Run(Initial(webhooks), ds).trackedBlocks == |Accepted(ds)|
  {
    if |Accepted(ds)| > 0 {
      HeightConservation(webhooks, ds);
    } else {
      RunReplaysRecords(webhooks, ds);
    }
  }

  lemma {:induction false} GapsZero(a: seq<BlockInfo>)
    requires Ascending(a)
    ensures Gaps(a) == 0 <==> forall i :: 0 <= i < |a| - 1 ==> a[i + 1].height == a[i].height + 1
  {
    if |a| >= 2 {
      var init := a[..|a| - 1];
      GapsZero(init);
      assert forall i :: 0 <= i < |init| ==> init[i] == a[i];
      assert a[|a| - 2 + 1] == a[|a| - 1];
    }
  }

  /** `skipped_blocks` is documented as the blocks not tracked; it is that exactly when none was. */
  lemma SkippedIsUntrackedIffContiguous(webhooks: seq<BlockWebhook>, ds: seq<BlockInfo>)
    requires |Accepted(ds)| > 0
    ensures var l, a := Run(Initial(webhooks), ds), Accepted(ds);
            l.skippedBlocks == |Untracked(a)| <==>
            forall i :: 0 <= i < |a| - 1 ==> a[i + 1].height == a[i].height + 1
  {
    HeightConservation(webhooks, ds);
    AcceptedTop(ds);
    GapsZero(Accepted(ds));
  }

  lemma TwoRecords(b: BlockInfo, c: BlockInfo)
    requires 0 < b.height < c.height
    ensures Accepted([b, c]) == [b, c]
  {
    RecordBeatsTop([], b);
    RecordBeatsTop([b], c);
    assert [] + [b] == [b] && [b] + [c] == [b, c] && [b, c][..1] == [b];
  }

  lemma OneGap(b: BlockInfo, c: BlockInfo)
    requires 0 < b.height && b.height + 1 < c.height
    ensures Gaps([b, c]) == 1 && |Untracked([b, c])| == c.height - b.height - 1
  {
    assert [b, c][..1] == [b];
    UntrackedSize([b, c]);
  }

  /** Heights 36 then 41: four heights were missed and five are reported. */
  lemma SkippedOvercounts(webhooks: seq<BlockWebhook>, b: BlockInfo, c: BlockInfo)
    requires b.height == 36 && c.height == 41
    ensures Run(Initial(webhooks), [b, c]).skippedBlocks == 5
    ensures Accepted([b, c]) == [b, c] && |Untracked([b, c])| == 4
  {
    var ds := [b, c];
    TwoRecords(b, c);
    OneGap(b, c);
    HeightConservation(webhooks, ds);
  }
}
