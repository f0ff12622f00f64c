/** Custom block webhooks fire exactly once, at the first accepted block that reaches them. */
module CustomWebhooks {
  import opened Seqs
  import opened BlockTypes
  import opened BlockLedger

  function Between(lo: int, hi: int): BlockWebhook -> bool {
    (w: BlockWebhook) => lo < w.height <= hi
  }

  /** The webhooks whose turn comes with a block of this height, given the blocks accepted before. */
  function DueNow(earlier: seq<BlockInfo>, height: int): BlockWebhook -> bool {
    if |earlier| == 0 then Due(height) else Between(Top(earlier).height, height)
  }

  /** Block by block, in registration order within each block. */
  function FiredOver(webhooks: seq<BlockWebhook>, a: seq<BlockInfo>): seq<Firing> {
    if |a| == 0 then []
    else
      var init, h := a[..|a| - 1], a[|a| - 1].height;
      FiredOver(webhooks, init) + FireAt(Filter(webhooks, DueNow(init, h)), h)
  }

  function PendingAfter(webhooks: seq<BlockWebhook>, a: seq<BlockInfo>): seq<BlockWebhook> {
    if |a| == 0 then webhooks else Filter(webhooks, After(Top(a).height))
  }

  function Hooks(fired: seq<Firing>): seq<BlockWebhook> {
    seq(|fired|, i requires 0 <= i < |fired| => fired[i].webhook)
  }

  /** f went out with an accepted block that reaches it, and the block accepted just before did not. */
  ghost predicate Timely(f: Firing, a: seq<BlockInfo>) {
    exists i :: 0 <= i < |a| && TimelyAt(f, a, i)
  }

  predicate TimelyAt(f: Firing, a: seq<BlockInfo>, i: nat)
    requires i < |a|
  {
    f.at == a[i].height && f.webhook.height <= a[i].height && (i > 0 ==> a[i - 1].height < f.webhook.height)
  }

  /** What is due among the waiting webhooks is what is due now among all of them. */
  lemma PendingStep(webhooks: seq<BlockWebhook>, earlier: seq<BlockInfo>, height: int)
    requires |earlier| == 0 || Top(earlier).height < height
    ensures var waiting := PendingAfter(webhooks, earlier);
            && Filter(waiting, Due(height)) == Filter(webhooks, DueNow(earlier, height))
            && Filter(waiting, After(height)) == Filter(webhooks, After(height))
  {
    if |earlier| > 0 {
      var last := Top(earlier).height;
      FilterFilter(webhooks, After(last), Due(height), Between(last, height));
      FilterFilter(webhooks, After(last), After(height), After(height));
    }
  }

  lemma {:induction false} ReplayWebhooks(webhooks: seq<BlockWebhook>, a: seq<BlockInfo>)
    requires Ascending(a)
    ensures Replay(Initial(webhooks), a).fired == FiredOver(webhooks, a)
    ensures Replay(Initial(webhooks), a).pending == PendingAfter(webhooks, a)
  {
    if |a| > 0 {
      var init, b := a[..|a| - 1], a[|a| - 1];
      var l := Replay(Initial(webhooks), init);
      ReplayWebhooks(webhooks, init);
      ApplyStatusesFrame(CountBlock(l, b), b, |b.validatorStatus|);
      PendingStep(webhooks, init, b.height);
    }
  }

  lemma {:induction false} FiredTimely(webhooks: seq<BlockWebhook>, a: seq<BlockInfo>, f: Firing)
    requires Ascending(a) && f in FiredOver(webhooks, a)
    ensures Timely(f, a)
  {
    var init, b := a[..|a| - 1], a[|a| - 1];
    if f in FiredOver(webhooks, init) {
      FiredTimely(webhooks, init, f);
      var i :| 0 <= i < |init| && TimelyAt(f, init, i);
      assert TimelyAt(f, a, i);
    } else {
      FilterMember(webhooks, DueNow(init, b.height), f.webhook);
      assert TimelyAt(f, a, |a| - 1);
    }
  }

  lemma {:induction false} FiredAndPending(webhooks: seq<BlockWebhook>, a: seq<BlockInfo>)
    requires Ascending(a)
    ensures multiset(Hooks(FiredOver(webhooks, a))) + multiset(PendingAfter(webhooks, a)) == multiset(webhooks)
  {
    if |a| > 0 {
      var init, h := a[..|a| - 1], a[|a| - 1].height;
      FiredAndPending(webhooks, init);
      PendingStep(webhooks, init, h);
      HooksSplit(FiredOver(webhooks, init), Filter(webhooks, DueNow(init, h)), PendingAfter(webhooks, init), h);
    }
  }

  lemma HooksSplit(before: seq<Firing>, due: seq<BlockWebhook>, waiting: seq<BlockWebhook>, height: int)
    requires due == Filter(waiting, Due(height))
    ensures multiset(Hooks(before + FireAt(due, height))) + multiset(Filter(waiting, After(height))) ==
            multiset(Hooks(before)) + multiset(waiting)
  {
    FilterPartition(waiting, Due(height), After(height));
    assert Hooks(before + FireAt(due, height)) == Hooks(before) + due;
  }

  /** The registered position of every firing, such that firings follow blocks, and then positions. */
  ghost predicate InOrder(webhooks: seq<BlockWebhook>, fired: seq<Firing>, at: seq<nat>) {
    && |at| == |fired|
    && (forall i :: 0 <= i < |at| ==> at[i] < |webhooks| && fired[i].webhook == webhooks[at[i]])
    && (forall i, j :: 0 <= i < j < |at| ==>
          fired[i].at < fired[j].at || (fired[i].at == fired[j].at && at[i] < at[j]))
  }

  lemma InOrderNext(webhooks: seq<BlockWebhook>, fired: seq<Firing>, before: seq<nat>, p: BlockWebhook -> bool, h: int)
    returns (at: seq<nat>)
    requires InOrder(webhooks, fired, before) && forall f :: f in fired ==> f.at < h
    ensures InOrder(webhooks, fired + FireAt(Filter(webhooks, p), h), at)
  {
    var now := FilterPositions(webhooks, p);
    at := before + now;
    forall i | 0 <= i < |fired| ensures fired[i].at < h { assert fired[i] in fired; }
  }

  lemma {:induction false} FiredInOrder(webhooks: seq<BlockWebhook>, a: seq<BlockInfo>) returns (at: seq<nat>)
    requires Ascending(a)
    ensures InOrder(webhooks, FiredOver(webhooks, a), at)
  {
    if |a| == 0 {
      at := [];
    } else {
      var init, h := a[..|a| - 1], a[|a| - 1].height;
      var before := FiredInOrder(webhooks, init);
      forall f | f in FiredOver(webhooks, init) ensures f.at < h { FiredBelow(webhooks, a, f); }
      at := InOrderNext(webhooks, FiredOver(webhooks, init), before, DueNow(init, h), h);
    }
  }

  lemma FiredBelow(webhooks: seq<BlockWebhook>, a: seq<BlockInfo>, f: Firing)
    requires Ascending(a) && |a| > 0 && f in FiredOver(webhooks, a[..|a| - 1])
    ensures f.at < a[|a| - 1].height
  {
    FiredTimely(webhooks, a[..|a| - 1], f);
    var i :| 0 <= i < |a| - 1 && TimelyAt(f, a[..|a| - 1], i);
    assert a[i].height == f.at;
  }

  /** Over every run the firings are in block order, and in registration order within a block. */
  lemma WebhooksInOrder(webhooks: seq<BlockWebhook>, ds: seq<BlockInfo>) returns (at: seq<nat>)
    ensures InOrder(webhooks, Run(Initial(webhooks), ds).fired, at)
  {
    RunReplaysRecords(webhooks, ds);
    AcceptedTop(ds);
    ReplayWebhooks(webhooks, Accepted(ds));
    at := FiredInOrder(webhooks, Accepted(ds));
  }

  /** Over every run: nothing lost, nothing sent twice, nothing sent late, nothing overdue left waiting. */
  lemma WebhooksExactlyOnce(webhooks: seq<BlockWebhook>, ds: seq<BlockInfo>)
    ensures var l, a := Run(Initial(webhooks), ds), Accepted(ds);
            && multiset(Hooks(l.fired)) + multiset(l.pending) == multiset(webhooks)
            && l.fired == FiredOver(webhooks, a)
            && (forall f :: f in l.fired ==> Timely(f, a))
            && (|a| > 0 ==> forall w :: w in l.pending ==> w.height > Top(a).height)
  {
    var a := Accepted(ds);
    RunReplaysRecords(webhooks, ds);
    AcceptedTop(ds);
    ReplayWebhooks(webhooks, a);
    FiredAndPending(webhooks, a);
    forall f | f in FiredOver(webhooks, a) ensures Timely(f, a) { FiredTimely(webhooks, a, f); }
    if |a| > 0 {
      forall w | w in PendingAfter(webhooks, a) ensures w.height > Top(a).height {
        FilterMember(webhooks, After(Top(a).height), w);
      }
    }
  }

  /** The block that sends a webhook is the lowest accepted one at or above the height it asks for. */
  lemma TimelyIsFirst(f: Firing, a: seq<BlockInfo>)
    requires Ascending(a)
    ensures Timely(f, a) <==>
            (exists i :: 0 <= i < |a| && a[i].height == f.at) && f.webhook.height <= f.at &&
            forall j :: 0 <= j < |a| && f.webhook.height <= a[j].height ==> f.at <= a[j].height
  {
    if Timely(f, a) {
      var i :| 0 <= i < |a| && TimelyAt(f, a, i);
      assert forall j :: 0 <= j < i ==> a[j].height <= a[i - 1].height;
    } else if i :| 0 <= i < |a| && a[i].height == f.at {
      assert !TimelyAt(f, a, i);
    }
  }
}
