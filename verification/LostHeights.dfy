/** Two ways in which a poll within the window still loses heights, as concrete runs. */
module LostHeights {
  import opened Seqs
  import opened BlockTypes
  import opened BlockLedger
  import opened CommitStatus
  import opened RpcNodes
  import opened Pipeline

  /** With the gate closed the node's cache runs ahead and its next poll loses heights within the window. */
  lemma ClosedGateLosesHeights(tracked: seq<TrackedValidator>, b50: Block, b60: Block, head: Block, steps: seq<Step>)
    requires b50.height == 50 && b60.height == 60 && head.height == 65
    requires CalmPoll(AheadOfWatcher(tracked, b50, b60), tracked, 1, head, steps)
    ensures var sys := AheadOfWatcher(tracked, b50, b60);
            && Latest(sys) == 50 && NodeAt(sys, 1).cached == 60
            && |Missing(AfterPoll(sys, tracked, 1, head, steps, true), 50, 65)| == 10
  {
    RunsAhead(tracked, b50, b60);
    PollGap(AheadOfWatcher(tracked, b50, b60), tracked, 1, head, steps);
  }

  lemma RunsAhead(tracked: seq<TrackedValidator>, b50: Block, b60: Block)
    requires b50.height == 50 && b60.height == 60
    ensures var sys := AheadOfWatcher(tracked, b50, b60);
            Latest(sys) == 50 && NodeAt(sys, 1) == NodeState(60, None)
  {
    StepLatest(BOOT, tracked, Step(0, FirstBlock(Some(b50))));
    StepLatest(Apply(BOOT, tracked, Step(0, FirstBlock(Some(b50)))), tracked, Step(1, Push(b60, false)));
  }

  /** Node 0 starts with one block, and node 1, which is catching up, is pushed another. */
  function AheadOfWatcher(tracked: seq<TrackedValidator>, b50: Block, b60: Block): System {
    Apply(Apply(BOOT, tracked, Step(0, FirstBlock(Some(b50)))), tracked, Step(1, Push(b60, false)))
  }

  /** Node 0 polls from 100 to 103, and node 1 brings 104 after 101 arrived. */
  function Overtaking(b101: Block, b102: Block, b104: Block): seq<Step> {
    [Step(0, NextBlock(Fetched(b101, true))), Step(1, Push(b104, true)), Step(0, NextBlock(Fetched(b102, true)))]
  }

  function After100(tracked: seq<TrackedValidator>, b100: Block): System {
    Apply(BOOT, tracked, Step(0, Push(b100, true)))
  }

  lemma OvertakingStart(webhooks: seq<BlockWebhook>, tracked: seq<TrackedValidator>, b100: Block, b103: Block)
    requires b100.height == 100 && b103.height == 103
    ensures var sys := After100(tracked, b100);
            var begun := Begun(sys, tracked, 0, b103);
            && NodeAt(sys, 0) == NodeState(100, None) && Latest(sys) == 100
            && Stands(webhooks, begun, b103, 101, 100, 0)
  {
    var sys, first := After100(tracked, b100), Step(0, Push(b100, true));
    ApplyLatest(BOOT, tracked, first);
    ApplySkips(webhooks, BOOT, tracked, first);
    ApplyLatest(sys, tracked, Step(0, BeginPoll(Some(b103))));
    ApplySkips(webhooks, sys, tracked, Step(0, BeginPoll(Some(b103))));
  }

  /** The facts about a state of this story that its next step needs. */
  ghost predicate Stands(webhooks: seq<BlockWebhook>, sys: System, b103: Block, next: int, latest: int, skipped: int) {
    && NodeAt(sys, 0).poll == Some(Poll(100, next, b103)) && NodeAt(sys, 1).poll == None
    && Latest(sys) == latest && Skipped(webhooks, sys) == skipped
  }

  lemma OwnAnswer(webhooks: seq<BlockWebhook>, sys: System, tracked: seq<TrackedValidator>, b: Block, b103: Block,
                  latest: int, skipped: int)
    requires 100 < b.height < 103 && b103.height == 103 && latest > 0 && b.height <= latest + 1
    requires Stands(webhooks, sys, b103, b.height, latest, skipped)
    ensures Stands(webhooks, Apply(sys, tracked, Step(0, NextBlock(Fetched(b, true)))), b103, b.height + 1,
                   Max(latest, b.height), skipped)
  {
    StepLatest(sys, tracked, Step(0, NextBlock(Fetched(b, true))));
    ApplySkips(webhooks, sys, tracked, Step(0, NextBlock(Fetched(b, true))));
  }

  lemma OtherPush(webhooks: seq<BlockWebhook>, sys: System, tracked: seq<TrackedValidator>, b104: Block, b103: Block)
    requires b104.height == 104 && Stands(webhooks, sys, b103, 102, 101, 0)
    ensures Stands(webhooks, Apply(sys, tracked, Step(1, Push(b104, true))), b103, 102, 104, 3)
  {
    StepLatest(sys, tracked, Step(1, Push(b104, true)));
    ApplySkips(webhooks, sys, tracked, Step(1, Push(b104, true)));
  }

  lemma OwnHead(webhooks: seq<BlockWebhook>, sys: System, tracked: seq<TrackedValidator>, b103: Block)
    requires b103.height == 103 && Stands(webhooks, sys, b103, 103, 104, 3)
    ensures Skipped(webhooks, Ended(sys, tracked, 0, true)) == 3
  {
    ApplySkips(webhooks, sys, tracked, Step(0, EndPoll(true)));
  }

  lemma OvertakingSteps(webhooks: seq<BlockWebhook>, tracked: seq<TrackedValidator>, begun: System, b101: Block,
                        b102: Block, b103: Block, b104: Block)
    requires b101.height == 101 && b102.height == 102 && b103.height == 103 && b104.height == 104
    requires Stands(webhooks, begun, b103, 101, 100, 0)
    ensures var steps := Overtaking(b101, b102, b104);
            && Stands(webhooks, At(begun, tracked, steps, 1), b103, 102, 101, 0)
            && Stands(webhooks, At(begun, tracked, steps, 2), b103, 102, 104, 3)
            && Stands(webhooks, At(begun, tracked, steps, 3), b103, 103, 104, 3)
  {
    var steps := Overtaking(b101, b102, b104);
    assert At(begun, tracked, steps, 0) == begun;
    OwnAnswer(webhooks, begun, tracked, b101, b103, 100, 0);
    OtherPush(webhooks, At(begun, tracked, steps, 1), tracked, b104, b103);
    OwnAnswer(webhooks, At(begun, tracked, steps, 2), tracked, b102, b103, 104, 3);
  }

  /** Both nodes are synced, every answer is served, the cache is not ahead, and still 102 and 103 are lost. */
  lemma OvertakingLosesHeights(webhooks: seq<BlockWebhook>, tracked: seq<TrackedValidator>, b100: Block, b101: Block,
                               b102: Block, b103: Block, b104: Block)
    requires b100.height == 100 && b101.height == 101 && b102.height == 102 && b103.height == 103 && b104.height == 104
    ensures var sys, steps := After100(tracked, b100), Overtaking(b101, b102, b104);
            var sys' := AfterPoll(sys, tracked, 0, b103, steps, true);
            && ServedPoll(sys, tracked, 0, b103, steps) && NodeAt(sys, 0).cached == Latest(sys) == 100
            && Missing(sys', 100, 103) == {102, 103}
            && Skipped(webhooks, sys') == 3
  {
    var sys, steps := After100(tracked, b100), Overtaking(b101, b102, b104);
    var begun := Begun(sys, tracked, 0, b103);
    OvertakingStart(webhooks, tracked, b100, b103);
    OvertakingSteps(webhooks, tracked, begun, b101, b102, b103, b104);
    OwnHead(webhooks, At(begun, tracked, steps, 3), tracked, b103);
    assert At(begun, tracked, steps, 0) == begun;
    OvertakingServed(webhooks, tracked, begun, b101, b102, b103, b104);
    OvertakingMissing(webhooks, tracked, begun, b101, b102, b103, b104);
  }

  lemma OvertakingMissing(webhooks: seq<BlockWebhook>, tracked: seq<TrackedValidator>, begun: System, b101: Block,
                          b102: Block, b103: Block, b104: Block)
    requires b101.height == 101 && b102.height == 102 && b103.height == 103 && b104.height == 104
    requires Stands(webhooks, begun, b103, 101, 100, 0)
    ensures var done := Ended(At(begun, tracked, Overtaking(b101, b102, b104), 3), tracked, 0, true);
            Missing(done, 100, 103) == {102, 103}
  {
    OvertakingSteps(webhooks, tracked, begun, b101, b102, b103, b104);
    assert At(begun, tracked, Overtaking(b101, b102, b104), 0) == begun;
    OvertakingServed(webhooks, tracked, begun, b101, b102, b103, b104);
    OvertakingMisses(webhooks, tracked, begun, b101, b102, b103, b104, 101);
    OvertakingMisses(webhooks, tracked, begun, b101, b102, b103, b104, 102);
    OvertakingMisses(webhooks, tracked, begun, b101, b102, b103, b104, 103);
  }

  lemma OvertakingMisses(webhooks: seq<BlockWebhook>, tracked: seq<TrackedValidator>, begun: System, b101: Block,
                         b102: Block, b103: Block, b104: Block, h: int)
    requires var steps := Overtaking(b101, b102, b104);
             && Stands(webhooks, begun, b103, 101, 100, 0)
             && Stands(webhooks, At(begun, tracked, steps, 1), b103, 102, 101, 0)
             && Stands(webhooks, At(begun, tracked, steps, 2), b103, 102, 104, 3)
             && Stands(webhooks, At(begun, tracked, steps, 3), b103, 103, 104, 3)
             && Served(begun, tracked, 0, steps)
    requires 101 <= h <= 103 == b103.height
    ensures h !in TrackedHeights(Ended(At(begun, tracked, Overtaking(b101, b102, b104), 3), tracked, 0, true)) <==>
            h > 101
  {
    OvertakenHeight(begun, tracked, 0, Overtaking(b101, b102, b104), true, h);
    OnlyPushOvertakes(webhooks, tracked, begun, b101, b102, b103, b104, h);
  }

  lemma OnlyPushOvertakes(webhooks: seq<BlockWebhook>, tracked: seq<TrackedValidator>, begun: System, b101: Block,
                          b102: Block, b103: Block, b104: Block, h: int)
    requires var steps := Overtaking(b101, b102, b104);
             && Stands(webhooks, At(begun, tracked, steps, 1), b103, 102, 101, 0)
             && Stands(webhooks, At(begun, tracked, steps, 2), b103, 102, 104, 3)
    ensures Overtaken(begun, tracked, 0, Overtaking(b101, b102, b104), h) <==> 101 < h < 104
  {
    assert Crosses(begun, tracked, Overtaking(b101, b102, b104), 1, h) <==> 101 < h < 104;
  }

  lemma OvertakingServed(webhooks: seq<BlockWebhook>, tracked: seq<TrackedValidator>, begun: System, b101: Block,
                         b102: Block, b103: Block, b104: Block)
    requires b101.height == 101 && b102.height == 102 && b103.height == 103
    requires var steps := Overtaking(b101, b102, b104);
             && At(begun, tracked, steps, 0) == begun && NextIs(begun, 0, 101)
             && NextIs(At(begun, tracked, steps, 2), 0, 102)
    ensures Served(begun, tracked, 0, Overtaking(b101, b102, b104))
  {
    var steps := Overtaking(b101, b102, b104);
    forall k | 0 <= k < |steps| && steps[k].node == 0
      ensures Honest(At(begun, tracked, steps, k), steps[k]) && Arrives(At(begun, tracked, steps, k), steps[k])
    {
      assert k == 0 || k == 2;
    }
  }
}
