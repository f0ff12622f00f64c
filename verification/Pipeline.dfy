/**
 * Nodes and watcher together. Every node works on its own, so a step is as small as one block received by
 * the watcher: between two blocks of one node's poll any other node may step. The system keeps every digest
 * the watcher received; the ledger is the run over that log.
 */
module Pipeline {
  import opened Seqs
  import opened BlockTypes
  import opened BlockLedger
  import opened CommitStatus
  import opened HeightLedger
  import opened ValidatorLedger
  import opened RpcNodes
  import opened Confluence

  datatype Event =
    | Push(block: Block, synced: bool)
    | BeginPoll(head: Option<Block>)
    | NextBlock(answer: Fetch)
    | EndPoll(synced: bool)
    | FirstBlock(first: Option<Block>)
    | ValidatorSet(validators: seq<string>)

  datatype Step = Step(node: nat, event: Event)

  /** A poll under way: where it started, the next height it asks for, and the head it announces last. */
  datatype Poll = Poll(from: int, next: int, head: Block)

  /** Only the node itself reads its cache, so saving it at the moment of delivery loses no interleaving. */
  datatype NodeState = NodeState(cached: int, poll: Option<Poll>)

  datatype System = System(nodes: map<nat, NodeState>, validatorSet: seq<string>, log: seq<BlockInfo>)

  const BOOT := System(map[], [], [])

  function NodeAt(sys: System, n: nat): NodeState {
    if n in sys.nodes then sys.nodes[n] else NodeState(0, None)
  }

  /** The height of the last block the watcher accepted. */
  function Latest(sys: System): int {
    Top(Accepted(sys.log)).height
  }

  function Max(a: int, b: int): int {
    if a < b then b else a
  }

  /** The heights the watcher tracked. */
  function TrackedHeights(sys: System): set<int> {
    Heights(Accepted(sys.log))
  }

  /** A node does one thing at a time: while it polls it takes no pushed block and starts no other poll. */
  predicate Enabled(sys: System, s: Step) {
    var poll := NodeAt(sys, s.node).poll;
    match s.event
    case Push(_, _) => poll.None?
    case BeginPoll(_) => poll.None?
    case NextBlock(_) => poll.Some? && poll.value.next < poll.value.head.height
    case EndPoll(_) => poll.Some? && poll.value.next >= poll.value.head.height
    case FirstBlock(_) => poll.None?
    case ValidatorSet(_) => true
  }

  function Moved(sys: System, s: Step): NodeState
    requires Enabled(sys, s)
  {
    var node := NodeAt(sys, s.node);
    match s.event
    case Push(b, _) => node.(cached := b.height)
    case BeginPoll(Some(b)) =>
      var from := PollFrom(node.cached, b.height);
      node.(poll := Some(Poll(from, from + 1, b)))
    case NextBlock(_) => node.(poll := Some(node.poll.value.(next := node.poll.value.next + 1)))
    case EndPoll(_) => NodeState(node.poll.value.head.height, None)
    case _ => node
  }

  /** The block that the watcher receives in a step, past the gate that drops blocks of unsynced nodes. */
  function Brings(sys: System, s: Step): Option<Block> {
    if !Enabled(sys, s) then None
    else
      match s.event
      case Push(b, synced) => if synced then Some(b) else None
      case NextBlock(Fetched(b, synced)) => if synced then Some(b) else None
      case EndPoll(synced) => if synced then Some(NodeAt(sys, s.node).poll.value.head) else None
      case FirstBlock(first) => first
      case _ => None
  }

  /** A step that its node cannot take now changes nothing. */
  function Apply(sys: System, tracked: seq<TrackedValidator>, s: Step): System {
    if !Enabled(sys, s) then sys
    else
      System(sys.nodes[s.node := Moved(sys, s)],
             if s.event.ValidatorSet? then s.event.validators else sys.validatorSet,
             sys.log + Digests(Brings(sys, s), tracked, sys.validatorSet))
  }

  function Digests(b: Option<Block>, tracked: seq<TrackedValidator>, vals: seq<string>): (r: seq<BlockInfo>)
    ensures |r| == if b.Some? then 1 else 0
    ensures b.Some? ==> r[0].height == b.value.height
  {
    if b.Some? then [Observe(b.value, tracked, vals)] else []
  }

  /** The system after the first k steps. */
  function At(sys: System, tracked: seq<TrackedValidator>, steps: seq<Step>, k: nat): System
    requires k <= |steps|
  {
    if k == 0 then sys else Apply(At(sys, tracked, steps, k - 1), tracked, steps[k - 1])
  }

  function RunSystem(tracked: seq<TrackedValidator>, steps: seq<Step>): System {
    At(BOOT, tracked, steps, |steps|)
  }

  // ---- Every digest in the log has one entry per tracked validator ----

  lemma {:induction false} LogAligned(tracked: seq<TrackedValidator>, steps: seq<Step>, k: nat)
    requires k <= |steps|
    ensures AllAligned(At(BOOT, tracked, steps, k).log, tracked)
  {
    if k > 0 { LogAligned(tracked, steps, k - 1); }
  }

  /** Whatever the nodes do, every tracked validator's counters balance against the tracked blocks. */
  lemma SystemConservation(webhooks: seq<BlockWebhook>, tracked: seq<TrackedValidator>, steps: seq<Step>, j: nat)
    requires DistinctKeys(tracked) && j < |tracked|
    ensures var log := RunSystem(tracked, steps).log;
            && AllAligned(Accepted(log), tracked)
            && (var l, os := Run(Initial(webhooks), log), Outcomes(Accepted(log), j);
                var c := Row(l, KeyOf(tracked[j]));
                && c.validated + c.missed + CountIf(os, Idles) == l.trackedBlocks
                && c.empty <= c.proposed <= c.validated
                && c.soloMissed <= c.missed)
  {
    var log := RunSystem(tracked, steps).log;
    LogAligned(tracked, steps, |steps|);
    ValidatorConservation(webhooks, tracked, log, j);
    TrackedIsAccepted(webhooks, log);
  }

  // ---- Which heights are tracked ----

  lemma LatestBounds(sys: System, h: int)
    ensures Latest(sys) >= 0
    ensures h in TrackedHeights(sys) ==> 0 < h <= Latest(sys)
    ensures Latest(sys) > 0 ==> Latest(sys) in TrackedHeights(sys)
  {
    var a := Accepted(sys.log);
    AcceptedTop(sys.log);
    if h in TrackedHeights(sys) {
      var i :| 0 <= i < |a| && a[i].height == h;
    }
  }

  /** One delivery raises the latest height, and tracks it, or does nothing. */
  lemma DeliverOne(log: seq<BlockInfo>, more: seq<BlockInfo>)
    requires |more| <= 1
    ensures var latest, latest' := Top(Accepted(log)).height, Top(Accepted(log + more)).height;
            && latest' == (if |more| == 1 && more[0].height > latest then more[0].height else latest)
            && Heights(Accepted(log + more)) ==
               Heights(Accepted(log)) + (if latest' > latest then {latest'} else {})
  {
    if |more| == 1 {
      assert more == [more[0]];
      RecordBeatsTop(log, more[0]);
      if more[0].height > Top(Accepted(log)).height {
        HeightsConcat(Accepted(log), more);
        assert Heights(more) == {more[0].height};
      }
    } else {
      assert log + more == log;
    }
  }

  lemma HeightsConcat(a: seq<BlockInfo>, b: seq<BlockInfo>)
    ensures Heights(a + b) == Heights(a) + Heights(b)
  {
  }

  /** What a step brings is the whole of what it does to the tracked heights. */
  lemma ApplyLatest(sys: System, tracked: seq<TrackedValidator>, s: Step)
    ensures var b, sys' := Brings(sys, s), Apply(sys, tracked, s);
            && Latest(sys') == (if b.Some? && b.value.height > Latest(sys) then b.value.height else Latest(sys))
            && TrackedHeights(sys') == TrackedHeights(sys) + (if Latest(sys') > Latest(sys) then {Latest(sys')} else {})
  {
    DeliverOne(sys.log, Digests(Brings(sys, s), tracked, sys.validatorSet));
  }

  lemma StepLatest(sys: System, tracked: seq<TrackedValidator>, s: Step)
    ensures var b := Brings(sys, s);
            Latest(Apply(sys, tracked, s)) == if b.Some? then Max(Latest(sys), b.value.height) else Latest(sys)
  {
    ApplyLatest(sys, tracked, s);
  }

  lemma StepTracks(sys: System, tracked: seq<TrackedValidator>, s: Step, h: int)
    ensures var sys' := Apply(sys, tracked, s);
            && Latest(sys) <= Latest(sys')
            && (h in TrackedHeights(sys') <==> h in TrackedHeights(sys) || Latest(sys) < h == Latest(sys'))
  {
    ApplyLatest(sys, tracked, s);
  }

  lemma {:induction false} LatestGrows(sys: System, tracked: seq<TrackedValidator>, steps: seq<Step>, i: nat, k: nat)
    requires i <= k <= |steps|
    ensures Latest(At(sys, tracked, steps, i)) <= Latest(At(sys, tracked, steps, k))
  {
    if i < k {
      LatestGrows(sys, tracked, steps, i, k - 1);
      StepLatest(At(sys, tracked, steps, k - 1), tracked, steps[k - 1]);
    }
  }

  /** The k-th step takes the latest height from below h to above h, which loses h for good. */
  predicate Crosses(sys: System, tracked: seq<TrackedValidator>, steps: seq<Step>, k: nat, h: int)
    requires k < |steps|
  {
    Latest(At(sys, tracked, steps, k)) < h < Latest(At(sys, tracked, steps, k + 1))
  }

  ghost predicate Uncrossed(sys: System, tracked: seq<TrackedValidator>, steps: seq<Step>, k: nat, h: int)
    requires k <= |steps|
  {
    forall i :: 0 <= i < k ==> !Crosses(sys, tracked, steps, i, h)
  }

  lemma NotReachedUncrossed(sys: System, tracked: seq<TrackedValidator>, steps: seq<Step>, k: nat, h: int)
    requires k <= |steps| && Latest(At(sys, tracked, steps, k)) < h
    ensures Uncrossed(sys, tracked, steps, k, h)
  {
    forall i | 0 <= i < k ensures !Crosses(sys, tracked, steps, i, h) {
      LatestGrows(sys, tracked, steps, i + 1, k);
    }
  }

  /** In any run of any nodes, a height that was reached is tracked exactly when no step crossed it. */
  lemma {:induction false} TrackedUnlessCrossed(sys: System, tracked: seq<TrackedValidator>, steps: seq<Step>,
                                                k: nat, h: int)
    requires k <= |steps| && Latest(sys) < h
    ensures h in TrackedHeights(At(sys, tracked, steps, k)) <==>
            h <= Latest(At(sys, tracked, steps, k)) && Uncrossed(sys, tracked, steps, k, h)
  {
    if k == 0 {
      LatestBounds(sys, h);
    } else {
      var before := At(sys, tracked, steps, k - 1);
      TrackedUnlessCrossed(sys, tracked, steps, k - 1, h);
      StepTracks(before, tracked, steps[k - 1], h);
      if Latest(before) < h { NotReachedUncrossed(sys, tracked, steps, k - 1, h); }
      UncrossedStep(sys, tracked, steps, k, h);
    }
  }

  lemma UncrossedStep(sys: System, tracked: seq<TrackedValidator>, steps: seq<Step>, k: nat, h: int)
    requires 0 < k <= |steps|
    ensures Uncrossed(sys, tracked, steps, k, h) <==>
            Uncrossed(sys, tracked, steps, k - 1, h) && !Crosses(sys, tracked, steps, k - 1, h)
  {
  }

  // ---- One poll, among whatever the other nodes do ----

  /** The RPC answers a request for a height with the block at that height. */
  predicate Honest(sys: System, s: Step) {
    s.event.NextBlock? && Enabled(sys, s) && s.event.answer.Fetched? ==>
      s.event.answer.block.height == NodeAt(sys, s.node).poll.value.next
  }

  /** A request of the poll loop is answered, and the node is synced when the block is announced. */
  predicate Arrives(sys: System, s: Step) {
    s.event.NextBlock? && Enabled(sys, s) ==> s.event.answer.Fetched? && s.event.answer.synced
  }

  /** During these steps node n goes on with its poll; answers may fail, and other nodes do anything. */
  ghost predicate Polling(sys: System, tracked: seq<TrackedValidator>, n: nat, steps: seq<Step>) {
    forall k :: 0 <= k < |steps| && steps[k].node == n ==>
      !steps[k].event.EndPoll? && Honest(At(sys, tracked, steps, k), steps[k])
  }

  ghost predicate Served(sys: System, tracked: seq<TrackedValidator>, n: nat, steps: seq<Step>) {
    forall k :: 0 <= k < |steps| && steps[k].node == n ==>
      !steps[k].event.EndPoll? && Honest(At(sys, tracked, steps, k), steps[k]) &&
      Arrives(At(sys, tracked, steps, k), steps[k])
  }

  /** The poll's own request for height h, whenever it is made, is served. */
  ghost predicate ServesHeight(sys: System, tracked: seq<TrackedValidator>, n: nat, steps: seq<Step>, h: int) {
    forall k :: 0 <= k < |steps| && steps[k].node == n && NextIs(At(sys, tracked, steps, k), n, h) ==>
      Arrives(At(sys, tracked, steps, k), steps[k])
  }

  predicate NextIs(sys: System, n: nat, h: int) {
    NodeAt(sys, n).poll.Some? && NodeAt(sys, n).poll.value.next == h
  }

  function Begun(sys: System, tracked: seq<TrackedValidator>, n: nat, head: Block): System {
    Apply(sys, tracked, Step(n, BeginPoll(Some(head))))
  }

  function Ended(sys: System, tracked: seq<TrackedValidator>, n: nat, synced: bool): System {
    Apply(sys, tracked, Step(n, EndPoll(synced)))
  }

  /** A whole poll of node n: it begins, the given steps of all nodes happen, and it ends. */
  function AfterPoll(sys: System, tracked: seq<TrackedValidator>, n: nat, head: Block, steps: seq<Step>,
                     synced: bool): System {
    Ended(At(Begun(sys, tracked, n, head), tracked, steps, |steps|), tracked, n, synced)
  }

  /** After the steps the loop of the poll is through, so the poll can end. */
  predicate LoopDone(sys: System, tracked: seq<TrackedValidator>, n: nat, steps: seq<Step>) {
    Enabled(At(sys, tracked, steps, |steps|), Step(n, EndPoll(true)))
  }

  /** A whole poll, every answer of it served; other nodes do anything meanwhile. */
  ghost predicate ServedPoll(sys: System, tracked: seq<TrackedValidator>, n: nat, head: Block, steps: seq<Step>) {
    && NodeAt(sys, n).poll.None?
    && Served(Begun(sys, tracked, n, head), tracked, n, steps)
    && LoopDone(Begun(sys, tracked, n, head), tracked, n, steps)
  }

  lemma BeginsQuietly(sys: System, tracked: seq<TrackedValidator>, n: nat, head: Block)
    requires NodeAt(sys, n).poll.None?
    ensures var from := PollFrom(NodeAt(sys, n).cached, head.height);
            NodeAt(Begun(sys, tracked, n, head), n).poll == Some(Poll(from, from + 1, head))
    ensures Begun(sys, tracked, n, head).log == sys.log
  {
    assert sys.log + [] == sys.log;
  }

  lemma {:induction false} PollGoesOn(sys: System, tracked: seq<TrackedValidator>, n: nat, steps: seq<Step>, k: nat)
    requires k <= |steps| && NodeAt(sys, n).poll.Some? && Polling(sys, tracked, n, steps)
    ensures var p, q := NodeAt(sys, n).poll.value, NodeAt(At(sys, tracked, steps, k), n).poll;
            q.Some? && q.value.from == p.from && q.value.head == p.head && p.next <= q.value.next
  {
    if k > 0 { PollGoesOn(sys, tracked, n, steps, k - 1); }
  }

  /** Once the loop has asked for h and was served, the latest height is at least h. */
  lemma {:induction false} PassedIsReached(sys: System, tracked: seq<TrackedValidator>, n: nat, steps: seq<Step>,
                                           k: nat, h: int)
    requires k <= |steps| && NodeAt(sys, n).poll.Some? && Polling(sys, tracked, n, steps)
    requires NodeAt(sys, n).poll.value.next <= h && ServesHeight(sys, tracked, n, steps, h)
    ensures var now := At(sys, tracked, steps, k);
            NodeAt(now, n).poll.Some? && (NodeAt(now, n).poll.value.next > h ==> Latest(now) >= h)
  {
    PollGoesOn(sys, tracked, n, steps, k);
    if k > 0 {
      var before, s := At(sys, tracked, steps, k - 1), steps[k - 1];
      PassedIsReached(sys, tracked, n, steps, k - 1, h);
      ApplyLatest(before, tracked, s);
      if s.node == n && NextIs(before, n, h) {
        assert Honest(before, s) && Arrives(before, s);
      }
    }
  }

  /** A height that a poll with this state covers: its loop serves it, or it is the head. */
  ghost predicate Covers(sys: System, tracked: seq<TrackedValidator>, n: nat, steps: seq<Step>, synced: bool, h: int) {
    && NodeAt(sys, n).poll.Some?
    && var p := NodeAt(sys, n).poll.value;
       if h == p.head.height then synced
       else p.next <= h < p.head.height && ServesHeight(sys, tracked, n, steps, h)
  }

  /** A poll never crosses the heights it covers. */
  lemma OwnNeverCrosses(sys: System, tracked: seq<TrackedValidator>, n: nat, steps: seq<Step>, synced: bool,
                        k: nat, h: int)
    requires k < |steps| && steps[k].node == n
    requires Polling(sys, tracked, n, steps) && Covers(sys, tracked, n, steps, synced, h)
    ensures !Crosses(sys, tracked, steps, k, h)
  {
    var now := At(sys, tracked, steps, k);
    PollGoesOn(sys, tracked, n, steps, k);
    ApplyLatest(now, tracked, steps[k]);
    assert Honest(now, steps[k]);
    if h < NodeAt(sys, n).poll.value.head.height { PassedIsReached(sys, tracked, n, steps, k, h); }
  }

  /** The last step of the poll settles every height it covers. */
  lemma EndSettles(sys: System, tracked: seq<TrackedValidator>, n: nat, steps: seq<Step>, synced: bool, h: int)
    requires Polling(sys, tracked, n, steps) && Covers(sys, tracked, n, steps, synced, h)
    requires LoopDone(sys, tracked, n, steps)
    ensures var now := At(sys, tracked, steps, |steps|);
            var done := Ended(now, tracked, n, synced);
            && Latest(done) >= h
            && (h in TrackedHeights(done) <==> h in TrackedHeights(now) || Latest(now) < h)
  {
    var now := At(sys, tracked, steps, |steps|);
    PollGoesOn(sys, tracked, n, steps, |steps|);
    ApplyLatest(now, tracked, Step(n, EndPoll(synced)));
    LatestBounds(now, h);
    if h < NodeAt(sys, n).poll.value.head.height { PassedIsReached(sys, tracked, n, steps, |steps|, h); }
  }

  /** Another node's step takes the latest height past h before h arrived. */
  ghost predicate Overtaken(sys: System, tracked: seq<TrackedValidator>, n: nat, steps: seq<Step>, h: int) {
    exists k :: 0 <= k < |steps| && steps[k].node != n && Crosses(sys, tracked, steps, k, h)
  }

  /**
   * The exact fate of a height that a poll covers: it stays untracked iff another node overtakes it, that
   * is, iff a delivery above h is received before h. Other answers of the poll may fail.
   */
  lemma OvertakenHeight(sys: System, tracked: seq<TrackedValidator>, n: nat, steps: seq<Step>, synced: bool, h: int)
    requires Polling(sys, tracked, n, steps) && Covers(sys, tracked, n, steps, synced, h)
    requires LoopDone(sys, tracked, n, steps) && Latest(sys) < h
    ensures h !in TrackedHeights(Ended(At(sys, tracked, steps, |steps|), tracked, n, synced)) <==>
            Overtaken(sys, tracked, n, steps, h)
  {
    var now := At(sys, tracked, steps, |steps|);
    EndSettles(sys, tracked, n, steps, synced, h);
    TrackedUnlessCrossed(sys, tracked, steps, |steps|, h);
    forall k | 0 <= k < |steps| && steps[k].node == n ensures !Crosses(sys, tracked, steps, k, h) {
      OwnNeverCrosses(sys, tracked, n, steps, synced, k, h);
    }
    if Latest(now) < h { NotReachedUncrossed(sys, tracked, steps, |steps|, h); }
  }

  /** The heights above lo and up to hi that are not tracked. */
  function Missing(sys: System, lo: int, hi: int): set<int> {
    Span(lo, hi) - TrackedHeights(sys)
  }

  /** In one step the latest height leaves out a height that the poll covers, above start and up to its head. */
  predicate Jumps(before: System, after: System, start: int, cur: int) {
    var reached := Max(Latest(before), start);
    reached < cur && Latest(after) > reached + 1
  }

  /** The k-th step is another node's, and it jumps ahead of the poll. */
  predicate Overtakes(sys: System, tracked: seq<TrackedValidator>, n: nat, steps: seq<Step>, k: nat,
                      start: int, cur: int)
    requires k < |steps|
  {
    && steps[k].node != n
    && Jumps(At(sys, tracked, steps, k), At(sys, tracked, steps, k + 1), start, cur)
  }

  /**
   * A served poll, interleaved with anything, leaves no gap between its start, or the latest height if that
   * is higher, and its head, iff no block of another node received meanwhile jumps ahead.
   */
  lemma PollComplete(sys: System, tracked: seq<TrackedValidator>, n: nat, head: Block, steps: seq<Step>)
    requires ServedPoll(sys, tracked, n, head, steps)
    ensures var begun := Begun(sys, tracked, n, head);
            var start := Max(Latest(sys), Max(NodeAt(sys, n).cached, head.height - 20));
            Missing(AfterPoll(sys, tracked, n, head, steps, true), start, head.height) == {} <==>
            forall k :: 0 <= k < |steps| ==> !Overtakes(begun, tracked, n, steps, k, start, head.height)
  {
    var begun, cur := Begun(sys, tracked, n, head), head.height;
    var start := Max(Latest(sys), Max(NodeAt(sys, n).cached, cur - 20));
    var missing := Missing(AfterPoll(sys, tracked, n, head, steps, true), start, cur);
    forall h ensures h in missing <==> start < h <= cur && Overtaken(begun, tracked, n, steps, h) {
      MissingIffOvertaken(sys, tracked, n, head, steps, h);
    }
    MissesIffJumps(begun, tracked, n, steps, start, cur, missing);
  }

  lemma MissesIffJumps(sys: System, tracked: seq<TrackedValidator>, n: nat, steps: seq<Step>, start: int, cur: int,
                       missing: set<int>)
    requires forall h :: h in missing <==> start < h <= cur && Overtaken(sys, tracked, n, steps, h)
    ensures missing == {} <==> forall k :: 0 <= k < |steps| ==> !Overtakes(sys, tracked, n, steps, k, start, cur)
  {
    forall k | 0 <= k < |steps| && Overtakes(sys, tracked, n, steps, k, start, cur) ensures missing != {} {
      JumpOvertakes(sys, tracked, n, steps, k, start, cur);
    }
    if forall k :: 0 <= k < |steps| ==> !Overtakes(sys, tracked, n, steps, k, start, cur) {
      forall h ensures h !in missing {
        if h in missing { OvertakenJumps(sys, tracked, n, steps, start, cur, h); }
      }
      assert missing == {};
    }
  }

  lemma MissingIffOvertaken(sys: System, tracked: seq<TrackedValidator>, n: nat, head: Block, steps: seq<Step>,
                            h: int)
    requires ServedPoll(sys, tracked, n, head, steps)
    ensures var start := Max(Latest(sys), Max(NodeAt(sys, n).cached, head.height - 20));
            h in Missing(AfterPoll(sys, tracked, n, head, steps, true), start, head.height) <==>
            start < h <= head.height && Overtaken(Begun(sys, tracked, n, head), tracked, n, steps, h)
  {
    if Max(Latest(sys), Max(NodeAt(sys, n).cached, head.height - 20)) < h <= head.height {
      LostIffOvertaken(sys, tracked, n, head, steps, h);
    }
  }

  lemma LostIffOvertaken(sys: System, tracked: seq<TrackedValidator>, n: nat, head: Block, steps: seq<Step>, h: int)
    requires ServedPoll(sys, tracked, n, head, steps)
    requires Latest(sys) < h <= head.height && NodeAt(sys, n).cached < h && head.height - 20 < h
    ensures h !in TrackedHeights(AfterPoll(sys, tracked, n, head, steps, true)) <==>
            Overtaken(Begun(sys, tracked, n, head), tracked, n, steps, h)
  {
    BeginsQuietly(sys, tracked, n, head);
    OvertakenHeight(Begun(sys, tracked, n, head), tracked, n, steps, true, h);
  }

  lemma JumpOvertakes(sys: System, tracked: seq<TrackedValidator>, n: nat, steps: seq<Step>, k: nat,
                      start: int, cur: int)
    requires k < |steps| && Overtakes(sys, tracked, n, steps, k, start, cur)
    ensures exists h :: start < h <= cur && Overtaken(sys, tracked, n, steps, h)
  {
    var h := Max(Latest(At(sys, tracked, steps, k)), start) + 1;
    assert Crosses(sys, tracked, steps, k, h);
    assert Overtaken(sys, tracked, n, steps, h);
  }

  lemma OvertakenJumps(sys: System, tracked: seq<TrackedValidator>, n: nat, steps: seq<Step>,
                       start: int, cur: int, h: int)
    requires start < h <= cur && Overtaken(sys, tracked, n, steps, h)
    ensures exists k :: 0 <= k < |steps| && Overtakes(sys, tracked, n, steps, k, start, cur)
  {
    var k :| 0 <= k < |steps| && steps[k].node != n && Crosses(sys, tracked, steps, k, h);
    assert Overtakes(sys, tracked, n, steps, k, start, cur);
  }

  // ---- One poll that nobody disturbs ----

  /** During these steps no other node is heard. */
  ghost predicate Undisturbed(sys: System, tracked: seq<TrackedValidator>, n: nat, steps: seq<Step>) {
    forall k :: 0 <= k < |steps| && steps[k].node != n ==> Brings(At(sys, tracked, steps, k), steps[k]).None?
  }

  /** A whole poll, every answer of it served, during which no other node is heard. */
  ghost predicate CalmPoll(sys: System, tracked: seq<TrackedValidator>, n: nat, head: Block, steps: seq<Step>) {
    ServedPoll(sys, tracked, n, head, steps) && Undisturbed(Begun(sys, tracked, n, head), tracked, n, steps)
  }

  /** One of the first k steps brings a block at height h. */
  ghost predicate Brought(sys: System, tracked: seq<TrackedValidator>, steps: seq<Step>, k: nat, h: int)
    requires k <= |steps|
  {
    exists i :: 0 <= i < k && BringsHeight(At(sys, tracked, steps, i), steps[i], h)
  }

  predicate BringsHeight(sys: System, s: Step, h: int) {
    Brings(sys, s).Some? && Brings(sys, s).value.height == h
  }

  lemma BroughtStep(sys: System, tracked: seq<TrackedValidator>, steps: seq<Step>, k: nat, h: int)
    requires 0 < k <= |steps|
    ensures Brought(sys, tracked, steps, k, h) <==>
            Brought(sys, tracked, steps, k - 1, h) || BringsHeight(At(sys, tracked, steps, k - 1), steps[k - 1], h)
  {
  }

  /** The latest height is what it was, or in the part of the range the loop has passed. */
  predicate InLoop(now: System, n: nat, p: Poll, latest: int) {
    && NodeAt(now, n).poll.Some?
    && var q := NodeAt(now, n).poll.value;
       && q.head == p.head && p.next <= q.next
       && Latest(now) <= Max(latest, q.next - 1)
       && Latest(now) <= Max(latest, p.head.height - 1)
  }

  lemma {:induction false} UndisturbedLatest(sys: System, tracked: seq<TrackedValidator>, n: nat, steps: seq<Step>,
                                             k: nat)
    requires k <= |steps| && NodeAt(sys, n).poll.Some?
    requires Polling(sys, tracked, n, steps) && Undisturbed(sys, tracked, n, steps)
    ensures InLoop(At(sys, tracked, steps, k), n, NodeAt(sys, n).poll.value, Latest(sys))
  {
    if k > 0 {
      UndisturbedLatest(sys, tracked, n, steps, k - 1);
      StaysInLoop(At(sys, tracked, steps, k - 1), tracked, n, steps[k - 1], NodeAt(sys, n).poll.value, Latest(sys));
    }
  }

  lemma StaysInLoop(now: System, tracked: seq<TrackedValidator>, n: nat, s: Step, p: Poll, latest: int)
    requires InLoop(now, n, p, latest)
    requires s.node == n ==> !s.event.EndPoll? && Honest(now, s)
    requires s.node != n ==> Brings(now, s).None?
    ensures InLoop(Apply(now, tracked, s), n, p, latest)
  {
    UndisturbedStep(now, tracked, n, s);
  }

  lemma UndisturbedStep(sys: System, tracked: seq<TrackedValidator>, n: nat, s: Step)
    requires NodeAt(sys, n).poll.Some?
    requires s.node == n ==> !s.event.EndPoll? && Honest(sys, s)
    requires s.node != n ==> Brings(sys, s).None?
    ensures var p, b := NodeAt(sys, n).poll.value, Brings(sys, s);
            && NodeAt(Apply(sys, tracked, s), n).poll.Some?
            && NodeAt(Apply(sys, tracked, s), n).poll.value.head == p.head
            && p.next <= NodeAt(Apply(sys, tracked, s), n).poll.value.next
            && (b.Some? ==> b.value.height == p.next < p.head.height &&
                            NodeAt(Apply(sys, tracked, s), n).poll.value.next == p.next + 1)
            && Latest(Apply(sys, tracked, s)) == if b.Some? then Max(Latest(sys), p.next) else Latest(sys)
  {
    StepLatest(sys, tracked, s);
  }

  /** The i-th step adds h to the tracked heights iff it brings h and h is above start. */
  ghost predicate AddsAbove(sys: System, tracked: seq<TrackedValidator>, steps: seq<Step>, i: nat, start: int, h: int)
    requires i < |steps|
  {
    var before := At(sys, tracked, steps, i);
    h in TrackedHeights(At(sys, tracked, steps, i + 1)) <==>
    h in TrackedHeights(before) || (h > start && BringsHeight(before, steps[i], h))
  }

  lemma {:induction false} AddsUp(sys: System, tracked: seq<TrackedValidator>, steps: seq<Step>, k: nat,
                                  start: int, h: int)
    requires k <= |steps| && forall i :: 0 <= i < k ==> AddsAbove(sys, tracked, steps, i, start, h)
    ensures h in TrackedHeights(At(sys, tracked, steps, k)) <==>
            h in TrackedHeights(sys) || (h > start && Brought(sys, tracked, steps, k, h))
  {
    if k > 0 {
      AddsUp(sys, tracked, steps, k - 1, start, h);
      assert AddsAbove(sys, tracked, steps, k - 1, start, h);
      BroughtStep(sys, tracked, steps, k, h);
    }
  }

  lemma NextOfLoop(sys: System, tracked: seq<TrackedValidator>, n: nat, steps: seq<Step>, k: nat, h: int)
    requires k < |steps| && NodeAt(sys, n).poll.Some?
    requires Polling(sys, tracked, n, steps) && Undisturbed(sys, tracked, n, steps)
    ensures AddsAbove(sys, tracked, steps, k, Latest(sys), h)
  {
    UndisturbedLatest(sys, tracked, n, steps, k);
    LatestGrows(sys, tracked, steps, 0, k);
    LoopStep(At(sys, tracked, steps, k), tracked, n, steps[k], Latest(sys), h);
  }

  lemma LoopStep(sys: System, tracked: seq<TrackedValidator>, n: nat, s: Step, start: int, h: int)
    requires NodeAt(sys, n).poll.Some?
    requires s.node == n ==> !s.event.EndPoll? && Honest(sys, s)
    requires s.node != n ==> Brings(sys, s).None?
    requires start <= Latest(sys) <= Max(start, NodeAt(sys, n).poll.value.next - 1)
    ensures h in TrackedHeights(Apply(sys, tracked, s)) <==>
            h in TrackedHeights(sys) || (h > start && BringsHeight(sys, s, h))
  {
    UndisturbedStep(sys, tracked, n, s);
    StepTracks(sys, tracked, s, h);
  }

  /**
   * With failed answers and unsynced moments wherever they may be, an undisturbed poll adds to the tracked
   * heights exactly what it brings above the latest height.
   */
  lemma PollTracks(sys: System, tracked: seq<TrackedValidator>, n: nat, head: Block, steps: seq<Step>,
                   synced: bool, h: int)
    requires NodeAt(sys, n).poll.None? && Polling(Begun(sys, tracked, n, head), tracked, n, steps)
    requires Undisturbed(Begun(sys, tracked, n, head), tracked, n, steps)
    requires LoopDone(Begun(sys, tracked, n, head), tracked, n, steps)
    ensures h in TrackedHeights(AfterPoll(sys, tracked, n, head, steps, synced)) <==>
            h in TrackedHeights(sys) ||
            (h > Latest(sys) && (Brought(Begun(sys, tracked, n, head), tracked, steps, |steps|, h) ||
                                 (synced && h == head.height)))
  {
    var begun := Begun(sys, tracked, n, head);
    var now := At(begun, tracked, steps, |steps|);
    BeginsQuietly(sys, tracked, n, head);
    forall i | 0 <= i < |steps| ensures AddsAbove(begun, tracked, steps, i, Latest(sys), h) {
      NextOfLoop(begun, tracked, n, steps, i, h);
    }
    AddsUp(begun, tracked, steps, |steps|, Latest(sys), h);
    UndisturbedLatest(begun, tracked, n, steps, |steps|);
    PollGoesOn(begun, tracked, n, steps, |steps|);
    LatestGrows(begun, tracked, steps, 0, |steps|);
    StepTracks(now, tracked, Step(n, EndPoll(synced)), h);
    ApplyLatest(now, tracked, Step(n, EndPoll(synced)));
  }

  /** What is brought lies between the start of the loop and the head. */
  lemma {:induction false} BroughtInRange(sys: System, tracked: seq<TrackedValidator>, n: nat, steps: seq<Step>,
                                          k: nat, h: int)
    requires k <= |steps| && NodeAt(sys, n).poll.Some?
    requires Polling(sys, tracked, n, steps) && Undisturbed(sys, tracked, n, steps)
    ensures Brought(sys, tracked, steps, k, h) ==>
            NodeAt(sys, n).poll.value.next <= h < NodeAt(sys, n).poll.value.head.height
  {
    if k > 0 {
      BroughtInRange(sys, tracked, n, steps, k - 1, h);
      PollGoesOn(sys, tracked, n, steps, k - 1);
      UndisturbedStep(At(sys, tracked, steps, k - 1), tracked, n, steps[k - 1]);
      BroughtStep(sys, tracked, steps, k, h);
    }
  }

  lemma UndisturbedNotOvertaken(sys: System, tracked: seq<TrackedValidator>, n: nat, steps: seq<Step>, h: int)
    requires Undisturbed(sys, tracked, n, steps)
    ensures !Overtaken(sys, tracked, n, steps, h)
  {
    forall k | 0 <= k < |steps| && steps[k].node != n ensures !Crosses(sys, tracked, steps, k, h) {
      ApplyLatest(At(sys, tracked, steps, k), tracked, steps[k]);
    }
  }

  /**
   * A served poll that nobody disturbs leaves a hole from the latest height up to where it started, which is
   * twenty back from the head or the node's own cache, whichever is higher.
   */
  lemma PollGap(sys: System, tracked: seq<TrackedValidator>, n: nat, head: Block, steps: seq<Step>)
    requires CalmPoll(sys, tracked, n, head, steps)
    ensures var start, cur := Max(NodeAt(sys, n).cached, head.height - 20), head.height;
            var missing := Missing(AfterPoll(sys, tracked, n, head, steps, true), Latest(sys), cur);
            && missing == Span(Latest(sys), if start < cur then start else cur - 1)
            && (missing == {} <==> start <= Latest(sys) || cur <= Latest(sys) + 1)
  {
    var from, cur := PollFrom(NodeAt(sys, n).cached, head.height), head.height;
    var missing := Missing(AfterPoll(sys, tracked, n, head, steps, true), Latest(sys), cur);
    var gap := Span(Latest(sys), if from < cur then from else cur - 1);
    forall h ensures h in missing <==> h in gap { MissingAfterPoll(sys, tracked, n, head, steps, h); }
    assert missing == gap;
    assert from > Latest(sys) && cur > Latest(sys) + 1 ==> Latest(sys) + 1 in gap;
  }

  lemma MissingAfterPoll(sys: System, tracked: seq<TrackedValidator>, n: nat, head: Block, steps: seq<Step>, h: int)
    requires CalmPoll(sys, tracked, n, head, steps)
    ensures h in Missing(AfterPoll(sys, tracked, n, head, steps, true), Latest(sys), head.height) <==>
            Latest(sys) < h < head.height && h <= PollFrom(NodeAt(sys, n).cached, head.height)
  {
    var begun := Begun(sys, tracked, n, head);
    BeginsQuietly(sys, tracked, n, head);
    if Latest(sys) < h <= head.height {
      if h == head.height || h > PollFrom(NodeAt(sys, n).cached, head.height) {
        OvertakenHeight(begun, tracked, n, steps, true, h);
        UndisturbedNotOvertaken(begun, tracked, n, steps, h);
      } else {
        LatestBounds(sys, h);
        PollTracks(sys, tracked, n, head, steps, true, h);
        BroughtInRange(begun, tracked, n, steps, |steps|, h);
      }
    }
  }

  // ---- Whole runs with the sync gate open ----

  /** Blocks that move a node's cache also reach the watcher. */
  predicate GateOpen(s: Step) {
    match s.event
    case Push(_, synced) => synced
    case EndPoll(synced) => synced
    case _ => true
  }

  /** With the gate open no node's cache is ever ahead of the watcher, even in the middle of polls. */
  lemma {:induction false} CacheNeverAhead(tracked: seq<TrackedValidator>, steps: seq<Step>, k: nat, n: nat)
    requires k <= |steps| && forall i :: 0 <= i < |steps| ==> GateOpen(steps[i])
    ensures NodeAt(At(BOOT, tracked, steps, k), n).cached <= Latest(At(BOOT, tracked, steps, k))
  {
    if k > 0 {
      CacheNeverAhead(tracked, steps, k - 1, n);
      StaysBehind(At(BOOT, tracked, steps, k - 1), tracked, steps[k - 1], n);
    }
  }

  lemma StaysBehind(sys: System, tracked: seq<TrackedValidator>, s: Step, n: nat)
    requires GateOpen(s) && NodeAt(sys, n).cached <= Latest(sys)
    ensures NodeAt(Apply(sys, tracked, s), n).cached <= Latest(Apply(sys, tracked, s))
  {
    StepLatest(sys, tracked, s);
  }

  /**
   * After any gate-open run of any nodes, a served poll that nobody disturbs leaves exactly
   * max(0, head - latest - 20) heights untracked, so a gap appears iff the head is more than 20 above
   * everything seen.
   */
  lemma CatchUp(tracked: seq<TrackedValidator>, run: seq<Step>, n: nat, head: Block, steps: seq<Step>)
    requires forall i :: 0 <= i < |run| ==> GateOpen(run[i])
    requires CalmPoll(RunSystem(tracked, run), tracked, n, head, steps)
    ensures var sys, cur := RunSystem(tracked, run), head.height;
            var sys' := AfterPoll(sys, tracked, n, head, steps, true);
            && |Missing(sys', Latest(sys), cur)| == Max(0, cur - Latest(sys) - 20)
            && TrackedHeights(sys') == TrackedHeights(sys) + Span(Max(Latest(sys), cur - 20), cur)
  {
    var sys := RunSystem(tracked, run);
    CacheNeverAhead(tracked, run, |run|, n);
    PollGap(sys, tracked, n, head, steps);
    PollAdds(sys, tracked, n, head, steps);
  }

  /** A served, undisturbed poll of a node whose cache is not ahead adds one consecutive stretch up to its head. */
  lemma PollAdds(sys: System, tracked: seq<TrackedValidator>, n: nat, head: Block, steps: seq<Step>)
    requires NodeAt(sys, n).cached <= Latest(sys)
    requires CalmPoll(sys, tracked, n, head, steps)
    ensures TrackedHeights(AfterPoll(sys, tracked, n, head, steps, true)) ==
            TrackedHeights(sys) + Span(Max(Latest(sys), head.height - 20), head.height)
  {
    var sys', cur := AfterPoll(sys, tracked, n, head, steps, true), head.height;
    forall h ensures h in TrackedHeights(sys') <==>
                     h in TrackedHeights(sys) || Max(Latest(sys), cur - 20) < h <= cur
    {
      LatestBounds(sys, h);
      PollTracks(sys, tracked, n, head, steps, true, h);
      MissingAfterPoll(sys, tracked, n, head, steps, h);
      BeginsQuietly(sys, tracked, n, head);
      BroughtInRange(Begun(sys, tracked, n, head), tracked, n, steps, |steps|, h);
    }
  }

  // ---- Runs that never skip ----

  /**
   * Not further ahead than can be bridged, judged when the block arrives: a push or first block is at most
   * one above the latest height, and a poll did not start above it.
   */
  predicate Bridged(sys: System, s: Step) {
    Latest(sys) > 0 && Enabled(sys, s) ==>
      match s.event
      case Push(b, _) => b.height <= Latest(sys) + 1
      case FirstBlock(Some(b)) => b.height <= Latest(sys) + 1
      case NextBlock(_) => NodeAt(sys, s.node).poll.value.from <= Latest(sys)
      case _ => true
  }

  /** Every cached block reached the watcher, and every request is answered as asked. */
  predicate Faultless(sys: System, s: Step) {
    GateOpen(s) && Honest(sys, s) && Arrives(sys, s)
  }

  ghost predicate AllFaultless(tracked: seq<TrackedValidator>, steps: seq<Step>) {
    forall i :: 0 <= i < |steps| ==> Faultless(At(BOOT, tracked, steps, i), steps[i])
  }

  /** What a poll under way has already brought is not above the latest height. */
  predicate PollKept(sys: System, n: nat) {
    && NodeAt(sys, n).cached <= Latest(sys)
    && (NodeAt(sys, n).poll.Some? ==>
          var p := NodeAt(sys, n).poll.value;
          && p.from < p.next
          && (p.from + 1 < p.next ==> p.next - 1 <= Latest(sys))
          && (p.head.height <= p.from + 1 ==> p.from <= Latest(sys)))
  }

  lemma {:induction false} PollsKept(tracked: seq<TrackedValidator>, steps: seq<Step>, k: nat, n: nat)
    requires k <= |steps| && AllFaultless(tracked, steps)
    ensures PollKept(At(BOOT, tracked, steps, k), n)
  {
    if k > 0 {
      var before := At(BOOT, tracked, steps, k - 1);
      PollsKept(tracked, steps, k - 1, n);
      assert Faultless(before, steps[k - 1]);
      StepKeepsPoll(before, tracked, steps[k - 1], n);
    }
  }

  lemma StepKeepsPoll(sys: System, tracked: seq<TrackedValidator>, s: Step, n: nat)
    requires Faultless(sys, s) && PollKept(sys, n)
    ensures PollKept(Apply(sys, tracked, s), n)
  {
    ApplyLatest(sys, tracked, s);
    if s.node == n && Enabled(sys, s) { assert NodeAt(Apply(sys, tracked, s), n) == Moved(sys, s); }
  }

  /** The watcher would skip the heights between its latest block and this one. */
  predicate Skips(sys: System, s: Step) {
    Latest(sys) > 0 && Brings(sys, s).Some? && Brings(sys, s).value.height > Latest(sys) + 1
  }

  lemma SkipsUnlessBridged(sys: System, s: Step)
    requires Faultless(sys, s) && PollKept(sys, s.node)
    ensures Skips(sys, s) <==> !Bridged(sys, s)
  {
  }

  /** The accepted heights are consecutive. */
  predicate Unbroken(sys: System) {
    Contiguous(Accepted(sys.log))
  }

  lemma ApplyContiguous(sys: System, tracked: seq<TrackedValidator>, s: Step)
    ensures Unbroken(Apply(sys, tracked, s)) <==> Unbroken(sys) && !Skips(sys, s)
  {
    LatestBounds(sys, 0);
    AcceptedTop(sys.log);
    if Brings(sys, s).Some? {
      var info := Observe(Brings(sys, s).value, tracked, sys.validatorSet);
      RecordBeatsTop(sys.log, info);
      if info.height > Latest(sys) { ContiguousSnoc(Accepted(sys.log), info); }
    } else {
      assert sys.log + [] == sys.log;
    }
  }

  lemma ContiguousSnoc(a: seq<BlockInfo>, b: BlockInfo)
    ensures Contiguous(a + [b]) <==> Contiguous(a) && (|a| > 0 ==> b.height == Top(a).height + 1)
  {
    if Contiguous(a + [b]) {
      forall i | 0 <= i < |a| - 1 ensures a[i + 1].height == a[i].height + 1 {
        assert (a + [b])[i + 1].height == (a + [b])[i].height + 1;
      }
      if |a| > 0 { assert (a + [b])[|a| - 1 + 1].height == (a + [b])[|a| - 1].height + 1; }
    }
  }

  ghost predicate AllBridged(tracked: seq<TrackedValidator>, steps: seq<Step>) {
    forall i :: 0 <= i < |steps| ==> Bridged(At(BOOT, tracked, steps, i), steps[i])
  }

  /** The run is unbroken after i steps. */
  function UnbrokenAt(tracked: seq<TrackedValidator>, steps: seq<Step>): nat -> bool {
    (i: nat) => i <= |steps| && Unbroken(At(BOOT, tracked, steps, i))
  }

  function KeepsWhole(tracked: seq<TrackedValidator>, steps: seq<Step>): nat -> bool {
    (i: nat) => i < |steps| && !Skips(At(BOOT, tracked, steps, i), steps[i])
  }

  lemma NextUnbroken(tracked: seq<TrackedValidator>, steps: seq<Step>, i: nat)
    requires i < |steps|
    ensures UnbrokenAt(tracked, steps)(i + 1) <==> UnbrokenAt(tracked, steps)(i) && KeepsWhole(tracked, steps)(i)
  {
    ApplyContiguous(At(BOOT, tracked, steps, i), tracked, steps[i]);
  }

  lemma RunContiguous(tracked: seq<TrackedValidator>, steps: seq<Step>)
    ensures UnbrokenAt(tracked, steps)(|steps|) <==> forall i: nat :: i < |steps| ==> KeepsWhole(tracked, steps)(i)
  {
    forall i: nat | i < |steps|
      ensures UnbrokenAt(tracked, steps)(i + 1) <==> UnbrokenAt(tracked, steps)(i) && KeepsWhole(tracked, steps)(i)
    {
      NextUnbroken(tracked, steps, i);
    }
    LastsWhile(UnbrokenAt(tracked, steps), KeepsWhole(tracked, steps), |steps|);
  }

  lemma BridgedOrSkips(tracked: seq<TrackedValidator>, steps: seq<Step>, i: nat)
    requires i < |steps| && AllFaultless(tracked, steps)
    ensures Skips(At(BOOT, tracked, steps, i), steps[i]) <==> !Bridged(At(BOOT, tracked, steps, i), steps[i])
  {
    PollsKept(tracked, steps, i, steps[i].node);
    assert Faultless(At(BOOT, tracked, steps, i), steps[i]);
    SkipsUnlessBridged(At(BOOT, tracked, steps, i), steps[i]);
  }

  function Skipped(webhooks: seq<BlockWebhook>, sys: System): int {
    Run(Initial(webhooks), sys.log).skippedBlocks
  }

  /** What one step adds to the counter of skipped blocks. */
  lemma ApplySkips(webhooks: seq<BlockWebhook>, sys: System, tracked: seq<TrackedValidator>, s: Step)
    ensures Skipped(webhooks, Apply(sys, tracked, s)) ==
            Skipped(webhooks, sys) + if Skips(sys, s) then Brings(sys, s).value.height - Latest(sys) else 0
  {
    if Brings(sys, s).Some? {
      var info, l := Observe(Brings(sys, s).value, tracked, sys.validatorSet), Run(Initial(webhooks), sys.log);
      RunReplaysRecords(webhooks, sys.log);
      ReplayLatest(webhooks, Accepted(sys.log));
      RunSnoc(Initial(webhooks), sys.log, info);
      ApplyStatusesFrame(CountBlock(l, info), info, |info.validatorStatus|);
    } else {
      assert sys.log + [] == sys.log;
    }
  }

  /** Nothing is counted as skipped exactly when the accepted heights are consecutive. */
  lemma SkippedIffGap(webhooks: seq<BlockWebhook>, log: seq<BlockInfo>)
    ensures Run(Initial(webhooks), log).skippedBlocks == 0 <==> Contiguous(Accepted(log))
  {
    RunReplaysRecords(webhooks, log);
    AcceptedTop(log);
    if |Accepted(log)| > 0 {
      HeightConservation(webhooks, log);
      GapsZero(Accepted(log));
      if Contiguous(Accepted(log)) { ContiguousRun(webhooks, log); }
    }
  }

  /**
   * Any number of nodes, any interleaving of pushes, polls, first blocks and rewinds, every answer served:
   * the watcher never skips iff no block is announced further ahead than can be bridged. Inside a poll only
   * its start matters; the heights after it follow one by one whatever the other nodes bring.
   */
  lemma BridgedRunNeverSkips(webhooks: seq<BlockWebhook>, tracked: seq<TrackedValidator>, steps: seq<Step>)
    requires AllFaultless(tracked, steps)
    ensures Skipped(webhooks, RunSystem(tracked, steps)) == 0 <==> AllBridged(tracked, steps)
  {
    RunContiguous(tracked, steps);
    SkippedIffGap(webhooks, RunSystem(tracked, steps).log);
    forall i: nat | i < |steps|
      ensures KeepsWhole(tracked, steps)(i) <==> Bridged(At(BOOT, tracked, steps, i), steps[i])
    {
      BridgedOrSkips(tracked, steps, i);
    }
  }
}
