/** The objects and the state machine: what a node, its pool and the watcher do together is a run of steps. */
module Wiring {
  import opened Seqs
  import opened BlockTypes
  import opened BlockLedger
  import opened CommitStatus
  import opened BlockWatchers
  import opened RpcNodes
  import opened Pipeline

  // ---- What the watcher makes of the events of a node ----

  function Seen(e: NodeEvent, tracked: seq<TrackedValidator>, vals: seq<string>): seq<BlockInfo> {
    if e.synced then [Observe(e.block, tracked, vals)] else []
  }

  /** The digests of the events, without those of a node that is not synced. */
  function Observed(events: seq<NodeEvent>, tracked: seq<TrackedValidator>, vals: seq<string>): seq<BlockInfo> {
    if |events| == 0 then []
    else Observed(events[..|events| - 1], tracked, vals) + Seen(events[|events| - 1], tracked, vals)
  }

  lemma ObservedSnoc(events: seq<NodeEvent>, e: NodeEvent, tracked: seq<TrackedValidator>, vals: seq<string>)
    ensures Observed(events + [e], tracked, vals) == Observed(events, tracked, vals) + Seen(e, tracked, vals)
  {
    assert (events + [e])[..|events|] == events;
  }

  /** The watcher object fed with the events of a node does what the log says. */
  method DeliverAll(w: BlockWatcher, endpoint: string, events: seq<NodeEvent>)
    modifies w
    ensures w.Value() == Run(old(w.Value()), Observed(events, w.trackedValidators, w.validatorSet))
    ensures w.validatorSet == old(w.validatorSet)
  {
    ghost var start, vals := w.Value(), w.validatorSet;
    for i := 0 to |events|
      invariant w.validatorSet == vals
      invariant w.Value() == Run(start, Observed(events[..i], w.trackedValidators, vals))
    {
      assert events[..i + 1] == events[..i] + [events[i]];
      ObservedSnoc(events[..i], events[i], w.trackedValidators, vals);
      RunSeen(start, Observed(events[..i], w.trackedValidators, vals), events[i], w.trackedValidators, vals);
      w.OnNewBlock(endpoint, events[i].synced, events[i].block);
    }
    assert events[..|events|] == events;
  }

  lemma RunSeen(l: Ledger, log: seq<BlockInfo>, e: NodeEvent, tracked: seq<TrackedValidator>, vals: seq<string>)
    ensures Run(l, log + Seen(e, tracked, vals)) ==
            if e.synced then Handle(Run(l, log), Observe(e.block, tracked, vals)) else Run(l, log)
  {
    if e.synced {
      RunSnoc(l, log, Observe(e.block, tracked, vals));
    } else {
      assert log + Seen(e, tracked, vals) == log;
    }
  }

  // ---- A poll that runs through without interruption ----

  /** The requests of the loop, one after the other. */
  function Requests(n: nat, from: int, cur: int, fetch: int -> Fetch): seq<Step> {
    seq(if cur > from + 1 then cur - from - 1 else 0, i => Step(n, NextBlock(fetch(from + 1 + i))))
  }

  /** The whole of one poll as steps of the machine. */
  function PollRun(sys: System, tracked: seq<TrackedValidator>, n: nat, head: Fetch, fetch: int -> Fetch): System {
    if head.Failed? then Apply(sys, tracked, Step(n, BeginPoll(None)))
    else
      var cur := head.block.height;
      var steps := Requests(n, PollFrom(NodeAt(sys, n).cached, cur), cur, fetch);
      AfterPoll(sys, tracked, n, head.block, steps, head.synced)
  }

  /** Between sys and now only node n moved, and the watcher received these events. */
  ghost predicate Moves(sys: System, now: System, tracked: seq<TrackedValidator>, n: nat, node: NodeState,
                        events: seq<NodeEvent>) {
    && NodeAt(now, n) == node
    && (forall m: nat :: m != n ==> NodeAt(now, m) == NodeAt(sys, m))
    && now.validatorSet == sys.validatorSet
    && now.log == sys.log + Observed(events, tracked, sys.validatorSet)
  }

  lemma MovesNot(sys: System, tracked: seq<TrackedValidator>, n: nat)
    ensures Moves(sys, sys, tracked, n, NodeAt(sys, n), [])
  {
    assert sys.log + Observed([], tracked, sys.validatorSet) == sys.log;
  }

  /** A further step of node n that delivers at most one event. */
  lemma MovesOn(sys: System, now: System, tracked: seq<TrackedValidator>, n: nat, node: NodeState,
                events: seq<NodeEvent>, e: Event, more: seq<NodeEvent>)
    requires Moves(sys, now, tracked, n, node, events)
    requires Enabled(now, Step(n, e)) && !e.ValidatorSet? && |more| <= 1
    requires Brings(now, Step(n, e)) == if |more| == 1 && more[0].synced then Some(more[0].block) else None
    ensures Moves(sys, Apply(now, tracked, Step(n, e)), tracked, n, Moved(now, Step(n, e)), events + more)
  {
    var vals := sys.validatorSet;
    if |more| == 1 {
      assert more == [more[0]];
      ObservedSnoc(events, more[0], tracked, vals);
      ConcatAssociative(sys.log, Observed(events, tracked, vals), Seen(more[0], tracked, vals));
    } else {
      assert events + more == events;
      assert now.log + [] == now.log;
    }
  }

  /** After k requests the loop stands at from + 1 + k, and the watcher received what they fetched. */
  ghost predicate LoopAt(sys: System, begun: System, tracked: seq<TrackedValidator>, n: nat, cached: int, from: int,
                         head: Block, fetch: int -> Fetch, k: nat)
    requires k <= |Requests(n, from, head.height, fetch)|
  {
    Moves(sys, At(begun, tracked, Requests(n, from, head.height, fetch), k), tracked, n,
          NodeState(cached, Some(Poll(from, from + 1 + k, head))), FetchBetween(from, from + 1 + k, fetch))
  }

  lemma LoopNext(sys: System, begun: System, tracked: seq<TrackedValidator>, n: nat, cached: int, from: int,
                 head: Block, fetch: int -> Fetch, k: nat)
    requires k < |Requests(n, from, head.height, fetch)|
    requires LoopAt(sys, begun, tracked, n, cached, from, head, fetch, k)
    ensures LoopAt(sys, begun, tracked, n, cached, from, head, fetch, k + 1)
  {
    var steps, answer := Requests(n, from, head.height, fetch), fetch(from + 1 + k);
    var now := At(begun, tracked, steps, k);
    RequestMoves(sys, now, tracked, n, cached, Poll(from, from + 1 + k, head), FetchBetween(from, from + 1 + k, fetch),
                 answer);
    assert At(begun, tracked, steps, k + 1) == Apply(now, tracked, Step(n, NextBlock(answer)));
    FetchNext(from, k, fetch);
  }

  lemma FetchNext(from: int, k: nat, fetch: int -> Fetch)
    ensures FetchBetween(from, from + 2 + k, fetch) ==
            FetchBetween(from, from + 1 + k, fetch) + Announced(fetch(from + 1 + k))
  {
  }

  lemma {:induction false} LoopMoves(sys: System, begun: System, tracked: seq<TrackedValidator>, n: nat, cached: int,
                                     from: int, head: Block, fetch: int -> Fetch, k: nat)
    requires Moves(sys, begun, tracked, n, NodeState(cached, Some(Poll(from, from + 1, head))), [])
    requires k <= |Requests(n, from, head.height, fetch)|
    ensures LoopAt(sys, begun, tracked, n, cached, from, head, fetch, k)
  {
    if k > 0 {
      LoopMoves(sys, begun, tracked, n, cached, from, head, fetch, k - 1);
      LoopNext(sys, begun, tracked, n, cached, from, head, fetch, k - 1);
    }
  }

  lemma RequestMoves(sys: System, now: System, tracked: seq<TrackedValidator>, n: nat, cached: int, p: Poll,
                     events: seq<NodeEvent>, answer: Fetch)
    requires Moves(sys, now, tracked, n, NodeState(cached, Some(p)), events) && p.next < p.head.height
    ensures Moves(sys, Apply(now, tracked, Step(n, NextBlock(answer))), tracked, n,
                  NodeState(cached, Some(p.(next := p.next + 1))), events + Announced(answer))
  {
    MovesOn(sys, now, tracked, n, NodeState(cached, Some(p)), events, NextBlock(answer), Announced(answer));
  }

  lemma BeginMoves(sys: System, tracked: seq<TrackedValidator>, n: nat, head: Block)
    requires NodeAt(sys, n).poll.None?
    ensures var cached := NodeAt(sys, n).cached;
            var from := PollFrom(cached, head.height);
            Moves(sys, Begun(sys, tracked, n, head), tracked, n,
                  NodeState(cached, Some(Poll(from, from + 1, head))), [])
  {
    MovesNot(sys, tracked, n);
    MovesOn(sys, sys, tracked, n, NodeAt(sys, n), [], BeginPoll(Some(head)), []);
  }

  lemma EndMoves(sys: System, now: System, tracked: seq<TrackedValidator>, n: nat, cached: int, p: Poll,
                 events: seq<NodeEvent>, synced: bool)
    requires Moves(sys, now, tracked, n, NodeState(cached, Some(p)), events) && p.next >= p.head.height
    ensures Moves(sys, Ended(now, tracked, n, synced), tracked, n, NodeState(p.head.height, None),
                  events + [NodeEvent(p.head, synced)])
  {
    MovesOn(sys, now, tracked, n, NodeState(cached, Some(p)), events, EndPoll(synced), [NodeEvent(p.head, synced)]);
  }

  /** The uninterrupted run of steps delivers exactly the events that the method of the node emits. */
  lemma PollRunMoves(sys: System, tracked: seq<TrackedValidator>, n: nat, head: Fetch, fetch: int -> Fetch)
    requires NodeAt(sys, n).poll.None?
    ensures var cached := NodeAt(sys, n).cached;
            Moves(sys, PollRun(sys, tracked, n, head, fetch), tracked, n,
                  NodeState(if head.Failed? then cached else head.block.height, None),
                  PollEvents(cached, head, fetch))
  {
    MovesNot(sys, tracked, n);
    if head.Failed? {
      MovesOn(sys, sys, tracked, n, NodeAt(sys, n), [], BeginPoll(None), []);
    } else {
      FetchedPollMoves(sys, tracked, n, head, fetch);
    }
  }

  lemma FetchedPollMoves(sys: System, tracked: seq<TrackedValidator>, n: nat, head: Fetch, fetch: int -> Fetch)
    requires NodeAt(sys, n).poll.None? && head.Fetched?
    ensures Moves(sys, PollRun(sys, tracked, n, head, fetch), tracked, n, NodeState(head.block.height, None),
                  PollEvents(NodeAt(sys, n).cached, head, fetch))
  {
    var cached, cur := NodeAt(sys, n).cached, head.block.height;
    var from, begun := PollFrom(cached, cur), Begun(sys, tracked, n, head.block);
    var steps := Requests(n, from, cur, fetch);
    var k := |steps|;
    BeginMoves(sys, tracked, n, head.block);
    LoopMoves(sys, begun, tracked, n, cached, from, head.block, fetch, k);
    assert FetchBetween(from, from + 1 + k, fetch) == FetchBetween(from, cur, fetch);
    EndMoves(sys, At(begun, tracked, steps, k), tracked, n, cached, Poll(from, from + 1 + k, head.block),
             FetchBetween(from, cur, fetch), head.synced);
  }

  /** Every height strictly between lo and hi is answered as asked, by a node that is synced then. */
  ghost predicate Serves(fetch: int -> Fetch, lo: int, hi: int) {
    forall h :: lo < h < hi ==> fetch(h).Fetched? && fetch(h).synced && fetch(h).block.height == h
  }

  /** An uninterrupted poll with every answer served is a calm poll, so the catch-up results apply to it. */
  lemma RequestsAreCalm(sys: System, tracked: seq<TrackedValidator>, n: nat, head: Block, fetch: int -> Fetch)
    requires NodeAt(sys, n).poll.None?
    requires Serves(fetch, PollFrom(NodeAt(sys, n).cached, head.height), head.height)
    ensures var from := PollFrom(NodeAt(sys, n).cached, head.height);
            CalmPoll(sys, tracked, n, head, Requests(n, from, head.height, fetch))
  {
    var cached := NodeAt(sys, n).cached;
    var from, begun := PollFrom(cached, head.height), Begun(sys, tracked, n, head);
    var steps := Requests(n, from, head.height, fetch);
    BeginMoves(sys, tracked, n, head);
    forall k | 0 <= k <= |steps|
      ensures NodeAt(At(begun, tracked, steps, k), n).poll == Some(Poll(from, from + 1 + k, head))
    {
      LoopMoves(sys, begun, tracked, n, cached, from, head, fetch, k);
    }
    forall k | 0 <= k < |steps|
      ensures Honest(At(begun, tracked, steps, k), steps[k]) && Arrives(At(begun, tracked, steps, k), steps[k])
    {
      assert from < from + 1 + k < head.height;
    }
  }

  // ---- The objects follow the machine ----

  /** Nodes, idle, and watcher stand where the machine stands; the i-th node of the pool is its node i. */
  ghost predicate Represents(sys: System, webhooks: seq<BlockWebhook>, nodes: seq<Node>, w: BlockWatcher)
    reads nodes, w
  {
    && (forall i :: 0 <= i < |nodes| ==> NodeAt(sys, i) == NodeState(nodes[i].CachedHeight(), None))
    && w.validatorSet == sys.validatorSet
    && w.Value() == Run(Initial(webhooks), sys.log)
  }

  ghost predicate Separate(nodes: seq<Node>) {
    forall i, j :: 0 <= i < j < |nodes| ==> nodes[i] != nodes[j]
  }

  /** Every node of the pool calls the watcher once per block. */
  ghost predicate Subscribed(nodes: seq<Node>, c: Callback)
    reads nodes
  {
    forall n :: n in nodes ==> CountIf(n.Callbacks(NewBlock), Is(c)) == 1
  }

  lemma {:induction false} ListedOnce(nodes: seq<Node>, i: nat, k: nat)
    requires Separate(nodes) && i < |nodes| && k <= |nodes|
    ensures Listed(nodes, nodes[i], k) == if i < k then 1 else 0
  {
    if k > 0 { ListedOnce(nodes, i, k - 1); }
  }

  lemma SubscribesOnce(before: seq<Callback>, c: Callback)
    requires CountIf(before, Is(c)) == 0
    ensures CountIf(before + Copies(c, 1), Is(c)) == 1
  {
    assert Copies(c, 1) == [c];
    CountIfSnoc(before, c, Is(c));
  }

  /** Registering the watcher on the pool subscribes it to every node. */
  method Register(pool: Pool, c: Callback)
    requires Separate(pool.nodes) && forall n :: n in pool.nodes ==> CountIf(n.Callbacks(NewBlock), Is(c)) == 0
    modifies pool.nodes
    ensures Subscribed(pool.nodes, c)
    ensures forall n :: n in pool.nodes ==> n.latestBlock == old(n.latestBlock) && n.calls == old(n.calls)
  {
    pool.OnNodeEvent(NewBlock, c);
    forall n | n in pool.nodes ensures CountIf(n.Callbacks(NewBlock), Is(c)) == 1 {
      var i :| 0 <= i < |pool.nodes| && pool.nodes[i] == n;
      ListedOnce(pool.nodes, i, |pool.nodes|);
      SubscribesOnce(old(n.Callbacks(NewBlock)), c);
    }
  }

  /** What callback c receives when the calls grow by this fan-out. */
  lemma NewlyReceived(before: seq<Call>, callbacks: seq<Callback>, events: seq<NodeEvent>, c: Callback)
    requires CountIf(callbacks, Is(c)) == 1
    ensures Received((before + FanOut(callbacks, events))[|before|..], c) == events
  {
    assert (before + FanOut(callbacks, events))[|before|..] == FanOut(callbacks, events);
    FanOutReachesEachOnce(callbacks, events, c);
  }

  /** Between sys and now only node n moved, and the ledger went through these events. */
  ghost predicate Follows(webhooks: seq<BlockWebhook>, sys: System, now: System, tracked: seq<TrackedValidator>,
                          n: nat, node: NodeState, events: seq<NodeEvent>) {
    && NodeAt(now, n) == node
    && (forall m: nat :: m != n ==> NodeAt(now, m) == NodeAt(sys, m))
    && now.validatorSet == sys.validatorSet
    && Run(Initial(webhooks), now.log) ==
       Run(Run(Initial(webhooks), sys.log), Observed(events, tracked, sys.validatorSet))
  }

  lemma MovesFollows(webhooks: seq<BlockWebhook>, sys: System, now: System, tracked: seq<TrackedValidator>, n: nat,
                     node: NodeState, events: seq<NodeEvent>)
    requires Moves(sys, now, tracked, n, node, events)
    ensures Follows(webhooks, sys, now, tracked, n, node, events)
  {
    RunConcat(Initial(webhooks), sys.log, Observed(events, tracked, sys.validatorSet));
  }

  lemma PollFollows(webhooks: seq<BlockWebhook>, sys: System, tracked: seq<TrackedValidator>, n: nat, head: Fetch,
                    fetch: int -> Fetch)
    requires NodeAt(sys, n).poll.None?
    ensures var cached := NodeAt(sys, n).cached;
            Follows(webhooks, sys, PollRun(sys, tracked, n, head, fetch), tracked, n,
                    NodeState(if head.Failed? then cached else head.block.height, None),
                    PollEvents(cached, head, fetch))
  {
    var cached := NodeAt(sys, n).cached;
    PollRunMoves(sys, tracked, n, head, fetch);
    MovesFollows(webhooks, sys, PollRun(sys, tracked, n, head, fetch), tracked, n,
                 NodeState(if head.Failed? then cached else head.block.height, None), PollEvents(cached, head, fetch));
  }

  /** The watcher registered on the pool and the first poll of one of its nodes. */
  method RegisterAndPoll(ghost sys: System, ghost webhooks: seq<BlockWebhook>, pool: Pool, k: nat, w: BlockWatcher,
                         c: Callback, endpoint: string, head: Fetch, fetch: int -> Fetch)
    requires k < |pool.nodes| && Separate(pool.nodes) && Represents(sys, webhooks, pool.nodes, w)
    requires forall n :: n in pool.nodes ==> CountIf(n.Callbacks(NewBlock), Is(c)) == 0
    modifies pool.nodes, w
    ensures Subscribed(pool.nodes, c)
    ensures Represents(PollRun(sys, w.trackedValidators, k, head, fetch), webhooks, pool.nodes, w)
  {
    Register(pool, c);
    PollNode(sys, webhooks, pool.nodes, k, w, c, endpoint, head, fetch);
  }

  lemma PushMoves(sys: System, tracked: seq<TrackedValidator>, n: nat, b: Block, synced: bool)
    requires NodeAt(sys, n).poll.None?
    ensures Moves(sys, Apply(sys, tracked, Step(n, Push(b, synced))), tracked, n, NodeState(b.height, None),
                  [NodeEvent(b, synced)])
  {
    assert [] + [NodeEvent(b, synced)] == [NodeEvent(b, synced)];
    ObservedSnoc([], NodeEvent(b, synced), tracked, sys.validatorSet);
  }

  lemma PushFollows(webhooks: seq<BlockWebhook>, sys: System, tracked: seq<TrackedValidator>, n: nat, b: Block,
                    synced: bool)
    requires NodeAt(sys, n).poll.None?
    ensures Follows(webhooks, sys, Apply(sys, tracked, Step(n, Push(b, synced))), tracked, n,
                    NodeState(b.height, None), [NodeEvent(b, synced)])
  {
    PushMoves(sys, tracked, n, b, synced);
    MovesFollows(webhooks, sys, Apply(sys, tracked, Step(n, Push(b, synced))), tracked, n, NodeState(b.height, None),
                 [NodeEvent(b, synced)]);
  }

  /** One poll of node k, fanned out to the watcher, is one uninterrupted poll of the machine. */
  method PollNode(ghost sys: System, ghost webhooks: seq<BlockWebhook>, nodes: seq<Node>, k: nat, w: BlockWatcher,
                  c: Callback, endpoint: string, head: Fetch, fetch: int -> Fetch)
    requires k < |nodes| && Separate(nodes) && Subscribed(nodes, c) && Represents(sys, webhooks, nodes, w)
    modifies nodes[k], w
    ensures Subscribed(nodes, c)
    ensures Represents(PollRun(sys, w.trackedValidators, k, head, fetch), webhooks, nodes, w)
  {
    ghost var callbacks, cached := nodes[k].Callbacks(NewBlock), nodes[k].CachedHeight();
    var before := nodes[k].calls;
    nodes[k].SyncBlocks(head, fetch);
    NewlyReceived(before, callbacks, PollEvents(cached, head, fetch), c);
    DeliverAll(w, endpoint, Received(nodes[k].calls[|before|..], c));
    PollFollows(webhooks, sys, w.trackedValidators, k, head, fetch);
  }

  /** One pushed block of node k, fanned out to the watcher, is one push of the machine. */
  method PushToNode(ghost sys: System, ghost webhooks: seq<BlockWebhook>, nodes: seq<Node>, k: nat, w: BlockWatcher,
                    c: Callback, endpoint: string, block: Block, synced: bool)
    requires k < |nodes| && Separate(nodes) && Subscribed(nodes, c) && Represents(sys, webhooks, nodes, w)
    modifies nodes[k], w
    ensures Subscribed(nodes, c)
    ensures Represents(Apply(sys, w.trackedValidators, Step(k, Push(block, synced))), webhooks, nodes, w)
  {
    ghost var callbacks := nodes[k].Callbacks(NewBlock);
    var before := nodes[k].calls;
    nodes[k].OnWebsocketBlock(block, synced);
    NewlyReceived(before, callbacks, [NodeEvent(block, synced)], c);
    DeliverAll(w, endpoint, Received(nodes[k].calls[|before|..], c));
    PushFollows(webhooks, sys, w.trackedValidators, k, block, synced);
  }

  function FirstOf(head: BlockResponse): Option<Block> {
    if head.GotBlock? then Some(head.block) else None
  }

  /** A start that got its validator set is a refresh of the set and then a first block, if one came. */
  method StartNode(ghost sys: System, ghost webhooks: seq<BlockWebhook>, nodes: seq<Node>, k: nat, w: BlockWatcher,
                   endpoint: string, server: nat -> PageResponse, head: BlockResponse)
    returns (ok: bool)
    requires k < |nodes| && Represents(sys, webhooks, nodes, w)
    modifies w
    ensures !ok ==> Represents(sys, webhooks, nodes, w)
    ensures ok ==>
              var refreshed := Apply(sys, w.trackedValidators, Step(k, ValidatorSet(w.validatorSet)));
              Represents(Apply(refreshed, w.trackedValidators, Step(k, FirstBlock(FirstOf(head)))), webhooks, nodes, w)
  {
    var calls;
    ok, calls := w.OnNodeStart(endpoint, server, head);
    if ok {
      RefreshMoves(sys, w.trackedValidators, w.validatorSet, k);
      FirstMoves(webhooks, Apply(sys, w.trackedValidators, Step(k, ValidatorSet(w.validatorSet))),
                 w.trackedValidators, k, FirstOf(head));
    }
  }

  /** A refresh of the validator set moves no node and delivers nothing. */
  lemma RefreshMoves(sys: System, tracked: seq<TrackedValidator>, vals: seq<string>, n: nat)
    ensures var refreshed := Apply(sys, tracked, Step(n, ValidatorSet(vals)));
            && (forall m: nat :: NodeAt(refreshed, m) == NodeAt(sys, m))
            && refreshed.validatorSet == vals && refreshed.log == sys.log
  {
    assert sys.log + [] == sys.log;
  }

  lemma FirstMoves(webhooks: seq<BlockWebhook>, sys: System, tracked: seq<TrackedValidator>, n: nat,
                   first: Option<Block>)
    requires NodeAt(sys, n).poll.None?
    ensures var now, l := Apply(sys, tracked, Step(n, FirstBlock(first))), Run(Initial(webhooks), sys.log);
            && (forall m: nat :: NodeAt(now, m) == NodeAt(sys, m)) && now.validatorSet == sys.validatorSet
            && Run(Initial(webhooks), now.log) ==
               if first.Some? then Handle(l, Observe(first.value, tracked, sys.validatorSet)) else l
  {
    assert sys.log + [] == sys.log;
    if first.Some? { RunSnoc(Initial(webhooks), sys.log, Observe(first.value, tracked, sys.validatorSet)); }
  }
}
