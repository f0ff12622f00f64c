/** One RPC node: its cache of the latest block, the catch-up poll, and the fan-out to callbacks. */
module RpcNodes {
  import opened Seqs
  import opened BlockTypes

  /** A fetched block, or an error or empty answer. `synced` is what the node says of itself at delivery. */
  datatype Fetch = Failed | Fetched(block: Block, synced: bool)

  datatype EventType = NewBlock | ValidatorSetUpdates

  datatype NodeEvent = NodeEvent(block: Block, synced: bool)

  type Callback = nat

  datatype Call = Call(callback: Callback, event: NodeEvent)

  const WINDOW := 20

  /** The height after which a poll starts fetching. */
  function PollFrom(cached: int, head: int): int {
    if head - cached > WINDOW then head - WINDOW else cached
  }

  /** What one fetch announces: the block, or nothing when it failed. */
  function Announced(f: Fetch): seq<NodeEvent> {
    match f
    case Failed => []
    case Fetched(b, s) => [NodeEvent(b, s)]
  }

  /** The blocks fetched at the heights above lo and below hi; failures leave holes. */
  function FetchBetween(lo: int, hi: int, fetch: int -> Fetch): seq<NodeEvent>
    decreases hi - lo
  {
    if hi <= lo + 1 then []
    else FetchBetween(lo, hi - 1, fetch) + Announced(fetch(hi - 1))
  }

  /** Every NewBlock event of one poll, in order. */
  function PollEvents(cached: int, head: Fetch, fetch: int -> Fetch): seq<NodeEvent> {
    if head.Failed? then []
    else FetchBetween(PollFrom(cached, head.block.height), head.block.height, fetch) + Announced(head)
  }

  function CallAll(callbacks: seq<Callback>, e: NodeEvent): seq<Call> {
    if |callbacks| == 0 then []
    else CallAll(callbacks[..|callbacks| - 1], e) + [Call(callbacks[|callbacks| - 1], e)]
  }

  /** Each event in turn goes to every callback in registration order. */
  function FanOut(callbacks: seq<Callback>, events: seq<NodeEvent>): seq<Call> {
    if |events| == 0 then []
    else FanOut(callbacks, events[..|events| - 1]) + CallAll(callbacks, events[|events| - 1])
  }

  /** The events one callback saw, in order. */
  function Received(calls: seq<Call>, c: Callback): seq<NodeEvent> {
    if |calls| == 0 then []
    else Received(calls[..|calls| - 1], c)
         + (if calls[|calls| - 1].callback == c then [calls[|calls| - 1].event] else [])
  }

  // ---- What a poll announces ----

  /** The heights strictly between lo and hi at which the node was given a block, in rising order. */
  ghost predicate Answered(hs: seq<int>, lo: int, hi: int, fetch: int -> Fetch) {
    && (forall i, j :: 0 <= i < j < |hs| ==> hs[i] < hs[j])
    && (forall h :: h in hs <==> lo < h < hi && fetch(h).Fetched?)
  }

  /** The events carry the blocks answered at these heights, one each, in order. */
  predicate Carry(events: seq<NodeEvent>, hs: seq<int>, fetch: int -> Fetch) {
    && |events| == |hs|
    && forall i :: 0 <= i < |hs| ==>
         fetch(hs[i]).Fetched? && events[i] == NodeEvent(fetch(hs[i]).block, fetch(hs[i]).synced)
  }

  lemma AnsweredSnoc(hs: seq<int>, lo: int, hi: int, fetch: int -> Fetch)
    requires Answered(hs, lo, hi, fetch) && lo < hi && fetch(hi).Fetched?
    ensures Answered(hs + [hi], lo, hi + 1, fetch)
  {
    assert forall h :: h in hs + [hi] <==> h in hs || h == hi;
    forall i | 0 <= i < |hs| ensures hs[i] < hi { assert hs[i] in hs; }
  }

  lemma CarrySnoc(events: seq<NodeEvent>, hs: seq<int>, hi: int, fetch: int -> Fetch)
    requires Carry(events, hs, fetch) && fetch(hi).Fetched?
    ensures Carry(events + Announced(fetch(hi)), hs + [hi], fetch)
  {
  }

  lemma {:induction false} BetweenMeaning(lo: int, hi: int, fetch: int -> Fetch) returns (hs: seq<int>)
    ensures Answered(hs, lo, hi, fetch) && Carry(FetchBetween(lo, hi, fetch), hs, fetch)
    decreases hi - lo
  {
    hs := [];
    if hi > lo + 1 {
      hs := BetweenMeaning(lo, hi - 1, fetch);
      if fetch(hi - 1).Fetched? {
        AnsweredSnoc(hs, lo, hi - 1, fetch);
        CarrySnoc(FetchBetween(lo, hi - 1, fetch), hs, hi - 1, fetch);
        hs := hs + [hi - 1];
      }
    }
  }

  /**
   * A poll announces, in order, the block answered at every height above the cache, above twenty back from
   * the head and below the head, and then the head itself, whatever failed.
   */
  lemma PollMeaning(cached: int, head: Fetch, fetch: int -> Fetch) returns (hs: seq<int>)
    requires head.Fetched?
    ensures var cur, events := head.block.height, PollEvents(cached, head, fetch);
            && Answered(hs, if cached > cur - 20 then cached else cur - 20, cur, fetch)
            && |events| == |hs| + 1 && Carry(events[..|hs|], hs, fetch)
            && events[|hs|] == NodeEvent(head.block, head.synced)
  {
    hs := BetweenMeaning(if cached > head.block.height - 20 then cached else head.block.height - 20,
                         head.block.height, fetch);
  }

  /** With every answer as asked: exactly the heights max(cached, head - 20) + 1, and so on up to the head. */
  lemma ServedPollMeaning(cached: int, head: Fetch, fetch: int -> Fetch)
    requires head.Fetched?
    requires forall h :: cached < h < head.block.height && head.block.height - 20 < h ==>
                           fetch(h).Fetched? && fetch(h).block.height == h
    ensures var cur, events := head.block.height, PollEvents(cached, head, fetch);
            var start := if cached > cur - 20 then cached else cur - 20;
            && |events| == (if start < cur then cur - start else 1)
            && (forall i :: 0 <= i < |events| - 1 ==> events[i].block.height == start + 1 + i)
            && events[|events| - 1].block == head.block
  {
    var cur := head.block.height;
    var start := if cached > cur - 20 then cached else cur - 20;
    var hs := PollMeaning(cached, head, fetch);
    RisingRun(hs, start, cur);
    forall i | 0 <= i < |hs| ensures PollEvents(cached, head, fetch)[i].block.height == start + 1 + i {
      assert PollEvents(cached, head, fetch)[..|hs|][i] == PollEvents(cached, head, fetch)[i];
      assert hs[i] in hs;
    }
  }

  /** Rising heights that are all of those between lo and hi are consecutive. */
  lemma {:induction false} RisingRun(hs: seq<int>, lo: int, hi: int)
    requires forall i, j :: 0 <= i < j < |hs| ==> hs[i] < hs[j]
    requires forall h :: h in hs <==> lo < h < hi
    ensures |hs| == if lo + 1 < hi then hi - lo - 1 else 0
    ensures forall i :: 0 <= i < |hs| ==> hs[i] == lo + 1 + i
    decreases |hs|
  {
    if |hs| == 0 {
      assert lo + 1 !in hs;
    } else {
      var init := hs[..|hs| - 1];
      assert hs[|hs| - 1] in hs && hi - 1 in hs;
      var k :| 0 <= k < |hs| && hs[k] == hi - 1;
      assert k == |hs| - 1;
      forall h | h in init ensures lo < h < hi - 1 {
        var i :| 0 <= i < |init| && init[i] == h;
        assert hs[i] == h && hs[i] < hs[k] && h in hs;
      }
      forall h | lo < h < hi - 1 ensures h in init {
        assert h in hs;
        var i :| 0 <= i < |hs| && hs[i] == h;
        assert i != k && init[i] == h;
      }
      RisingRun(init, lo, hi - 1);
    }
  }

  class Node {
    var latestBlock: Option<Block>
    var onEvent: map<EventType, seq<Callback>>
    /** The calls made to the callbacks so far, in order. */
    var calls: seq<Call>

    ghost function CachedHeight(): int
      reads this
    {
      if latestBlock.Some? then latestBlock.value.height else 0
    }

    function Callbacks(t: EventType): seq<Callback>
      reads this
    {
      if t in onEvent then onEvent[t] else []
    }

    constructor ()
      ensures latestBlock == None && calls == [] && forall t :: Callbacks(t) == []
    {
      latestBlock := None;
      onEvent := map[];
      calls := [];
    }

    method OnEvent(t: EventType, callback: Callback)
      modifies this`onEvent
      ensures onEvent == old(onEvent)[t := old(Callbacks(t)) + [callback]]
    {
      onEvent := onEvent[t := Callbacks(t) + [callback]];
    }

    method HandleEvent(t: EventType, e: NodeEvent)
      modifies this`calls
      ensures calls == old(calls) + CallAll(Callbacks(t), e)
    {
      var callbacks := Callbacks(t);
      for i := 0 to |callbacks|
        invariant calls == old(calls) + CallAll(callbacks[..i], e)
      {
        assert callbacks[..i + 1][..i] == callbacks[..i];
        calls := calls + [Call(callbacks[i], e)];
      }
      assert callbacks[..|callbacks|] == callbacks;
    }

    method SaveLatestBlock(block: Block)
      modifies this`latestBlock
      ensures latestBlock == Some(block)
    {
      latestBlock := Some(block);
    }

    /** A block pushed by the websocket is cached first, then announced. */
    method OnWebsocketBlock(block: Block, synced: bool)
      modifies this`latestBlock, this`calls
      ensures latestBlock == Some(block)
      ensures calls == old(calls) + FanOut(Callbacks(NewBlock), [NodeEvent(block, synced)])
    {
      SaveLatestBlock(block);
      HandleEvent(NewBlock, NodeEvent(block, synced));
      FanOutOne(Callbacks(NewBlock), NodeEvent(block, synced));
    }

    method SyncBlocks(head: Fetch, fetch: int -> Fetch)
      modifies this`latestBlock, this`calls
      ensures calls == old(calls) + FanOut(Callbacks(NewBlock), PollEvents(old(CachedHeight()), head, fetch))
      ensures latestBlock == if head.Failed? then old(latestBlock) else Some(head.block)
    {
      if head.Failed? {
        return;
      }
      var currentBlock := head.block;
      var latestBlockHeight := 0;
      if latestBlock.Some? {
        latestBlockHeight := latestBlock.value.height;
      }
      if currentBlock.height - latestBlockHeight > 20 {
        latestBlockHeight := currentBlock.height - 20;
      }
      assert latestBlockHeight == PollFrom(old(CachedHeight()), currentBlock.height);
      FetchAndAnnounce(latestBlockHeight, head, fetch);
      SaveLatestBlock(currentBlock);
    }

    method FetchAndAnnounce(from: int, head: Fetch, fetch: int -> Fetch)
      requires head.Fetched?
      modifies this`calls
      ensures calls == old(calls) +
                       FanOut(Callbacks(NewBlock), FetchBetween(from, head.block.height, fetch) + Announced(head))
    {
      FetchSkipped(from, head.block.height, fetch);
      Announce(head);
      FanOutConcat(Callbacks(NewBlock), FetchBetween(from, head.block.height, fetch), Announced(head));
      ConcatAssociative(old(calls), FanOut(Callbacks(NewBlock), FetchBetween(from, head.block.height, fetch)),
                        FanOut(Callbacks(NewBlock), Announced(head)));
    }

    /** The loop of the poll; a failed height is given up for good. */
    method FetchSkipped(lo: int, hi: int, fetch: int -> Fetch)
      modifies this`calls
      ensures calls == old(calls) + FanOut(Callbacks(NewBlock), FetchBetween(lo, hi, fetch))
    {
      var height := lo + 1;
      while height < hi
        invariant lo < height && (height <= hi || height == lo + 1)
        invariant calls == old(calls) + FanOut(Callbacks(NewBlock), FetchBetween(lo, height, fetch))
      {
        Announce(fetch(height));
        FanOutConcat(Callbacks(NewBlock), FetchBetween(lo, height, fetch), Announced(fetch(height)));
        ConcatAssociative(old(calls), FanOut(Callbacks(NewBlock), FetchBetween(lo, height, fetch)),
                          FanOut(Callbacks(NewBlock), Announced(fetch(height))));
        height := height + 1;
      }
      assert FetchBetween(lo, height, fetch) == FetchBetween(lo, hi, fetch);
    }

    method Announce(response: Fetch)
      modifies this`calls
      ensures calls == old(calls) + FanOut(Callbacks(NewBlock), Announced(response))
    {
      if response.Fetched? {
        var event := NodeEvent(response.block, response.synced);
        HandleEvent(NewBlock, event);
        FanOutOne(Callbacks(NewBlock), event);
      }
    }
  }

  lemma FanOutOne(callbacks: seq<Callback>, e: NodeEvent)
    ensures FanOut(callbacks, [e]) == CallAll(callbacks, e)
  {
    assert [e][..0] == [];
    assert FanOut(callbacks, []) == [];
  }

  lemma {:induction false} CallAllAt(callbacks: seq<Callback>, e: NodeEvent, j: nat)
    requires j < |callbacks|
    ensures |CallAll(callbacks, e)| == |callbacks| && CallAll(callbacks, e)[j] == Call(callbacks[j], e)
    decreases |callbacks|
  {
    var init := callbacks[..|callbacks| - 1];
    if |init| > 0 { CallAllAt(init, e, if j < |init| then j else 0); }
  }

  /** Event by event, and for each event in registration order: the j-th callback of the i-th event. */
  lemma {:induction false} FanOutAt(callbacks: seq<Callback>, events: seq<NodeEvent>, i: nat, j: nat)
    requires i < |events| && j < |callbacks|
    ensures |FanOut(callbacks, events)| == |events| * |callbacks|
    ensures i * |callbacks| + j < |events| * |callbacks|
    ensures FanOut(callbacks, events)[i * |callbacks| + j] == Call(callbacks[j], events[i])
    decreases |events|
  {
    var init, n := events[..|events| - 1], |callbacks|;
    CallAllAt(callbacks, events[|init|], j);
    assert |events| * n == |init| * n + n;
    if |init| > 0 {
      FanOutAt(callbacks, init, if i < |init| then i else 0, j);
    } else {
      assert FanOut(callbacks, init) == [];
    }
    if i == |init| { assert i * n == |init| * n; }
  }

  lemma {:induction false} FanOutConcat(callbacks: seq<Callback>, a: seq<NodeEvent>, b: seq<NodeEvent>)
    ensures FanOut(callbacks, a + b) == FanOut(callbacks, a) + FanOut(callbacks, b)
  {
    if |b| == 0 {
      assert a + b == a;
    } else {
      var init, e := b[..|b| - 1], b[|b| - 1];
      FanOutConcat(callbacks, a, init);
      assert (a + b)[..|a + b| - 1] == a + init;
      assert FanOut(callbacks, a + b) == FanOut(callbacks, a + init) + CallAll(callbacks, e);
      ConcatAssociative(FanOut(callbacks, a), FanOut(callbacks, init), CallAll(callbacks, e));
    }
  }

  lemma {:induction false} ReceivedConcat(a: seq<Call>, b: seq<Call>, c: Callback)
    ensures Received(a + b, c) == Received(a, c) + Received(b, c)
  {
    if |b| == 0 {
      assert a + b == a;
    } else {
      assert (a + b)[..|a + b| - 1] == a + b[..|b| - 1];
      ReceivedConcat(a, b[..|b| - 1], c);
    }
  }

  function Is(c: Callback): Callback -> bool {
    (x: Callback) => x == c
  }

  lemma {:induction false} CallAllReceived(callbacks: seq<Callback>, e: NodeEvent, c: Callback)
    ensures Received(CallAll(callbacks, e), c) == seq(CountIf(callbacks, Is(c)), _ => e)
  {
    if |callbacks| > 0 {
      var init := callbacks[..|callbacks| - 1];
      CallAllReceived(init, e, c);
      ReceivedConcat(CallAll(init, e), [Call(callbacks[|callbacks| - 1], e)], c);
    }
  }

  /** A callback registered once sees exactly the events of the node, whatever else is registered. */
  lemma {:induction false} FanOutReachesEachOnce(callbacks: seq<Callback>, events: seq<NodeEvent>, c: Callback)
    requires CountIf(callbacks, Is(c)) == 1
    ensures Received(FanOut(callbacks, events), c) == events
  {
    if |events| > 0 {
      var init, e := events[..|events| - 1], events[|events| - 1];
      FanOutReachesEachOnce(callbacks, init, c);
      assert FanOut(callbacks, events) == FanOut(callbacks, init) + CallAll(callbacks, e);
      ReceivedConcat(FanOut(callbacks, init), CallAll(callbacks, e), c);
      CallOnce(callbacks, e, c);
      assert events == init + [e];
    }
  }

  lemma CallOnce(callbacks: seq<Callback>, e: NodeEvent, c: Callback)
    requires CountIf(callbacks, Is(c)) == 1
    ensures Received(CallAll(callbacks, e), c) == [e]
  {
    CallAllReceived(callbacks, e, c);
  }

  class Pool {
    var nodes: seq<Node>

    constructor (nodes: seq<Node>)
      ensures this.nodes == nodes
    {
      this.nodes := nodes;
    }

    /** The loop over the nodes. */
    method Append(t: EventType, callback: Callback)
      modifies nodes
      ensures forall n :: n in nodes ==>
                n.onEvent == Registered(old(n.onEvent), t, callback, Listed(nodes, n, |nodes|))
      ensures forall n :: n in nodes ==> n.latestBlock == old(n.latestBlock) && n.calls == old(n.calls)
    {
      for k := 0 to |nodes|
        invariant forall n :: n in nodes ==> n.onEvent == Registered(old(n.onEvent), t, callback, Listed(nodes, n, k))
        invariant forall n :: n in nodes ==> n.latestBlock == old(n.latestBlock) && n.calls == old(n.calls)
      {
        nodes[k].OnEvent(t, callback);
      }
    }

    /** Registering on the pool registers on every node, once for each time the pool lists the node. */
    method OnNodeEvent(t: EventType, callback: Callback)
      modifies nodes
      ensures forall n :: n in nodes ==>
                n.Callbacks(t) == old(n.Callbacks(t)) + Copies(callback, Listed(nodes, n, |nodes|))
      ensures forall n, u :: n in nodes && u != t ==> n.Callbacks(u) == old(n.Callbacks(u))
      ensures forall n :: n in nodes ==> n.latestBlock == old(n.latestBlock) && n.calls == old(n.calls)
    {
      Append(t, callback);
      forall n | n in nodes
        ensures n.Callbacks(t) == old(n.Callbacks(t)) + Copies(callback, Listed(nodes, n, |nodes|))
        ensures forall u :: u != t ==> n.Callbacks(u) == old(n.Callbacks(u))
      {
        RegisteredCallbacks(old(n.onEvent), t, callback, Listed(nodes, n, |nodes|));
      }
    }
  }

  /** The callback lists after registering a callback so many times. */
  function Registered(lists: map<EventType, seq<Callback>>, t: EventType, callback: Callback, times: nat)
    : map<EventType, seq<Callback>>
  {
    if times == 0 then lists
    else
      var before := Registered(lists, t, callback, times - 1);
      before[t := (if t in before then before[t] else []) + [callback]]
  }

  lemma {:induction false} RegisteredCallbacks(lists: map<EventType, seq<Callback>>, t: EventType,
                                               callback: Callback, times: nat)
    ensures var after := Registered(lists, t, callback, times);
            && (if t in after then after[t] else []) == (if t in lists then lists[t] else []) + Copies(callback, times)
            && forall u :: u != t ==> (u in after <==> u in lists) && (u in lists ==> after[u] == lists[u])
  {
    var start := if t in lists then lists[t] else [];
    if times > 0 {
      RegisteredCallbacks(lists, t, callback, times - 1);
      CopiesSnoc(start, callback, times - 1);
    } else {
      assert start + Copies(callback, 0) == start;
    }
  }

  /** How often n stands among the first k nodes. */
  function Listed(nodes: seq<Node>, n: Node, k: nat): nat
    requires k <= |nodes|
  {
    if k == 0 then 0 else Listed(nodes, n, k - 1) + (if nodes[k - 1] == n then 1 else 0)
  }

  function Copies(callback: Callback, times: nat): seq<Callback> {
    seq(times, _ => callback)
  }

  lemma CopiesSnoc(before: seq<Callback>, callback: Callback, times: nat)
    ensures before + Copies(callback, times) + [callback] == before + Copies(callback, times + 1)
  {
  }
}
