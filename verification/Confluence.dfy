/** Several nodes feed one watcher; the order in which their blocks interleave does not matter. */
module Confluence {
  import opened Seqs
  import opened BlockTypes
  import opened BlockLedger
  import opened HeightLedger

  /** One block digest received on the channel, and the node it came from. */
  datatype Delivery = Delivery(node: nat, info: BlockInfo)

  function Infos(ds: seq<Delivery>): (r: seq<BlockInfo>)
    ensures |r| == |ds| && forall i :: 0 <= i < |ds| ==> r[i] == ds[i].info
  {
    seq(|ds|, i requires 0 <= i < |ds| => ds[i].info)
  }

  /** What one node contributed, in order. */
  function Stream(ds: seq<Delivery>, n: nat): seq<BlockInfo> {
    if |ds| == 0 then []
    else Stream(ds[..|ds| - 1], n) + (if ds[|ds| - 1].node == n then [ds[|ds| - 1].info] else [])
  }

  predicate Contiguous(a: seq<BlockInfo>) {
    forall i, j :: 0 <= i < |a| && 0 <= j < |a| && j == i + 1 ==> a[j].height == a[i].height + 1
  }

  /** Blocks of the chain at the heights lo to hi, each once. */
  function InOrder(chain: int -> BlockInfo, lo: int, hi: int): seq<BlockInfo>
    requires lo <= hi + 1
  {
    seq(hi - lo + 1, i => chain(lo + i))
  }

  ghost predicate Agreed(log: seq<BlockInfo>, chain: int -> BlockInfo) {
    forall i :: 0 <= i < |log| ==> log[i] == chain(log[i].height)
  }

  /** No delivery is more than one height above everything accepted before it. */
  predicate NoJumps(log: seq<BlockInfo>) {
    forall i :: 0 < i < |log| ==> log[i].height <= Top(Accepted(log[..i])).height + 1
  }

  lemma NoJumpsPrefix(log: seq<BlockInfo>)
    requires NoJumps(log) && |log| > 0
    ensures NoJumps(log[..|log| - 1])
  {
    var init := log[..|log| - 1];
    forall i | 0 < i < |init| ensures init[i].height <= Top(Accepted(init[..i])).height + 1 {
      assert init[..i] == log[..i];
    }
  }

  lemma StepContiguous(init: seq<BlockInfo>, b: BlockInfo)
    requires |Accepted(init)| > 0 && Contiguous(Accepted(init))
    requires b.height <= Top(Accepted(init)).height + 1
    ensures |Accepted(init + [b])| > 0 && Accepted(init + [b])[0] == Accepted(init)[0]
    ensures Contiguous(Accepted(init + [b]))
  {
    RecordBeatsTop(init, b);
  }

  lemma FirstAccepted(b: BlockInfo)
    requires b.height > 0
    ensures Accepted([b]) == [b]
  {
    RecordBeatsTop([], b);
    assert [] + [b] == [b];
  }

  lemma {:induction false} NoJumpsAccepted(log: seq<BlockInfo>)
    requires NoJumps(log) && |log| > 0 && log[0].height > 0
    ensures |Accepted(log)| > 0 && Accepted(log)[0] == log[0] && Contiguous(Accepted(log))
  {
    var init, b := log[..|log| - 1], log[|log| - 1];
    if |init| == 0 {
      assert log == [b];
      FirstAccepted(b);
    } else {
      assert log == init + [b] && init[0] == log[0];
      NoJumpsPrefix(log);
      NoJumpsAccepted(init);
      StepContiguous(init, b);
    }
  }

  lemma {:induction false} AscendingAccepted(a: seq<BlockInfo>)
    requires Ascending(a)
    ensures Accepted(a) == a
  {
    if |a| > 0 {
      AscendingPrefix(a);
      AscendingAccepted(a[..|a| - 1]);
      AboveAccepted(a[..|a| - 1], a[|a| - 1]);
      assert a == a[..|a| - 1] + [a[|a| - 1]];
    }
  }

  lemma AboveAccepted(init: seq<BlockInfo>, b: BlockInfo)
    requires Accepted(init) == init && AllBelow(init, b.height) && b.height > 0
    ensures Accepted(init + [b]) == init + [b]
  {
    RecordBeatsTop(init, b);
    if |init| > 0 { assert Top(init) in init; }
  }

  lemma {:induction false} ContiguousHeights(a: seq<BlockInfo>, i: nat)
    requires Contiguous(a) && i < |a|
    ensures a[i].height == a[0].height + i
  {
    if i > 0 {
      ContiguousHeights(a, i - 1);
      assert a[i - 1 + 1].height == a[i - 1].height + 1;
    }
  }

  lemma ContiguousIsInOrder(a: seq<BlockInfo>, chain: int -> BlockInfo)
    requires |a| > 0 && Contiguous(a) && Agreed(a, chain)
    ensures a[0].height <= Top(a).height && |a| == Top(a).height - a[0].height + 1
    ensures a == InOrder(chain, a[0].height, Top(a).height)
  {
    ContiguousHeights(a, |a| - 1);
    forall i | 0 <= i < |a| ensures a[i] == chain(a[0].height + i) {
      ContiguousHeights(a, i);
    }
  }

  lemma AcceptedAgreed(log: seq<BlockInfo>, chain: int -> BlockInfo)
    requires Agreed(log, chain)
    ensures Agreed(Accepted(log), chain)
  {
    AcceptedTop(log);
    forall i | 0 <= i < |Accepted(log)| ensures Accepted(log)[i] == chain(Accepted(log)[i].height) {
      assert Accepted(log)[i] in log;
    }
  }

  /** A run that accepted consecutive heights is the plain pass over what it accepted. */
  lemma ContiguousRun(webhooks: seq<BlockWebhook>, log: seq<BlockInfo>)
    requires |Accepted(log)| > 0 && Contiguous(Accepted(log))
    ensures Run(Initial(webhooks), log) == Run(Initial(webhooks), Accepted(log))
    ensures Run(Initial(webhooks), log).skippedBlocks == 0
  {
    var a := Accepted(log);
    AcceptedTop(log);
    AscendingAccepted(a);
    RunReplaysRecords(webhooks, log);
    RunReplaysRecords(webhooks, a);
    GapsZero(a);
    HeightConservation(webhooks, log);
    ContiguousHeights(a, |a| - 1);
  }

  /** Without jumps the run is the one in-order pass over the chain, and nothing is skipped. */
  lemma InOrderPass(webhooks: seq<BlockWebhook>, log: seq<BlockInfo>, chain: int -> BlockInfo)
    requires NoJumps(log) && |log| > 0 && log[0].height > 0 && Agreed(log, chain)
    ensures var hi := Top(Accepted(log)).height;
            && log[0].height <= hi
            && Run(Initial(webhooks), log) == Run(Initial(webhooks), InOrder(chain, log[0].height, hi))
            && Run(Initial(webhooks), log).skippedBlocks == 0
  {
    NoJumpsAccepted(log);
    AcceptedAgreed(log, chain);
    ContiguousIsInOrder(Accepted(log), chain);
    ContiguousRun(webhooks, log);
  }

  /** Each node delivers consecutive heights, from at or below the first height anyone delivered. */
  ghost predicate Streams(ds: seq<Delivery>) {
    forall n: nat ::
      Contiguous(Stream(ds, n)) && (|Stream(ds, n)| > 0 ==> Stream(ds, n)[0].height <= ds[0].info.height)
  }

  lemma {:induction false} StreamPrefix(ds: seq<Delivery>, k: nat, n: nat)
    requires k <= |ds|
    ensures Stream(ds[..k], n) <= Stream(ds, n)
    decreases |ds|
  {
    if k < |ds| {
      StreamPrefix(ds[..|ds| - 1], k, n);
      assert ds[..|ds| - 1][..k] == ds[..k];
    } else {
      assert ds[..k] == ds;
    }
  }

  lemma {:induction false} StreamMember(ds: seq<Delivery>, n: nat, b: BlockInfo)
    ensures b in Stream(ds, n) <==> Delivery(n, b) in ds
  {
    if |ds| > 0 {
      StreamMember(ds[..|ds| - 1], n, b);
      assert ds == ds[..|ds| - 1] + [ds[|ds| - 1]];
    }
  }

  /** A delivery continues its own node's stream, so it is at most one above the running maximum. */
  lemma StreamStep(ds: seq<Delivery>, k: nat)
    requires Streams(ds) && 0 < k < |ds|
    ensures ds[k].info.height <= Top(Accepted(Infos(ds)[..k])).height + 1
  {
    var n, b := ds[k].node, ds[k].info;
    var before, upTo, all := Stream(ds[..k], n), Stream(ds[..k + 1], n), Stream(ds, n);
    assert ds[..k + 1][..k] == ds[..k];
    assert upTo == before + [b];
    StreamPrefix(ds, k + 1, n);
    assert upTo <= all && Contiguous(all);
    var log := Infos(ds)[..k];
    AcceptedTop(log);
    if |before| > 0 {
      var p := before[|before| - 1];
      assert all[|before| - 1] == p && all[|before| - 1 + 1] == b;
      StreamMember(ds[..k], n, p);
      var i :| 0 <= i < k && ds[i] == Delivery(n, p);
      assert log[i] == p;
    } else {
      assert all[0] == b;
      assert log[0] == ds[0].info;
    }
  }

  /** Every interleaving of such streams leaves the watcher where one in-order pass would. */
  lemma MultiNodeConfluence(webhooks: seq<BlockWebhook>, ds: seq<Delivery>, chain: int -> BlockInfo)
    returns (hi: int)
    requires |ds| > 0 && ds[0].info.height > 0 && Streams(ds) && Agreed(Infos(ds), chain)
    ensures forall i :: 0 <= i < |ds| ==> ds[i].info.height <= hi
    ensures exists i :: 0 <= i < |ds| && ds[i].info.height == hi
    ensures ds[0].info.height <= hi
    ensures Run(Initial(webhooks), Infos(ds)) ==
            Run(Initial(webhooks), InOrder(chain, ds[0].info.height, hi))
    ensures Run(Initial(webhooks), Infos(ds)).skippedBlocks == 0
  {
    var log := Infos(ds);
    forall k | 0 < k < |log| ensures log[k].height <= Top(Accepted(log[..k])).height + 1 {
      StreamStep(ds, k);
    }
    InOrderPass(webhooks, log, chain);
    AcceptedTop(log);
    hi := Top(Accepted(log)).height;
    NoJumpsAccepted(log);
    assert Top(Accepted(log)) in log;
    var i :| 0 <= i < |log| && log[i] == Top(Accepted(log));
    assert ds[i].info.height == hi;
    forall j | 0 <= j < |ds| ensures ds[j].info.height <= hi { assert log[j] == ds[j].info; }
  }

  lemma SameStreamsSameMembers(ds: seq<Delivery>, es: seq<Delivery>, i: nat) returns (j: nat)
    requires forall n: nat :: Stream(ds, n) == Stream(es, n)
    requires i < |ds|
    ensures j < |es| && es[j] == ds[i]
  {
    StreamMember(ds, ds[i].node, ds[i].info);
    assert Delivery(ds[i].node, ds[i].info) == ds[i];
    StreamMember(es, ds[i].node, ds[i].info);
    j :| 0 <= j < |es| && es[j] == ds[i];
  }

  lemma FirstIsHighestStart(ds: seq<Delivery>, es: seq<Delivery>)
    requires |ds| > 0 && |es| > 0 && Streams(es)
    requires forall n: nat :: Stream(ds, n) == Stream(es, n)
    ensures ds[0].info.height <= es[0].info.height
  {
    var n := ds[0].node;
    assert ds[..1][..0] == [];
    assert Stream(ds[..1], n) == [ds[0].info];
    StreamPrefix(ds, 1, n);
    assert Stream(es, n)[0] == ds[0].info;
  }

  /** Two interleavings of the same streams end in the same ledger. */
  lemma InterleavingsAgree(webhooks: seq<BlockWebhook>, ds: seq<Delivery>, es: seq<Delivery>, chain: int -> BlockInfo)
    requires |ds| > 0 && ds[0].info.height > 0 && Streams(ds) && Agreed(Infos(ds), chain)
    requires |es| > 0 && Streams(es)
    requires forall n: nat :: Stream(ds, n) == Stream(es, n)
    ensures Run(Initial(webhooks), Infos(ds)) == Run(Initial(webhooks), Infos(es))
  {
    FirstIsHighestStart(ds, es);
    FirstIsHighestStart(es, ds);
    forall i | 0 <= i < |es| ensures Infos(es)[i] == chain(Infos(es)[i].height) {
      var j := SameStreamsSameMembers(es, ds, i);
      assert Infos(ds)[j] == Infos(es)[i];
    }
    var hi := MultiNodeConfluence(webhooks, ds, chain);
    var hi' := MultiNodeConfluence(webhooks, es, chain);
    HighestOnce(ds, es, hi, hi');
    HighestOnce(es, ds, hi', hi);
  }

  lemma HighestOnce(ds: seq<Delivery>, es: seq<Delivery>, hi: int, hi': int)
    requires forall n: nat :: Stream(ds, n) == Stream(es, n)
    requires exists i :: 0 <= i < |ds| && ds[i].info.height == hi
    requires forall i :: 0 <= i < |es| ==> es[i].info.height <= hi'
    ensures hi <= hi'
  {
    var i :| 0 <= i < |ds| && ds[i].info.height == hi;
    var j := SameStreamsSameMembers(ds, es, i);
  }
}
