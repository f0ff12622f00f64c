/** The Babylon watcher: finality and checkpoint votes read out of nested transactions. */
module Babylon {
  import opened Seqs
  import opened BlockTypes
  import opened Records
  import opened VoteLedgers

  type Interval = n: int | n > 0 witness 360

  const DEFAULT_INTERVAL: Interval := 360

  // ---- Scanning the transactions of a block ----

  /** The messages of the decodable transactions, in order. */
  function Flatten(txs: seq<Tx>): seq<Message> {
    if |txs| == 0 then []
    else Flatten(txs[..|txs| - 1]) + MessagesOf(txs[|txs| - 1])
  }

  function MessagesOf(tx: Tx): seq<Message> {
    if tx.Tx? then tx.messages else []
  }

  predicate IsFinalitySig(m: Message) { m.AddFinalitySig? }
  predicate IsCheckpoint(m: Message) { m.InjectedCheckpoint? }
  predicate IsBrokenSig(m: Message) { m.AddFinalitySig? && !m.decodes }

  /** All the finality signatures of a block, or none of them when one does not decode. */
  function FinalitySigs(txs: seq<Tx>): seq<Message> {
    var ms := Flatten(txs);
    if FirstIndex(ms, IsBrokenSig) < |ms| then [] else Filter(ms, IsFinalitySig)
  }

  /** The first injected checkpoint of a block, when it decodes. */
  function Checkpoint(txs: seq<Tx>): Option<Message> {
    var ms := Flatten(txs);
    var i := FirstIndex(ms, IsCheckpoint);
    if i < |ms| && ms[i].decodes then Some(ms[i]) else None
  }

  function SignedIn(sigs: seq<Message>): string -> bool {
    (address: string) => exists m :: m in sigs && m.AddFinalitySig? && m.signer == address
  }

  /** Any extended vote with the address counts, whatever its flag. */
  function VotedIn(votes: seq<ExtendedVote>): string -> bool {
    (address: string) => exists v :: v in votes && v.validatorAddress == address
  }

  ghost predicate HasSig(ms: seq<Message>) {
    exists m :: m in ms && IsFinalitySig(m)
  }

  ghost predicate SigsDecode(ms: seq<Message>) {
    forall m :: m in ms && IsFinalitySig(m) ==> m.decodes
  }

  /** A block takes part in the finality ledger iff it holds signatures and all of them decode. */
  lemma FinalitySigsMeaning(txs: seq<Tx>)
    ensures FinalitySigs(txs) != [] <==> HasSig(Flatten(txs)) && SigsDecode(Flatten(txs))
    ensures FinalitySigs(txs) != [] ==> FinalitySigs(txs) == Filter(Flatten(txs), IsFinalitySig)
  {
    var ms := Flatten(txs);
    NoneBroken(ms);
    AnySig(ms);
    assert FinalitySigs(txs) == if SigsDecode(ms) then Filter(ms, IsFinalitySig) else [];
  }

  lemma NoneBroken(ms: seq<Message>)
    ensures FirstIndex(ms, IsBrokenSig) < |ms| <==> !SigsDecode(ms)
  {
    var i := FirstIndex(ms, IsBrokenSig);
    if i < |ms| {
      assert ms[i] in ms && IsFinalitySig(ms[i]) && !ms[i].decodes;
    } else {
      forall m | m in ms && IsFinalitySig(m) ensures m.decodes {
        var j :| 0 <= j < |ms| && ms[j] == m;
        assert !IsBrokenSig(ms[j]);
      }
    }
  }

  lemma AnySig(ms: seq<Message>)
    ensures |Filter(ms, IsFinalitySig)| > 0 <==> HasSig(ms)
  {
    var sigs := Filter(ms, IsFinalitySig);
    if |sigs| > 0 { FilterMember(ms, IsFinalitySig, sigs[0]); }
    if m :| m in ms && IsFinalitySig(m) { FilterMember(ms, IsFinalitySig, m); }
  }

  /** The checkpoint of a block is its first injected one, and none when that one does not decode. */
  lemma CheckpointMeaning(txs: seq<Tx>, m: Message)
    ensures Checkpoint(txs) == Some(m) <==> CarriesCheckpoint(Flatten(txs), m)
  {
    var ms := Flatten(txs);
    if Checkpoint(txs) == Some(m) {
      assert FirstCheckpoint(ms, FirstIndex(ms, IsCheckpoint), m);
    }
    if i :| FirstCheckpoint(ms, i, m) {
      OneFirst(ms, i, m);
    }
  }

  /** m decodes and is the first injected checkpoint of the messages. */
  ghost predicate CarriesCheckpoint(ms: seq<Message>, m: Message) {
    m.InjectedCheckpoint? && m.decodes && exists i :: FirstCheckpoint(ms, i, m)
  }

  /** The first injected checkpoint of the messages is m, at position i. */
  ghost predicate FirstCheckpoint(ms: seq<Message>, i: nat, m: Message) {
    && i < |ms| && ms[i] == m && m.InjectedCheckpoint?
    && forall j :: 0 <= j < i ==> !ms[j].InjectedCheckpoint?
  }

  lemma OneFirst(ms: seq<Message>, k: nat, m: Message)
    requires FirstCheckpoint(ms, k, m)
    ensures FirstIndex(ms, IsCheckpoint) == k
  {
    var i := FirstIndex(ms, IsCheckpoint);
    assert IsCheckpoint(ms[k]);
    assert i < k ==> IsCheckpoint(ms[i]);
  }

  // ---- Steps ----

  datatype State = State(latest: int, interval: Interval, epoch: int, finality: VoteLedger, checkpoint: VoteLedger)

  datatype Params = Params(interval: Interval, epoch: int)

  datatype Event = NewBlock(block: Block, synced: bool) | SyncParams(answer: Option<Params>)

  const FRESH := State(0, DEFAULT_INTERVAL, 0, NO_VOTES, NO_VOTES)

  function HandleFinality(s: State, providers: seq<Key>, sigs: seq<Message>): State {
    if |sigs| == 0 then s else s.(finality := Round(s.finality, providers, SignedIn(sigs)))
  }

  function HandleCheckpoint(s: State, tracked: seq<Key>, msg: Option<Message>): State {
    if msg.None? || !msg.value.InjectedCheckpoint? then s
    else s.(epoch := msg.value.epoch, checkpoint := Round(s.checkpoint, tracked, VotedIn(msg.value.votes)))
  }

  predicate OpensEpoch(height: int, interval: Interval) {
    height % interval == 1
  }

  function HandleBlock(s: State, providers: seq<Key>, tracked: seq<Key>, b: Block): State {
    if s.latest >= b.height then s
    else
      var f := HandleFinality(s.(latest := b.height), providers, FinalitySigs(b.txs));
      if OpensEpoch(b.height, s.interval) then HandleCheckpoint(f, tracked, Checkpoint(b.txs)) else f
  }

  function Apply(s: State, providers: seq<Key>, tracked: seq<Key>, e: Event): State {
    match e
    case NewBlock(b, synced) => if synced then HandleBlock(s, providers, tracked, b) else s
    case SyncParams(None) => s
    case SyncParams(Some(p)) => s.(interval := p.interval, epoch := p.epoch)
  }

  function Run(providers: seq<Key>, tracked: seq<Key>, events: seq<Event>): State {
    if |events| == 0 then FRESH
    else Apply(Run(providers, tracked, events[..|events| - 1]), providers, tracked, events[|events| - 1])
  }

  // ---- The history of a run ----

  /** An accepted block, and the epoch interval that held when it came. */
  datatype Entry = Entry(block: Block, interval: Interval)

  /** The height that an event brings to the watcher; zero when it brings no block. */
  function SyncedHeight(e: Event): int {
    if e.NewBlock? && e.synced then e.block.height else 0
  }

  function IntervalAfter(events: seq<Event>): Interval {
    if |events| == 0 then DEFAULT_INTERVAL
    else
      match events[|events| - 1]
      case SyncParams(Some(p)) => p.interval
      case _ => IntervalAfter(events[..|events| - 1])
  }

  function Accepted(events: seq<Event>): seq<Entry> {
    if |events| == 0 then []
    else
      var init := events[..|events| - 1];
      Accepted(init) +
      (if Record(events, SyncedHeight, 0, |events| - 1)
       then EntriesOf(events[|events| - 1], IntervalAfter(init)) else [])
  }

  function EntriesOf(e: Event, interval: Interval): seq<Entry> {
    if e.NewBlock? then [Entry(e.block, interval)] else []
  }

  predicate CountsFinality(e: Entry) {
    FinalitySigs(e.block.txs) != []
  }

  predicate Opens(e: Entry) {
    OpensEpoch(e.block.height, e.interval)
  }

  predicate CountsCheckpoint(e: Entry) {
    Opens(e) && Checkpoint(e.block.txs).Some?
  }

  function FinalityRounds(entries: seq<Entry>): (r: seq<string -> bool>)
    ensures |r| == CountIf(entries, CountsFinality)
  {
    if |entries| == 0 then []
    else
      var e := entries[|entries| - 1];
      FinalityRounds(entries[..|entries| - 1]) +
      (if CountsFinality(e) then [SignedIn(FinalitySigs(e.block.txs))] else [])
  }

  function CheckpointRounds(entries: seq<Entry>): (r: seq<string -> bool>)
    ensures |r| == CountIf(entries, CountsCheckpoint)
  {
    if |entries| == 0 then []
    else
      var e := entries[|entries| - 1];
      CheckpointRounds(entries[..|entries| - 1]) +
      (if CountsCheckpoint(e) then [VotedIn(VotesOf(Checkpoint(e.block.txs).value))] else [])
  }

  function VotesOf(m: Message): seq<ExtendedVote> {
    if m.InjectedCheckpoint? then m.votes else []
  }

  lemma CheckpointIsOne(txs: seq<Tx>)
    requires Checkpoint(txs).Some?
    ensures Checkpoint(txs).value.InjectedCheckpoint?
  {
  }

  lemma {:induction false} LatestIsHighest(providers: seq<Key>, tracked: seq<Key>, events: seq<Event>)
    ensures Run(providers, tracked, events).latest == Highest(events, SyncedHeight, 0)
  {
    if |events| > 0 {
      var init := events[..|events| - 1];
      LatestIsHighest(providers, tracked, init);
      HighestBounds(init, SyncedHeight, 0);
      LatestStep(Run(providers, tracked, init), providers, tracked, events[|events| - 1]);
    }
  }

  lemma LatestStep(s: State, providers: seq<Key>, tracked: seq<Key>, e: Event)
    ensures Apply(s, providers, tracked, e).latest ==
            if e.NewBlock? && e.synced && e.block.height > s.latest then e.block.height else s.latest
    ensures Apply(s, providers, tracked, e).interval ==
            if e.SyncParams? && e.answer.Some? then e.answer.value.interval else s.interval
  {
  }

  lemma RecordBeatsLatest(providers: seq<Key>, tracked: seq<Key>, events: seq<Event>)
    requires |events| > 0
    ensures var s, e := Run(providers, tracked, events[..|events| - 1]), events[|events| - 1];
            Record(events, SyncedHeight, 0, |events| - 1) <==> e.NewBlock? && e.synced && e.block.height > s.latest
  {
    LatestIsHighest(providers, tracked, events[..|events| - 1]);
    HighestBounds(events[..|events| - 1], SyncedHeight, 0);
    RecordBeatsHighest(events, SyncedHeight, 0);
  }

  lemma {:induction false} RunInterval(providers: seq<Key>, tracked: seq<Key>, events: seq<Event>)
    ensures Run(providers, tracked, events).interval == IntervalAfter(events)
  {
    if |events| > 0 {
      RunInterval(providers, tracked, events[..|events| - 1]);
      LatestStep(Run(providers, tracked, events[..|events| - 1]), providers, tracked, events[|events| - 1]);
    }
  }

  lemma AcceptedStep(providers: seq<Key>, tracked: seq<Key>, events: seq<Event>)
    requires |events| > 0
    ensures var init, e := events[..|events| - 1], events[|events| - 1];
            Accepted(events) == Extended(Run(providers, tracked, init), Accepted(init), e)
  {
    RunInterval(providers, tracked, events[..|events| - 1]);
    RecordBeatsLatest(providers, tracked, events);
  }

  /** The history after one more event. */
  function Extended(s: State, entries: seq<Entry>, e: Event): seq<Entry> {
    if e.NewBlock? && e.synced && e.block.height > s.latest then entries + [Entry(e.block, s.interval)] else entries
  }

  predicate Explains(s: State, providers: seq<Key>, tracked: seq<Key>, entries: seq<Entry>) {
    && s.finality == Rounds(NO_VOTES, providers, FinalityRounds(entries))
    && s.checkpoint == Rounds(NO_VOTES, tracked, CheckpointRounds(entries))
  }

  /** The two ledgers after any run are the rounds of the accepted blocks that count for them. */
  lemma {:induction false} RunIsRounds(providers: seq<Key>, tracked: seq<Key>, events: seq<Event>)
    ensures Explains(Run(providers, tracked, events), providers, tracked, Accepted(events))
  {
    if |events| > 0 {
      var init, e := events[..|events| - 1], events[|events| - 1];
      RunIsRounds(providers, tracked, init);
      AcceptedStep(providers, tracked, events);
      StepRounds(Run(providers, tracked, init), providers, tracked, Accepted(init), e);
      assert Run(providers, tracked, events) == Apply(Run(providers, tracked, init), providers, tracked, e);
    } else {
      assert Accepted(events) == [];
    }
  }

  lemma StepRounds(s: State, providers: seq<Key>, tracked: seq<Key>, entries: seq<Entry>, e: Event)
    requires Explains(s, providers, tracked, entries)
    ensures Explains(Apply(s, providers, tracked, e), providers, tracked, Extended(s, entries, e))
  {
    if e.NewBlock? && e.synced && e.block.height > s.latest {
      BlockRounds(s, providers, tracked, entries, Entry(e.block, s.interval));
    }
  }

  lemma BlockRounds(s: State, providers: seq<Key>, tracked: seq<Key>, entries: seq<Entry>, e: Entry)
    requires e.block.height > s.latest && e.interval == s.interval
    requires Explains(s, providers, tracked, entries)
    ensures Explains(HandleBlock(s, providers, tracked, e.block), providers, tracked, entries + [e])
  {
    var seen := s.(latest := e.block.height);
    var f := HandleFinality(seen, providers, FinalitySigs(e.block.txs));
    FinalityStep(seen, providers, entries, e);
    CheckpointStep(f, tracked, entries, e);
  }

  lemma FinalityStep(s: State, providers: seq<Key>, entries: seq<Entry>, e: Entry)
    requires s.finality == Rounds(NO_VOTES, providers, FinalityRounds(entries))
    ensures HandleFinality(s, providers, FinalitySigs(e.block.txs)).finality ==
            Rounds(NO_VOTES, providers, FinalityRounds(entries + [e]))
  {
    assert (entries + [e])[..|entries|] == entries;
    if CountsFinality(e) {
      RoundsSnoc(providers, FinalityRounds(entries), SignedIn(FinalitySigs(e.block.txs)));
    } else {
      assert FinalityRounds(entries + [e]) == FinalityRounds(entries);
    }
  }

  lemma CheckpointStep(s: State, tracked: seq<Key>, entries: seq<Entry>, e: Entry)
    requires s.checkpoint == Rounds(NO_VOTES, tracked, CheckpointRounds(entries))
    ensures (if Opens(e) then HandleCheckpoint(s, tracked, Checkpoint(e.block.txs)) else s).checkpoint ==
            Rounds(NO_VOTES, tracked, CheckpointRounds(entries + [e]))
  {
    assert (entries + [e])[..|entries|] == entries;
    if CountsCheckpoint(e) {
      CheckpointIsOne(e.block.txs);
      RoundsSnoc(tracked, CheckpointRounds(entries), VotedIn(VotesOf(Checkpoint(e.block.txs).value)));
    } else {
      assert CheckpointRounds(entries + [e]) == CheckpointRounds(entries);
    }
  }

  lemma RoundsSnoc(voters: seq<Key>, rounds: seq<string -> bool>, r: string -> bool)
    ensures Rounds(NO_VOTES, voters, rounds + [r]) == Round(Rounds(NO_VOTES, voters, rounds), voters, r)
  {
    assert (rounds + [r])[..|rounds|] == rounds;
  }

  /** Over every run a finality provider's votes and misses add up to the blocks that count. */
  lemma FinalityConservation(providers: seq<Key>, tracked: seq<Key>, events: seq<Event>, j: nat)
    requires Distinct(providers) && j < |providers|
    ensures var l, a, k := Run(providers, tracked, events).finality, Accepted(events), providers[j];
            var rounds := FinalityRounds(a);
            && l.rounds == CountIf(a, CountsFinality)
            && Get(l.committed, k) + Get(l.missed, k) == l.rounds
            && Get(l.committed, k) == CountIf(rounds, Took(k.0))
            && Get(l.consecutive, k) == |rounds| - AfterLast(rounds, Took(k.0))
  {
    RunIsRounds(providers, tracked, events);
    RoundsRow(providers, FinalityRounds(Accepted(events)), j);
  }

  /** Over every run a validator's checkpoint votes and misses add up to the checkpoints that count. */
  lemma CheckpointConservation(providers: seq<Key>, tracked: seq<Key>, events: seq<Event>, j: nat)
    requires Distinct(tracked) && j < |tracked|
    ensures var l, a, k := Run(providers, tracked, events).checkpoint, Accepted(events), tracked[j];
            var rounds := CheckpointRounds(a);
            && l.rounds == CountIf(a, CountsCheckpoint)
            && Get(l.committed, k) + Get(l.missed, k) == l.rounds
            && Get(l.committed, k) == CountIf(rounds, Took(k.0))
            && Get(l.consecutive, k) == |rounds| - AfterLast(rounds, Took(k.0))
  {
    RunIsRounds(providers, tracked, events);
    RoundsRow(tracked, CheckpointRounds(Accepted(events)), j);
  }

  // ---- Epoch boundaries ----

  lemma DivUnique(x: int, n: int, q: int, r: int)
    requires n > 0 && 0 <= r < n && x == q * n + r
    ensures x / n == q && x % n == r
  {
    var d := x / n - q;
    assert x == (x / n) * n + x % n;
    assert d * n == r - x % n by { assert (x / n) * n == q * n + d * n; }
    if d > 0 {
      MulMonotone(1, d, n);
    } else if d < 0 {
      MulMonotone(d, -1, n);
    }
  }

  /** One height opens an epoch exactly when the epoch number moves on. */
  lemma EpochStep(h: int, n: int)
    requires n >= 2
    ensures (h - 1) / n - (h - 2) / n == if h % n == 1 then 1 else 0
  {
    var q, r := (h - 1) / n, (h - 1) % n;
    assert h - 1 == q * n + r;
    if r == 0 {
      assert (q - 1) * n == q * n - n;
      DivUnique(h - 2, n, q - 1, n - 1);
      DivUnique(h, n, q, 1);
    } else {
      DivUnique(h - 2, n, q, r - 1);
      if r + 1 < n {
        DivUnique(h, n, q, r + 1);
      } else {
        assert (q + 1) * n == q * n + n;
        DivUnique(h, n, q + 1, 0);
      }
    }
  }

  /** The entries at the heights a + 1, a + 2, and so on, under one interval. */
  predicate Consecutive(entries: seq<Entry>, a: int, n: Interval) {
    forall i :: 0 <= i < |entries| ==> entries[i].block.height == a + 1 + i && entries[i].interval == n
  }

  /** Checkpoint handling runs once for each epoch opened, and votes only where the checkpoint decodes. */
  lemma {:induction false} EpochsOpened(entries: seq<Entry>, a: int, n: Interval)
    requires n >= 2 && Consecutive(entries, a, n)
    ensures CountIf(entries, Opens) == (a + |entries| - 1) / n - (a - 1) / n
  {
    if |entries| > 0 {
      EpochsOpened(entries[..|entries| - 1], a, n);
      EpochStep(a + |entries|, n);
    }
  }

  /** The heights above a and up to b that open an epoch of n blocks. */
  function Openings(a: int, b: int, n: Interval): (r: set<int>)
    ensures forall h :: h in r <==> a < h <= b && OpensEpoch(h, n)
    decreases b - a
  {
    if b <= a then {} else Openings(a, b - 1, n) + (if OpensEpoch(b, n) then {b} else {})
  }

  /** One in each epoch; with epochs of one block there is none. */
  lemma {:induction false} OpeningsSize(a: int, b: int, n: Interval)
    requires a <= b
    ensures |Openings(a, b, n)| == if n >= 2 then (b - 1) / n - (a - 1) / n else 0
    decreases b - a
  {
    if a < b {
      OpeningsSize(a, b - 1, n);
      if n >= 2 { EpochStep(b, n); }
      assert b !in Openings(a, b - 1, n);
    }
  }

  /** What the events `more` add to the history that `before` left. */
  function AddedBy(before: seq<Event>, more: seq<Event>): seq<Entry> {
    if |more| == 0 then []
    else AddedBy(before, more[..|more| - 1]) + NewEntries(before + more[..|more| - 1], more[|more| - 1])
  }

  function NewEntries(init: seq<Event>, e: Event): seq<Entry> {
    if Record(init + [e], SyncedHeight, 0, |init|) then EntriesOf(e, IntervalAfter(init)) else []
  }

  predicate Rises(entries: seq<Entry>, a: int, b: int) {
    && (forall i :: 0 <= i < |entries| ==> a < entries[i].block.height <= b)
    && (forall i, j :: 0 <= i < j < |entries| ==> entries[i].block.height < entries[j].block.height)
  }

  lemma RisesSnoc(entries: seq<Entry>, a: int, b: int, e: Entry)
    requires Rises(entries, a, b) && a <= b < e.block.height
    ensures Rises(entries + [e], a, e.block.height)
  {
  }

  lemma StretchStep(init: seq<Event>, e: Event, base: seq<Entry>, added: seq<Entry>, a: int)
    requires Accepted(init) == base + added && a <= Highest(init, SyncedHeight, 0)
    requires Rises(added, a, Highest(init, SyncedHeight, 0))
    ensures Accepted(init + [e]) == base + (added + NewEntries(init, e))
    ensures a <= Highest(init + [e], SyncedHeight, 0)
    ensures Rises(added + NewEntries(init, e), a, Highest(init + [e], SyncedHeight, 0))
  {
    assert (init + [e])[..|init|] == init;
    RecordBeatsHighest(init + [e], SyncedHeight, 0);
    HighestBounds(init, SyncedHeight, 0);
    ConcatAssociative(base, added, NewEntries(init, e));
    if |NewEntries(init, e)| > 0 {
      RisesSnoc(added, a, Highest(init, SyncedHeight, 0), NewEntries(init, e)[0]);
    } else {
      assert added + [] == added;
    }
  }

  lemma {:induction false} Stretch(before: seq<Event>, more: seq<Event>)
    ensures Accepted(before + more) == Accepted(before) + AddedBy(before, more)
    ensures Highest(before, SyncedHeight, 0) <= Highest(before + more, SyncedHeight, 0)
    ensures Rises(AddedBy(before, more), Highest(before, SyncedHeight, 0), Highest(before + more, SyncedHeight, 0))
  {
    if |more| == 0 {
      assert before + more == before;
    } else {
      var init, e := before + more[..|more| - 1], more[|more| - 1];
      Stretch(before, more[..|more| - 1]);
      StretchStep(init, e, Accepted(before), AddedBy(before, more[..|more| - 1]), Highest(before, SyncedHeight, 0));
      assert before + more == init + [e];
    }
  }

  /** The heights of the entries that count as a checkpoint vote. */
  function VotedHeights(entries: seq<Entry>): set<int> {
    if |entries| == 0 then {}
    else
      var e := entries[|entries| - 1];
      VotedHeights(entries[..|entries| - 1]) + (if CountsCheckpoint(e) then {e.block.height} else {})
  }

  lemma {:induction false} VotedAt(entries: seq<Entry>, h: int)
    ensures h in VotedHeights(entries) <==>
            exists i :: 0 <= i < |entries| && entries[i].block.height == h && CountsCheckpoint(entries[i])
  {
    if |entries| > 0 {
      var init := entries[..|entries| - 1];
      VotedAt(init, h);
      assert forall i :: 0 <= i < |init| ==> init[i] == entries[i];
    }
  }

  lemma {:induction false} VotedCount(entries: seq<Entry>, a: int, b: int)
    requires Rises(entries, a, b)
    ensures |VotedHeights(entries)| == CountIf(entries, CountsCheckpoint)
  {
    if |entries| > 0 {
      var init, e := entries[..|entries| - 1], entries[|entries| - 1];
      VotedCount(init, a, b);
      VotedAt(init, e.block.height);
      assert e.block.height !in VotedHeights(init) by {
        forall i | 0 <= i < |init| ensures init[i].block.height < e.block.height { assert init[i] == entries[i]; }
      }
    }
  }

  /** A set holds as many elements as the part of it with property p iff all have it. */
  lemma PartSize(part: set<int>, whole: set<int>, p: int -> bool)
    requires forall h :: h in part <==> h in whole && p(h)
    ensures |part| <= |whole| && (|part| == |whole| <==> forall h :: h in whole ==> p(h))
  {
    forall h | h in part ensures h in whole { assert p(h); }
    assert whole == part + (whole - part);
    if |part| == |whole| {
      forall h | h in whole ensures p(h) { assert h !in whole - part; }
    }
    if forall h :: h in whole ==> p(h) {
      assert forall h :: h in whole ==> h in part;
      assert part == whole;
    }
  }

  predicate UnderInterval(entries: seq<Entry>, n: Interval) {
    forall i :: 0 <= i < |entries| ==> entries[i].interval == n
  }

  /** The block at h was accepted and carried a checkpoint that decodes. */
  ghost predicate HasCheckpoint(entries: seq<Entry>, h: int) {
    exists i :: 0 <= i < |entries| && entries[i].block.height == h && Checkpoint(entries[i].block.txs).Some?
  }

  lemma VotedIs(entries: seq<Entry>, a: int, b: int, n: Interval, h: int)
    requires Rises(entries, a, b) && UnderInterval(entries, n)
    ensures h in VotedHeights(entries) <==> h in Openings(a, b, n) && HasCheckpoint(entries, h)
  {
    VotedAt(entries, h);
    if h in Openings(a, b, n) && HasCheckpoint(entries, h) {
      var i :| 0 <= i < |entries| && entries[i].block.height == h && Checkpoint(entries[i].block.txs).Some?;
      assert CountsCheckpoint(entries[i]);
    }
  }

  lemma VotesVersusOpenings(entries: seq<Entry>, a: int, b: int, n: Interval)
    requires Rises(entries, a, b) && UnderInterval(entries, n)
    ensures CountIf(entries, CountsCheckpoint) <= |Openings(a, b, n)|
    ensures CountIf(entries, CountsCheckpoint) == |Openings(a, b, n)| <==>
            forall h :: h in Openings(a, b, n) ==> HasCheckpoint(entries, h)
  {
    var p := h => HasCheckpoint(entries, h);
    forall h ensures h in VotedHeights(entries) <==> h in Openings(a, b, n) && p(h) {
      VotedIs(entries, a, b, n, h);
    }
    PartSize(VotedHeights(entries), Openings(a, b, n), p);
    VotedCount(entries, a, b);
  }

  /**
   * While a stretch of any run keeps one epoch interval, whatever it repeats or leaves out, the checkpoint
   * votes grow by the epochs opened between the two latest heights iff every height that opens an epoch was
   * accepted with a decodable checkpoint, and by less otherwise.
   */
  lemma CheckpointVotesPerEpoch(providers: seq<Key>, tracked: seq<Key>, before: seq<Event>, more: seq<Event>,
                                n: Interval)
    requires UnderInterval(AddedBy(before, more), n)
    ensures var s, s' := Run(providers, tracked, before), Run(providers, tracked, before + more);
            var grown, epochs := s'.checkpoint.rounds - s.checkpoint.rounds, Openings(s.latest, s'.latest, n);
            && s.latest <= s'.latest
            && |epochs| == (if n >= 2 then (s'.latest - 1) / n - (s.latest - 1) / n else 0)
            && grown == CountIf(AddedBy(before, more), CountsCheckpoint) <= |epochs|
            && (grown == |epochs| <==> forall h :: h in epochs ==> HasCheckpoint(AddedBy(before, more), h))
  {
    var a, b := Highest(before, SyncedHeight, 0), Highest(before + more, SyncedHeight, 0);
    LatestIsHighest(providers, tracked, before);
    LatestIsHighest(providers, tracked, before + more);
    Stretch(before, more);
    CheckpointRoundsOf(providers, tracked, before);
    CheckpointRoundsOf(providers, tracked, before + more);
    CountIfConcat(Accepted(before), AddedBy(before, more), CountsCheckpoint);
    OpeningsSize(a, b, n);
    VotesVersusOpenings(AddedBy(before, more), a, b, n);
  }

  lemma CheckpointRoundsOf(providers: seq<Key>, tracked: seq<Key>, events: seq<Event>)
    ensures Run(providers, tracked, events).checkpoint.rounds == CountIf(Accepted(events), CountsCheckpoint)
  {
    RunIsRounds(providers, tracked, events);
    RoundsCount(tracked, CheckpointRounds(Accepted(events)));
  }

  lemma {:induction false} VotesCount(l: VoteLedger, voters: seq<Key>, hasVoted: string -> bool, n: nat)
    requires n <= |voters|
    ensures Votes(l, voters, hasVoted, n).rounds == l.rounds
  {
    if n > 0 { VotesCount(l, voters, hasVoted, n - 1); }
  }

  lemma {:induction false} RoundsCount(voters: seq<Key>, rounds: seq<string -> bool>)
    ensures Rounds(NO_VOTES, voters, rounds).rounds == |rounds|
  {
    if |rounds| > 0 {
      RoundsCount(voters, rounds[..|rounds| - 1]);
      var l := Rounds(NO_VOTES, voters, rounds[..|rounds| - 1]);
      VotesCount(l.(rounds := l.rounds + 1), voters, rounds[|rounds| - 1], |voters|);
    }
  }

  // ---- The watcher ----

  class BabylonWatcher {
    const trackedValidators: seq<Key>
    const finalityProviders: seq<Key>
    var latestBlockHeight: int
    var epochInterval: Interval
    var epoch: int
    var finalityVotes: nat
    var committedFinalityVotes: Series
    var missedFinalityVotes: Series
    var consecutiveMissedFinalityVotes: Series
    var checkpointVote: nat
    var committedCheckpointVote: Series
    var missedCheckpointVote: Series
    var consecutiveMissedCheckpointVote: Series

    ghost function Finality(): VoteLedger
      reads this
    {
      VoteLedger(finalityVotes, committedFinalityVotes, missedFinalityVotes, consecutiveMissedFinalityVotes)
    }

    ghost function Checkpoints(): VoteLedger
      reads this
    {
      VoteLedger(checkpointVote, committedCheckpointVote, missedCheckpointVote, consecutiveMissedCheckpointVote)
    }

    ghost function Value(): State
      reads this
    {
      State(latestBlockHeight, epochInterval, epoch, Finality(), Checkpoints())
    }

    constructor (validators: seq<Key>, providers: seq<Key>)
      ensures Value() == FRESH && trackedValidators == validators && finalityProviders == providers
    {
      trackedValidators, finalityProviders := validators, providers;
      latestBlockHeight, epochInterval, epoch := 0, DEFAULT_INTERVAL, 0;
      finalityVotes, checkpointVote := 0, 0;
      committedFinalityVotes, missedFinalityVotes, consecutiveMissedFinalityVotes := map[], map[], map[];
      committedCheckpointVote, missedCheckpointVote, consecutiveMissedCheckpointVote := map[], map[], map[];
    }

    method OnNewBlock(block: Block, synced: bool)
      modifies this
      ensures Value() == Apply(old(Value()), finalityProviders, trackedValidators, NewBlock(block, synced))
    {
      if !synced {
        return;
      }
      Handle(block);
    }

    method SyncEpochParams(answer: Option<Params>)
      modifies this`epochInterval, this`epoch
      ensures Value() == Apply(old(Value()), finalityProviders, trackedValidators, SyncParams(answer))
    {
      if answer.None? {
        return;
      }
      epochInterval := answer.value.interval;
      epoch := answer.value.epoch;
    }

    method Handle(block: Block)
      modifies this
      ensures Value() == HandleBlock(old(Value()), finalityProviders, trackedValidators, block)
    {
      if latestBlockHeight >= block.height {
        return;
      }
      latestBlockHeight := block.height;
      var sigs := FindMsgAddFinalitySig(block.txs);
      HandleMsgAddFinalitySig(sigs);
      if block.height % epochInterval == 1 {
        var msg := FindMsgInjectedCheckpoint(block.txs);
        HandleMsgInjectedCheckpoint(msg);
      }
    }

    method FindMsgAddFinalitySig(txs: seq<Tx>) returns (msgs: seq<Message>)
      ensures msgs == FinalitySigs(txs)
    {
      msgs := [];
      for i := 0 to |txs|
        invariant FirstIndex(Flatten(txs[..i]), IsBrokenSig) == |Flatten(txs[..i])|
        invariant msgs == Filter(Flatten(txs[..i]), IsFinalitySig)
      {
        FlattenNext(txs, i);
        if txs[i].Tx? {
          var ok, sigs := CollectSigs(txs[i].messages);
          BrokenConcat(Flatten(txs[..i]), txs[i].messages);
          FilterConcat(Flatten(txs[..i]), txs[i].messages, IsFinalitySig);
          if !ok {
            FlattenSplit(txs, i + 1);
            BrokenConcat(Flatten(txs[..i + 1]), Flatten(txs[i + 1..]));
            return [];
          }
          msgs := msgs + sigs;
        } else {
          assert Flatten(txs[..i + 1]) == Flatten(txs[..i]);
        }
      }
      assert txs[..|txs|] == txs;
    }

    /** The inner loop of the scan. */
    method CollectSigs(messages: seq<Message>) returns (ok: bool, sigs: seq<Message>)
      ensures ok <==> FirstIndex(messages, IsBrokenSig) == |messages|
      ensures ok ==> sigs == Filter(messages, IsFinalitySig)
    {
      sigs := [];
      for i := 0 to |messages|
        invariant forall j :: 0 <= j < i ==> !IsBrokenSig(messages[j])
        invariant sigs == Filter(messages[..i], IsFinalitySig)
      {
        FilterNext(messages, i, IsFinalitySig);
        if !messages[i].AddFinalitySig? {
          continue;
        }
        if !messages[i].decodes {
          assert IsBrokenSig(messages[i]);
          return false, sigs;
        }
        sigs := sigs + [messages[i]];
      }
      assert messages[..|messages|] == messages;
      ok := true;
    }

    method HandleMsgAddFinalitySig(msgs: seq<Message>)
      modifies this`finalityVotes, this`committedFinalityVotes, this`missedFinalityVotes,
               this`consecutiveMissedFinalityVotes
      ensures Value() == HandleFinality(old(Value()), finalityProviders, msgs)
    {
      if |msgs| == 0 {
        return;
      }
      finalityVotes := finalityVotes + 1;
      ghost var counted := Finality();
      for i := 0 to |finalityProviders|
        invariant Finality() == Votes(counted, finalityProviders, SignedIn(msgs), i)
      {
        var fp := finalityProviders[i];
        var hasSigned := HasSigned(msgs, fp.0);
        CountFinalityVote(fp, hasSigned);
      }
    }

    method CountFinalityVote(fp: Key, hasSigned: bool)
      modifies this`committedFinalityVotes, this`missedFinalityVotes, this`consecutiveMissedFinalityVotes
      ensures Finality() == Vote(old(Finality()), fp, hasSigned)
    {
      if hasSigned {
        committedFinalityVotes := committedFinalityVotes[fp := Get(committedFinalityVotes, fp) + 1];
        consecutiveMissedFinalityVotes := consecutiveMissedFinalityVotes[fp := 0];
      } else {
        missedFinalityVotes := missedFinalityVotes[fp := Get(missedFinalityVotes, fp) + 1];
        consecutiveMissedFinalityVotes :=
          consecutiveMissedFinalityVotes[fp := Get(consecutiveMissedFinalityVotes, fp) + 1];
      }
    }

    method HasSigned(msgs: seq<Message>, address: string) returns (found: bool)
      ensures found == SignedIn(msgs)(address)
    {
      for i := 0 to |msgs|
        invariant forall m :: m in msgs[..i] && m.AddFinalitySig? ==> m.signer != address
      {
        if msgs[i].AddFinalitySig? && msgs[i].signer == address {
          assert msgs[i] in msgs;
          return true;
        }
      }
      assert msgs[..|msgs|] == msgs;
      found := false;
    }

    method FindMsgInjectedCheckpoint(txs: seq<Tx>) returns (msg: Option<Message>)
      ensures msg == Checkpoint(txs)
    {
      for i := 0 to |txs|
        invariant FirstIndex(Flatten(txs[..i]), IsCheckpoint) == |Flatten(txs[..i])|
      {
        FlattenNext(txs, i);
        if txs[i].Tx? {
          var k := FindCheckpoint(txs[i].messages);
          if k < |txs[i].messages| {
            var found := txs[i].messages[k];
            CheckpointAt(txs, i, k);
            return if found.decodes then Some(found) else None;
          }
          FirstIndexConcat(Flatten(txs[..i]), txs[i].messages, IsCheckpoint);
        }
      }
      assert txs[..|txs|] == txs;
      msg := None;
    }

    /** The inner loop of the scan: it stops at the first checkpoint, decodable or not. */
    method FindCheckpoint(messages: seq<Message>) returns (k: nat)
      ensures k == FirstIndex(messages, IsCheckpoint)
    {
      k := 0;
      while k < |messages|
        invariant k <= |messages|
        invariant forall j :: 0 <= j < k ==> !IsCheckpoint(messages[j])
      {
        if messages[k].InjectedCheckpoint? {
          assert IsCheckpoint(messages[k]);
          return;
        }
        k := k + 1;
      }
    }

    method HandleMsgInjectedCheckpoint(msg: Option<Message>)
      modifies this`epoch, this`checkpointVote, this`committedCheckpointVote, this`missedCheckpointVote,
               this`consecutiveMissedCheckpointVote
      ensures Value() == HandleCheckpoint(old(Value()), trackedValidators, msg)
    {
      if msg.None? || !msg.value.InjectedCheckpoint? {
        return;
      }
      epoch := msg.value.epoch;
      checkpointVote := checkpointVote + 1;
      ghost var counted := Checkpoints();
      for i := 0 to |trackedValidators|
        invariant epoch == msg.value.epoch
        invariant Checkpoints() == Votes(counted, trackedValidators, VotedIn(msg.value.votes), i)
      {
        var val := trackedValidators[i];
        var hasVoted := HasVoted(msg.value.votes, val.0);
        CountCheckpointVote(val, hasVoted);
      }
    }

    method CountCheckpointVote(val: Key, hasVoted: bool)
      modifies this`committedCheckpointVote, this`missedCheckpointVote, this`consecutiveMissedCheckpointVote
      ensures Checkpoints() == Vote(old(Checkpoints()), val, hasVoted)
    {
      if hasVoted {
        committedCheckpointVote := committedCheckpointVote[val := Get(committedCheckpointVote, val) + 1];
        consecutiveMissedCheckpointVote := consecutiveMissedCheckpointVote[val := 0];
      } else {
        missedCheckpointVote := missedCheckpointVote[val := Get(missedCheckpointVote, val) + 1];
        consecutiveMissedCheckpointVote :=
          consecutiveMissedCheckpointVote[val := Get(consecutiveMissedCheckpointVote, val) + 1];
      }
    }

    method HasVoted(votes: seq<ExtendedVote>, address: string) returns (found: bool)
      ensures found == VotedIn(votes)(address)
    {
      for i := 0 to |votes|
        invariant forall v :: v in votes[..i] ==> v.validatorAddress != address
      {
        if votes[i].validatorAddress == address {
          assert votes[i] in votes;
          return true;
        }
      }
      assert votes[..|votes|] == votes;
      found := false;
    }
  }

  // ---- Lemmas for the scans ----

  lemma FlattenNext(txs: seq<Tx>, i: nat)
    requires i < |txs|
    ensures Flatten(txs[..i + 1]) == Flatten(txs[..i]) + MessagesOf(txs[i])
  {
    assert txs[..i + 1][..i] == txs[..i];
  }

  lemma {:induction false} FlattenSplit(txs: seq<Tx>, n: nat)
    requires n <= |txs|
    ensures Flatten(txs) == Flatten(txs[..n]) + Flatten(txs[n..])
  {
    if n == |txs| {
      assert txs[..n] == txs && txs[n..] == [];
    } else {
      var init := txs[..|txs| - 1];
      FlattenSplit(init, n);
      assert init[..n] == txs[..n] && txs[n..][..|txs[n..]| - 1] == init[n..];
      assert txs[n..][|txs[n..]| - 1] == txs[|txs| - 1];
      ConcatAssociative(Flatten(txs[..n]), Flatten(init[n..]), MessagesOf(txs[|txs| - 1]));
    }
  }

  /** A checkpoint found in the i-th transaction, none before, is the first of the block. */
  lemma CheckpointAt(txs: seq<Tx>, i: nat, k: nat)
    requires i < |txs| && txs[i].Tx?
    requires FirstIndex(Flatten(txs[..i]), IsCheckpoint) == |Flatten(txs[..i])|
    requires k == FirstIndex(txs[i].messages, IsCheckpoint) < |txs[i].messages|
    ensures Checkpoint(txs) == if txs[i].messages[k].decodes then Some(txs[i].messages[k]) else None
  {
    FlattenNext(txs, i);
    FlattenSplit(txs, i + 1);
    FirstIndexMiddle(Flatten(txs[..i]), txs[i].messages, Flatten(txs[i + 1..]), IsCheckpoint);
  }

  /** A broken signature in either part breaks the whole. */
  lemma BrokenConcat(a: seq<Message>, b: seq<Message>)
    ensures FirstIndex(a + b, IsBrokenSig) < |a + b| <==>
            FirstIndex(a, IsBrokenSig) < |a| || FirstIndex(b, IsBrokenSig) < |b|
  {
    FirstIndexConcat(a, b, IsBrokenSig);
  }
}
