/** The Babylon counters and gauges in terms of the transactions of the accepted blocks alone. */
module BabylonHistory {
  import opened Seqs
  import opened BlockTypes
  import opened Records
  import opened VoteLedgers
  import opened Babylon

  /** m is the j-th message of the i-th transaction, which is decodable. */
  predicate Carries(txs: seq<Tx>, i: nat, j: nat, m: Message) {
    i < |txs| && txs[i].Tx? && j < |txs[i].messages| && txs[i].messages[j] == m
  }

  ghost predicate CarriesSig(txs: seq<Tx>, m: Message) {
    m.AddFinalitySig? && exists i, j :: Carries(txs, i, j, m)
  }

  /** Some transaction carries a finality signature, and all that are carried decode. */
  ghost predicate Countable(txs: seq<Tx>) {
    && (exists m :: CarriesSig(txs, m))
    && (forall m :: CarriesSig(txs, m) ==> m.decodes)
  }

  /** A transaction of the block carries a decodable signature of this signer. */
  ghost predicate Signs(txs: seq<Tx>, address: string) {
    exists i, j :: Carries(txs, i, j, AddFinalitySig(true, address))
  }

  ghost function Hit(address: string): Entry -> bool {
    (e: Entry) => Countable(e.block.txs) && Signs(e.block.txs, address)
  }

  ghost function Miss(address: string): Entry -> bool {
    (e: Entry) => Countable(e.block.txs) && !Signs(e.block.txs, address)
  }

  ghost function Counted(): Entry -> bool {
    (e: Entry) => Countable(e.block.txs)
  }

  // ---- The scans, message by message ----

  lemma {:induction false} FlattenMember(txs: seq<Tx>, m: Message)
    ensures m in Flatten(txs) <==> exists i, j :: Carries(txs, i, j, m)
  {
    if |txs| > 0 {
      var init, n := txs[..|txs| - 1], |txs| - 1;
      FlattenMember(init, m);
      if i: nat, j: nat :| Carries(init, i, j, m) { assert Carries(txs, i, j, m); }
      if m in MessagesOf(txs[n]) {
        var j :| 0 <= j < |MessagesOf(txs[n])| && MessagesOf(txs[n])[j] == m;
        assert Carries(txs, n, j, m);
      }
      if i: nat, j: nat :| Carries(txs, i, j, m) {
        assert if i < n then Carries(init, i, j, m) else MessagesOf(txs[n])[j] == m;
      }
    }
  }

  lemma VotesMeaning(txs: seq<Tx>)
    ensures FinalitySigs(txs) != [] <==> Countable(txs)
  {
    FinalitySigsMeaning(txs);
    forall m ensures m in Flatten(txs) && IsFinalitySig(m) <==> CarriesSig(txs, m) { FlattenMember(txs, m); }
  }

  lemma SignsMeaning(txs: seq<Tx>, address: string)
    requires Countable(txs)
    ensures SignedIn(FinalitySigs(txs))(address) <==> Signs(txs, address)
  {
    VotesMeaning(txs);
    FinalitySigsMeaning(txs);
    var ms, sigs := Flatten(txs), FinalitySigs(txs);
    forall m ensures m in sigs <==> CarriesSig(txs, m) {
      FilterMember(ms, IsFinalitySig, m);
      FlattenMember(txs, m);
    }
    if m :| m in sigs && m.AddFinalitySig? && m.signer == address {
      assert CarriesSig(txs, m) && m == AddFinalitySig(true, address);
    }
    if Signs(txs, address) { assert CarriesSig(txs, AddFinalitySig(true, address)); }
  }

  // ---- Finality votes ----

  /** The rounds of a ledger count what the entries say: who took part, who missed, and how often since. */
  ghost predicate Matches(rounds: seq<string -> bool>, a: seq<Entry>, address: string, counted: Entry -> bool,
                          hit: Entry -> bool, miss: Entry -> bool) {
    && |rounds| == CountIf(a, counted)
    && CountIf(rounds, Took(address)) == CountIf(a, hit)
    && CountIf(rounds, Missed(address)) == CountIf(a, miss)
    && MissesSinceHit(rounds, Took(address), Missed(address)) == MissesSinceHit(a, hit, miss)
  }

  lemma NothingMatches(address: string, counted: Entry -> bool, hit: Entry -> bool, miss: Entry -> bool)
    ensures Matches([], [], address, counted, hit, miss)
  {
  }

  lemma MatchesRound(rounds: seq<string -> bool>, round: string -> bool, a: seq<Entry>, e: Entry, address: string,
                     counted: Entry -> bool, hit: Entry -> bool, miss: Entry -> bool)
    requires Matches(rounds, a, address, counted, hit, miss)
    requires counted(e) && (hit(e) <==> round(address)) && (miss(e) <==> !round(address))
    ensures Matches(rounds + [round], a + [e], address, counted, hit, miss)
  {
    CountIfSnoc(a, e, counted);
    CountIfSnoc(a, e, hit);
    CountIfSnoc(a, e, miss);
    CountIfSnoc(rounds, round, Took(address));
    CountIfSnoc(rounds, round, Missed(address));
    MissesSinceHitSnoc(a, e, hit, miss);
    MissesSinceHitSnoc(rounds, round, Took(address), Missed(address));
  }

  lemma MatchesNone(rounds: seq<string -> bool>, a: seq<Entry>, e: Entry, address: string, counted: Entry -> bool,
                    hit: Entry -> bool, miss: Entry -> bool)
    requires Matches(rounds, a, address, counted, hit, miss) && !counted(e) && !hit(e) && !miss(e)
    ensures Matches(rounds, a + [e], address, counted, hit, miss)
  {
    CountIfSnoc(a, e, counted);
    CountIfSnoc(a, e, hit);
    CountIfSnoc(a, e, miss);
    MissesSinceHitSnoc(a, e, hit, miss);
  }

  ghost predicate FinalityFits(a: seq<Entry>, address: string) {
    Matches(FinalityRounds(a), a, address, Counted(), Hit(address), Miss(address))
  }

  lemma FinalityCount(init: seq<Entry>, e: Entry, address: string)
    requires FinalityFits(init, address)
    ensures FinalityFits(init + [e], address)
  {
    var rounds, round := FinalityRounds(init), SignedIn(FinalitySigs(e.block.txs));
    assert (init + [e])[..|init|] == init;
    VotesMeaning(e.block.txs);
    if Countable(e.block.txs) {
      SignsMeaning(e.block.txs, address);
      MatchesRound(rounds, round, init, e, address, Counted(), Hit(address), Miss(address));
      assert FinalityRounds(init + [e]) == rounds + [round];
    } else {
      MatchesNone(rounds, init, e, address, Counted(), Hit(address), Miss(address));
      assert FinalityRounds(init + [e]) == rounds;
    }
  }

  lemma FinalityCounts(a: seq<Entry>, address: string)
    ensures FinalityFits(a, address)
  {
    var fits := (x: seq<Entry>) => FinalityFits(x, address);
    NothingMatches(address, Counted(), Hit(address), Miss(address));
    forall init, e | fits(init) ensures fits(init + [e]) { FinalityCount(init, e, address); }
    SnocInduction(a, fits);
  }

  /**
   * Over every run, for each provider: committed counts the accepted blocks whose transactions carry its
   * signature, missed the other blocks that count, and the gauge the misses since its last signature.
   */
  lemma FinalityByTransactions(providers: seq<Key>, tracked: seq<Key>, events: seq<Event>, j: nat)
    requires Distinct(providers) && j < |providers|
    ensures var l, a, k := Run(providers, tracked, events).finality, Accepted(events), providers[j];
            && l.rounds == CountIf(a, Counted())
            && Get(l.committed, k) == CountIf(a, Hit(k.0))
            && Get(l.missed, k) == CountIf(a, Miss(k.0))
            && Get(l.consecutive, k) == MissesSinceHit(a, Hit(k.0), Miss(k.0))
  {
    var a, k := Accepted(events), providers[j];
    FinalityConservation(providers, tracked, events, j);
    RunIsRounds(providers, tracked, events);
    RoundsCounted(providers, FinalityRounds(a), j);
    RoundsMissed(providers, FinalityRounds(a), j);
    FinalityCounts(a, k.0);
  }

  // ---- Checkpoint votes ----

  predicate InjectsAt(txs: seq<Tx>, i: nat, j: nat) {
    i < |txs| && txs[i].Tx? && j < |txs[i].messages| && txs[i].messages[j].InjectedCheckpoint?
  }

  /** The first injected checkpoint, transaction by transaction and message by message. */
  ghost predicate FirstInjection(txs: seq<Tx>, i: nat, j: nat) {
    InjectsAt(txs, i, j) && forall k: nat, l: nat :: InjectsAt(txs, k, l) ==> !Before(k, l, i, j)
  }

  /** The first injected checkpoint is m, and it decodes. */
  ghost predicate Injects(txs: seq<Tx>, m: Message) {
    && m.InjectedCheckpoint? && m.decodes
    && exists i: nat, j: nat :: FirstInjection(txs, i, j) && txs[i].messages[j] == m
  }

  function Lists(txs: seq<Tx>): seq<seq<Message>> {
    seq(|txs|, i requires 0 <= i < |txs| => MessagesOf(txs[i]))
  }

  lemma {:induction false} FlattenIsJoin(txs: seq<Tx>)
    ensures Flatten(txs) == Join(Lists(txs))
  {
    if |txs| > 0 {
      FlattenIsJoin(txs[..|txs| - 1]);
      assert Lists(txs)[..|txs| - 1] == Lists(txs[..|txs| - 1]);
    }
  }

  lemma FirstInLists(txs: seq<Tx>, i: nat, j: nat)
    ensures FirstIn(Lists(txs), i, j, IsCheckpoint) <==> FirstInjection(txs, i, j)
  {
    forall k: nat, l: nat ensures InjectsAt(txs, k, l) <==> Inside(Lists(txs), k, l) && IsCheckpoint(Lists(txs)[k][l]) {
    }
  }

  lemma InjectsMeaning(txs: seq<Tx>, m: Message)
    ensures Checkpoint(txs) == Some(m) <==> Injects(txs, m)
  {
    FlattenIsJoin(txs);
    var i, j := JoinFirst(Lists(txs), IsCheckpoint);
    FirstInLists(txs, i, j);
    if k: nat, l: nat :| FirstInjection(txs, k, l) && txs[k].messages[l] == m {
      FirstInLists(txs, k, l);
      OneFirstIn(Lists(txs), i, j, k, l, IsCheckpoint);
    }
  }

  ghost predicate HasVote(m: Message, address: string) {
    m.InjectedCheckpoint? && exists v :: v in m.votes && v.validatorAddress == address
  }

  /** The block opens an epoch and its checkpoint counts. */
  ghost function Sealed(): Entry -> bool {
    (e: Entry) => e.block.height % e.interval == 1 && exists m :: Injects(e.block.txs, m)
  }

  ghost function Seals(address: string): Entry -> bool {
    (e: Entry) => e.block.height % e.interval == 1 && exists m :: Injects(e.block.txs, m) && HasVote(m, address)
  }

  ghost function Abstains(address: string): Entry -> bool {
    (e: Entry) => Sealed()(e) && !Seals(address)(e)
  }

  lemma SealsMeaning(e: Entry, address: string)
    ensures CountsCheckpoint(e) <==> Sealed()(e)
    ensures CountsCheckpoint(e) ==>
              (VotedIn(VotesOf(Checkpoint(e.block.txs).value))(address) <==> Seals(address)(e))
  {
    forall m ensures Checkpoint(e.block.txs) == Some(m) <==> Injects(e.block.txs, m) { InjectsMeaning(e.block.txs, m); }
    if Checkpoint(e.block.txs).Some? {
      assert Injects(e.block.txs, Checkpoint(e.block.txs).value);
      CheckpointIsOne(e.block.txs);
    }
  }

  ghost predicate CheckpointFits(a: seq<Entry>, address: string) {
    Matches(CheckpointRounds(a), a, address, Sealed(), Seals(address), Abstains(address))
  }

  lemma CheckpointCount(init: seq<Entry>, e: Entry, address: string)
    requires CheckpointFits(init, address)
    ensures CheckpointFits(init + [e], address)
  {
    var rounds := CheckpointRounds(init);
    assert (init + [e])[..|init|] == init;
    SealsMeaning(e, address);
    if CountsCheckpoint(e) {
      var round := VotedIn(VotesOf(Checkpoint(e.block.txs).value));
      MatchesRound(rounds, round, init, e, address, Sealed(), Seals(address), Abstains(address));
      assert CheckpointRounds(init + [e]) == rounds + [round];
    } else {
      MatchesNone(rounds, init, e, address, Sealed(), Seals(address), Abstains(address));
      assert CheckpointRounds(init + [e]) == rounds;
    }
  }

  lemma CheckpointCounts(a: seq<Entry>, address: string)
    ensures CheckpointFits(a, address)
  {
    var fits := (x: seq<Entry>) => CheckpointFits(x, address);
    NothingMatches(address, Sealed(), Seals(address), Abstains(address));
    forall init, e | fits(init) ensures fits(init + [e]) { CheckpointCount(init, e, address); }
    SnocInduction(a, fits);
  }

  /**
   * Over every run, for each tracked validator: the votes in the first injected checkpoint of the accepted
   * blocks that open an epoch, where that checkpoint decodes; missed the other such blocks.
   */
  lemma CheckpointsByTransactions(providers: seq<Key>, tracked: seq<Key>, events: seq<Event>, j: nat)
    requires Distinct(tracked) && j < |tracked|
    ensures var l, a, k := Run(providers, tracked, events).checkpoint, Accepted(events), tracked[j];
            && l.rounds == CountIf(a, Sealed())
            && Get(l.committed, k) == CountIf(a, Seals(k.0))
            && Get(l.missed, k) == CountIf(a, Abstains(k.0))
            && Get(l.consecutive, k) == MissesSinceHit(a, Seals(k.0), Abstains(k.0))
  {
    var a, k := Accepted(events), tracked[j];
    RunIsRounds(providers, tracked, events);
    RoundsCounted(tracked, CheckpointRounds(a), j);
    RoundsMissed(tracked, CheckpointRounds(a), j);
    CheckpointCounts(a, k.0);
  }

  // ---- The interval and the epoch gauge ----

  predicate Answers(e: Event) {
    e.SyncParams? && e.answer.Some?
  }

  /** The i-th event is the last answered query. */
  predicate LastAnswer(events: seq<Event>, i: nat) {
    i < |events| && Answers(events[i]) && forall j :: i < j < |events| ==> !Answers(events[j])
  }

  /** n is the interval of the last answered query, or 360 when there is none. */
  ghost predicate IntervalIs(events: seq<Event>, n: Interval) {
    || (exists i: nat :: LastAnswer(events, i) && events[i].answer.value.interval == n)
    || (n == 360 && forall i :: 0 <= i < |events| ==> !Answers(events[i]))
  }

  lemma {:induction false} IntervalMeaning(providers: seq<Key>, tracked: seq<Key>, events: seq<Event>)
    ensures IntervalIs(events, Run(providers, tracked, events).interval)
  {
    if |events| > 0 {
      var init, e := events[..|events| - 1], events[|events| - 1];
      IntervalMeaning(providers, tracked, init);
      LatestStep(Run(providers, tracked, init), providers, tracked, e);
      assert forall i :: 0 <= i < |init| ==> init[i] == events[i];
      if Answers(e) {
        assert LastAnswer(events, |init|);
      } else {
        var n := Run(providers, tracked, init).interval;
        if i: nat :| LastAnswer(init, i) && init[i].answer.value.interval == n { assert LastAnswer(events, i); }
      }
    }
  }

  lemma OneInterval(events: seq<Event>, n: Interval, n': Interval)
    requires IntervalIs(events, n) && IntervalIs(events, n')
    ensures n == n'
  {
    if i: nat, j: nat :| LastAnswer(events, i) && LastAnswer(events, j) { assert i == j; }
  }

  /** After the earlier events e brings epoch v: an answered query, or a checkpoint that counts. */
  ghost predicate BringsEpoch(earlier: seq<Event>, e: Event, v: int) {
    match e
    case SyncParams(answer) => answer.Some? && answer.value.epoch == v
    case NewBlock(b, _) =>
      && Record(earlier + [e], SyncedHeight, 0, |earlier|)
      && exists n: Interval, m :: IntervalIs(earlier, n) && b.height % n == 1 && Injects(b.txs, m) && m.epoch == v
  }

  /**
   * Every run, event by event: the gauge takes the epoch that the event brings, and stays as it is when the
   * event brings none.
   */
  lemma EpochGauge(providers: seq<Key>, tracked: seq<Key>, earlier: seq<Event>, e: Event)
    ensures var before, after := Run(providers, tracked, earlier), Run(providers, tracked, earlier + [e]);
            && (forall v :: BringsEpoch(earlier, e, v) ==> after.epoch == v)
            && ((forall v :: !BringsEpoch(earlier, e, v)) ==> after.epoch == before.epoch)
  {
    var s := Run(providers, tracked, earlier);
    assert (earlier + [e])[..|earlier|] == earlier;
    if e.NewBlock? {
      RecordBeatsLatest(providers, tracked, earlier + [e]);
      IntervalMeaning(providers, tracked, earlier);
      forall m ensures Checkpoint(e.block.txs) == Some(m) <==> Injects(e.block.txs, m) {
        InjectsMeaning(e.block.txs, m);
      }
      forall n: Interval | IntervalIs(earlier, n) ensures n == s.interval { OneInterval(earlier, n, s.interval); }
      if e.synced && e.block.height > s.latest && e.block.height % s.interval == 1 && Checkpoint(e.block.txs).Some? {
        assert BringsEpoch(earlier, e, Checkpoint(e.block.txs).value.epoch);
      }
    } else if e.answer.Some? {
      assert BringsEpoch(earlier, e, e.answer.value.epoch);
    }
  }
}
