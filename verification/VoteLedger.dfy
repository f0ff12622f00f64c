/** Committed, missed and consecutively missed rounds of a fixed list of voters. */
module VoteLedgers {
  import opened Seqs
  import opened BlockTypes

  datatype VoteLedger = VoteLedger(rounds: nat, committed: Series, missed: Series, consecutive: Series)

  const NO_VOTES := VoteLedger(0, map[], map[], map[])

  function Vote(l: VoteLedger, k: Key, voted: bool): VoteLedger {
    if voted then l.(committed := Inc(l.committed, k), consecutive := Reset(l.consecutive, k))
    else l.(missed := Inc(l.missed, k), consecutive := Inc(l.consecutive, k))
  }

  /** The votes of the first n voters, in order; hasVoted tells who did. */
  function Votes(l: VoteLedger, voters: seq<Key>, hasVoted: string -> bool, n: nat): VoteLedger
    requires n <= |voters|
  {
    if n == 0 then l
    else Vote(Votes(l, voters, hasVoted, n - 1), voters[n - 1], hasVoted(voters[n - 1].0))
  }

  function Round(l: VoteLedger, voters: seq<Key>, hasVoted: string -> bool): VoteLedger {
    Votes(l.(rounds := l.rounds + 1), voters, hasVoted, |voters|)
  }

  function Rounds(l: VoteLedger, voters: seq<Key>, rounds: seq<string -> bool>): VoteLedger {
    if |rounds| == 0 then l
    else Round(Rounds(l, voters, rounds[..|rounds| - 1]), voters, rounds[|rounds| - 1])
  }

  predicate Distinct(voters: seq<Key>) {
    forall i, j :: 0 <= i < j < |voters| ==> voters[i] != voters[j]
  }

  lemma {:induction false} VotesRow(l: VoteLedger, voters: seq<Key>, hasVoted: string -> bool, j: nat, n: nat)
    requires Distinct(voters) && j < |voters| && n <= |voters|
    ensures var r, k := Votes(l, voters, hasVoted, n), voters[j];
            && r.rounds == l.rounds
            && Get(r.committed, k) == Get(l.committed, k) + (if j < n && hasVoted(k.0) then 1 else 0)
            && Get(r.missed, k) == Get(l.missed, k) + (if j < n && !hasVoted(k.0) then 1 else 0)
            && Get(r.consecutive, k) ==
               if j >= n then Get(l.consecutive, k)
               else if hasVoted(k.0) then 0 else Get(l.consecutive, k) + 1
  {
    if n > 0 { VotesRow(l, voters, hasVoted, j, n - 1); }
  }

  /** Whether the voter with this address took part, round by round. */
  function Took(address: string): (string -> bool) -> bool {
    (round: string -> bool) => round(address)
  }

  function Missed(address: string): (string -> bool) -> bool {
    (round: string -> bool) => !round(address)
  }

  lemma RoundRow(l: VoteLedger, voters: seq<Key>, hasVoted: string -> bool, j: nat)
    requires Distinct(voters) && j < |voters|
    ensures var r, k := Round(l, voters, hasVoted), voters[j];
            && r.rounds == l.rounds + 1
            && Get(r.committed, k) == Get(l.committed, k) + (if Took(k.0)(hasVoted) then 1 else 0)
            && Get(r.missed, k) == Get(l.missed, k) + (if Missed(k.0)(hasVoted) then 1 else 0)
            && Get(r.consecutive, k) == if Took(k.0)(hasVoted) then 0 else Get(l.consecutive, k) + 1
  {
    VotesRow(l.(rounds := l.rounds + 1), voters, hasVoted, j, |voters|);
  }

  lemma {:induction false} RoundsCounted(voters: seq<Key>, rounds: seq<string -> bool>, j: nat)
    requires Distinct(voters) && j < |voters|
    ensures var l, k := Rounds(NO_VOTES, voters, rounds), voters[j];
            && l.rounds == |rounds|
            && Get(l.committed, k) == CountIf(rounds, Took(k.0))
            && Get(l.missed, k) == CountIf(rounds, Missed(k.0))
  {
    if |rounds| > 0 {
      RoundsCounted(voters, rounds[..|rounds| - 1], j);
      RoundRow(Rounds(NO_VOTES, voters, rounds[..|rounds| - 1]), voters, rounds[|rounds| - 1], j);
    }
  }

  lemma {:induction false} RoundsMissed(voters: seq<Key>, rounds: seq<string -> bool>, j: nat)
    requires Distinct(voters) && j < |voters|
    ensures Get(Rounds(NO_VOTES, voters, rounds).consecutive, voters[j]) ==
            MissesSinceHit(rounds, Took(voters[j].0), Missed(voters[j].0))
  {
    if |rounds| > 0 {
      var init, r, k := rounds[..|rounds| - 1], rounds[|rounds| - 1], voters[j];
      RoundsMissed(voters, init, j);
      RoundRow(Rounds(NO_VOTES, voters, init), voters, r, j);
      MissesSinceHitSnoc(init, r, Took(k.0), Missed(k.0));
      assert rounds == init + [r];
    }
  }

  /** After any rounds: every round is a vote or a miss, and the gauge is the run of misses at the end. */
  lemma RoundsRow(voters: seq<Key>, rounds: seq<string -> bool>, j: nat)
    requires Distinct(voters) && j < |voters|
    ensures var l, k := Rounds(NO_VOTES, voters, rounds), voters[j];
            && l.rounds == |rounds|
            && Get(l.committed, k) == CountIf(rounds, Took(k.0))
            && Get(l.missed, k) == CountIf(rounds, Missed(k.0))
            && Get(l.committed, k) + Get(l.missed, k) == l.rounds
            && Get(l.consecutive, k) == |rounds| - AfterLast(rounds, Took(k.0))
  {
    var address := voters[j].0;
    RoundsCounted(voters, rounds, j);
    RoundsMissed(voters, rounds, j);
    TookOrMissed(rounds, address);
    var tail := rounds[AfterLast(rounds, Took(address))..];
    forall r | r in tail ensures Missed(address)(r) {
      var i :| 0 <= i < |tail| && tail[i] == r;
      assert !Took(address)(rounds[AfterLast(rounds, Took(address)) + i]);
    }
    CountIfAll(tail, Missed(address));
  }

  lemma {:induction false} TookOrMissed(rounds: seq<string -> bool>, address: string)
    ensures CountIf(rounds, Took(address)) + CountIf(rounds, Missed(address)) == |rounds|
  {
    if |rounds| > 0 { TookOrMissed(rounds[..|rounds| - 1], address); }
  }
}
