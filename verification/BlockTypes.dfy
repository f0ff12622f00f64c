/** Blocks as the RPC returns them, and the digest of a block that the ledger consumes. */
module BlockTypes {
  import opened Seqs

  datatype BlockIDFlag = FlagAbsent | FlagCommit | FlagNil

  datatype CommitSig = CommitSig(flag: BlockIDFlag, validatorAddress: string)

  /** One extended vote of an injected Babylon checkpoint. */
  datatype ExtendedVote = ExtendedVote(validatorAddress: string)

  /** A message of a decoded transaction; `decodes` says whether its payload unmarshals. */
  datatype Message =
    | AddFinalitySig(decodes: bool, signer: string)
    | InjectedCheckpoint(decodes: bool, epoch: int, votes: seq<ExtendedVote>)
    | OtherMessage

  datatype Tx = Undecodable | Tx(messages: seq<Message>)

  datatype Block = Block(height: int, proposerAddress: string, txs: seq<Tx>, signatures: seq<CommitSig>)

  datatype TrackedValidator = TrackedValidator(address: string, name: string)

  datatype ValidatorStatus =
    ValidatorStatus(address: string, name: string, bonded: bool, signed: bool, rank: nat)

  datatype BlockInfo = BlockInfo(
    height: int,
    transactions: nat,
    totalValidators: nat,
    signedValidators: nat,
    proposerAddress: string,
    validatorStatus: seq<ValidatorStatus>)

  /** The label pair that identifies a time series. */
  type Key = (string, string)

  /** A counter or gauge per label pair; a series that was never touched reads as zero. */
  type Series = map<Key, nat>

  function Get(m: Series, k: Key): nat {
    if k in m then m[k] else 0
  }

  function Inc(m: Series, k: Key): Series {
    m[k := Get(m, k) + 1]
  }

  function Reset(m: Series, k: Key): Series {
    m[k := 0]
  }

  function KeyOf(v: TrackedValidator): Key {
    (v.address, v.name)
  }

  predicate NotAbsent(sig: CommitSig) {
    sig.flag != FlagAbsent
  }

  function Digest(block: Block, status: seq<ValidatorStatus>): BlockInfo {
    BlockInfo(block.height, |block.txs|, |block.signatures|, CountIf(block.signatures, NotAbsent),
              block.proposerAddress, status)
  }

  /** The positions of a commit whose slot is not absent. */
  function PresentAt(sigs: seq<CommitSig>): set<nat> {
    set p: nat | p < |sigs| && sigs[p].flag != FlagAbsent
  }

  lemma {:induction false} PresentCount(sigs: seq<CommitSig>)
    ensures CountIf(sigs, NotAbsent) == |PresentAt(sigs)|
  {
    if |sigs| > 0 {
      var init, n := sigs[..|sigs| - 1], |sigs| - 1;
      PresentCount(init);
      assert PresentAt(sigs) == PresentAt(init) + (if sigs[n].flag != FlagAbsent then {n} else {});
    }
  }

  /** The digest in terms of the block: who is present, out of how many, and what else is copied. */
  lemma DigestMeaning(block: Block, status: seq<ValidatorStatus>)
    ensures var info := Digest(block, status);
            && info.height == block.height && info.transactions == |block.txs|
            && info.totalValidators == |block.signatures|
            && info.signedValidators == |PresentAt(block.signatures)|
            && info.proposerAddress == block.proposerAddress && info.validatorStatus == status
            && info.signedValidators <= info.totalValidators
            && (info.signedValidators < info.totalValidators <==>
                exists p :: 0 <= p < |block.signatures| && block.signatures[p].flag == FlagAbsent)
  {
    PresentCount(block.signatures);
    SomeAbsent(block.signatures);
  }

  lemma {:induction false} SomeAbsent(sigs: seq<CommitSig>)
    ensures CountIf(sigs, NotAbsent) < |sigs| <==> exists p :: 0 <= p < |sigs| && sigs[p].flag == FlagAbsent
  {
    if |sigs| > 0 {
      var init := sigs[..|sigs| - 1];
      SomeAbsent(init);
      if p :| 0 <= p < |init| && init[p].flag == FlagAbsent { assert sigs[p].flag == FlagAbsent; }
    }
  }

  method NewBlockInfo(block: Block, status: seq<ValidatorStatus>) returns (info: BlockInfo)
    ensures info == Digest(block, status)
    ensures info.totalValidators == |block.signatures| && info.signedValidators == |PresentAt(block.signatures)|
  {
    var signedValidators := 0;
    for i := 0 to |block.signatures|
      invariant signedValidators == CountIf(block.signatures[..i], NotAbsent)
    {
      CountIfSnoc(block.signatures[..i], block.signatures[i], NotAbsent);
      assert block.signatures[..i + 1] == block.signatures[..i] + [block.signatures[i]];
      if block.signatures[i].flag != FlagAbsent {
        signedValidators := signedValidators + 1;
      }
    }
    assert block.signatures[..|block.signatures|] == block.signatures;
    PresentCount(block.signatures);
    info := BlockInfo(block.height, |block.txs|, |block.signatures|, signedValidators,
                      block.proposerAddress, status);
  }

  // Decimals keep 16 digits after the point, so 1.0 is UNIT and 0.66 is SOLO_THRESHOLD.
  const UNIT: nat := 10_000_000_000_000_000
  const SOLO_THRESHOLD: nat := 6_600_000_000_000_000

  /** Division of the decimal library: 16 digits, the last one rounded half up. */
  function DivRound(num: nat, den: nat): nat
    requires den > 0
  {
    var q, r := num * UNIT / den, num * UNIT % den;
    if 2 * r >= den then q + 1 else q
  }

  function SignedRatio(b: BlockInfo): nat {
    if b.totalValidators == 0 then 0 else DivRound(b.signedValidators, b.totalValidators)
  }

  predicate SoloMiss(b: BlockInfo) {
    SignedRatio(b) > SOLO_THRESHOLD
  }

  lemma MulMonotone(a: int, b: int, t: nat)
    requires a <= b
    ensures a * t <= b * t
  {
  }

  /** Rounding makes the comparison with 0.66 differ from exact arithmetic only for huge commits. */
  lemma SoloMissExactly(b: BlockInfo)
    ensures b.totalValidators == 0 ==> !SoloMiss(b)
    ensures b.totalValidators > 0 ==>
              (SoloMiss(b) <==>
               400_000_000_000_000 * (50 * b.signedValidators - 33 * b.totalValidators) >= b.totalValidators)
  {
    var s, t := b.signedValidators, b.totalValidators;
    if t > 0 {
      var q, r := s * UNIT / t, s * UNIT % t;
      assert s * UNIT == q * t + r;
      if q >= SOLO_THRESHOLD { MulMonotone(SOLO_THRESHOLD, q, t); }
      if q > SOLO_THRESHOLD { MulMonotone(SOLO_THRESHOLD + 1, q, t); }
      if q < SOLO_THRESHOLD { MulMonotone(q, SOLO_THRESHOLD - 1, t); }
    }
  }

  /** For every commit of up to 4 * 10^14 slots a miss is solo iff more than 66% signed, exactly. */
  lemma SoloMissIsTwoThirds(b: BlockInfo)
    requires b.signedValidators <= b.totalValidators <= 400_000_000_000_000
    ensures SoloMiss(b) <==> 50 * b.signedValidators > 33 * b.totalValidators
  {
    SoloMissExactly(b);
  }

  /** The bound is tight: three slots more and the rounding can hide a majority above 66%. */
  lemma SoloMissBoundIsTight(b: BlockInfo)
    requires b.totalValidators == 400_000_000_000_003 && b.signedValidators == 264_000_000_000_002
    ensures 50 * b.signedValidators > 33 * b.totalValidators && !SoloMiss(b)
  {
    SoloMissExactly(b);
  }
}
