/** What the last commit of a block says about each tracked validator. */
module CommitStatus {
  import opened Seqs
  import opened BlockTypes

  function SlotOf(address: string): CommitSig -> bool {
    (sig: CommitSig) => sig.validatorAddress == address
  }

  function SignedBy(address: string): CommitSig -> bool {
    (sig: CommitSig) => sig.validatorAddress == address && NotAbsent(sig)
  }

  /** The first signature given wins; without one, the last slot of the validator does. */
  function StatusOf(v: TrackedValidator, validatorSet: seq<string>, sigs: seq<CommitSig>): ValidatorStatus {
    var i, slot := FirstIndex(sigs, SignedBy(v.address)), AfterLast(sigs, SlotOf(v.address));
    if i < |sigs| then ValidatorStatus(v.address, v.name, true, true, i + 1)
    else ValidatorStatus(v.address, v.name, v.address in validatorSet || slot > 0, false, slot)
  }

  function Statuses(tracked: seq<TrackedValidator>, validatorSet: seq<string>, sigs: seq<CommitSig>)
    : (r: seq<ValidatorStatus>)
    ensures |r| == |tracked|
    ensures forall i :: 0 <= i < |tracked| ==> r[i] == StatusOf(tracked[i], validatorSet, sigs)
  {
    if |tracked| == 0 then []
    else Statuses(tracked[..|tracked| - 1], validatorSet, sigs)
         + [StatusOf(tracked[|tracked| - 1], validatorSet, sigs)]
  }

  /** The digest of a block is what the watcher puts on its channel. */
  function Observe(block: Block, tracked: seq<TrackedValidator>, validatorSet: seq<string>): BlockInfo {
    Digest(block, Statuses(tracked, validatorSet, block.signatures))
  }

  /** The slot is a signature of this validator: it carries the address and is not absent. */
  predicate Gives(sig: CommitSig, address: string) {
    sig.validatorAddress == address && sig.flag != FlagAbsent
  }

  /** Signed, bonded and rank in terms of the commit alone; between them they fix the status. */
  lemma StatusMeaning(v: TrackedValidator, validatorSet: seq<string>, sigs: seq<CommitSig>)
    ensures var st := StatusOf(v, validatorSet, sigs);
            && st.address == v.address && st.name == v.name
            && (st.signed <==> exists i :: 0 <= i < |sigs| && Gives(sigs[i], v.address))
            && (st.signed ==> st.bonded)
            && (st.bonded <==>
                v.address in validatorSet || exists i :: 0 <= i < |sigs| && sigs[i].validatorAddress == v.address)
            && (st.rank > 0 <==> exists i :: 0 <= i < |sigs| && sigs[i].validatorAddress == v.address)
            && (st.rank > 0 ==> st.rank <= |sigs| && sigs[st.rank - 1].validatorAddress == v.address)
            && (st.signed ==> Gives(sigs[st.rank - 1], v.address) &&
                              forall j :: 0 <= j < st.rank - 1 ==> !Gives(sigs[j], v.address))
            && (!st.signed ==> forall j :: st.rank <= j < |sigs| ==> sigs[j].validatorAddress != v.address)
  {
    var i, slot := FirstIndex(sigs, SignedBy(v.address)), AfterLast(sigs, SlotOf(v.address));
    if i < |sigs| {
      assert SlotOf(v.address)(sigs[i]) && SignedBy(v.address)(sigs[i]);
    } else if slot > 0 {
      assert SlotOf(v.address)(sigs[slot - 1]);
    }
    assert forall j :: 0 <= j < |sigs| ==> (SignedBy(v.address)(sigs[j]) <==> Gives(sigs[j], v.address));
    assert forall j :: 0 <= j < |sigs| ==> (SlotOf(v.address)(sigs[j]) <==> sigs[j].validatorAddress == v.address);
  }

  /** A signed status points at a present slot of its own validator. */
  lemma SignedSlot(v: TrackedValidator, validatorSet: seq<string>, sigs: seq<CommitSig>)
    requires StatusOf(v, validatorSet, sigs).signed
    ensures var p := StatusOf(v, validatorSet, sigs).rank;
            1 <= p <= |sigs| && NotAbsent(sigs[p - 1]) && sigs[p - 1].validatorAddress == v.address
  {
  }

  predicate Signed(st: ValidatorStatus) {
    st.signed
  }

  predicate DistinctAddresses(tracked: seq<TrackedValidator>) {
    forall i, j :: 0 <= i < j < |tracked| ==> tracked[i].address != tracked[j].address
  }

  /** The commit slots that the signed entries point at. */
  function SlotsOf(sts: seq<ValidatorStatus>): set<nat> {
    set st | st in sts && st.signed :: st.rank
  }

  predicate DistinctSlots(sts: seq<ValidatorStatus>) {
    forall i, j :: 0 <= i < j < |sts| && sts[i].signed && sts[j].signed ==> sts[i].rank != sts[j].rank
  }

  lemma {:induction false} DistinctSlotsCount(sts: seq<ValidatorStatus>)
    requires DistinctSlots(sts)
    ensures |SlotsOf(sts)| == CountIf(sts, Signed)
  {
    if |sts| > 0 {
      var init, st := sts[..|sts| - 1], sts[|sts| - 1];
      DistinctSlotsCount(init);
      assert sts == init + [st];
      if st.signed {
        assert SlotsOf(sts) == SlotsOf(init) + {st.rank};
      } else {
        assert SlotsOf(sts) == SlotsOf(init);
      }
    }
  }

  /** Two validators with different addresses never share a slot. */
  lemma SlotsInjective(tracked: seq<TrackedValidator>, validatorSet: seq<string>, sigs: seq<CommitSig>)
    requires DistinctAddresses(tracked)
    ensures DistinctSlots(Statuses(tracked, validatorSet, sigs))
  {
    var sts := Statuses(tracked, validatorSet, sigs);
    forall i, j | 0 <= i < j < |sts| && sts[i].signed && sts[j].signed ensures sts[i].rank != sts[j].rank {
      DifferentSlots(tracked[i], tracked[j], validatorSet, sigs);
    }
  }

  lemma DifferentSlots(v: TrackedValidator, w: TrackedValidator, validatorSet: seq<string>, sigs: seq<CommitSig>)
    requires v.address != w.address
    requires StatusOf(v, validatorSet, sigs).signed && StatusOf(w, validatorSet, sigs).signed
    ensures StatusOf(v, validatorSet, sigs).rank != StatusOf(w, validatorSet, sigs).rank
  {
    SignedSlot(v, validatorSet, sigs);
    SignedSlot(w, validatorSet, sigs);
  }

  function PresentSlots(sigs: seq<CommitSig>): (r: set<nat>)
    ensures forall p :: p in r <==> 1 <= p <= |sigs| && NotAbsent(sigs[p - 1])
  {
    if |sigs| == 0 then {}
    else PresentSlots(sigs[..|sigs| - 1]) + (if NotAbsent(sigs[|sigs| - 1]) then {|sigs|} else {})
  }

  lemma {:induction false} PresentSlotsSize(sigs: seq<CommitSig>)
    ensures |PresentSlots(sigs)| == CountIf(sigs, NotAbsent)
  {
    if |sigs| > 0 { PresentSlotsSize(sigs[..|sigs| - 1]); }
  }

  lemma {:induction false} SubsetSize<T>(a: set<T>, b: set<T>)
    requires a <= b
    ensures |a| <= |b|
  {
    assert b == a + (b - a);
  }

  lemma SignedSlotsPresent(tracked: seq<TrackedValidator>, validatorSet: seq<string>, sigs: seq<CommitSig>)
    ensures SlotsOf(Statuses(tracked, validatorSet, sigs)) <= PresentSlots(sigs)
  {
    var sts := Statuses(tracked, validatorSet, sigs);
    forall i | 0 <= i < |sts| && sts[i].signed ensures sts[i].rank in PresentSlots(sigs) {
      SignedSlotPresent(tracked[i], validatorSet, sigs);
    }
  }

  lemma SignedSlotPresent(v: TrackedValidator, validatorSet: seq<string>, sigs: seq<CommitSig>)
    requires StatusOf(v, validatorSet, sigs).signed
    ensures StatusOf(v, validatorSet, sigs).rank in PresentSlots(sigs)
  {
    SignedSlot(v, validatorSet, sigs);
    PresentSlot(sigs, StatusOf(v, validatorSet, sigs).rank);
  }

  lemma PresentSlot(sigs: seq<CommitSig>, p: nat)
    requires 1 <= p <= |sigs| && NotAbsent(sigs[p - 1])
    ensures p in PresentSlots(sigs)
  {
  }

  /** The tracked validators seen signing are among the signers of the digest, who are among its slots. */
  lemma SignedCountsAgree(block: Block, tracked: seq<TrackedValidator>, validatorSet: seq<string>)
    requires DistinctAddresses(tracked)
    ensures var info := Observe(block, tracked, validatorSet);
            CountIf(info.validatorStatus, Signed) <= info.signedValidators <= info.totalValidators
  {
    var sts := Statuses(tracked, validatorSet, block.signatures);
    SlotsInjective(tracked, validatorSet, block.signatures);
    DistinctSlotsCount(sts);
    SignedSlotsPresent(tracked, validatorSet, block.signatures);
    SubsetSize(SlotsOf(sts), PresentSlots(block.signatures));
    PresentSlotsSize(block.signatures);
  }
}
