/** Ranking the staking validators in place, the seat price, and the rank of each tracked validator. */
module Validators {
  import opened Seqs
  import opened BlockTypes

  datatype BondStatus = Unbonded | Unbonding | Bonded

  /** The address stands for the one derived from the consensus public key. */
  datatype Validator = Validator(address: string, jailed: bool, status: BondStatus, tokens: int)

  predicate Less(a: Validator, b: Validator) {
    if a.jailed && !b.jailed then false
    else if !a.jailed && b.jailed then true
    else if a.status == Bonded && b.status != Bonded then true
    else if a.status != Bonded && b.status == Bonded then false
    else a.tokens > b.tokens
  }

  lemma StrictWeakOrder(a: Validator, b: Validator, c: Validator)
    ensures !Less(a, a)
    ensures Less(a, b) && Less(b, c) ==> Less(a, c)
    ensures !Less(a, b) && !Less(b, a) && !Less(b, c) && !Less(c, b) ==> !Less(a, c) && !Less(c, a)
  {
  }

  /** The four groups of the ranking: active, inactive, then the jailed ones the same way. */
  function Segment(v: Validator): nat {
    (if v.jailed then 2 else 0) + (if v.status == Bonded then 0 else 1)
  }

  predicate Sorted(s: seq<Validator>) {
    forall i, j :: 0 <= i < j < |s| ==> !Less(s[j], s[i])
  }

  // ---- The sort ----

  method Swap(a: array<Validator>, i: nat, j: nat)
    requires i < a.Length && j < a.Length
    modifies a
    ensures a[..] == old(a[..])[i := old(a[j])][j := old(a[i])]
    ensures multiset(a[..]) == multiset(old(a[..]))
  {
    a[i], a[j] := a[j], a[i];
  }

  /** Everything up to i is in order but for the element at j, which may belong further left. */
  predicate SortedBut(s: seq<Validator>, i: nat, j: nat)
    requires j <= i < |s|
  {
    forall p, q :: 0 <= p < q <= i && q != j ==> !Less(s[q], s[p])
  }

  method Sort(a: array<Validator>)
    modifies a
    ensures Sorted(a[..]) && multiset(a[..]) == multiset(old(a[..]))
  {
    var i := 1;
    while i < a.Length
      invariant 1 <= i <= a.Length || (i == 1 && a.Length == 0)
      invariant i <= a.Length ==> Sorted(a[..i])
      invariant multiset(a[..]) == multiset(old(a[..]))
    {
      Insert(a, i);
      i := i + 1;
    }
    assert a.Length > 0 ==> a[..a.Length] == a[..];
  }

  method Insert(a: array<Validator>, i: nat)
    requires i < a.Length && Sorted(a[..i])
    modifies a
    ensures Sorted(a[..i + 1]) && multiset(a[..]) == multiset(old(a[..]))
  {
    var j: nat := i;
    assert forall k :: 0 <= k < i ==> a[..i][k] == a[k];
    while j > 0 && Less(a[j], a[j - 1])
      invariant j <= i
      invariant SortedBut(a[..], i, j)
      invariant multiset(a[..]) == multiset(old(a[..]))
    {
      SwapKeepsSorted(a[..], i, j);
      Swap(a, j, j - 1);
      j := j - 1;
    }
    SortedAtLast(a[..], i, j);
  }

  lemma SwapKeepsSorted(s: seq<Validator>, i: nat, j: nat)
    requires 0 < j <= i < |s| && SortedBut(s, i, j) && Less(s[j], s[j - 1])
    ensures SortedBut(s[j := s[j - 1]][j - 1 := s[j]], i, j - 1)
  {
  }

  lemma SortedAtLast(s: seq<Validator>, i: nat, j: nat)
    requires j <= i < |s| && SortedBut(s, i, j) && (j > 0 ==> !Less(s[j], s[j - 1]))
    ensures Sorted(s[..i + 1])
  {
    forall p, q | 0 <= p < q <= i ensures !Less(s[q], s[p]) {
      if q == j && p < j - 1 { assert !Less(s[j - 1], s[p]); }
    }
  }

  // ---- What the ranking means, for any order of ties ----

  function AtMost(k: nat): Validator -> bool {
    (v: Validator) => Segment(v) <= k
  }

  /** The groups are contiguous, cut where their sizes say, and tokens descend within each. */
  lemma FourSegments(input: seq<Validator>, s: seq<Validator>)
    requires Sorted(s) && multiset(s) == multiset(input)
    ensures forall i, k: nat :: 0 <= i < |s| && k <= 3 ==>
              (Segment(s[i]) <= k <==> i < CountIf(input, AtMost(k)))
    ensures forall i, j :: 0 <= i < j < |s| && Segment(s[i]) == Segment(s[j]) ==> s[i].tokens >= s[j].tokens
  {
    forall k: nat | k <= 3
      ensures forall i :: 0 <= i < |s| ==> (Segment(s[i]) <= k <==> i < CountIf(input, AtMost(k)))
    {
      CountIfPermutation(s, input, AtMost(k));
      forall i, j | 0 <= i < j < |s| && AtMost(k)(s[j]) ensures AtMost(k)(s[i]) { assert !Less(s[j], s[i]); }
      CountIfPrefix(s, AtMost(k));
      assert forall i :: 0 <= i < |s| ==> (AtMost(k)(s[i]) <==> i < CountIf(s, AtMost(k)));
    }
  }

  /** Read off the flags: no jailed one first, then no unbonded one first, then no poorer one first. */
  lemma RankingOrder(s: seq<Validator>, i: nat, j: nat)
    requires Sorted(s) && i < j < |s|
    ensures s[i].jailed ==> s[j].jailed
    ensures s[i].jailed == s[j].jailed && s[j].status == Bonded ==> s[i].status == Bonded
    ensures s[i].jailed == s[j].jailed && (s[i].status == Bonded <==> s[j].status == Bonded) ==>
              s[i].tokens >= s[j].tokens
  {
    assert !Less(s[j], s[i]);
  }

  function Beats(v: Validator): Validator -> bool {
    (x: Validator) => Less(x, v)
  }

  function Ties(v: Validator): Validator -> bool {
    (x: Validator) => !Less(x, v) && !Less(v, x)
  }

  function BeatenBy(v: Validator): Validator -> bool {
    (x: Validator) => Less(v, x)
  }

  function NotBeatenBy(v: Validator): Validator -> bool {
    (x: Validator) => !Less(v, x)
  }

  lemma {:induction false} ThreeWays(s: seq<Validator>, v: Validator)
    ensures CountIf(s, Beats(v)) + CountIf(s, Ties(v)) == CountIf(s, NotBeatenBy(v))
    ensures CountIf(s, NotBeatenBy(v)) + CountIf(s, BeatenBy(v)) == |s|
  {
    if |s| > 0 { ThreeWays(s[..|s| - 1], v); }
  }

  /** A rank lies between those strictly better and those strictly worse; without ties it is exact. */
  lemma RankBounds(input: seq<Validator>, s: seq<Validator>, i: nat)
    requires Sorted(s) && multiset(s) == multiset(input) && i < |s|
    ensures var v, rank := s[i], i + 1;
            && CountIf(input, Beats(v)) < rank <= |input| - CountIf(input, BeatenBy(v))
            && CountIf(input, Ties(v)) >= 1
            && (CountIf(input, Ties(v)) == 1 ==> rank == 1 + CountIf(input, Beats(v)))
  {
    var v := s[i];
    assert |multiset(s)| == |s| && |multiset(input)| == |input|;
    CountIfPermutation(s, input, Beats(v));
    CountIfPermutation(s, input, BeatenBy(v));
    CountIfPermutation(s, input, Ties(v));
    ThreeWays(s, v);
    forall p, q | 0 <= p < q < |s|
      ensures (Beats(v)(s[q]) ==> Beats(v)(s[p])) && (NotBeatenBy(v)(s[q]) ==> NotBeatenBy(v)(s[p]))
    {
      assert !Less(s[q], s[p]);
    }
    CountIfPrefix(s, Beats(v));
    CountIfPrefix(s, NotBeatenBy(v));
    assert !Beats(v)(s[i]) && NotBeatenBy(v)(s[i]);
  }

  // ---- Seat price ----

  predicate IsBonded(v: Validator) {
    v.status == Bonded
  }

  /** The fold of the code, in unscaled tokens: zero stands for "none yet". */
  function SeatFold(s: seq<Validator>): int {
    if |s| == 0 then 0
    else
      var price, v := SeatFold(s[..|s| - 1]), s[|s| - 1];
      if IsBonded(v) && (price == 0 || price > v.tokens) then v.tokens else price
  }

  /** m is the least number of tokens of a bonded validator. */
  ghost predicate IsSeatPrice(s: seq<Validator>, m: int) {
    && (exists v :: v in s && IsBonded(v) && v.tokens == m)
    && (forall v :: v in s && IsBonded(v) ==> m <= v.tokens)
  }

  ghost predicate NonNegative(s: seq<Validator>) {
    forall v :: v in s ==> v.tokens >= 0
  }

  /** With positive tokens the fold is the minimum, in whatever order the validators come. */
  lemma {:induction false} PositiveFoldIsMinimum(s: seq<Validator>)
    requires forall v :: v in s && IsBonded(v) ==> v.tokens > 0
    ensures (exists v :: v in s && IsBonded(v)) ==> IsSeatPrice(s, SeatFold(s))
    ensures (forall v :: v in s ==> !IsBonded(v)) ==> SeatFold(s) == 0
  {
    if |s| > 0 {
      var init, v := s[..|s| - 1], s[|s| - 1];
      assert s == init + [v];
      PositiveFoldIsMinimum(init);
      if x :| x in init && IsBonded(x) {
        assert IsSeatPrice(init, SeatFold(init));
        assert SeatFold(init) > 0;
      }
    }
  }

  /** The fold is zero exactly when the last bonded validator has no tokens, or there is none. */
  lemma {:induction false} FoldIsZero(s: seq<Validator>)
    requires NonNegative(s)
    ensures SeatFold(s) >= 0
    ensures SeatFold(s) == 0 <==> AfterLast(s, IsBonded) == 0 || s[AfterLast(s, IsBonded) - 1].tokens == 0
  {
    if |s| > 0 {
      assert s == s[..|s| - 1] + [s[|s| - 1]];
      FoldIsZero(s[..|s| - 1]);
    }
  }

  /** An active validator without tokens is forgotten when a jailed one that has some still counts as bonded. */
  ghost predicate ZeroForgotten(s: seq<Validator>) {
    && (exists v :: v in s && IsBonded(v) && !v.jailed && v.tokens == 0)
    && (exists v :: v in s && IsBonded(v) && v.jailed)
    && (forall v :: v in s && IsBonded(v) && v.jailed ==> v.tokens > 0)
  }

  /** The last bonded validator is jailed if any is, and has the fewest tokens of its group. */
  lemma LastBonded(s: seq<Validator>) returns (k: nat)
    requires Sorted(s) && exists v :: v in s && IsBonded(v)
    ensures k < |s| && k + 1 == AfterLast(s, IsBonded) && IsBonded(s[k])
    ensures forall v :: v in s && IsBonded(v) && v.jailed ==> s[k].jailed
    ensures forall v :: v in s && IsBonded(v) && v.jailed == s[k].jailed ==> s[k].tokens <= v.tokens
  {
    var after := AfterLast(s, IsBonded);
    var w :| w in s && IsBonded(w);
    assert after > 0;
    k := after - 1;
    forall v | v in s && IsBonded(v)
      ensures (v.jailed ==> s[k].jailed) && (v.jailed == s[k].jailed ==> s[k].tokens <= v.tokens)
    {
      var i :| 0 <= i < |s| && s[i] == v;
      assert i <= k;
      if i < k { assert !Less(s[k], s[i]); }
    }
  }

  /** With a zero among the bonded ones the fold finds it unless it is forgotten. */
  lemma FoldWithZero(s: seq<Validator>)
    requires Sorted(s) && NonNegative(s) && exists v :: v in s && IsBonded(v) && v.tokens == 0
    ensures SeatFold(s) == 0 <==> !ZeroForgotten(s)
  {
    var z :| z in s && IsBonded(z) && z.tokens == 0;
    FoldIsZero(s);
    var k := LastBonded(s);
    assert s[k] in s;
    if s[k].tokens > 0 {
      assert s[k].jailed && !z.jailed;
    } else if s[k].jailed {
      assert !ZeroForgotten(s);
    }
  }

  lemma MinimumIsZero(s: seq<Validator>, m: int)
    requires NonNegative(s) && exists v :: v in s && IsBonded(v) && v.tokens == 0
    ensures IsSeatPrice(s, m) <==> m == 0
  {
    var z :| z in s && IsBonded(z) && z.tokens == 0;
  }

  lemma OrderIrrelevant(a: seq<Validator>, b: seq<Validator>, m: int)
    requires forall v :: v in a <==> v in b
    ensures IsSeatPrice(a, m) <==> IsSeatPrice(b, m)
    ensures ZeroForgotten(a) <==> ZeroForgotten(b)
    ensures NonNegative(a) <==> NonNegative(b)
  {
  }

  /** After the sort, the fold is the minimum over the bonded validators iff no zero is forgotten. */
  lemma SeatPriceExactly(input: seq<Validator>, s: seq<Validator>)
    requires Sorted(s) && multiset(s) == multiset(input) && NonNegative(input)
    requires exists v :: v in input && IsBonded(v)
    ensures IsSeatPrice(input, SeatFold(s)) <==> !ZeroForgotten(input)
  {
    SameMembers(s, input);
    OrderIrrelevant(input, s, SeatFold(s));
    if exists v :: v in s && IsBonded(v) && v.tokens == 0 {
      MinimumIsZero(s, SeatFold(s));
      FoldWithZero(s);
    } else {
      PositiveFoldIsMinimum(s);
    }
  }

  lemma SameMembers(a: seq<Validator>, b: seq<Validator>)
    requires multiset(a) == multiset(b)
    ensures forall v :: v in a <==> v in b
    ensures |a| == |b|
  {
    forall v ensures v in a <==> v in b {
      assert v in a <==> v in multiset(a);
      assert v in b <==> v in multiset(b);
    }
    assert |multiset(a)| == |a| && |multiset(b)| == |b|;
  }

  /** One seat with no tokens, one jailed with some: the reported price is not the minimum. */
  lemma ZeroForgottenExample(zero: Validator, jailed: Validator)
    requires zero == Validator("A", false, Bonded, 0) && jailed == Validator("B", true, Bonded, 7)
    ensures Sorted([zero, jailed]) && SeatFold([zero, jailed]) == 7 && !IsSeatPrice([zero, jailed], 7)
  {
    assert [zero, jailed][..1] == [zero] && [zero][..0] == [];
    assert SeatFold([zero]) == 0;
    assert zero in [zero, jailed];
  }

  /** With nobody both jailed and bonded, the price is the tokens of the last seat: rank = #bonded. */
  lemma SeatPriceIsLatestValidator(input: seq<Validator>, s: seq<Validator>)
    requires Sorted(s) && multiset(s) == multiset(input) && NonNegative(input)
    requires exists v :: v in input && IsBonded(v)
    requires forall v :: v in input && IsBonded(v) ==> !v.jailed
    ensures 0 < CountIf(input, IsBonded) <= |s|
    ensures SeatFold(s) == s[CountIf(input, IsBonded) - 1].tokens
    ensures IsSeatPrice(input, SeatFold(s))
  {
    SameMembers(s, input);
    CountIfPermutation(s, input, IsBonded);
    SeatPriceExactly(input, s);
    OrderIrrelevant(input, s, SeatFold(s));
    var k := LastBonded(s);
    BondedFirst(s);
    assert s[k] in s && !s[k].jailed;
    assert k + 1 == CountIf(s, IsBonded);
  }

  /** With nobody both jailed and bonded, the bonded validators are the first ones. */
  lemma BondedFirst(s: seq<Validator>)
    requires Sorted(s) && forall v :: v in s && IsBonded(v) ==> !v.jailed
    ensures AfterLast(s, IsBonded) == CountIf(s, IsBonded)
  {
    forall i, j | 0 <= i < j < |s| && IsBonded(s[j]) ensures IsBonded(s[i]) {
      assert s[j] in s && !Less(s[j], s[i]);
    }
    CountIfPrefix(s, IsBonded);
    var k := AfterLast(s, IsBonded);
    if k > 0 { assert IsBonded(s[k - 1]); }
    assert k < |s| ==> !IsBonded(s[k]);
  }

  // ---- Scaling by the exponent of the denomination ----

  function Pow10(e: nat): (r: real)
    ensures r > 0.0
  {
    if e == 0 then 1.0 else 10.0 * Pow10(e - 1)
  }

  function Scaled(tokens: int, exponent: nat): real {
    tokens as real / Pow10(exponent)
  }

  /** Scaling divides by ten, as often as the exponent says. */
  lemma ScaledMeaning(tokens: int, exponent: nat)
    ensures Scaled(tokens, 0) == tokens as real
    ensures 10.0 * Scaled(tokens, exponent + 1) == Scaled(tokens, exponent)
  {
    var p := Pow10(exponent);
    assert Pow10(exponent + 1) == 10.0 * p;
    TenTimes(tokens as real, p);
  }

  lemma TenTimes(x: real, p: real)
    requires p > 0.0
    ensures 10.0 * (x / (10.0 * p)) == x / p
  {
    var q := x / (10.0 * p);
    assert q * (10.0 * p) == x;
    assert (10.0 * q) * p == q * (10.0 * p);
  }

  lemma ScaledOrder(x: int, y: int, exponent: nat)
    ensures Scaled(x, exponent) > Scaled(y, exponent) <==> x > y
    ensures Scaled(x, exponent) == 0.0 <==> x == 0
  {
    var p := Pow10(exponent);
    var a, b := Scaled(x, exponent), Scaled(y, exponent);
    assert a * p == x as real && b * p == y as real;
    if a > b { Scales(b, a, p); }
    if a <= b { Scales(a, b, p); }
    if x == 0 { assert a == 0.0; } else { Scales(a, 0.0, p); }
  }

  lemma Scales(a: real, b: real, p: real)
    requires p > 0.0
    ensures a < b ==> a * p < b * p
    ensures a == b ==> a * p == b * p
  {
  }

  // ---- The watcher ----

  /** The rank, tokens, bonded and jailed gauges of one tracked validator, always set together. */
  datatype Standing = Standing(rank: nat, tokens: real, bonded: bool, jailed: bool)

  function At(address: string): Validator -> bool {
    (v: Validator) => v.address == address
  }

  /**
   * What the gauges of an address must say after the input was ranked as s: the entry at that rank is the
   * first with the address, the rank is above everyone strictly better and below everyone strictly worse in
   * the input, and tokens, status and jail flag are that entry's own.
   */
  ghost predicate Reported(st: Standing, address: string, input: seq<Validator>, s: seq<Validator>, exponent: nat) {
    && 1 <= st.rank <= |s|
    && (forall j :: 0 <= j < st.rank - 1 ==> s[j].address != address)
    && var v := s[st.rank - 1];
       && v.address == address
       && CountIf(input, Beats(v)) < st.rank <= |input| - CountIf(input, BeatenBy(v))
       && st.tokens == Scaled(v.tokens, exponent)
       && (st.bonded <==> v.status == Bonded) && (st.jailed <==> v.jailed)
  }

  class ValidatorsWatcher {
    const validators: seq<TrackedValidator>
    const denomExponent: nat
    var seatPrice: real
    var standings: map<Key, Standing>

    constructor (validators: seq<TrackedValidator>, denomExponent: nat)
      ensures this.validators == validators && this.denomExponent == denomExponent
      ensures seatPrice == 0.0 && standings == map[]
    {
      this.validators, this.denomExponent := validators, denomExponent;
      seatPrice, standings := 0.0, map[];
    }

    /** An exponent of zero is taken for one. */
    function Exponent(): nat {
      if denomExponent == 0 then 1 else denomExponent
    }

    function StandingIn(s: seq<Validator>, i: nat): Standing
      requires i < |s|
    {
      Standing(i + 1, Scaled(s[i].tokens, Exponent()), IsBonded(s[i]), s[i].jailed)
    }

    /** k labels a tracked validator whose address occurs in the input. */
    ghost predicate Present(k: Key, input: seq<Validator>) {
      (exists v :: v in validators && KeyOf(v) == k) && exists v :: v in input && v.address == k.0
    }

    lemma ListedIffPresent(k: Key, input: seq<Validator>, s: seq<Validator>)
      requires multiset(s) == multiset(input)
      ensures Listed(k, s) <==> Present(k, input)
    {
      assert forall v :: v in s <==> v in multiset(s);
      assert forall v :: v in input <==> v in multiset(input);
      var i := FirstIndex(s, At(k.0));
      if i < |s| { assert At(k.0)(s[i]) && s[i] in input; }
      if v :| v in input && v.address == k.0 {
        var j :| 0 <= j < |s| && s[j] == v;
        assert At(k.0)(s[j]);
      }
    }

    lemma ListedIsReported(k: Key, input: seq<Validator>, s: seq<Validator>)
      requires Sorted(s) && multiset(s) == multiset(input) && Listed(k, s)
      ensures Reported(StandingIn(s, FirstIndex(s, At(k.0))), k.0, input, s,
                       if denomExponent == 0 then 1 else denomExponent)
    {
      var i := FirstIndex(s, At(k.0));
      assert At(k.0)(s[i]);
      RankBounds(input, s, i);
      forall j | 0 <= j < i ensures s[j].address != k.0 { assert !At(k.0)(s[j]); }
    }

    method HandleValidators(a: array<Validator>)
      modifies this, a
      ensures Sorted(a[..]) && multiset(a[..]) == multiset(old(a[..]))
      ensures seatPrice == if a.Length > 0
                           then Scaled(SeatFold(a[..]), if denomExponent == 0 then 1 else denomExponent)
                           else old(seatPrice)
      ensures forall k :: k in standings <==> k in old(standings) || Present(k, old(a[..]))
      ensures forall k :: Present(k, old(a[..])) ==>
                Reported(standings[k], k.0, old(a[..]), a[..], if denomExponent == 0 then 1 else denomExponent)
      ensures forall k :: k in old(standings) && !Present(k, old(a[..])) ==> standings[k] == old(standings)[k]
    {
      ghost var input := a[..];
      Sort(a);
      SetSeatPrice(a[..]);
      SetStandings(a[..]);
      forall k ensures Listed(k, a[..]) <==> Present(k, input) { ListedIffPresent(k, input, a[..]); }
      forall k | Present(k, input)
        ensures Reported(standings[k], k.0, input, a[..], if denomExponent == 0 then 1 else denomExponent)
      {
        ListedIsReported(k, input, a[..]);
      }
    }

    method SetSeatPrice(s: seq<Validator>)
      modifies this`seatPrice
      ensures seatPrice == if |s| > 0 then Scaled(SeatFold(s), Exponent()) else old(seatPrice)
    {
      var price := 0.0;
      ScaledOrder(0, 0, Exponent());
      for i := 0 to |s|
        invariant price == Scaled(SeatFold(s[..i]), Exponent())
        invariant seatPrice == if i > 0 then price else old(seatPrice)
      {
        assert s[..i + 1][..i] == s[..i];
        ScaledOrder(SeatFold(s[..i]), s[i].tokens, Exponent());
        var tokens := Scaled(s[i].tokens, Exponent());
        if s[i].status == Bonded && (price == 0.0 || price > tokens) {
          price := tokens;
        }
        seatPrice := price;
      }
      assert s[..|s|] == s;
    }

    /** k labels a tracked validator that is among those of s. */
    predicate Listed(k: Key, s: seq<Validator>) {
      FirstIndex(s, At(k.0)) < |s| && exists v :: v in validators && KeyOf(v) == k
    }

    method SetStandings(s: seq<Validator>)
      modifies this`standings
      ensures forall k :: k in standings <==> k in old(standings) || Listed(k, s)
      ensures forall k :: k in standings ==>
                standings[k] == if Listed(k, s) then StandingIn(s, FirstIndex(s, At(k.0))) else old(standings)[k]
    {
      for n := 0 to |validators|
        invariant forall k :: k in standings <==> k in old(standings) || ListedIn(k, s, n)
        invariant forall k :: k in standings ==>
                    standings[k] == if ListedIn(k, s, n) then StandingIn(s, FirstIndex(s, At(k.0)))
                                    else old(standings)[k]
      {
        var k := KeyOf(validators[n]);
        var i := Find(s, validators[n].address);
        ListedNext(s, n);
        if i < |s| {
          standings := standings[k := StandingIn(s, i)];
        }
      }
      forall k ensures Listed(k, s) == ListedIn(k, s, |validators|) { ListedAll(k, s); }
    }

    ghost predicate ListedIn(k: Key, s: seq<Validator>, n: nat)
      requires n <= |validators|
    {
      FirstIndex(s, At(k.0)) < |s| && exists i :: 0 <= i < n && KeyOf(validators[i]) == k
    }

    lemma ListedNext(s: seq<Validator>, n: nat)
      requires n < |validators|
      ensures forall k :: ListedIn(k, s, n + 1) <==>
                ListedIn(k, s, n) || (k == KeyOf(validators[n]) && FirstIndex(s, At(k.0)) < |s|)
    {
    }

    lemma ListedAll(k: Key, s: seq<Validator>)
      ensures Listed(k, s) <==> ListedIn(k, s, |validators|)
    {
      if v :| v in validators && KeyOf(v) == k {
        var i :| 0 <= i < |validators| && validators[i] == v;
      }
    }

    /** The inner loop of the lookup: the first validator with the address. */
    method Find(s: seq<Validator>, address: string) returns (i: nat)
      ensures i == FirstIndex(s, At(address))
    {
      i := 0;
      while i < |s|
        invariant i <= |s| && forall j :: 0 <= j < i ==> !At(address)(s[j])
      {
        if s[i].address == address {
          assert At(address)(s[i]);
          return;
        }
        i := i + 1;
      }
    }
  }
}
