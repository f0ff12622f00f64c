/** Counting, filtering and searching over sequences, shared by all the ledgers. */
module Seqs {

  datatype Option<+T> = None | Some(value: T)

  function CountIf<T(!new)>(s: seq<T>, p: T -> bool): (n: nat)
    ensures n <= |s|
  {
    if |s| == 0 then 0 else CountIf(s[..|s| - 1], p) + (if p(s[|s| - 1]) then 1 else 0)
  }

  function Filter<T(!new)>(s: seq<T>, p: T -> bool): seq<T> {
    if |s| == 0 then [] else Filter(s[..|s| - 1], p) + (if p(s[|s| - 1]) then [s[|s| - 1]] else [])
  }

  /** The first position whose element satisfies p, or |s| when there is none. */
  function FirstIndex<T(!new)>(s: seq<T>, p: T -> bool): (i: nat)
    ensures i <= |s|
    ensures i < |s| ==> p(s[i])
    ensures forall j :: 0 <= j < i ==> !p(s[j])
  {
    if |s| == 0 then 0
    else if p(s[0]) then 0
    else
      var i := 1 + FirstIndex(s[1..], p);
      assert forall j :: 1 <= j < i ==> s[j] == s[1..][j - 1];
      i
  }

  /** One more than the last position whose element satisfies p, or 0 when there is none. */
  function AfterLast<T(!new)>(s: seq<T>, p: T -> bool): (i: nat)
    ensures i <= |s|
    ensures i > 0 ==> p(s[i - 1])
    ensures forall j :: i <= j < |s| ==> !p(s[j])
  {
    if |s| == 0 then 0
    else if p(s[|s| - 1]) then |s|
    else AfterLast(s[..|s| - 1], p)
  }

  /** How many misses came after the last hit; elements that are neither do not count. */
  function MissesSinceHit<T(!new)>(s: seq<T>, hit: T -> bool, miss: T -> bool): nat {
    CountIf(s[AfterLast(s, hit)..], miss)
  }

  lemma CountIfSnoc<T(!new)>(s: seq<T>, x: T, p: T -> bool)
    ensures CountIf(s + [x], p) == CountIf(s, p) + (if p(x) then 1 else 0)
  {
    assert (s + [x])[..|s|] == s;
  }

  lemma FilterSnoc<T(!new)>(s: seq<T>, x: T, p: T -> bool)
    ensures Filter(s + [x], p) == Filter(s, p) + (if p(x) then [x] else [])
  {
    assert (s + [x])[..|s|] == s;
  }

  /** One more step of a loop that keeps the elements satisfying p. */
  lemma FilterNext<T(!new)>(s: seq<T>, i: nat, p: T -> bool)
    requires i < |s|
    ensures Filter(s[..i + 1], p) == Filter(s[..i], p) + (if p(s[i]) then [s[i]] else [])
  {
    assert s[..i + 1][..i] == s[..i];
  }

  lemma ConcatAssociative<T>(a: seq<T>, b: seq<T>, c: seq<T>)
    ensures (a + b) + c == a + (b + c)
  {
  }

  lemma {:induction false} CountIfConcat<T(!new)>(a: seq<T>, b: seq<T>, p: T -> bool)
    ensures CountIf(a + b, p) == CountIf(a, p) + CountIf(b, p)
  {
    if |b| == 0 {
      assert a + b == a;
    } else {
      assert (a + b)[..|a + b| - 1] == a + b[..|b| - 1];
      CountIfConcat(a, b[..|b| - 1], p);
    }
  }

  lemma {:induction false} FilterConcat<T(!new)>(a: seq<T>, b: seq<T>, p: T -> bool)
    ensures Filter(a + b, p) == Filter(a, p) + Filter(b, p)
  {
    if |b| == 0 {
      assert a + b == a;
    } else {
      assert (a + b)[..|a + b| - 1] == a + b[..|b| - 1];
      FilterConcat(a, b[..|b| - 1], p);
    }
  }

  lemma {:induction false} FilterMember<T(!new)>(s: seq<T>, p: T -> bool, x: T)
    ensures x in Filter(s, p) <==> x in s && p(x)
  {
    if |s| > 0 {
      FilterMember(s[..|s| - 1], p, x);
      assert s == s[..|s| - 1] + [s[|s| - 1]];
    }
  }

  /** Filtering keeps the order: the kept elements stand at rising positions. */
  lemma {:induction false} FilterPositions<T(!new)>(s: seq<T>, p: T -> bool) returns (at: seq<nat>)
    ensures |at| == |Filter(s, p)|
    ensures forall i :: 0 <= i < |at| ==> at[i] < |s| && s[at[i]] == Filter(s, p)[i]
    ensures forall i, j :: 0 <= i < j < |at| ==> at[i] < at[j]
  {
    if |s| == 0 {
      at := [];
    } else {
      at := FilterPositions(s[..|s| - 1], p);
      if p(s[|s| - 1]) { at := at + [|s| - 1]; }
    }
  }

  lemma {:induction false} FilterFilter<T(!new)>(s: seq<T>, p: T -> bool, q: T -> bool, r: T -> bool)
    requires forall x :: r(x) == (p(x) && q(x))
    ensures Filter(Filter(s, p), q) == Filter(s, r)
  {
    if |s| > 0 {
      FilterFilter(s[..|s| - 1], p, q, r);
      var x, kept := s[|s| - 1], Filter(s[..|s| - 1], p);
      assert r(x) == (p(x) && q(x));
      if p(x) {
        FilterSnoc(kept, x, q);
        assert Filter(s, p) == kept + [x];
      } else {
        assert Filter(s, p) == kept;
      }
    }
  }

  lemma FirstIndexConcat<T(!new)>(a: seq<T>, b: seq<T>, p: T -> bool)
    ensures FirstIndex(a + b, p) == if FirstIndex(a, p) < |a| then FirstIndex(a, p) else |a| + FirstIndex(b, p)
  {
    assert forall j :: 0 <= j < |a| ==> (a + b)[j] == a[j];
    assert forall j :: 0 <= j < |b| ==> (a + b)[|a| + j] == b[j];
    var i, j, k := FirstIndex(a, p), FirstIndex(b, p), FirstIndex(a + b, p);
    if i < |a| {
      assert p((a + b)[i]);
    } else if j < |b| {
      assert p((a + b)[|a| + j]);
    }
    assert k < |a| ==> i <= k;
    assert |a| <= k < |a + b| ==> p(b[k - |a|]);
  }

  /** A search that starts before the part holding the first hit finds that hit. */
  lemma FirstIndexMiddle<T(!new)>(a: seq<T>, b: seq<T>, c: seq<T>, p: T -> bool)
    requires FirstIndex(a, p) == |a| && FirstIndex(b, p) < |b|
    ensures FirstIndex(a + b + c, p) == |a| + FirstIndex(b, p) < |a + b + c|
    ensures (a + b + c)[|a| + FirstIndex(b, p)] == b[FirstIndex(b, p)]
  {
    FirstIndexConcat(a, b, p);
    FirstIndexConcat(a + b, c, p);
  }

  /** Filtering by p and by its complement splits a sequence without losing or adding anything. */
  lemma {:induction false} FilterPartition<T(!new)>(s: seq<T>, p: T -> bool, q: T -> bool)
    requires forall x :: q(x) == !p(x)
    ensures multiset(Filter(s, p)) + multiset(Filter(s, q)) == multiset(s)
  {
    if |s| > 0 {
      var init, x := s[..|s| - 1], s[|s| - 1];
      FilterPartition(init, p, q);
      assert q(x) == !p(x);
      assert s == init + [x];
      var yes, no := Filter(init, p), Filter(init, q);
      if p(x) {
        assert Filter(s, p) == yes + [x] && Filter(s, q) == no;
        MultisetSnoc(yes, x);
      } else {
        assert Filter(s, q) == no + [x] && Filter(s, p) == yes;
        MultisetSnoc(no, x);
      }
      MultisetSnoc(init, x);
    }
  }

  lemma MultisetSnoc<T>(s: seq<T>, x: T)
    ensures multiset(s + [x]) == multiset(s) + multiset{x}
  {
  }

  lemma {:induction false} CountIfAll<T(!new)>(s: seq<T>, p: T -> bool)
    requires forall x :: x in s ==> p(x)
    ensures CountIf(s, p) == |s|
  {
    if |s| > 0 { CountIfAll(s[..|s| - 1], p); }
  }

  /** When no element satisfies p after one that does not, those that do are the first CountIf(s, p). */
  lemma {:induction false} CountIfPrefix<T(!new)>(s: seq<T>, p: T -> bool)
    requires forall i, j :: 0 <= i < j < |s| && p(s[j]) ==> p(s[i])
    ensures forall i :: 0 <= i < |s| ==> (p(s[i]) <==> i < CountIf(s, p))
  {
    if |s| > 0 {
      var init := s[..|s| - 1];
      CountIfPrefix(init, p);
      assert forall i :: 0 <= i < |init| ==> s[i] == init[i];
      if p(s[|s| - 1]) {
        forall x | x in init ensures p(x) {
          var i :| 0 <= i < |init| && init[i] == x;
          assert p(s[i]);
        }
        CountIfAll(init, p);
      }
    }
  }

  /** Counting does not depend on the order of the elements. */
  lemma {:induction false} CountIfPermutation<T(!new)>(a: seq<T>, b: seq<T>, p: T -> bool)
    requires multiset(a) == multiset(b)
    ensures CountIf(a, p) == CountIf(b, p)
    decreases |a|
  {
    if |a| == 0 {
      assert |multiset(b)| == 0;
    } else {
      var x := a[|a| - 1];
      assert x in multiset(b);
      var i :| 0 <= i < |b| && b[i] == x;
      var b' := b[..i] + b[i + 1..];
      assert b == b[..i] + [x] + b[i + 1..];
      assert a == a[..|a| - 1] + [x];
      assert multiset(b') == multiset(b) - multiset{x};
      assert multiset(a[..|a| - 1]) == multiset(a) - multiset{x};
      CountIfPermutation(a[..|a| - 1], b', p);
      CountIfConcat(b[..i], b[i + 1..], p);
      CountIfConcat(b[..i] + [x], b[i + 1..], p);
      CountIfSnoc(b[..i], x, p);
    }
  }

  /** The counter a ledger keeps: a hit clears it, a miss adds one, anything else leaves it. */
  lemma MissesSinceHitSnoc<T(!new)>(s: seq<T>, x: T, hit: T -> bool, miss: T -> bool)
    ensures MissesSinceHit(s + [x], hit, miss) ==
            if hit(x) then 0 else MissesSinceHit(s, hit, miss) + (if miss(x) then 1 else 0)
  {
    assert (s + [x])[..|s|] == s;
    if !hit(x) {
      var i := AfterLast(s, hit);
      assert (s + [x])[i..] == s[i..] + [x];
      CountIfSnoc(s[i..], x, miss);
    }
  }

  // ---- Lists of lists ----

  /** The lists one after the other. */
  function Join<T>(ss: seq<seq<T>>): seq<T> {
    if |ss| == 0 then [] else Join(ss[..|ss| - 1]) + ss[|ss| - 1]
  }

  lemma {:induction false} JoinSplit<T>(ss: seq<seq<T>>, n: nat)
    requires n <= |ss|
    ensures Join(ss) == Join(ss[..n]) + Join(ss[n..])
  {
    if n == |ss| {
      assert ss[..n] == ss && ss[n..] == [];
    } else {
      var init := ss[..|ss| - 1];
      JoinSplit(init, n);
      assert init[..n] == ss[..n] && ss[n..][..|ss[n..]| - 1] == init[n..];
      ConcatAssociative(Join(ss[..n]), Join(init[n..]), ss[|ss| - 1]);
    }
  }

  predicate Inside<T>(ss: seq<seq<T>>, i: nat, j: nat) {
    i < |ss| && j < |ss[i]|
  }

  /** Reading list by list, (i, j) comes before (k, l). */
  predicate Before(i: nat, j: nat, k: nat, l: nat) {
    i < k || (i == k && j < l)
  }

  /** The element at (i, j) satisfies p and no element read before it does. */
  ghost predicate FirstIn<T(!new)>(ss: seq<seq<T>>, i: nat, j: nat, p: T -> bool) {
    && Inside(ss, i, j) && p(ss[i][j])
    && forall k: nat, l: nat :: Inside(ss, k, l) && Before(k, l, i, j) ==> !p(ss[k][l])
  }

  lemma OneFirstIn<T(!new)>(ss: seq<seq<T>>, i: nat, j: nat, k: nat, l: nat, p: T -> bool)
    requires FirstIn(ss, i, j, p) && FirstIn(ss, k, l, p)
    ensures i == k && j == l
  {
    assert Before(i, j, k, l) || Before(k, l, i, j) || (i == k && j == l);
  }

  /** Searching the joined list and reading list by list find the same element, or neither finds one. */
  lemma {:induction false} JoinFirst<T(!new)>(ss: seq<seq<T>>, p: T -> bool) returns (i: nat, j: nat)
    ensures var at := FirstIndex(Join(ss), p);
            if at < |Join(ss)| then FirstIn(ss, i, j, p) && ss[i][j] == Join(ss)[at]
            else forall k: nat, l: nat :: Inside(ss, k, l) ==> !p(ss[k][l])
  {
    i, j := 0, 0;
    if |ss| > 0 {
      var init, last := ss[..|ss| - 1], ss[|ss| - 1];
      i, j := JoinFirst(init, p);
      FirstIndexConcat(Join(init), last, p);
      assert forall k: nat, l: nat :: Inside(init, k, l) <==> Inside(ss, k, l) && k < |init|;
      assert forall k: nat :: k < |init| ==> init[k] == ss[k];
      if FirstIndex(Join(init), p) == |Join(init)| {
        i, j := |init|, FirstIndex(last, p);
      }
    }
  }

  /** The positions, from k on, whose elements satisfy p. */
  function PositionsFrom<T(!new)>(s: seq<T>, k: nat, p: T -> bool): set<nat> {
    set i: nat | k <= i < |s| && p(s[i])
  }

  /** Counting is the size of the set of positions. */
  lemma {:induction false} CountFrom<T(!new)>(s: seq<T>, k: nat, p: T -> bool)
    requires k <= |s|
    ensures CountIf(s[k..], p) == |PositionsFrom(s, k, p)|
    decreases |s| - k
  {
    if k == |s| {
      assert PositionsFrom(s, k, p) == {};
    } else {
      CountFrom(s, k + 1, p);
      assert s[k..] == [s[k]] + s[k + 1..];
      CountIfConcat([s[k]], s[k + 1..], p);
      CountIfSnoc([], s[k], p);
      assert [] + [s[k]] == [s[k]];
      assert PositionsFrom(s, k, p) == (if p(s[k]) then {k} else {}) + PositionsFrom(s, k + 1, p);
    }
  }

  /** What holds of nothing and lasts through every element added at the end holds of every sequence. */
  lemma {:induction false} SnocInduction<T(!new)>(s: seq<T>, p: seq<T> -> bool)
    requires p([]) && forall init, e :: p(init) ==> p(init + [e])
    ensures p(s)
  {
    if |s| > 0 {
      SnocInduction(s[..|s| - 1], p);
      assert s == s[..|s| - 1] + [s[|s| - 1]];
    } else {
      assert s == [];
    }
  }

  /** What starts true and lasts through step i exactly when q(i), is still true after k steps iff all q held. */
  lemma {:induction false} LastsWhile(p: nat -> bool, q: nat -> bool, k: nat)
    requires p(0) && forall i: nat :: i < k ==> (p(i + 1) <==> p(i) && q(i))
    ensures p(k) <==> forall i: nat :: i < k ==> q(i)
  {
    if k > 0 {
      LastsWhile(p, q, k - 1);
      assert p(k - 1 + 1) <==> p(k - 1) && q(k - 1);
    }
  }

  /** The integers above lo and up to hi. */
  function Span(lo: int, hi: int): (r: set<int>)
    ensures forall h :: h in r <==> lo < h <= hi
    ensures |r| == if lo < hi then hi - lo else 0
    decreases hi - lo
  {
    if hi <= lo then {} else Span(lo, hi - 1) + {hi}
  }
}
