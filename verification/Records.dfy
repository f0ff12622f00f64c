/**
 * The strict left-to-right maxima of a sequence. All three watchers keep the highest height seen so far and
 * act only on what beats it; this says, without that running value, what they act on.
 */
module Records {

  /** What a watcher that starts from the floor has as its highest height after all of s. */
  function Highest<T>(s: seq<T>, height: T -> int, floor: int): int {
    if |s| == 0 then floor
    else
      var before, h := Highest(s[..|s| - 1], height, floor), height(s[|s| - 1]);
      if h > before then h else before
  }

  /** The i-th element is above the floor and above every element before it. */
  predicate Record<T>(s: seq<T>, height: T -> int, floor: int, i: nat)
    requires i < |s|
  {
    height(s[i]) > floor && forall j :: 0 <= j < i ==> height(s[j]) < height(s[i])
  }

  lemma {:induction false} HighestBounds<T>(s: seq<T>, height: T -> int, floor: int)
    ensures var top := Highest(s, height, floor);
            && floor <= top
            && (forall j :: 0 <= j < |s| ==> height(s[j]) <= top)
            && (top == floor || exists j :: 0 <= j < |s| && height(s[j]) == top)
  {
    if |s| > 0 {
      var init := s[..|s| - 1];
      HighestBounds(init, height, floor);
      forall j | 0 <= j < |init| ensures height(s[j]) <= Highest(init, height, floor) {
        assert init[j] == s[j];
      }
      if j :| 0 <= j < |init| && height(init[j]) == Highest(init, height, floor) {
        assert s[j] == init[j];
      }
    }
  }

  /** Beating everything before is the same as beating the highest height so far. */
  lemma RecordBeatsHighest<T>(s: seq<T>, height: T -> int, floor: int)
    requires |s| > 0
    ensures Record(s, height, floor, |s| - 1) <==> height(s[|s| - 1]) > Highest(s[..|s| - 1], height, floor)
  {
    var init, h := s[..|s| - 1], height(s[|s| - 1]);
    HighestBounds(init, height, floor);
    forall j | 0 <= j < |init| ensures height(s[j]) <= Highest(init, height, floor) {
      assert init[j] == s[j];
    }
    if j :| 0 <= j < |init| && height(init[j]) == Highest(init, height, floor) {
      assert s[j] == init[j];
    }
  }
}
