/** The condition by which a watcher recognises a slashed miner, over its recorded locked funds. */
module SlashDetector {
  import opened DiffIndex

  /** The distinct sizes of the drops in the recorded history. */
  ghost function NegativeSteps(hist: seq<Point>): set<int> {
    set i | 0 < i < |hist| && StepAt(hist, i) < 0 :: StepAt(hist, i)
  }

  ghost predicate SlashConditions(hist: seq<Point>) {
    |NegativeSteps(hist)| >= 3
  }

  /** The conditions hold exactly when there are three drops of different sizes. */
  lemma {:induction false} SlashConditionsIff(hist: seq<Point>)
    ensures SlashConditions(hist) <==> exists i, j, k :: ThreeDrops(hist, i, j, k)
  {
    if SlashConditions(hist) {
      var x, y, z := ThreeOf(NegativeSteps(hist));
      var i :| 0 < i < |hist| && StepAt(hist, i) < 0 && StepAt(hist, i) == x;
      var j :| 0 < j < |hist| && StepAt(hist, j) < 0 && StepAt(hist, j) == y;
      var k :| 0 < k < |hist| && StepAt(hist, k) < 0 && StepAt(hist, k) == z;
      assert ThreeDrops(hist, i, j, k);
    }
    if exists i, j, k :: ThreeDrops(hist, i, j, k) {
      var i, j, k :| ThreeDrops(hist, i, j, k);
      var three := {StepAt(hist, i), StepAt(hist, j), StepAt(hist, k)};
      assert |three| == 3;
      SubsetSize(three, NegativeSteps(hist));
    }
  }

  ghost predicate ThreeDrops(hist: seq<Point>, i: int, j: int, k: int) {
    && 0 < i < |hist| && 0 < j < |hist| && 0 < k < |hist|
    && 0 > StepAt(hist, i) > StepAt(hist, j) > StepAt(hist, k)
  }

  lemma SubsetSize(a: set<int>, b: set<int>)
    requires a <= b
    ensures |a| <= |b|
  {
    assert b == a + (b - a) && a !! b - a;
  }

  /** Once the conditions hold they hold for good, whatever is recorded afterwards. */
  lemma SlashIsForGood(hist: seq<Point>, longer: seq<Point>)
    requires hist <= longer && SlashConditions(hist)
    ensures SlashConditions(longer)
  {
    forall d | d in NegativeSteps(hist) ensures d in NegativeSteps(longer) {
      var i :| 0 < i < |hist| && StepAt(hist, i) < 0 && StepAt(hist, i) == d;
      assert StepAt(longer, i) == d;
    }
    SubsetSize(NegativeSteps(hist), NegativeSteps(longer));
  }

  /** hist records the balances raw, rounded. */
  ghost predicate Rounds(hist: seq<Point>, raw: seq<int>) {
    |hist| == |raw| && forall i :: 0 <= i < |hist| ==> hist[i].value == RoundBalance(raw[i])
  }

  lemma Member<T>(s: set<T>) returns (x: T)
    requires |s| > 0
    ensures x in s && |s - {x}| == |s| - 1
  {
    x :| x in s;
  }

  lemma ThreeOf(s: set<int>) returns (x: int, y: int, z: int)
    requires |s| >= 3
    ensures x in s && y in s && z in s && x > y > z
  {
    var a := Member(s);
    var b := Member(s - {a});
    var c := Member(s - {a} - {b});
    x := if a > b && a > c then a else if b > c then b else c;
    z := if a < b && a < c then a else if b < c then b else c;
    y := if a != x && a != z then a else if b != x && b != z then b else c;
  }

  /** A rounded step is a multiple of the rounding, and misses the true step by less than one. */
  lemma StepIsRounded(hist: seq<Point>, raw: seq<int>, i: nat)
    requires Rounds(hist, raw) && 0 < i < |hist|
    ensures StepAt(hist, i) % ROUNDING == 0
    ensures StepAt(hist, i) - ROUNDING < raw[i] - raw[i - 1] < StepAt(hist, i) + ROUNDING
  {
    var a, b := hist[i].value, hist[i - 1].value;
    assert a % ROUNDING == 0 && b % ROUNDING == 0;
  }

  /**
   When the conditions hold there are three drops of different rounded sizes, which together come to
   6 * 10^15 rounded, and to more than 3 * 10^15 in the balances as they were.
   */
  lemma SlashIsSubstantial(hist: seq<Point>, raw: seq<int>) returns (i: nat, j: nat, k: nat)
    requires Rounds(hist, raw) && SlashConditions(hist)
    ensures 0 < i < |hist| && 0 < j < |hist| && 0 < k < |hist|
    ensures 0 > StepAt(hist, i) > StepAt(hist, j) > StepAt(hist, k)
    ensures StepAt(hist, i) + StepAt(hist, j) + StepAt(hist, k) <= -6 * ROUNDING
    ensures (raw[i] - raw[i - 1]) + (raw[j] - raw[j - 1]) + (raw[k] - raw[k - 1]) < -3 * ROUNDING
  {
    var x, y, z := ThreeOf(NegativeSteps(hist));
    i :| 0 < i < |hist| && StepAt(hist, i) < 0 && StepAt(hist, i) == x;
    j :| 0 < j < |hist| && StepAt(hist, j) < 0 && StepAt(hist, j) == y;
    k :| 0 < k < |hist| && StepAt(hist, k) < 0 && StepAt(hist, k) == z;
    StepIsRounded(hist, raw, i);
    StepIsRounded(hist, raw, j);
    StepIsRounded(hist, raw, k);
    assert x <= -ROUNDING && y <= -2 * ROUNDING && z <= -3 * ROUNDING;
  }
}
