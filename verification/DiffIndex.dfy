/**
 The index that the chain-state recorder keeps for one miner and one value type, as a function of
 the recorded history, and what the index says about that history.
 */
module DiffIndex {
  import opened Prelude
  import Decimal

  /** Balances are recorded in steps of 10^15 attoFIL. */
  const ROUNDING: int := 1_000_000_000_000_000

  /** big.Div is Euclidean, so rounding is towards minus infinity. */
  function RoundBalance(v: int): (r: int)
    ensures r % ROUNDING == 0 && r <= v < r + ROUNDING
  {
    v / ROUNDING * ROUNDING
  }

  /** One recorded value. */
  datatype Point = Point(height: int, value: int)

  /** height -> value, value -> heights, and difference to the previous height -> heights. */
  datatype Index = Index(byHeight: map<int, int>, byValue: map<string, seq<int>>, byStep: map<string, seq<int>>)

  const EMPTY := Index(map[], map[], map[])

  function Heights(m: map<string, seq<int>>, k: string): seq<int> {
    if k in m then m[k] else []
  }

  function Append(m: map<string, seq<int>>, k: string, h: int): map<string, seq<int>> {
    m[k := Heights(m, k) + [h]]
  }

  /** One block of recordDiff: prev is PrevHeight, -1 before the first tipset. */
  function RecordPoint(ix: Index, prev: int, p: Point): Index
    requires prev != -1 ==> prev in ix.byHeight
  {
    var byHeight := ix.byHeight[p.height := p.value];
    var byValue := Append(ix.byValue, Decimal.Print(p.value), p.height);
    var byStep :=
      if prev == -1 then ix.byStep
      else
        var cmp := p.value - byHeight[prev];
        if cmp != 0 then Append(ix.byStep, Decimal.Print(cmp), p.height) else ix.byStep;
    Index(byHeight, byValue, byStep)
  }

  /** Non-negative heights in increasing order. */
  ghost predicate Increasing(hist: seq<Point>) {
    && (forall i :: 0 <= i < |hist| ==> 0 <= hist[i].height)
    && (forall i, j :: 0 <= i < j < |hist| ==> hist[i].height < hist[j].height)
  }

  /** The index that recording hist, point by point, leaves behind. */
  function Build(hist: seq<Point>): (ix: Index)
    ensures hist != [] ==> hist[|hist| - 1].height in ix.byHeight
    ensures hist != [] ==> ix.byHeight[hist[|hist| - 1].height] == hist[|hist| - 1].value
  {
    if hist == [] then EMPTY
    else
      var n := |hist| - 1;
      RecordPoint(Build(hist[..n]), if n == 0 then -1 else hist[n - 1].height, hist[n])
  }

  /** The index of one more point, one block of recordDiff later. */
  lemma {:induction false} BuildOneMore(hist: seq<Point>)
    requires hist != []
    ensures var n := |hist| - 1; var before := Build(hist[..n]);
      && (n > 0 ==> hist[n - 1].height in before.byHeight && before.byHeight[hist[n - 1].height] == hist[n - 1].value)
      && Build(hist) == RecordPoint(before, if n == 0 then -1 else hist[n - 1].height, hist[n])
  {}

  /** byHeight maps exactly the recorded heights, each to its value. */
  ghost predicate Maps(byHeight: map<int, int>, hist: seq<Point>) {
    && (forall i :: 0 <= i < |hist| ==> hist[i].height in byHeight && byHeight[hist[i].height] == hist[i].value)
    && (forall h :: h in byHeight ==> exists i :: 0 <= i < |hist| && hist[i].height == h)
  }

  lemma MapsExtend(byHeight: map<int, int>, hist: seq<Point>)
    requires hist != [] && Increasing(hist) && Maps(byHeight, hist[..|hist| - 1])
    ensures Maps(byHeight[hist[|hist| - 1].height := hist[|hist| - 1].value], hist)
  {
    var n := |hist| - 1;
    forall h | h in byHeight ensures exists i :: 0 <= i < |hist| && hist[i].height == h {
      var i :| 0 <= i < n && hist[..n][i].height == h;
      assert hist[i].height == h;
    }
    forall i | 0 <= i < n ensures hist[i].height in byHeight && byHeight[hist[i].height] == hist[i].value {
      assert hist[..n][i] == hist[i];
    }
  }

  lemma {:induction false} BuildMaps(hist: seq<Point>)
    requires Increasing(hist)
    ensures Maps(Build(hist).byHeight, hist)
  {
    if hist != [] {
      BuildMaps(hist[..|hist| - 1]);
      BuildOneMore(hist);
      MapsExtend(Build(hist[..|hist| - 1]).byHeight, hist);
    }
  }

  // ---------- the height lists ----------

  /** The key under which entry i of the history is listed by value. */
  function ValueKey(hist: seq<Point>, i: nat): Option<string>
    requires i < |hist|
  {
    Some(Decimal.Print(hist[i].value))
  }

  /** The step from the previous recorded height to entry i. */
  function StepAt(hist: seq<Point>, i: nat): int
    requires 0 < i < |hist|
  {
    hist[i].value - hist[i - 1].value
  }

  /** The key under which entry i is listed by difference: none for the first and for no change. */
  function StepKey(hist: seq<Point>, i: nat): Option<string>
    requires i < |hist|
  {
    if i == 0 || StepAt(hist, i) == 0 then None else Some(Decimal.Print(StepAt(hist, i)))
  }

  function KeyAt(hist: seq<Point>, steps: bool, i: nat): Option<string>
    requires i < |hist|
  {
    if steps then StepKey(hist, i) else ValueKey(hist, i)
  }

  /** The heights, oldest first, of the entries that carry the key k. */
  function Pick(hist: seq<Point>, steps: bool, k: string): seq<int> {
    if hist == [] then []
    else
      var n := |hist| - 1;
      Pick(hist[..n], steps, k) + if KeyAt(hist, steps, n) == Some(k) then [hist[n].height] else []
  }

  lemma {:induction false} PickExact(hist: seq<Point>, steps: bool, k: string, h: int)
    ensures h in Pick(hist, steps, k) <==>
      exists i :: 0 <= i < |hist| && hist[i].height == h && KeyAt(hist, steps, i) == Some(k)
  {
    if hist != [] {
      var n := |hist| - 1;
      PickExact(hist[..n], steps, k, h);
      PickOneMore(hist, steps, k);
      forall i | 0 <= i < n ensures hist[..n][i] == hist[i] && KeyAt(hist[..n], steps, i) == KeyAt(hist, steps, i) {
        KeyOfPrefix(hist, steps, n, i);
      }
    }
  }

  lemma KeyOfPrefix(hist: seq<Point>, steps: bool, n: nat, i: nat)
    requires i < n <= |hist|
    ensures KeyAt(hist[..n], steps, i) == KeyAt(hist, steps, i)
  {}

  lemma {:induction false} PickOneMore(hist: seq<Point>, steps: bool, k: string)
    requires hist != []
    ensures var n := |hist| - 1;
      Pick(hist, steps, k) ==
        Pick(hist[..n], steps, k) + if KeyAt(hist, steps, n) == Some(k) then [hist[n].height] else []
  {}

  ghost predicate StrictlyIncreasing(s: seq<int>) {
    forall i, j :: 0 <= i < j < |s| ==> s[i] < s[j]
  }

  lemma {:induction false} PickIncreases(hist: seq<Point>, steps: bool, k: string)
    requires Increasing(hist)
    ensures StrictlyIncreasing(Pick(hist, steps, k))
  {
    if hist != [] {
      var n := |hist| - 1;
      PickIncreases(hist[..n], steps, k);
      forall h | h in Pick(hist[..n], steps, k) ensures h < hist[n].height {
        PickExact(hist[..n], steps, k, h);
      }
      PickOneMore(hist, steps, k);
      StillIncreasing(Pick(hist[..n], steps, k), hist[n].height);
    }
  }

  lemma StillIncreasing(s: seq<int>, h: int)
    requires StrictlyIncreasing(s) && forall x :: x in s ==> x < h
    ensures StrictlyIncreasing(s + [h]) && StrictlyIncreasing(s + [])
  {
    assert s + [] == s;
    assert forall i :: 0 <= i < |s| ==> s[i] in s;
  }

  /** A map of height lists lists exactly the heights that the history puts under each key. */
  ghost predicate Lists(m: map<string, seq<int>>, hist: seq<Point>, steps: bool) {
    && (forall k: string :: Heights(m, k) == Pick(hist, steps, k))
    && (forall k :: k in m ==> m[k] != [])
  }

  lemma ListsExtend(m: map<string, seq<int>>, m': map<string, seq<int>>, hist: seq<Point>, steps: bool)
    requires hist != [] && Lists(m, hist[..|hist| - 1], steps)
    requires m' == match KeyAt(hist, steps, |hist| - 1)
                   case None => m
                   case Some(k) => Append(m, k, hist[|hist| - 1].height)
    ensures Lists(m', hist, steps)
  {
    forall k: string ensures Heights(m', k) == Pick(hist, steps, k) {
      assert Heights(m, k) == Pick(hist[..|hist| - 1], steps, k);
    }
  }

  lemma {:induction false} BuildLists(hist: seq<Point>)
    requires Increasing(hist)
    ensures Lists(Build(hist).byValue, hist, false) && Lists(Build(hist).byStep, hist, true)
  {
    if hist != [] {
      var n := |hist| - 1;
      BuildLists(hist[..n]);
      RecordFollowsKeys(Build(hist[..n]), hist);
      ListsExtend(Build(hist[..n]).byValue, Build(hist).byValue, hist, false);
      ListsExtend(Build(hist[..n]).byStep, Build(hist).byStep, hist, true);
    }
  }

  /** What one block of recordDiff appends, in terms of the history alone. */
  lemma {:induction false} RecordFollowsKeys(before: Index, hist: seq<Point>)
    requires hist != [] && Increasing(hist) && before == Build(hist[..|hist| - 1])
    ensures var n := |hist| - 1;
      && Build(hist).byValue == Append(before.byValue, Decimal.Print(hist[n].value), hist[n].height)
      && Build(hist).byStep == match StepKey(hist, n)
                               case None => before.byStep
                               case Some(k) => Append(before.byStep, k, hist[n].height)
  {
    var n := |hist| - 1;
    BuildOneMore(hist);
    if n == 0 {
    } else {
      assert 0 <= hist[n - 1].height < hist[n].height;
    }
  }

  // ---------- what the index says ----------

  /** h is listed under v exactly when v is the value recorded at h. */
  lemma {:induction false} ValueIndexIsExact(hist: seq<Point>, h: int, v: int)
    requires Increasing(hist)
    ensures h in Heights(Build(hist).byValue, Decimal.Print(v)) <==>
      h in Build(hist).byHeight && Build(hist).byHeight[h] == v
  {
    BuildMaps(hist);
    BuildLists(hist);
    PickExact(hist, false, Decimal.Print(v), h);
    Decimal.RoundTrip(v);
    forall i | 0 <= i < |hist| ensures KeyAt(hist, false, i) == Some(Decimal.Print(v)) <==> hist[i].value == v {
      Decimal.RoundTrip(hist[i].value);
    }
  }

  /** h is listed under d exactly when h is not the first height and d != 0 is the step from the one before. */
  lemma {:induction false} StepIndexIsExact(hist: seq<Point>, h: int, d: int)
    requires Increasing(hist)
    ensures h in Heights(Build(hist).byStep, Decimal.Print(d)) <==>
      d != 0 && exists i :: 0 < i < |hist| && hist[i].height == h && StepAt(hist, i) == d
  {
    BuildLists(hist);
    PickExact(hist, true, Decimal.Print(d), h);
    Decimal.RoundTrip(d);
    forall i | 0 < i < |hist|
      ensures KeyAt(hist, true, i) == Some(Decimal.Print(d)) <==> StepAt(hist, i) == d && d != 0
    {
      Decimal.RoundTrip(StepAt(hist, i));
    }
  }

  /** Every list is strictly increasing, so no height is listed twice under a key. */
  lemma {:induction false} ListsIncrease(hist: seq<Point>, k: string)
    requires Increasing(hist)
    ensures StrictlyIncreasing(Heights(Build(hist).byValue, k)) && StrictlyIncreasing(Heights(Build(hist).byStep, k))
  {
    BuildLists(hist);
    PickIncreases(hist, false, k);
    PickIncreases(hist, true, k);
  }

  /** Every key is the print of some value or non-zero step that the history contains. */
  lemma {:induction false} KeysArePrinted(hist: seq<Point>, k: string)
    requires Increasing(hist)
    ensures k in Build(hist).byValue <==> exists i :: 0 <= i < |hist| && k == Decimal.Print(hist[i].value)
    ensures k in Build(hist).byStep <==>
      exists i :: 0 < i < |hist| && StepAt(hist, i) != 0 && k == Decimal.Print(StepAt(hist, i))
  {
    BuildLists(hist);
    KeyIsListed(Build(hist).byValue, hist, false, k);
    KeyIsListed(Build(hist).byStep, hist, true, k);
    assert forall i :: 0 <= i < |hist| ==> KeyAt(hist, false, i) == Some(Decimal.Print(hist[i].value));
    assert forall i :: 0 < i < |hist| ==>
      (KeyAt(hist, true, i) == Some(k) <==> StepAt(hist, i) != 0 && k == Decimal.Print(StepAt(hist, i)));
  }

  lemma KeyIsListed(m: map<string, seq<int>>, hist: seq<Point>, steps: bool, k: string)
    requires Lists(m, hist, steps)
    ensures k in m <==> exists i :: 0 <= i < |hist| && KeyAt(hist, steps, i) == Some(k)
  {
    assert Heights(m, k) == Pick(hist, steps, k);
    if k in m {
      PickExact(hist, steps, k, m[k][0]);
    }
    if i :| 0 <= i < |hist| && KeyAt(hist, steps, i) == Some(k) {
      PickExact(hist, steps, k, hist[i].height);
    }
  }

  // ---------- conservation ----------

  function KeyValue(k: string): int {
    match Decimal.Parse(k)
    case Some(d) => d
    case None => 0
  }

  /** The sum over the differences d of d times the number of heights listed under d. */
  ghost function Weight(m: map<string, seq<int>>): int
    decreases |m|
  {
    if m == map[] then 0
    else
      var k :| k in m;
      KeyValue(k) * |m[k]| + Weight(m - {k})
  }

  lemma {:induction false} WeightSplit(m: map<string, seq<int>>, k: string)
    requires k in m
    ensures Weight(m) == KeyValue(k) * |m[k]| + Weight(m - {k})
    decreases |m|
  {
    var j :| j in m && Weight(m) == KeyValue(j) * |m[j]| + Weight(m - {j});
    if j != k {
      WeightSplit(m - {j}, k);
      WeightSplit(m - {k}, j);
      assert m - {j} - {k} == m - {k} - {j};
    }
  }

  lemma WeightAppend(m: map<string, seq<int>>, k: string, h: int)
    ensures Weight(Append(m, k, h)) == Weight(m) + KeyValue(k)
  {
    var m' := Append(m, k, h);
    WeightSplit(m', k);
    if k in m {
      WeightSplit(m, k);
      assert m' - {k} == m - {k};
      Distribute(KeyValue(k), |m[k]|);
    } else {
      assert m' - {k} == m;
    }
  }

  lemma Distribute(a: int, n: nat)
    ensures a * (n + 1) == a * n + a
  {}

  lemma StepAddsWeight(m: map<string, seq<int>>, d: int, h: int)
    ensures Weight(Append(m, Decimal.Print(d), h)) == Weight(m) + d
  {
    Decimal.RoundTrip(d);
    WeightAppend(m, Decimal.Print(d), h);
  }

  lemma {:induction false} OneMoreStep(hist: seq<Point>)
    requires Increasing(hist) && |hist| > 1
    ensures var n := |hist| - 1; Weight(Build(hist).byStep) == Weight(Build(hist[..n]).byStep) + StepAt(hist, n)
  {
    var n := |hist| - 1;
    RecordFollowsKeys(Build(hist[..n]), hist);
    StepAddsWeight(Build(hist[..n]).byStep, StepAt(hist, n), hist[n].height);
  }

  function StepSum(hist: seq<Point>): int {
    if |hist| <= 1 then 0 else StepSum(hist[..|hist| - 1]) + StepAt(hist, |hist| - 1)
  }

  lemma {:induction false} WeightIsStepSum(hist: seq<Point>)
    requires Increasing(hist)
    ensures Weight(Build(hist).byStep) == StepSum(hist)
  {
    if |hist| == 1 {
    } else if hist != [] {
      WeightIsStepSum(hist[..|hist| - 1]);
      OneMoreStep(hist);
    }
  }

  lemma {:induction false} StepsTelescope(hist: seq<Point>)
    requires hist != []
    ensures StepSum(hist) == hist[|hist| - 1].value - hist[0].value
  {
    if |hist| > 1 {
      StepsTelescope(hist[..|hist| - 1]);
    }
  }

  /** The listed differences add up to the last recorded value less the first. */
  lemma {:induction false} StepsAreConserved(hist: seq<Point>)
    requires Increasing(hist) && hist != []
    ensures Weight(Build(hist).byStep) == hist[|hist| - 1].value - hist[0].value
  {
    WeightIsStepSum(hist);
    StepsTelescope(hist);
  }

  // ---------- reconstruction ----------

  lemma {:induction false} SameSorted(a: seq<int>, b: seq<int>)
    requires StrictlyIncreasing(a) && StrictlyIncreasing(b)
    requires forall h :: h in a <==> h in b
    ensures a == b
  {
    assert b != [] ==> b[0] in b;
    if a != [] {
      assert a[0] in a && a[0] in b;
      var m, n := |a| - 1, |b| - 1;
      assert a[m] in a && b[n] in b;
      assert a[m] in b && b[n] in a;
      assert a[m] == b[n];
      forall h ensures h in a[..m] <==> h in b[..n] {
        assert h in a <==> h in a[..m] || h == a[m];
        assert h in b <==> h in b[..n] || h == b[n];
      }
      SameSorted(a[..m], b[..n]);
    }
  }

  function HeightsOf(hist: seq<Point>): (r: seq<int>)
    ensures |r| == |hist|
  {
    seq(|hist|, i requires 0 <= i < |hist| => hist[i].height)
  }

  lemma {:induction false} SameStep(a: seq<Point>, b: seq<Point>, i: nat)
    requires Increasing(a) && Increasing(b) && |a| == |b| && 0 < i < |a| && a[i].height == b[i].height
    ensures Build(a).byStep == Build(b).byStep ==> StepAt(a, i) == StepAt(b, i)
  {
    StepIndexIsExact(a, a[i].height, StepAt(a, i));
    StepIndexIsExact(b, a[i].height, StepAt(a, i));
    StepIndexIsExact(a, a[i].height, StepAt(b, i));
    StepIndexIsExact(b, a[i].height, StepAt(b, i));
  }

  lemma {:induction false} HeightsAreKeys(hist: seq<Point>)
    requires Increasing(hist)
    ensures StrictlyIncreasing(HeightsOf(hist))
    ensures forall h :: h in HeightsOf(hist) <==> h in Build(hist).byHeight.Keys
  {
    BuildMaps(hist);
    forall h | h in Build(hist).byHeight.Keys ensures h in HeightsOf(hist) {
      var i :| 0 <= i < |hist| && hist[i].height == h;
      assert HeightsOf(hist)[i] == h;
    }
  }

  lemma {:induction false} SameHeights(a: seq<Point>, b: seq<Point>)
    requires Increasing(a) && Increasing(b)
    requires Build(a).byHeight.Keys == Build(b).byHeight.Keys
    ensures |a| == |b| && forall i :: 0 <= i < |a| ==> a[i].height == b[i].height
  {
    HeightsAreKeys(a);
    HeightsAreKeys(b);
    SameSorted(HeightsOf(a), HeightsOf(b));
    forall i | 0 <= i < |a| ensures a[i].height == b[i].height {
      assert HeightsOf(a)[i] == HeightsOf(b)[i];
    }
  }

  /** The same first value, the same recorded heights and the same difference index. */
  ghost predicate SameEvidence(a: seq<Point>, b: seq<Point>)
    requires a != [] && b != []
  {
    && a[0].value == b[0].value
    && Build(a).byHeight.Keys == Build(b).byHeight.Keys
    && Build(a).byStep == Build(b).byStep
  }

  /**
   Reconstruction: the first value, the set of recorded heights and the difference index determine
   the whole history, and with it every recorded value.
   */
  lemma {:induction false} HistoryIsDetermined(a: seq<Point>, b: seq<Point>)
    requires Increasing(a) && Increasing(b) && a != [] && b != []
    ensures SameEvidence(a, b) <==> a == b
  {
    if SameEvidence(a, b) {
      SameHeights(a, b);
      forall i | 0 < i < |a| ensures StepAt(a, i) == StepAt(b, i) {
        SameStep(a, b, i);
      }
      SameValues(a, b, |a|);
      forall i | 0 <= i < |a| ensures a[i] == b[i] {}
    }
  }

  /** The values follow from the first one and the steps. */
  lemma {:induction false} SameValues(a: seq<Point>, b: seq<Point>, n: nat)
    requires |a| == |b| && n <= |a| && (forall i :: 0 < i < |a| ==> StepAt(a, i) == StepAt(b, i))
    requires a != [] ==> a[0].value == b[0].value
    ensures forall i :: 0 <= i < n ==> a[i].value == b[i].value
  {
    if n > 1 {
      SameValues(a, b, n - 1);
      assert StepAt(a, n - 1) == StepAt(b, n - 1) && a[n - 2].value == b[n - 2].value;
    }
  }
}
