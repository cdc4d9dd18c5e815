/** The watcher that decides, from the index alone, that a miner has been slashed. */
module SlashWatch {
  import opened DiffIndex
  import opened SlashDetector
  import opened ChainStates
  import Decimal

  /** LockedFunds among VALUE_TYPES. */
  const LOCKED_FUNDS: nat := 5

  /** The recorded locked funds of a miner; none if it was never recorded. */
  function LockedFunds(hist: map<string, seq<Snapshot>>, miner: string): seq<Point> {
    Series(Was(hist, miner), LOCKED_FUNDS)
  }

  /** What the index lists under the negative keys is exactly the drops of the history. */
  lemma {:induction false} NegativeKeys(hist: seq<Point>, d: int)
    requires Increasing(hist)
    ensures d in NegativeSteps(hist) <==> d < 0 && Decimal.Print(d) in Build(hist).byStep
  {
    KeysArePrinted(hist, Decimal.Print(d));
    Decimal.RoundTrip(d);
    if d < 0 && Decimal.Print(d) in Build(hist).byStep {
      var i :| 0 < i < |hist| && StepAt(hist, i) != 0 && Decimal.Print(d) == Decimal.Print(StepAt(hist, i));
      Decimal.RoundTrip(StepAt(hist, i));
    }
  }

  /** Every key of the index parses, and prints back to itself. */
  lemma KeyParses(hist: seq<Point>, k: string)
    requires Increasing(hist) && k in Build(hist).byStep
    ensures Decimal.Parse(k).Some? && Decimal.Print(Decimal.Parse(k).value) == k
  {
    KeysArePrinted(hist, k);
    var i :| 0 < i < |hist| && StepAt(hist, i) != 0 && k == Decimal.Print(StepAt(hist, i));
    Decimal.RoundTrip(StepAt(hist, i));
  }

  /** seen and amounts both hold the negative amounts among the printed keys, each once. */
  ghost predicate HoldsNegatives(amounts: seq<int>, seen: set<int>, keys: set<string>) {
    && (forall d: int :: d in seen <==> d < 0 && Decimal.Print(d) in keys)
    && |amounts| == |seen| && (forall d :: d in amounts <==> d in seen)
  }

  lemma PrintsAs(amount: int)
    ensures forall d: int :: Decimal.Print(d) == Decimal.Print(amount) <==> d == amount
  {
    forall d: int ensures Decimal.Print(d) == Decimal.Print(amount) <==> d == amount {
      Decimal.RoundTrip(d);
      Decimal.RoundTrip(amount);
    }
  }

  lemma OneMoreKey(keys: set<string>, amount: int, amounts: seq<int>, seen: set<int>)
    requires Decimal.Print(amount) !in keys && HoldsNegatives(amounts, seen, keys)
    ensures var more := keys + {Decimal.Print(amount)};
      if amount < 0 then HoldsNegatives(amounts + [amount], seen + {amount}, more)
      else HoldsNegatives(amounts, seen, more)
  {
    PrintsAs(amount);
  }

  /** Every key parses, and prints back to itself. */
  ghost predicate ArePrinted(keys: set<string>) {
    forall k :: k in keys ==> Decimal.Parse(k).Some? && Decimal.Print(Decimal.Parse(k).value) == k
  }

  lemma NegativesAreDrops(hist: seq<Point>, amounts: seq<int>, seen: set<int>)
    requires Increasing(hist) && HoldsNegatives(amounts, seen, Build(hist).byStep.Keys)
    ensures seen == NegativeSteps(hist)
  {
    forall d ensures d in seen <==> d in NegativeSteps(hist) {
      NegativeKeys(hist, d);
    }
  }

  /** The loop over the keys, in whatever order the map yields them. */
  method CollectNegatives(keys: set<string>) returns (amounts: seq<int>, failed: bool, ghost seen: set<int>)
    requires ArePrinted(keys)
    ensures !failed && HoldsNegatives(amounts, seen, keys)
  {
    amounts, failed, seen := [], false, {};
    var todo := keys;
    while todo != {}
      invariant todo <= keys && !failed
      invariant HoldsNegatives(amounts, seen, keys - todo)
    {
      var am :| am in todo;
      match Decimal.Parse(am) {
        case None =>
          failed := true;
          return;
        case Some(amount) =>
          OneMoreKey(keys - todo, amount, amounts, seen);
          todo := todo - {am};
          if amount < 0 {
            amounts, seen := amounts + [amount], seen + {amount};
          }
      }
    }
    assert keys - todo == keys;
  }

  /**
   The scan of the index entries: one negative amount per distinct drop.  A key that does not parse
   would be an error; there is none.
   */
  method NegativeAmounts(entries: map<string, seq<int>>, ghost hist: seq<Point>)
    returns (negativeAmounts: seq<int>, failed: bool)
    requires Increasing(hist) && entries == Build(hist).byStep
    ensures !failed
    ensures |negativeAmounts| == |NegativeSteps(hist)|
    ensures forall d :: d in negativeAmounts <==> d in NegativeSteps(hist)
  {
    forall k | k in entries.Keys ensures Decimal.Parse(k).Some? && Decimal.Print(Decimal.Parse(k).value) == k {
      KeyParses(hist, k);
    }
    ghost var seen;
    negativeAmounts, failed, seen := CollectNegatives(entries.Keys);
    NegativesAreDrops(hist, negativeAmounts, seen);
  }

  lemma {:induction false} EntryOf(tb: Tables, hist: map<string, seq<Snapshot>>, miner: string)
    requires Agrees(tb, hist)
    ensures Increasing(LockedFunds(hist, miner))
    ensures miner in tb.steps <==> miner in hist
    ensures miner in hist ==>
      HasAll(tb, miner) && Get(tb.steps, miner, LOCKED_FUNDS) == Build(LockedFunds(hist, miner)).byStep
    ensures miner !in hist ==> LockedFunds(hist, miner) == []
  {
    if miner in hist {
      assert EntryAgrees(tb, miner, hist[miner]);
      assert At(tb, miner, LOCKED_FUNDS) == Build(Series(hist[miner], LOCKED_FUNDS));
    }
  }

  /** The index entries of a miner's locked funds, or no entries for a miner never recorded. */
  method LockedFundsSteps(cs: ChainState, miner: string) returns (entries: map<string, seq<int>>)
    requires cs.Consistent()
    ensures Increasing(LockedFunds(cs.hist, miner)) && entries == Build(LockedFunds(cs.hist, miner)).byStep
  {
    EntryOf(cs.View(), cs.hist, miner);
    entries := map[];
    if miner in cs.DiffCmp {
      entries := cs.DiffCmp[miner][VALUE_TYPES[LOCKED_FUNDS]];
    }
  }

  /** The closure that runs under the lock. */
  method LookForSlash(entries: map<string, seq<int>>, ghost hist: seq<Point>) returns (found: bool, failed: bool)
    requires Increasing(hist) && entries == Build(hist).byStep
    ensures !failed && (found <==> SlashConditions(hist))
  {
    var negativeAmounts;
    negativeAmounts, failed := NegativeAmounts(entries, hist);
    found := |negativeAmounts| >= 3;
  }

  class Watcher {
    var foundSlashConditions: bool
    var closed: bool

    constructor ()
      ensures !foundSlashConditions && !closed
    {
      foundSlashConditions, closed := false, false;
    }

    /** One tick: report what an earlier tick has found, or else look again under the lock. */
    method Tick(cs: ChainState, slashedMiner: string) returns (failed: bool)
      requires cs.Consistent()
      modifies this
      ensures !failed
      ensures old(foundSlashConditions) ==> closed && foundSlashConditions
      ensures !old(foundSlashConditions) ==> closed == old(closed)
      ensures !old(foundSlashConditions) ==>
        (foundSlashConditions <==> SlashConditions(LockedFunds(cs.hist, slashedMiner)))
    {
      failed := false;
      if foundSlashConditions {
        closed := true;
        return;
      }
      var entries := LockedFundsSteps(cs, slashedMiner);
      foundSlashConditions, failed := LookForSlash(entries, LockedFunds(cs.hist, slashedMiner));
    }
  }

  /** The locked funds as they were read, before rounding. */
  function RawLockedFunds(hist: seq<Snapshot>): (r: seq<int>)
    ensures |r| == |hist|
  {
    seq(|hist|, i requires 0 <= i < |hist| => hist[i].reading.info.lockedFunds)
  }

  /** The locked funds of snapshot i less those before, both rounded down to multiples of 10^15. */
  function RoundedStep(raw: seq<int>, i: int): int
    requires 0 < i < |raw|
  {
    raw[i] / 1_000_000_000_000_000 * 1_000_000_000_000_000
      - raw[i - 1] / 1_000_000_000_000_000 * 1_000_000_000_000_000
  }

  lemma {:induction false} StepsAreRounded(hist: seq<Snapshot>, i: int)
    requires 0 < i < |hist|
    ensures StepAt(Series(hist, LOCKED_FUNDS), i) == RoundedStep(RawLockedFunds(hist), i)
  {}

  /**
   A miner is taken for slashed exactly when its locked funds, as they were read and rounded to
   10^15, have dropped by three different amounts.
   */
  lemma {:induction false} DetectedIff(hist: map<string, seq<Snapshot>>, miner: string)
    ensures var raw := RawLockedFunds(Was(hist, miner));
      SlashConditions(LockedFunds(hist, miner)) <==>
        exists i, j, k :: ThreeRoundedDrops(raw, i, j, k)
  {
    var steps, raw := LockedFunds(hist, miner), RawLockedFunds(Was(hist, miner));
    SlashConditionsIff(steps);
    forall i, j, k ensures ThreeDrops(steps, i, j, k) <==> ThreeRoundedDrops(raw, i, j, k) {
      if 0 < i < |raw| { StepsAreRounded(Was(hist, miner), i); }
      if 0 < j < |raw| { StepsAreRounded(Was(hist, miner), j); }
      if 0 < k < |raw| { StepsAreRounded(Was(hist, miner), k); }
    }
  }

  ghost predicate ThreeRoundedDrops(raw: seq<int>, i: int, j: int, k: int) {
    && 0 < i < |raw| && 0 < j < |raw| && 0 < k < |raw|
    && 0 > RoundedStep(raw, i) > RoundedStep(raw, j) > RoundedStep(raw, k)
  }

  /** What a detection means for the funds themselves, in attoFIL. */
  lemma {:induction false} DetectionIsSubstantial(hist: map<string, seq<Snapshot>>, miner: string)
    returns (i: nat, j: nat, k: nat)
    requires SlashConditions(LockedFunds(hist, miner))
    ensures var raw := RawLockedFunds(Was(hist, miner));
      && ThreeRoundedDrops(raw, i, j, k)
      && RoundedStep(raw, i) + RoundedStep(raw, j) + RoundedStep(raw, k) <= -6_000_000_000_000_000
      && (raw[i] - raw[i - 1]) + (raw[j] - raw[j - 1]) + (raw[k] - raw[k - 1]) < -3_000_000_000_000_000
  {
    i, j, k := SlashIsSubstantial(LockedFunds(hist, miner), RawLockedFunds(Was(hist, miner)));
    StepsAreRounded(Was(hist, miner), i);
    StepsAreRounded(Was(hist, miner), j);
    StepsAreRounded(Was(hist, miner), k);
  }

  /** A detection outlives whatever a further tipset records, whether or not that tipset succeeds. */
  lemma DetectionIsForGood(
    before: map<string, seq<Snapshot>>, now: map<string, seq<Snapshot>>, tipset: Tipset, i: nat, miner: string)
    requires i <= |tipset.maddrs| && Underway(before, now, tipset, i)
    requires SlashConditions(LockedFunds(before, miner))
    ensures SlashConditions(LockedFunds(now, miner))
  {
    var was, grown := LockedFunds(before, miner), LockedFunds(now, miner);
    assert forall j :: 0 <= j < |was| ==> was[j] == grown[j];
    SlashIsForGood(was, grown);
  }
}
