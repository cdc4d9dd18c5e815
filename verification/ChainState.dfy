/**
 The recorder of miner states: nested maps from miner address and value type to the index of that
 value, filled in tipset by tipset.
 */
module ChainStates {
  import opened Prelude
  import opened DiffIndex
  import Decimal

  datatype MinerInfo = MinerInfo(
    minerPower: int, committedBytes: int, provingBytes: int, balance: int, preCommitDeposits: int,
    lockedFunds: int, availableFunds: int, workerBalance: int, marketEscrow: int, marketLocked: int)

  /** The counters are uint64 values. */
  datatype ProvingInfo = ProvingInfo(faults: nat, provenSectors: nat, recoveries: nat)

  /** What is read of one miner at one tipset. */
  datatype Reading = Reading(info: MinerInfo, proving: ProvingInfo)

  const VALUE_TYPES: seq<string> := [
    "MinerPower", "CommittedBytes", "ProvingBytes", "Balance", "PreCommitDeposits", "LockedFunds",
    "AvailableFunds", "WorkerBalance", "MarketEscrow", "MarketLocked", "Faults", "ProvenSectors", "Recoveries"]

  /** The conversion int64(u) of a uint64. */
  function AsInt64(u: nat): int {
    var low := u % 0x1_0000_0000_0000_0000;
    if low < 0x8000_0000_0000_0000 then low else low - 0x1_0000_0000_0000_0000
  }

  /** The value recorded for entry t of VALUE_TYPES; the three actor balances are rounded. */
  function ValueOf(r: Reading, t: nat): int
    requires t < 13
  {
    match t
    case 0 => r.info.minerPower
    case 1 => r.info.committedBytes
    case 2 => r.info.provingBytes
    case 3 => RoundBalance(r.info.balance)
    case 4 => r.info.preCommitDeposits
    case 5 => RoundBalance(r.info.lockedFunds)
    case 6 => RoundBalance(r.info.availableFunds)
    case 7 => r.info.workerBalance
    case 8 => r.info.marketEscrow
    case 9 => r.info.marketLocked
    case 10 => AsInt64(r.proving.faults)
    case 11 => AsInt64(r.proving.provenSectors)
    case _ => AsInt64(r.proving.recoveries)
  }

  datatype Snapshot = Snapshot(height: int, reading: Reading)

  /** The history of one value type of one miner. */
  function Series(hist: seq<Snapshot>, t: nat): (r: seq<Point>)
    requires t < 13
    ensures |r| == |hist|
  {
    seq(|hist|, i requires 0 <= i < |hist| => Point(hist[i].height, ValueOf(hist[i].reading, t)))
  }

  /** Heights are non-negative and increase. */
  ghost predicate InOrder(hist: seq<Snapshot>) {
    && (forall i :: 0 <= i < |hist| ==> 0 <= hist[i].height)
    && (forall i, j :: 0 <= i < j < |hist| ==> hist[i].height < hist[j].height)
  }

  function Last(hist: seq<Snapshot>): int
    requires hist != []
  {
    hist[|hist| - 1].height
  }

  // ---------- tables: miner -> value type -> entry ----------

  type Table<V> = map<string, map<string, V>>

  /** The table has an entry for miner m and each value type. */
  ghost predicate Covers<V>(table: Table<V>, m: string) {
    m in table && forall t :: 0 <= t < 13 ==> VALUE_TYPES[t] in table[m]
  }

  function Get<V>(table: Table<V>, m: string, t: nat): V
    requires t < 13 && Covers(table, m)
  {
    table[m][VALUE_TYPES[t]]
  }

  function Put<V>(table: Table<V>, m: string, t: nat, v: V): Table<V>
    requires t < 13 && m in table
  {
    table[m := table[m][VALUE_TYPES[t] := v]]
  }

  lemma NamesDiffer(t: nat, u: nat)
    requires t < u < 13
    ensures VALUE_TYPES[t] != VALUE_TYPES[u]
  {}

  /** The recorder's three tables. */
  datatype Tables = Tables(
    heights: Table<map<int, int>>, values: Table<map<string, seq<int>>>, steps: Table<map<string, seq<int>>>)

  ghost predicate HasAll(tb: Tables, m: string) {
    Covers(tb.heights, m) && Covers(tb.values, m) && Covers(tb.steps, m)
  }

  function At(tb: Tables, m: string, t: nat): Index
    requires t < 13 && HasAll(tb, m)
  {
    Index(Get(tb.heights, m, t), Get(tb.values, m, t), Get(tb.steps, m, t))
  }

  function SetAt(tb: Tables, m: string, t: nat, ix: Index): Tables
    requires t < 13 && m in tb.heights && m in tb.values && m in tb.steps
  {
    Tables(Put(tb.heights, m, t, ix.byHeight), Put(tb.values, m, t, ix.byValue), Put(tb.steps, m, t, ix.byStep))
  }

  lemma SetThenAt(tb: Tables, m: string, t: nat, ix: Index, n: string, u: nat)
    requires t < 13 && u < 13 && HasAll(tb, m) && HasAll(tb, n)
    ensures HasAll(SetAt(tb, m, t, ix), n)
    ensures At(SetAt(tb, m, t, ix), n, u) == if n == m && u == t then ix else At(tb, n, u)
  {}

  /** The entry of miner m is the index of history h in the value types before n, of g in the others. */
  ghost predicate Halfway(tb: Tables, m: string, h: seq<Snapshot>, g: seq<Snapshot>, n: nat) {
    && HasAll(tb, m)
    && (forall t {:trigger At(tb, m, t)} :: 0 <= t < n && t < 13 ==> At(tb, m, t) == Build(Series(h, t)))
    && (forall t {:trigger At(tb, m, t)} :: n <= t < 13 ==> At(tb, m, t) == Build(Series(g, t)))
  }

  /** The entry of miner m says, for every value type, what the history h says. */
  ghost predicate EntryAgrees(tb: Tables, m: string, h: seq<Snapshot>) {
    h != [] && InOrder(h) && Halfway(tb, m, h, [], 13)
  }

  /** The tables have one entry per recorded miner, which agrees with the miner's history. */
  ghost predicate Agrees(tb: Tables, hist: map<string, seq<Snapshot>>) {
    && tb.heights.Keys == tb.values.Keys == tb.steps.Keys == hist.Keys
    && (forall m {:trigger EntryAgrees(tb, m, hist[m])} :: m in hist ==> EntryAgrees(tb, m, hist[m]))
  }

  /** Nothing outside miner m differs. */
  ghost predicate SameElsewhere(a: Tables, b: Tables, m: string) {
    a.heights - {m} == b.heights - {m} && a.values - {m} == b.values - {m} && a.steps - {m} == b.steps - {m}
  }

  lemma {:induction false} ElsewhereAgrees(a: Tables, b: Tables, m: string, n: string, h: seq<Snapshot>)
    requires SameElsewhere(a, b, m) && n != m && EntryAgrees(a, n, h)
    ensures EntryAgrees(b, n, h)
  {
    assert n in a.heights - {m} && n in a.values - {m} && n in a.steps - {m};
    assert (b.heights - {m})[n] == a.heights[n] && (b.values - {m})[n] == a.values[n];
    assert (b.steps - {m})[n] == a.steps[n];
    forall t | 0 <= t < 13 ensures At(b, n, t) == At(a, n, t) {}
  }

  lemma SetIsElsewhereSame(a: Tables, b: Tables, m: string, t: nat, ix: Index)
    requires t < 13 && m in b.heights && m in b.values && m in b.steps && SameElsewhere(a, b, m)
    ensures SameElsewhere(a, SetAt(b, m, t, ix), m)
  {
    var c := SetAt(b, m, t, ix);
    assert c.heights - {m} == b.heights - {m} && c.values - {m} == b.values - {m} && c.steps - {m} == b.steps - {m};
  }

  /** What recording one value does to the index of that value. */
  lemma {:induction false} RecordExtends(g: seq<Snapshot>, s: Snapshot, prev: int, t: nat)
    requires t < 13 && InOrder(g + [s]) && prev == (if g == [] then -1 else Last(g))
    ensures prev != -1 ==> prev in Build(Series(g, t)).byHeight
    ensures Build(Series(g + [s], t)) == RecordPoint(Build(Series(g, t)), prev, Point(s.height, ValueOf(s.reading, t)))
  {
    var after := Series(g + [s], t);
    assert after[..|g|] == Series(g, t);
    if g != [] {
      assert g[|g| - 1] == (g + [s])[|g| - 1];
      assert after[|g| - 1].height == Last(g);
    }
    BuildOneMore(after);
  }

  lemma {:induction false} HalfwayStep(
    tb: Tables, m: string, g: seq<Snapshot>, s: Snapshot, prev: int, t: nat, ix: Index)
    requires t < 13 && InOrder(g + [s]) && prev == (if g == [] then -1 else Last(g))
    requires Halfway(tb, m, g + [s], g, t)
    requires prev != -1 ==> prev in At(tb, m, t).byHeight
    requires ix == RecordPoint(At(tb, m, t), prev, Point(s.height, ValueOf(s.reading, t)))
    ensures Halfway(SetAt(tb, m, t, ix), m, g + [s], g, t + 1)
  {
    RecordExtends(g, s, prev, t);
    forall u | 0 <= u < 13
      ensures HasAll(SetAt(tb, m, t, ix), m)
      ensures At(SetAt(tb, m, t, ix), m, u) == if u == t then ix else At(tb, m, u)
    {
      SetThenAt(tb, m, t, ix, m, u);
    }
    assert HasAll(SetAt(tb, m, t, ix), m) by {
      SetThenAt(tb, m, t, ix, m, 0);
    }
  }

  function Blank<V>(v: V): map<string, V> {
    map t | t in VALUE_TYPES :: v
  }

  /** The tables with fresh entries for a miner that is recorded for the first time. */
  function AddBlank(tb: Tables, m: string): Tables {
    Tables(tb.heights[m := Blank(map[])], tb.values[m := Blank(map[])], tb.steps[m := Blank(map[])])
  }

  lemma UpdateElsewhere<V>(table: Table<V>, m: string, v: map<string, V>)
    ensures table[m := v] - {m} == table - {m}
  {}

  lemma BlankAgrees(tb: Tables, m: string)
    ensures SameElsewhere(tb, AddBlank(tb, m), m)
    ensures Halfway(AddBlank(tb, m), m, [], [], 0)
  {
    UpdateElsewhere(tb.heights, m, Blank(map[]));
    UpdateElsewhere(tb.values, m, Blank(map[]));
    UpdateElsewhere(tb.steps, m, Blank(map[]));
    forall t | 0 <= t < 13 ensures VALUE_TYPES[t] in VALUE_TYPES && Build(Series([], t)) == EMPTY {}
  }

  lemma {:induction false} RecordKeepsAgreement(
    before: Tables, after: Tables, hist: map<string, seq<Snapshot>>, m: string, g: seq<Snapshot>)
    requires Agrees(before, hist) && SameElsewhere(before, after, m) && EntryAgrees(after, m, g)
    ensures Agrees(after, hist[m := g])
  {
    var now := hist[m := g];
    forall n | n in now ensures EntryAgrees(after, n, now[n]) {
      if n != m {
        ElsewhereAgrees(before, after, m, n, hist[n]);
      }
    }
    KeysGrow(before.heights, after.heights, m);
    KeysGrow(before.values, after.values, m);
    KeysGrow(before.steps, after.steps, m);
  }

  lemma KeysGrow<V>(a: Table<V>, b: Table<V>, m: string)
    requires a - {m} == b - {m} && m in b
    ensures b.Keys == a.Keys + {m}
  {
    assert forall n :: n != m ==> (n in a <==> n in a - {m}) && (n in b <==> n in b - {m});
  }

  // ---------- tipsets ----------

  /** How reading a miner's state goes: it fails before recordDiff, after it, or not at all. */
  datatype Fetch = EarlyError | LateError(reading: Reading) | Got(reading: Reading)

  /** listed: StateListMiners succeeded, with maddrs for its answer. */
  datatype Tipset = Tipset(height: int, listed: bool, maddrs: seq<string>, fetch: string -> Fetch)

  predicate Succeeds(tipset: Tipset) {
    tipset.listed && forall m :: m in tipset.maddrs ==> tipset.fetch(m).Got?
  }

  /** The miners are the same at every tipset; StateListMiners may list them in any order, each once. */
  ghost predicate ListsMiners(tipset: Tipset, miners: set<string>) {
    && (forall m :: m in tipset.maddrs <==> m in miners)
    && (forall i, j :: 0 <= i < j < |tipset.maddrs| ==> tipset.maddrs[i] != tipset.maddrs[j])
  }

  /** Tipsets whose heights are non-negative and increase, all that list miners listing the same. */
  ghost predicate Chain(tipsets: seq<Tipset>, miners: set<string>) {
    && (forall i :: 0 <= i < |tipsets| ==>
          0 <= tipsets[i].height && (tipsets[i].listed ==> ListsMiners(tipsets[i], miners)))
    && (forall i, j :: 0 <= i < j < |tipsets| ==> tipsets[i].height < tipsets[j].height)
  }

  /** The history h of miner m with the tipset's reading added. */
  function Extended(h: seq<Snapshot>, tipset: Tipset, m: string): seq<Snapshot> {
    match tipset.fetch(m)
    case EarlyError => h
    case LateError(reading) => h + [Snapshot(tipset.height, reading)]
    case Got(reading) => h + [Snapshot(tipset.height, reading)]
  }

  function Was(hist: map<string, seq<Snapshot>>, m: string): seq<Snapshot> {
    if m in hist then hist[m] else []
  }

  /** What a run over the tipsets records of miner m. */
  function HistoryOf(tipsets: seq<Tipset>, m: string): seq<Snapshot> {
    if tipsets == [] then []
    else Extended(HistoryOf(tipsets[..|tipsets| - 1], m), tipsets[|tipsets| - 1], m)
  }

  /** m can be recorded at this height: it was recorded at prev, if anything was. */
  ghost predicate Recordable(hist: map<string, seq<Snapshot>>, prev: int, m: string, height: int) {
    && 0 <= height
    && (prev == -1 ==> m !in hist)
    && (prev != -1 ==> m in hist && hist[m] != [] && Last(hist[m]) == prev < height)
  }

  /** Every miner was recorded at prev, if anything was recorded at all. */
  ghost predicate AlignedAt(hist: map<string, seq<Snapshot>>, prev: int, miners: set<string>) {
    && -1 <= prev
    && (prev == -1 ==> hist == map[])
    && (prev != -1 ==> hist.Keys == miners)
    && (prev != -1 ==> forall m :: m in hist ==> hist[m] != [] && Last(hist[m]) == prev)
  }

  /** The first i miners of the tipset have been recorded since before, the others have not. */
  ghost predicate Underway(
    before: map<string, seq<Snapshot>>, now: map<string, seq<Snapshot>>, tipset: Tipset, i: nat)
    requires i <= |tipset.maddrs|
  {
    && (forall m :: m in tipset.maddrs[..i] ==> m in now && now[m] == Extended(Was(before, m), tipset, m))
    && (forall m :: m !in tipset.maddrs[..i] ==>
          (m in now <==> m in before) && (m in now ==> now[m] == before[m]))
  }

  /** Miner i of the tipset is the first that cannot be read to the end. */
  predicate FailsAt(tipset: Tipset, i: nat)
    requires i < |tipset.maddrs|
  {
    !tipset.fetch(tipset.maddrs[i]).Got? && forall j :: 0 <= j < i ==> tipset.fetch(tipset.maddrs[j]).Got?
  }

  /** The miners ahead of the first failure are recorded, the failing one only if it failed late. */
  ghost predicate BrokenOff(before: map<string, seq<Snapshot>>, now: map<string, seq<Snapshot>>, tipset: Tipset) {
    exists i: nat :: i < |tipset.maddrs| && FailsAt(tipset, i) &&
      Underway(before, now, tipset, if tipset.fetch(tipset.maddrs[i]).EarlyError? then i else i + 1)
  }

  lemma BreaksOff(before: map<string, seq<Snapshot>>, now: map<string, seq<Snapshot>>, tipset: Tipset, i: nat)
    requires i < |tipset.maddrs| && !tipset.fetch(tipset.maddrs[i]).Got?
    requires forall j :: 0 <= j < i ==> tipset.fetch(tipset.maddrs[j]).Got?
    requires Underway(before, now, tipset, if tipset.fetch(tipset.maddrs[i]).EarlyError? then i else i + 1)
    ensures BrokenOff(before, now, tipset)
  {
    assert FailsAt(tipset, i);
  }

  lemma UnderwayNext(
    before: map<string, seq<Snapshot>>, now: map<string, seq<Snapshot>>, prev: int, miners: set<string>,
    tipset: Tipset, i: nat)
    requires AlignedAt(before, prev, miners) && ListsMiners(tipset, miners)
    requires 0 <= tipset.height && prev < tipset.height
    requires i < |tipset.maddrs| && Underway(before, now, tipset, i)
    ensures Recordable(now, prev, tipset.maddrs[i], tipset.height)
    ensures var m := tipset.maddrs[i];
      Underway(before, now[m := Extended(Was(now, m), tipset, m)], tipset, i + 1)
  {
    var m := tipset.maddrs[i];
    assert m in miners && m !in tipset.maddrs[..i];
    assert tipset.maddrs[..i + 1] == tipset.maddrs[..i] + [m];
  }

  lemma UnderwayEnds(
    before: map<string, seq<Snapshot>>, now: map<string, seq<Snapshot>>, prev: int, miners: set<string>, tipset: Tipset)
    requires AlignedAt(before, prev, miners) && ListsMiners(tipset, miners) && Succeeds(tipset)
    requires 0 <= tipset.height && Underway(before, now, tipset, |tipset.maddrs|)
    ensures AlignedAt(now, tipset.height, miners)
  {
    assert tipset.maddrs[..|tipset.maddrs|] == tipset.maddrs;
    forall m ensures m in now <==> m in miners {
      assert m in tipset.maddrs <==> m in miners;
    }
  }

  /** After the first n tipsets each miner's history is what those tipsets hold of it. */
  ghost predicate RanThrough(hist: map<string, seq<Snapshot>>, tipsets: seq<Tipset>, n: nat, miners: set<string>)
    requires n <= |tipsets|
  {
    if n == 0 then hist == map[]
    else hist.Keys == miners && forall m :: m in miners ==> hist[m] == HistoryOf(tipsets[..n], m)
  }

  /**
   Tipset n is the first that fails, with before recorded of the tipsets ahead of it.  Nothing is
   recorded of it if its miners could not be listed.
   */
  ghost predicate StoppedAt(
    before: map<string, seq<Snapshot>>, now: map<string, seq<Snapshot>>,
    tipsets: seq<Tipset>, n: nat, miners: set<string>)
  {
    && n < |tipsets| && (forall j :: 0 <= j < n ==> Succeeds(tipsets[j])) && !Succeeds(tipsets[n])
    && RanThrough(before, tipsets, n, miners)
    && if tipsets[n].listed then BrokenOff(before, now, tipsets[n]) else now == before
  }

  ghost predicate RanInto(hist: map<string, seq<Snapshot>>, tipsets: seq<Tipset>, miners: set<string>) {
    exists before, n: nat :: StoppedAt(before, hist, tipsets, n, miners)
  }

  lemma {:induction false} StopsShort(
    before: map<string, seq<Snapshot>>, now: map<string, seq<Snapshot>>,
    tipsets: seq<Tipset>, n: nat, miners: set<string>)
    requires Chain(tipsets, miners)
    requires n < |tipsets| && (forall j :: 0 <= j < n ==> Succeeds(tipsets[j])) && !Succeeds(tipsets[n])
    requires RanThrough(before, tipsets, n, miners)
    requires if tipsets[n].listed then BrokenOff(before, now, tipsets[n]) else now == before
    ensures Stopped(now, tipsets, miners)
  {
    assert StoppedAt(before, now, tipsets, n, miners);
    StoppedReads(now, tipsets, miners);
  }

  /** The run ended at the first tipset that failed, with every history as it was read until then. */
  ghost predicate Stopped(hist: map<string, seq<Snapshot>>, tipsets: seq<Tipset>, miners: set<string>) {
    RanInto(hist, tipsets, miners) && exists n: nat :: StopsReading(hist, tipsets, n, miners)
  }

  lemma {:induction false} HistoryOneMore(tipsets: seq<Tipset>, n: nat, m: string)
    requires n < |tipsets|
    ensures HistoryOf(tipsets[..n + 1], m) == Extended(HistoryOf(tipsets[..n], m), tipsets[n], m)
  {
    assert tipsets[..n + 1][..n] == tipsets[..n] && tipsets[..n + 1][n] == tipsets[n];
  }

  lemma {:induction false} RanOneMore(
    before: map<string, seq<Snapshot>>, now: map<string, seq<Snapshot>>,
    tipsets: seq<Tipset>, n: nat, miners: set<string>)
    requires n < |tipsets| && RanThrough(before, tipsets, n, miners) && ListsMiners(tipsets[n], miners)
    requires Underway(before, now, tipsets[n], |tipsets[n].maddrs|)
    requires now.Keys == miners
    ensures RanThrough(now, tipsets, n + 1, miners)
  {
    assert tipsets[n].maddrs[..|tipsets[n].maddrs|] == tipsets[n].maddrs;
    forall m | m in miners ensures now[m] == HistoryOf(tipsets[..n + 1], m) {
      HistoryOneMore(tipsets, n, m);
      assert m in tipsets[n].maddrs;
      if n == 0 {
        assert tipsets[..0] == [];
      }
    }
  }

  // ---------- what a run has read ----------

  /** What was read of m at the tipset before anything failed. */
  function ReadingOf(tipset: Tipset, m: string): Option<Reading> {
    match tipset.fetch(m)
    case EarlyError => None
    case LateError(reading) => Some(reading)
    case Got(reading) => Some(reading)
  }

  /** Snapshot i of the history is what was read of m at tipset i, one for each tipset. */
  ghost predicate Reads(h: seq<Snapshot>, tipsets: seq<Tipset>, m: string) {
    |h| == |tipsets| && forall i :: 0 <= i < |h| ==>
      h[i].height == tipsets[i].height && ReadingOf(tipsets[i], m) == Some(h[i].reading)
  }

  lemma {:induction false} HistoryIsReadings(tipsets: seq<Tipset>, m: string)
    requires forall i :: 0 <= i < |tipsets| ==> Succeeds(tipsets[i]) && m in tipsets[i].maddrs
    ensures Reads(HistoryOf(tipsets, m), tipsets, m)
  {
    if tipsets != [] {
      var n := |tipsets| - 1;
      HistoryIsReadings(tipsets[..n], m);
      assert tipsets[n].fetch(m).Got?;
      OneMoreReading(HistoryOf(tipsets[..n], m), tipsets, n, m);
      assert tipsets[..n + 1] == tipsets;
    }
  }

  lemma {:induction false} RunReads(
    hist: map<string, seq<Snapshot>>, tipsets: seq<Tipset>, n: nat, miners: set<string>, m: string)
    requires n <= |tipsets| && Chain(tipsets, miners) && m in miners && RanThrough(hist, tipsets, n, miners)
    requires forall j :: 0 <= j < n ==> Succeeds(tipsets[j])
    ensures Reads(Was(hist, m), tipsets[..n], m)
  {
    HistoryIsReadings(tipsets[..n], m);
  }

  lemma {:induction false} ReadsAll(hist: map<string, seq<Snapshot>>, tipsets: seq<Tipset>, miners: set<string>)
    requires Chain(tipsets, miners) && RanThrough(hist, tipsets, |tipsets|, miners)
    requires forall j :: 0 <= j < |tipsets| ==> Succeeds(tipsets[j])
    ensures forall m :: m in miners ==> Reads(Was(hist, m), tipsets, m)
  {
    assert tipsets[..|tipsets|] == tipsets;
    forall m | m in miners ensures Reads(Was(hist, m), tipsets, m) {
      RunReads(hist, tipsets, |tipsets|, miners, m);
    }
  }

  /** Miner i of the tipset is the first to fail, and m is ahead of it, or is it and fails late. */
  ghost predicate IsAhead(tipset: Tipset, i: nat, m: string) {
    && i < |tipset.maddrs| && FailsAt(tipset, i)
    && (m in tipset.maddrs[..i] || (m == tipset.maddrs[i] && tipset.fetch(m).LateError?))
  }

  /** The tipset fails, but not before m's reading is recorded. */
  ghost predicate ReachedBeforeFailing(tipset: Tipset, m: string) {
    tipset.listed && exists i: nat :: IsAhead(tipset, i, m)
  }

  /** The history holds the readings of the first n tipsets, and that of tipset n if the failure came after it. */
  ghost predicate ReadsInto(h: seq<Snapshot>, tipsets: seq<Tipset>, n: nat, m: string)
    requires n < |tipsets|
  {
    Reads(h, tipsets[..if ReachedBeforeFailing(tipsets[n], m) then n + 1 else n], m)
  }

  lemma {:induction false} ReachedIff(tipset: Tipset, i: nat, m: string)
    requires tipset.listed && i < |tipset.maddrs| && FailsAt(tipset, i)
    ensures ReachedBeforeFailing(tipset, m) <==>
      m in tipset.maddrs[..if tipset.fetch(tipset.maddrs[i]).EarlyError? then i else i + 1]
  {
    assert tipset.maddrs[..i + 1] == tipset.maddrs[..i] + [tipset.maddrs[i]];
    assert !tipset.fetch(tipset.maddrs[i]).Got?;
    if j: nat :| IsAhead(tipset, j, m) {
      assert i == j;
    }
    if m in tipset.maddrs[..if tipset.fetch(tipset.maddrs[i]).EarlyError? then i else i + 1] {
      assert IsAhead(tipset, i, m);
    }
  }

  lemma {:induction false} OneMoreReading(h: seq<Snapshot>, tipsets: seq<Tipset>, n: nat, m: string)
    requires n < |tipsets| && Reads(h, tipsets[..n], m) && !tipsets[n].fetch(m).EarlyError?
    ensures Reads(Extended(h, tipsets[n], m), tipsets[..n + 1], m)
  {}

  lemma {:induction false} BrokenOffReads(
    before: map<string, seq<Snapshot>>, now: map<string, seq<Snapshot>>, tipsets: seq<Tipset>, n: nat, m: string)
    requires n < |tipsets| && tipsets[n].listed && BrokenOff(before, now, tipsets[n])
    requires Reads(Was(before, m), tipsets[..n], m)
    ensures ReadsInto(Was(now, m), tipsets, n, m)
  {
    var tipset := tipsets[n];
    var i: nat :| i < |tipset.maddrs| && FailsAt(tipset, i) &&
      Underway(before, now, tipset, if tipset.fetch(tipset.maddrs[i]).EarlyError? then i else i + 1);
    ReachedIff(tipset, i, m);
    if ReachedBeforeFailing(tipset, m) {
      OneMoreReading(Was(before, m), tipsets, n, m);
    }
  }

  /** Tipset n is the first to fail, and every history holds what was read until then. */
  ghost predicate StopsReading(hist: map<string, seq<Snapshot>>, tipsets: seq<Tipset>, n: nat, miners: set<string>) {
    && n < |tipsets| && (forall j :: 0 <= j < n ==> Succeeds(tipsets[j])) && !Succeeds(tipsets[n])
    && forall m :: m in miners ==> ReadsInto(Was(hist, m), tipsets, n, m)
  }

  lemma {:induction false} StoppedReads(hist: map<string, seq<Snapshot>>, tipsets: seq<Tipset>, miners: set<string>)
    requires Chain(tipsets, miners) && RanInto(hist, tipsets, miners)
    ensures exists n: nat :: StopsReading(hist, tipsets, n, miners)
  {
    var before, n: nat :| StoppedAt(before, hist, tipsets, n, miners);
    forall m | m in miners ensures ReadsInto(Was(hist, m), tipsets, n, m) {
      RunReads(before, tipsets, n, miners, m);
      if tipsets[n].listed { BrokenOffReads(before, hist, tipsets, n, m); }
    }
    assert StopsReading(hist, tipsets, n, miners);
  }

  // ---------- what the tables say ----------

  /** The value recorded for t in snapshot i. */
  function Recorded(h: seq<Snapshot>, t: nat, i: nat): int
    requires t < 13 && i < |h|
  {
    ValueOf(h[i].reading, t)
  }

  /** Some snapshot but the first was taken at the height and differs by d from the one before it. */
  ghost predicate StepsTo(h: seq<Snapshot>, t: nat, height: int, d: int)
    requires t < 13
  {
    exists i :: 0 < i < |h| && h[i].height == height && Recorded(h, t, i) - Recorded(h, t, i - 1) == d
  }

  ghost predicate HoldsAll(entries: map<int, int>, h: seq<Snapshot>, t: nat)
    requires t < 13
  {
    forall i :: 0 <= i < |h| ==> h[i].height in entries && entries[h[i].height] == Recorded(h, t, i)
  }

  /** The index holds exactly the recorded heights, each with its value. */
  ghost predicate HeightsExact(ix: Index, h: seq<Snapshot>, t: nat)
    requires t < 13
  {
    && HoldsAll(ix.byHeight, h, t)
    && (forall x :: x in ix.byHeight ==> exists i :: 0 <= i < |h| && h[i].height == x)
  }

  /**
   A height is listed under a value exactly when it has that value, and under d exactly when d != 0
   is the step to it.
   */
  ghost predicate ListsExact(ix: Index, h: seq<Snapshot>, t: nat)
    requires t < 13
  {
    && (forall x, v :: x in Heights(ix.byValue, Decimal.Print(v)) <==> x in ix.byHeight && ix.byHeight[x] == v)
    && (forall x, d :: x in Heights(ix.byStep, Decimal.Print(d)) <==> d != 0 && StepsTo(h, t, x, d))
    && (forall k :: StrictlyIncreasing(Heights(ix.byValue, k)) && StrictlyIncreasing(Heights(ix.byStep, k)))
  }

  /** The listed steps add up to the last recorded value less the first. */
  ghost predicate Conserves(ix: Index, h: seq<Snapshot>, t: nat)
    requires t < 13 && h != []
  {
    Weight(ix.byStep) == Recorded(h, t, |h| - 1) - Recorded(h, t, 0)
  }

  lemma {:induction false} SeriesSteps(h: seq<Snapshot>, t: nat, x: int, d: int)
    requires t < 13
    ensures var s := Series(h, t);
      (exists i :: 0 < i < |s| && s[i].height == x && StepAt(s, i) == d) <==> StepsTo(h, t, x, d)
  {
    var s := Series(h, t);
    if i :| 0 < i < |s| && s[i].height == x && StepAt(s, i) == d {
      assert h[i].height == x && Recorded(h, t, i) - Recorded(h, t, i - 1) == d;
    }
    if i :| 0 < i < |h| && h[i].height == x && Recorded(h, t, i) - Recorded(h, t, i - 1) == d {
      assert s[i].height == x && StepAt(s, i) == d;
    }
  }

  lemma {:induction false} SeriesHeightsExact(h: seq<Snapshot>, t: nat)
    requires t < 13 && InOrder(h)
    ensures HeightsExact(Build(Series(h, t)), h, t)
  {
    var s := Series(h, t);
    BuildMaps(s);
    forall i | 0 <= i < |h| ensures s[i] == Point(h[i].height, Recorded(h, t, i)) {}
    forall x | x in Build(s).byHeight ensures exists i :: 0 <= i < |h| && h[i].height == x {
      var i :| 0 <= i < |s| && s[i].height == x;
      assert h[i].height == x;
    }
  }

  lemma {:induction false} SeriesListsExact(h: seq<Snapshot>, t: nat)
    requires t < 13 && InOrder(h)
    ensures ListsExact(Build(Series(h, t)), h, t)
  {
    var s := Series(h, t);
    forall x, v
      ensures x in Heights(Build(s).byValue, Decimal.Print(v)) <==> x in Build(s).byHeight && Build(s).byHeight[x] == v
    {
      ValueIndexIsExact(s, x, v);
    }
    forall x, d ensures x in Heights(Build(s).byStep, Decimal.Print(d)) <==> d != 0 && StepsTo(h, t, x, d) {
      StepIndexIsExact(s, x, d);
      SeriesSteps(h, t, x, d);
    }
    forall k
      ensures StrictlyIncreasing(Heights(Build(s).byValue, k)) && StrictlyIncreasing(Heights(Build(s).byStep, k))
    {
      ListsIncrease(s, k);
    }
  }

  lemma {:induction false} SeriesConserves(h: seq<Snapshot>, t: nat)
    requires t < 13 && InOrder(h) && h != []
    ensures Conserves(Build(Series(h, t)), h, t)
  {
    var s := Series(h, t);
    StepsAreConserved(s);
    assert s[|s| - 1].value == Recorded(h, t, |h| - 1) && s[0].value == Recorded(h, t, 0);
  }

  /**
   While the lock is free the three tables say the same as the recorded history, for every miner and
   every value type, and the steps they list add up to the change since the first record.
   */
  lemma {:induction false} TablesAreExact(tb: Tables, hist: map<string, seq<Snapshot>>, m: string, t: nat)
    requires Agrees(tb, hist) && m in hist && t < 13
    ensures HasAll(tb, m) && hist[m] != []
    ensures HeightsExact(At(tb, m, t), hist[m], t)
    ensures ListsExact(At(tb, m, t), hist[m], t)
    ensures Conserves(At(tb, m, t), hist[m], t)
  {
    assert EntryAgrees(tb, m, hist[m]);
    SeriesHeightsExact(hist[m], t);
    SeriesListsExact(hist[m], t);
    SeriesConserves(hist[m], t);
  }

  // ---------- the entries by their names ----------

  /** The amount as it is recorded: the multiple of 10^15 at or below it. */
  ghost predicate Rounded(recorded: int, amount: int) {
    recorded % 1_000_000_000_000_000 == 0 && recorded <= amount < recorded + 1_000_000_000_000_000
  }

  lemma {:induction false} NamedEntry(tb: Tables, hist: map<string, seq<Snapshot>>, m: string, i: nat, t: nat)
    requires Agrees(tb, hist) && m in hist && i < |hist[m]| && t < 13
    ensures m in tb.heights && VALUE_TYPES[t] in tb.heights[m] && hist[m][i].height in tb.heights[m][VALUE_TYPES[t]]
    ensures tb.heights[m][VALUE_TYPES[t]][hist[m][i].height] == ValueOf(hist[m][i].reading, t)
  {
    TablesAreExact(tb, hist, m, t);
    assert At(tb, m, t).byHeight == tb.heights[m][VALUE_TYPES[t]];
  }

  /** What the first table holds under a name at the height of snapshot i. */
  function Entry(tb: Tables, hist: map<string, seq<Snapshot>>, m: string, i: nat, name: string): Option<int> {
    if m in hist && i < |hist[m]| && m in tb.heights && name in tb.heights[m]
       && hist[m][i].height in tb.heights[m][name]
    then Some(tb.heights[m][name][hist[m][i].height]) else None
  }

  /** The power and money entries that are recorded as they were read. */
  lemma {:induction false} PlainEntries(tb: Tables, hist: map<string, seq<Snapshot>>, m: string, i: nat)
    requires Agrees(tb, hist) && m in hist && i < |hist[m]|
    ensures var info := hist[m][i].reading.info;
      && Entry(tb, hist, m, i, "MinerPower") == Some(info.minerPower)
      && Entry(tb, hist, m, i, "CommittedBytes") == Some(info.committedBytes)
      && Entry(tb, hist, m, i, "ProvingBytes") == Some(info.provingBytes)
      && Entry(tb, hist, m, i, "PreCommitDeposits") == Some(info.preCommitDeposits)
      && Entry(tb, hist, m, i, "WorkerBalance") == Some(info.workerBalance)
      && Entry(tb, hist, m, i, "MarketEscrow") == Some(info.marketEscrow)
      && Entry(tb, hist, m, i, "MarketLocked") == Some(info.marketLocked)
  {
    NamedEntry(tb, hist, m, i, 0);
    NamedEntry(tb, hist, m, i, 1);
    NamedEntry(tb, hist, m, i, 2);
    NamedEntry(tb, hist, m, i, 4);
    NamedEntry(tb, hist, m, i, 7);
    NamedEntry(tb, hist, m, i, 8);
    NamedEntry(tb, hist, m, i, 9);
  }

  /** The three balances of the miner actor are rounded down to multiples of 10^15. */
  lemma {:induction false} RoundedEntries(tb: Tables, hist: map<string, seq<Snapshot>>, m: string, i: nat)
    requires Agrees(tb, hist) && m in hist && i < |hist[m]|
    ensures var info := hist[m][i].reading.info;
      && Entry(tb, hist, m, i, "Balance").Some? && Rounded(Entry(tb, hist, m, i, "Balance").value, info.balance)
      && Entry(tb, hist, m, i, "LockedFunds").Some?
      && Rounded(Entry(tb, hist, m, i, "LockedFunds").value, info.lockedFunds)
      && Entry(tb, hist, m, i, "AvailableFunds").Some?
      && Rounded(Entry(tb, hist, m, i, "AvailableFunds").value, info.availableFunds)
  {
    NamedEntry(tb, hist, m, i, 3);
    NamedEntry(tb, hist, m, i, 5);
    NamedEntry(tb, hist, m, i, 6);
  }

  /** A uint64 counter comes out as itself below 2^63, and as what int64 makes of it from there on. */
  ghost predicate Converted(recorded: int, counter: nat) {
    && (counter < 0x8000_0000_0000_0000 ==> recorded == counter)
    && (0x8000_0000_0000_0000 <= counter < 0x1_0000_0000_0000_0000 ==> recorded == counter - 0x1_0000_0000_0000_0000)
  }

  lemma {:induction false} CounterEntries(tb: Tables, hist: map<string, seq<Snapshot>>, m: string, i: nat)
    requires Agrees(tb, hist) && m in hist && i < |hist[m]|
    ensures var proving := hist[m][i].reading.proving;
      && Entry(tb, hist, m, i, "Faults").Some? && Converted(Entry(tb, hist, m, i, "Faults").value, proving.faults)
      && Entry(tb, hist, m, i, "ProvenSectors").Some?
      && Converted(Entry(tb, hist, m, i, "ProvenSectors").value, proving.provenSectors)
      && Entry(tb, hist, m, i, "Recoveries").Some?
      && Converted(Entry(tb, hist, m, i, "Recoveries").value, proving.recoveries)
  {
    NamedEntry(tb, hist, m, i, 10);
    NamedEntry(tb, hist, m, i, 11);
    NamedEntry(tb, hist, m, i, 12);
  }

  /** Two tables' lists under a name say of its heights what the first table and the snapshots do. */
  ghost predicate ListsAgree(
    h: seq<Snapshot>, entries: map<int, int>, values: map<string, seq<int>>, steps: map<string, seq<int>>)
  {
    && (forall i :: 0 <= i < |h| ==> h[i].height in entries)
    && (forall x, v :: x in Heights(values, Decimal.Print(v)) <==> x in entries && entries[x] == v)
    && (forall x, d :: x in Heights(steps, Decimal.Print(d)) <==> d != 0 && IsStep(h, entries, x, d))
  }

  /** x is the height of a snapshot that is not the first, and d what its entry adds to the one before. */
  ghost predicate IsStep(h: seq<Snapshot>, entries: map<int, int>, x: int, d: int)
    requires forall i :: 0 <= i < |h| ==> h[i].height in entries
  {
    exists i :: 0 < i < |h| && h[i].height == x && entries[h[i].height] - entries[h[i - 1].height] == d
  }

  lemma {:induction false} StepIsRecorded(h: seq<Snapshot>, t: nat, entries: map<int, int>, x: int, d: int)
    requires t < 13 && HoldsAll(entries, h, t)
    ensures StepsTo(h, t, x, d) <==> IsStep(h, entries, x, d)
  {
    forall i | 0 < i < |h|
      ensures entries[h[i].height] - entries[h[i - 1].height] == Recorded(h, t, i) - Recorded(h, t, i - 1)
    {
      assert entries[h[i - 1].height] == Recorded(h, t, i - 1);
    }
  }

  lemma {:induction false} IndexListsAgree(h: seq<Snapshot>, t: nat, ix: Index)
    requires t < 13 && HeightsExact(ix, h, t) && ListsExact(ix, h, t)
    ensures ListsAgree(h, ix.byHeight, ix.byValue, ix.byStep)
  {
    forall x, d ensures x in Heights(ix.byStep, Decimal.Print(d)) <==> d != 0 && IsStep(h, ix.byHeight, x, d) {
      StepIsRecorded(h, t, ix.byHeight, x, d);
    }
  }

  /** For every recorded miner and every one of the thirteen names, the tables agree. */
  lemma {:induction false} NamesAgree(tb: Tables, hist: map<string, seq<Snapshot>>, m: string, t: nat)
    requires Agrees(tb, hist) && m in hist && t < 13
    ensures HasAll(tb, m)
    ensures var name := VALUE_TYPES[t];
      ListsAgree(hist[m], tb.heights[m][name], tb.values[m][name], tb.steps[m][name])
  {
    TablesAreExact(tb, hist, m, t);
    IndexListsAgree(hist[m], t, At(tb, m, t));
  }

  class ChainState {
    var PrevHeight: int
    var DiffHeight: map<string, map<string, map<int, int>>>
    var DiffValue: map<string, map<string, map<string, seq<int>>>>
    var DiffCmp: map<string, map<string, map<string, seq<int>>>>

    /** What has been recorded of each miner. */
    ghost var hist: map<string, seq<Snapshot>>

    ghost function View(): Tables
      reads this
    {
      Tables(DiffHeight, DiffValue, DiffCmp)
    }

    /** The three maps agree with what has been recorded, for every miner and value type. */
    ghost predicate Consistent()
      reads this
    {
      Agrees(View(), hist)
    }

    ghost function Recorded(m: string): seq<Snapshot>
      reads this
    {
      Was(hist, m)
    }

    ghost predicate CanRecord(m: string, height: int)
      reads this
    {
      Recordable(hist, PrevHeight, m, height)
    }

    constructor ()
      ensures Consistent() && hist == map[] && PrevHeight == -1
    {
      PrevHeight := -1;
      DiffHeight, DiffValue, DiffCmp, hist := map[], map[], map[], map[];
    }

    method AddMiner(m: string)
      modifies this`DiffHeight, this`DiffValue, this`DiffCmp
      ensures View() == AddBlank(old(View()), m)
    {
      DiffHeight := DiffHeight[m := Blank(map[])];
      DiffValue := DiffValue[m := Blank(map[])];
      DiffCmp := DiffCmp[m := Blank(map[])];
    }

    /** One of recordDiff's blocks. */
    method RecordValue(m: string, t: nat, value: int, height: int)
      requires t < 13 && HasAll(View(), m)
      requires PrevHeight != -1 ==> PrevHeight in At(View(), m, t).byHeight
      modifies this`DiffHeight, this`DiffValue, this`DiffCmp
      ensures View() ==
        SetAt(old(View()), m, t, RecordPoint(At(old(View()), m, t), PrevHeight, Point(height, value)))
    {
      var name := VALUE_TYPES[t];
      DiffHeight := DiffHeight[m := DiffHeight[m][name := DiffHeight[m][name][height := value]]];
      var key := Decimal.Print(value);
      DiffValue := DiffValue[m := DiffValue[m][name := Append(DiffValue[m][name], key, height)]];
      assert DiffCmp == Put(DiffCmp, m, t, DiffCmp[m][name]) by {
        assert DiffCmp[m] == DiffCmp[m][name := DiffCmp[m][name]];
      }
      if PrevHeight != -1 {
        var prevValue := DiffHeight[m][name][PrevHeight];
        var cmp := value - prevValue;
        if cmp != 0 {
          DiffCmp := DiffCmp[m := DiffCmp[m][name := Append(DiffCmp[m][name], Decimal.Print(cmp), height)]];
        }
      }
    }

    /** All of recordDiff's blocks, in the order of valueTypes. */
    method RecordValues(m: string, reading: Reading, height: int, ghost g: seq<Snapshot>)
      requires Halfway(View(), m, g, g, 0) && InOrder(g + [Snapshot(height, reading)])
      requires PrevHeight == if g == [] then -1 else Last(g)
      modifies this`DiffHeight, this`DiffValue, this`DiffCmp
      ensures SameElsewhere(old(View()), View(), m)
      ensures Halfway(View(), m, g + [Snapshot(height, reading)], g, 13)
    {
      ghost var before, s := View(), Snapshot(height, reading);
      for t := 0 to 13
        invariant SameElsewhere(before, View(), m)
        invariant Halfway(View(), m, g + [s], g, t)
      {
        RecordExtends(g, s, PrevHeight, t);
        ghost var ix := RecordPoint(At(View(), m, t), PrevHeight, Point(height, ValueOf(reading, t)));
        HalfwayStep(View(), m, g, s, PrevHeight, t, ix);
        SetIsElsewhereSame(before, View(), m, t, ix);
        RecordValue(m, t, ValueOf(reading, t), height);
      }
    }

    method RecordDiff(m: string, reading: Reading, height: int)
      requires Consistent() && CanRecord(m, height)
      modifies this`DiffHeight, this`DiffValue, this`DiffCmp, this`hist
      ensures Consistent()
      ensures hist == old(hist)[m := old(Recorded(m)) + [Snapshot(height, reading)]]
    {
      ghost var before, g, s := View(), Recorded(m), Snapshot(height, reading);
      assert m in hist ==> EntryAgrees(View(), m, g);
      if m !in DiffHeight {
        AddMiner(m);
        BlankAgrees(before, m);
      }
      assert InOrder(g + [s]);
      RecordValues(m, reading, height, g);
      RecordKeepsAgreement(before, View(), hist, m, g + [s]);
      hist := hist[m := g + [s]];
    }

    ghost predicate Aligned(miners: set<string>)
      reads this
    {
      AlignedAt(hist, PrevHeight, miners)
    }

    /** The first i miners of the tipset have been read and recorded, on top of before. */
    ghost predicate Partway(before: map<string, seq<Snapshot>>, tipset: Tipset, i: nat)
      requires i <= |tipset.maddrs|
      reads this
    {
      && Consistent() && Underway(before, hist, tipset, i)
      && forall j :: 0 <= j < i ==> tipset.fetch(tipset.maddrs[j]).Got?
    }

    /** The part of UpdateChainState's inner loop that concerns the index, for miner i of the tipset. */
    method RecordMiner(tipset: Tipset, i: nat, ghost before: map<string, seq<Snapshot>>, ghost miners: set<string>)
      returns (ok: bool)
      requires AlignedAt(before, PrevHeight, miners) && ListsMiners(tipset, miners)
      requires 0 <= tipset.height && PrevHeight < tipset.height
      requires i < |tipset.maddrs| && Partway(before, tipset, i)
      modifies this`DiffHeight, this`DiffValue, this`DiffCmp, this`hist
      ensures ok <==> tipset.fetch(tipset.maddrs[i]).Got?
      ensures if ok then Partway(before, tipset, i + 1) else Consistent() && BrokenOff(before, hist, tipset)
    {
      var m := tipset.maddrs[i];
      match tipset.fetch(m)
      case EarlyError =>
        BreaksOff(before, hist, tipset, i);
        ok := false;
      case LateError(reading) =>
        RecordReading(tipset, i, reading, before, miners);
        BreaksOff(before, hist, tipset, i);
        ok := false;
      case Got(reading) =>
        RecordReading(tipset, i, reading, before, miners);
        ok := true;
    }

    method RecordReading(
      tipset: Tipset, i: nat, reading: Reading, ghost before: map<string, seq<Snapshot>>, ghost miners: set<string>)
      requires AlignedAt(before, PrevHeight, miners) && ListsMiners(tipset, miners)
      requires 0 <= tipset.height && PrevHeight < tipset.height
      requires i < |tipset.maddrs| && Consistent() && Underway(before, hist, tipset, i)
      requires var fetched := tipset.fetch(tipset.maddrs[i]); fetched == LateError(reading) || fetched == Got(reading)
      modifies this`DiffHeight, this`DiffValue, this`DiffCmp, this`hist
      ensures Consistent() && Underway(before, hist, tipset, i + 1)
    {
      UnderwayNext(before, hist, PrevHeight, miners, tipset, i);
      RecordDiff(tipset.maddrs[i], reading, tipset.height);
    }

    /**
     One turn of UpdateChainState, under the lock.  On success every miner has one more snapshot and
     PrevHeight has moved on; on an error PrevHeight stays and the miners listed before the error,
     and no others, may be ahead of it.  The maps agree with what was recorded either way.
     */
    method RecordTipset(tipset: Tipset, ghost miners: set<string>) returns (ok: bool)
      requires Consistent() && Aligned(miners) && tipset.listed && ListsMiners(tipset, miners)
      requires 0 <= tipset.height && PrevHeight < tipset.height
      modifies this
      ensures Consistent()
      ensures ok <==> Succeeds(tipset)
      ensures ok ==> Aligned(miners) && PrevHeight == tipset.height
      ensures ok ==> Underway(old(hist), hist, tipset, |tipset.maddrs|)
      ensures !ok ==> PrevHeight == old(PrevHeight)
      ensures !ok ==> BrokenOff(old(hist), hist, tipset)
    {
      var maddrs := tipset.maddrs;
      ghost var before := hist;
      for i := 0 to |maddrs|
        invariant PrevHeight == old(PrevHeight) && Partway(before, tipset, i)
      {
        var recorded := RecordMiner(tipset, i, before, miners);
        if !recorded {
          return false;
        }
      }
      UnderwayEnds(before, hist, PrevHeight, miners, tipset);
      PrevHeight := tipset.height;
      ok := true;
    }

    /** The first i tipsets have been recorded in full. */
    ghost predicate OnTrack(tipsets: seq<Tipset>, i: nat, miners: set<string>)
      requires i <= |tipsets|
      reads this
    {
      && Consistent() && Aligned(miners)
      && PrevHeight == (if i == 0 then -1 else tipsets[i - 1].height)
      && (forall j :: 0 <= j < i ==> Succeeds(tipsets[j])) && RanThrough(hist, tipsets, i, miners)
    }

    /** One turn of the loop, with the listing of the miners that comes before the lock. */
    method RecordNext(tipsets: seq<Tipset>, i: nat, ghost miners: set<string>) returns (ok: bool)
      requires i < |tipsets| && Chain(tipsets, miners) && OnTrack(tipsets, i, miners)
      modifies this
      ensures ok ==> OnTrack(tipsets, i + 1, miners)
      ensures !ok ==> Consistent() && !Succeeds(tipsets[i]) && Stopped(hist, tipsets, miners)
    {
      ghost var before := hist;
      if !tipsets[i].listed {
        StopsShort(before, hist, tipsets, i, miners);
        return false;
      }
      ok := RecordTipset(tipsets[i], miners);
      if ok {
        RanOneMore(before, hist, tipsets, i, miners);
      } else {
        StopsShort(before, hist, tipsets, i, miners);
      }
    }

    /**
     A whole run from a fresh recorder, which an error ends: every miner's history is what was read
     of it at the tipsets, up to the miner that failed, and the maps agree with the histories.
     */
    method UpdateChainState(tipsets: seq<Tipset>, ghost miners: set<string>) returns (ok: bool)
      requires Consistent() && hist == map[] && PrevHeight == -1 && Chain(tipsets, miners)
      modifies this
      ensures Consistent()
      ensures ok <==> forall i :: 0 <= i < |tipsets| ==> Succeeds(tipsets[i])
      ensures ok ==> RanThrough(hist, tipsets, |tipsets|, miners)
      ensures ok ==> forall m :: m in miners ==> Reads(Was(hist, m), tipsets, m)
      ensures !ok ==> Stopped(hist, tipsets, miners)
    {
      for i := 0 to |tipsets|
        invariant OnTrack(tipsets, i, miners)
      {
        var recorded := RecordNext(tipsets, i, miners);
        if !recorded {
          return false;
        }
      }
      ReadsAll(hist, tipsets, miners);
      ok := true;
    }
  }
}
