/**
 Synchronized mining.  Every miner runs a loop that meets all the others at a barrier per block,
 mines the block, and re-reads its own stop flag; the flag is cleared once, by the miner's main
 goroutine, after all clients have asked to stop.  A miner that leaves the loop signals one more
 barrier.  The steps of the goroutines interleave freely.
 */
module Mining {
  import opened Prelude
  import opened Runs

  const MAX_RETRIES: nat := 100

  /** Where a mining goroutine is; block is its loop counter i. */
  datatype Pc =
    | Check(block: nat)                   // about to read the stop flag
    | Signal(block: nat)                  // about to signal mine-block-i
    | Wait(block: nat)                    // waiting at barrier mine-block-i
    | Mine(block: nat, retries: nat)      // mining, after so many failed attempts
    | Farewell(block: nat)                // left the loop, about to signal the last barrier
    | Exited(block: nat)                  // done
    | Panicked(block: nat)                // gave up on a block

  datatype State = State(pcs: seq<Pc>, mine: seq<bool>, counts: map<nat, nat>, stops: nat)

  datatype Config = Config(miners: nat, clients: nat)

  datatype Action =
    | ReadFlag(m: nat) | SignalNext(m: nat) | PassBarrier(m: nat)
    | MineOk(m: nat) | MineErr(m: nat) | SignalLast(m: nat)
    | ClearFlag(m: nat) | ClientStop

  function Count(s: State, i: nat): nat {
    if i in s.counts then s.counts[i] else 0
  }

  function Initial(c: Config): State {
    State(seq(c.miners, m => Check(0)), seq(c.miners, m => true), map[], 0)
  }

  function Goto(s: State, m: nat, pc: Pc): State
    requires m < |s.pcs|
  {
    s.(pcs := s.pcs[m := pc])
  }

  function SignalAt(s: State, m: nat, i: nat, pc: Pc): State
    requires m < |s.pcs|
  {
    s.(pcs := s.pcs[m := pc], counts := s.counts[i := Count(s, i) + 1])
  }

  function Step(c: Config, s: State, a: Action): Option<State> {
    if a.ClientStop? then
      if s.stops < c.clients then Some(s.(stops := s.stops + 1)) else None
    else if a.m >= |s.pcs| || a.m >= |s.mine| then None
    else
      match (a, s.pcs[a.m])
      case (ReadFlag(m), Check(i)) => Some(Goto(s, m, if s.mine[m] then Signal(i) else Farewell(i)))
      case (SignalNext(m), Signal(i)) => Some(SignalAt(s, m, i, Wait(i)))
      case (PassBarrier(m), Wait(i)) => if c.miners <= Count(s, i) then Some(Goto(s, m, Mine(i, 0))) else None
      case (MineOk(m), Mine(i, _)) => Some(Goto(s, m, Check(i + 1)))
      case (MineErr(m), Mine(i, r)) => Some(Goto(s, m, if r + 1 < MAX_RETRIES then Mine(i, r + 1) else Panicked(i)))
      case (SignalLast(m), Farewell(i)) => Some(SignalAt(s, m, i, Exited(i)))
      case (ClearFlag(m), _) =>
        if s.mine[m] && c.clients <= s.stops then Some(s.(mine := s.mine[m := false])) else None
      case _ => None
  }

  ghost function Stepper(c: Config): (State, Action) -> Option<State> {
    (s: State, a: Action) => Step(c, s, a)
  }

  ghost predicate Reaches(c: Config, acts: seq<Action>, s: State) {
    Run(Stepper(c), Initial(c), acts) == Some(s)
  }

  // ---------- the invariant ----------

  /** Has the miner signalled barrier i? */
  predicate Signalled(pc: Pc, i: nat) {
    match pc
    case Wait(j) => i <= j
    case Mine(j, _) => i <= j
    case Exited(j) => i <= j
    case Panicked(j) => i <= j
    case _ => i < pc.block
  }

  /** Has the miner passed barrier i? */
  predicate Passed(pc: Pc, i: nat) {
    match pc
    case Mine(j, _) => i <= j
    case Panicked(j) => i <= j
    case _ => i < pc.block
  }

  function Signals(i: nat): Pc -> nat {
    (pc: Pc) => if Signalled(pc, i) then 1 else 0
  }

  /** A barrier that somebody passed was signalled by everybody. */
  ghost predicate Together(pcs: seq<Pc>) {
    forall a, b, i: nat :: 0 <= a < |pcs| && 0 <= b < |pcs| && Passed(pcs[a], i) ==> Signalled(pcs[b], i)
  }

  ghost predicate Inv(c: Config, s: State) {
    && |s.pcs| == |s.mine| == c.miners
    && (forall i: nat :: Count(s, i) == Sum(Signals(i), s.pcs))
    && Together(s.pcs)
    && (forall m :: 0 <= m < c.miners && (s.pcs[m].Farewell? || s.pcs[m].Exited?) ==> !s.mine[m])
    && ((exists m :: 0 <= m < c.miners && !s.mine[m]) ==> c.clients <= s.stops)
  }

  lemma {:induction false} NobodySignalled(pcs: seq<Pc>, i: nat)
    requires forall m :: 0 <= m < |pcs| ==> pcs[m] == Check(0)
    ensures Sum(Signals(i), pcs) == 0
  {
    if pcs != [] {
      NobodySignalled(pcs[1..], i);
    }
  }

  lemma InitialInv(c: Config)
    ensures Inv(c, Initial(c))
  {
    forall i: nat ensures Sum(Signals(i), Initial(c).pcs) == 0 {
      NobodySignalled(Initial(c).pcs, i);
    }
  }

  /** A full count means that every miner has signalled. */
  lemma FullCount(c: Config, s: State, i: nat)
    requires Inv(c, s)
    ensures Count(s, i) <= c.miners
    ensures Count(s, i) == c.miners <==> forall b :: 0 <= b < c.miners ==> Signalled(s.pcs[b], i)
  {
    SumOfIndicator(Signals(i), s.pcs);
    assert forall b :: 0 <= b < c.miners ==> s.pcs[b] in s.pcs;
  }

  lemma StepKeepsCounts(c: Config, s: State, a: Action, i: nat)
    requires Inv(c, s) && Step(c, s, a).Some?
    ensures Count(Step(c, s, a).value, i) == Sum(Signals(i), Step(c, s, a).value.pcs)
  {
    var t := Step(c, s, a).value;
    if !a.ClientStop? && !a.ClearFlag? {
      SumUpdate(Signals(i), s.pcs, a.m, t.pcs[a.m]);
    }
  }

  lemma StepKeepsTogether(c: Config, s: State, a: Action)
    requires Inv(c, s) && Step(c, s, a).Some? && !a.ClientStop?
    ensures Together(Step(c, s, a).value.pcs)
  {
    var t := Step(c, s, a).value;
    forall x, y, i: nat | 0 <= x < c.miners && 0 <= y < c.miners && Passed(t.pcs[x], i)
      ensures Signalled(t.pcs[y], i)
    {
      if a.PassBarrier? {
        FullCount(c, s, s.pcs[a.m].block);
      }
      assert Signalled(s.pcs[y], i) ==> Signalled(t.pcs[y], i);
      assert Passed(s.pcs[x], i) ==> Signalled(s.pcs[y], i);
    }
  }

  lemma StepKeepsInv(c: Config, s: State, a: Action)
    requires Inv(c, s) && Step(c, s, a).Some?
    ensures Inv(c, Step(c, s, a).value)
  {
    var t := Step(c, s, a).value;
    forall i: nat ensures Count(t, i) == Sum(Signals(i), t.pcs) {
      StepKeepsCounts(c, s, a, i);
    }
    if !a.ClientStop? {
      StepKeepsTogether(c, s, a);
    }
  }

  lemma ReachableInv(c: Config, acts: seq<Action>, s: State)
    requires Reaches(c, acts, s)
    ensures Inv(c, s)
  {
    var inv := (s: State) => Inv(c, s);
    forall s: State, a: Action | inv(s) && Stepper(c)(s, a).Some? ensures inv(Stepper(c)(s, a).value) {
      StepKeepsInv(c, s, a);
    }
    InitialInv(c);
    RunKeeps(Stepper(c), inv, Initial(c), acts);
  }

  // ---------- lockstep ----------

  /** The blocks a miner has completed: 0 up to its counter. */
  function Completed(pc: Pc): nat { pc.block }

  /**
   Lockstep, however and whenever the miners stop: nobody starts block i before everybody has
   completed the blocks before it, so completed counts, and final indices, differ by one at most.
   */
  lemma Lockstep(c: Config, acts: seq<Action>, s: State, a: nat, b: nat)
    requires Reaches(c, acts, s) && a < |s.pcs| && b < |s.pcs|
    ensures s.pcs[a].Mine? ==> s.pcs[a].block <= Completed(s.pcs[b])
    ensures Completed(s.pcs[a]) <= Completed(s.pcs[b]) + 1
    ensures s.pcs[a].Exited? && s.pcs[b].Exited? ==>
      s.pcs[a].block == s.pcs[b].block || s.pcs[a].block == s.pcs[b].block + 1 || s.pcs[a].block + 1 == s.pcs[b].block
  {
    ReachableInv(c, acts, s);
    assert s.pcs[a].Mine? ==> Passed(s.pcs[a], s.pcs[a].block);
    assert s.pcs[a].block > 0 ==> Passed(s.pcs[a], s.pcs[a].block - 1);
    assert s.pcs[b].block > 0 ==> Passed(s.pcs[b], s.pcs[b].block - 1);
  }

  // ---------- the retry loop ----------

  /** The block of miner m after the schedule. */
  ghost function BlockAfter(c: Config, acts: seq<Action>, m: nat): Option<nat> {
    match Run(Stepper(c), Initial(c), acts)
    case None => None
    case Some(s) => if m < |s.pcs| then Some(s.pcs[m].block) else None
  }

  /** How often the schedule takes action a while miner m is at block i. */
  ghost function Times(c: Config, acts: seq<Action>, a: Action, m: nat, i: nat): nat {
    if acts == [] then 0
    else
      var n := |acts| - 1;
      Times(c, acts[..n], a, m, i) + if acts[n] == a && BlockAfter(c, acts[..n], m) == Some(i) then 1 else 0
  }

  /** What a miner's position says of its failed and successful attempts at block i. */
  predicate AttemptsFit(pc: Pc, i: nat, errs: nat, oks: nat) {
    if i < pc.block then errs < 100 && oks == 1
    else if pc.block < i then errs == 0 && oks == 0
    else oks == 0 && match pc
      case Mine(_, retries) => errs == retries < 100
      case Panicked(_) => errs == 100
      case _ => errs == 0
  }

  lemma {:induction false} ReachableFitsAttempts(c: Config, acts: seq<Action>, s: State, m: nat, i: nat)
    requires Reaches(c, acts, s) && m < c.miners
    ensures m < |s.pcs|
    ensures AttemptsFit(s.pcs[m], i, Times(c, acts, MineErr(m), m, i), Times(c, acts, MineOk(m), m, i))
  {
    if acts != [] {
      var n := |acts| - 1;
      RunLast(Stepper(c), Initial(c), acts);
      var u := Run(Stepper(c), Initial(c), acts[..n]).value;
      ReachableFitsAttempts(c, acts[..n], u, m, i);
      var errs, oks := Times(c, acts[..n], MineErr(m), m, i), Times(c, acts[..n], MineOk(m), m, i);
    }
  }

  /**
   The retry loop, over whole runs: a miner gives up on a block exactly when 100 attempts at it have
   failed, it leaves a block behind only by one successful attempt, after fewer failures than that,
   and until then it can always try again.
   */
  lemma {:induction false} GivesUpIff(c: Config, acts: seq<Action>, s: State, m: nat, i: nat)
    requires Reaches(c, acts, s) && m < c.miners
    ensures m < |s.pcs|
    ensures var errs, oks := Times(c, acts, MineErr(m), m, i), Times(c, acts, MineOk(m), m, i);
      && (s.pcs[m] == Panicked(i) <==> errs == 100)
      && errs <= 100
      && oks == (if i < s.pcs[m].block then 1 else 0)
      && (s.pcs[m].Mine? && s.pcs[m].block == i ==>
            errs < 100 && Step(c, s, MineOk(m)).Some? && Step(c, s, MineErr(m)).Some?)
  {
    ReachableFitsAttempts(c, acts, s, m, i);
    ReachableInv(c, acts, s);
  }

  // ---------- stopping ----------

  predicate Finished(s: State) {
    forall m :: 0 <= m < |s.pcs| ==> s.pcs[m].Exited?
  }

  predicate Sound(s: State) {
    forall m :: 0 <= m < |s.pcs| ==> !s.pcs[m].Panicked?
  }

  /** m has committed to block i, and b has left the loop for good one block short of it. */
  predicate Stranded(s: State, m: nat, b: nat) {
    && m < |s.pcs| && b < |s.pcs|
    && (s.pcs[m].Signal? || s.pcs[m].Wait?)
    && s.pcs[b].Exited? && s.pcs[b].block + 1 == s.pcs[m].block
  }

  ghost predicate SomeoneStranded(s: State) {
    exists m: nat, b: nat :: Stranded(s, m, b)
  }

  /** The read that strands: a check of block j finds the flag still up after some miner exited at j - 1. */
  predicate LateRead(s: State, a: Action) {
    && a.ReadFlag? && a.m < |s.pcs| && a.m < |s.mine| && s.mine[a.m]
    && exists b :: 0 <= b < |s.pcs| && s.pcs[b].Exited? && s.pcs[b].block + 1 == s.pcs[a.m].block
  }

  /** A stranded miner stays so: its barrier can never open. */
  lemma StrandingIsForGood(c: Config, s: State, a: Action, m: nat, b: nat)
    requires Inv(c, s) && Step(c, s, a).Some? && Stranded(s, m, b)
    ensures Stranded(Step(c, s, a).value, m, b)
  {
    if a == PassBarrier(m) {
      FullCount(c, s, s.pcs[m].block);
    }
  }

  /** Only a late read strands anyone. */
  lemma OnlyLateReadsStrand(c: Config, s: State, a: Action)
    requires Inv(c, s) && Step(c, s, a).Some? && !SomeoneStranded(s)
    ensures SomeoneStranded(Step(c, s, a).value) <==> LateRead(s, a)
  {
    var t := Step(c, s, a).value;
    if SomeoneStranded(t) {
      var m: nat, b: nat :| Stranded(t, m, b);
      assert !Stranded(s, m, b);
      assert Passed(s.pcs[m], t.pcs[b].block) ==> Signalled(s.pcs[b], t.pcs[b].block);
      assert a == ReadFlag(m);
    }
    if LateRead(s, a) {
      var b :| 0 <= b < |s.pcs| && s.pcs[b].Exited? && s.pcs[b].block + 1 == s.pcs[a.m].block;
      assert Stranded(t, a.m, b);
    }
  }

  /** Some action of the schedule was a late read. */
  ghost predicate HasLateRead(c: Config, s: State, acts: seq<Action>)
    decreases |acts|
  {
    acts != [] && (LateRead(s, acts[0]) ||
                   (Step(c, s, acts[0]).Some? && HasLateRead(c, Step(c, s, acts[0]).value, acts[1..])))
  }

  lemma {:induction false} StrandingPersists(c: Config, s: State, acts: seq<Action>, t: State)
    requires Inv(c, s) && SomeoneStranded(s) && Run(Stepper(c), s, acts) == Some(t)
    ensures SomeoneStranded(t)
    decreases |acts|
  {
    if acts != [] {
      var m: nat, b: nat :| Stranded(s, m, b);
      StrandingIsForGood(c, s, acts[0], m, b);
      StepKeepsInv(c, s, acts[0]);
      StrandingPersists(c, Step(c, s, acts[0]).value, acts[1..], t);
    }
  }

  lemma {:induction false} StrandedIffLateRead(c: Config, s: State, acts: seq<Action>, t: State)
    requires Inv(c, s) && !SomeoneStranded(s) && Run(Stepper(c), s, acts) == Some(t)
    ensures SomeoneStranded(t) <==> HasLateRead(c, s, acts)
    decreases |acts|
  {
    if acts != [] {
      var u := Step(c, s, acts[0]).value;
      StepKeepsInv(c, s, acts[0]);
      OnlyLateReadsStrand(c, s, acts[0]);
      if SomeoneStranded(u) {
        StrandingPersists(c, u, acts[1..], t);
      } else {
        StrandedIffLateRead(c, u, acts[1..], t);
      }
    }
  }

  /**
   Whoever waits when nothing can move any more waits for a miner that exited one block earlier.
   */
  lemma BlockedMeansStranded(c: Config, s: State, m: nat)
    requires Inv(c, s) && Sound(s) && Terminal(Stepper(c), s) && m < c.miners && !s.pcs[m].Exited?
    ensures exists b: nat :: Stranded(s, m, b)
  {
    MoveOn(c, s, m);
    var i := s.pcs[m].block;
    FullCount(c, s, i);
    var b: nat :| b < c.miners && !Signalled(s.pcs[b], i);
    MoveOn(c, s, b);
    assert i > 0 ==> Passed(s.pcs[m], i - 1);
    if s.pcs[b].Wait? {
      FullCount(c, s, i - 1);
    }
    assert Stranded(s, m, b);
  }

  /** When nothing can move, a miner has exited, given up, or waits at a barrier that is not full. */
  lemma MoveOn(c: Config, s: State, m: nat)
    requires Inv(c, s) && Terminal(Stepper(c), s) && m < c.miners
    ensures s.pcs[m].Exited? || s.pcs[m].Panicked? || (s.pcs[m].Wait? && Count(s, s.pcs[m].block) < c.miners)
  {
    assert Stepper(c)(s, ReadFlag(m)).None? && Stepper(c)(s, SignalNext(m)).None?;
    assert Stepper(c)(s, PassBarrier(m)).None? && Stepper(c)(s, MineOk(m)).None?;
    assert Stepper(c)(s, SignalLast(m)).None?;
  }

  lemma TerminalIffFinished(c: Config, s: State)
    requires Inv(c, s) && Sound(s) && Terminal(Stepper(c), s)
    ensures Finished(s) <==> !SomeoneStranded(s)
  {
    if !Finished(s) {
      var m :| 0 <= m < c.miners && !s.pcs[m].Exited?;
      BlockedMeansStranded(c, s, m);
    }
  }

  /**
   Shutdown, exactly: when a run without panics comes to rest, all miners have finished if and only
   if no check of a block found the flag up after some miner had exited one block earlier.
   */
  lemma ShutdownCompletesIff(c: Config, acts: seq<Action>, s: State)
    requires Reaches(c, acts, s) && Sound(s) && Terminal(Stepper(c), s)
    ensures Finished(s) <==> !HasLateRead(c, Initial(c), acts)
  {
    InitialInv(c);
    ReachableInv(c, acts, s);
    StrandedIffLateRead(c, Initial(c), acts, s);
    TerminalIffFinished(c, s);
  }

  /** The last actions left to a miner whose flag is down. */
  function StepsLeft(pc: Pc): nat {
    match pc
    case Signal(_) => MAX_RETRIES + 5
    case Wait(_) => MAX_RETRIES + 4
    case Mine(_, r) => if r < MAX_RETRIES then MAX_RETRIES - r + 3 else 3
    case Check(_) => 2
    case Farewell(_) => 1
    case _ => 0
  }

  function FinishRank(c: Config, s: State): nat {
    Sum(StepsLeft, s.pcs) + if s.stops < c.clients then c.clients - s.stops else 0
  }

  ghost predicate FlagsDown(c: Config, s: State) {
    Inv(c, s) && forall m :: 0 <= m < c.miners ==> !s.mine[m]
  }

  lemma StepLowersRank(c: Config, s: State, a: Action)
    requires FlagsDown(c, s) && Step(c, s, a).Some?
    ensures FlagsDown(c, Step(c, s, a).value) && FinishRank(c, Step(c, s, a).value) < FinishRank(c, s)
    ensures !LateRead(s, a)
  {
    StepKeepsInv(c, s, a);
    if !a.ClientStop? {
      SumUpdate(StepsLeft, s.pcs, a.m, Step(c, s, a).value.pcs[a.m]);
    }
  }

  lemma {:induction false} NoLateReadsWithFlagsDown(c: Config, s: State, acts: seq<Action>, t: State)
    requires FlagsDown(c, s) && Run(Stepper(c), s, acts) == Some(t)
    ensures !HasLateRead(c, s, acts) && FlagsDown(c, t)
    decreases |acts|
  {
    if acts != [] {
      StepLowersRank(c, s, acts[0]);
      NoLateReadsWithFlagsDown(c, Step(c, s, acts[0]).value, acts[1..], t);
    }
  }

  /**
   Once every flag is down with nobody stranded, every way of going on is finite, and unless a miner
   gives up on a block it ends with all of them finished.
   */
  lemma MinersFinish(c: Config, acts: seq<Action>, s: State, more: seq<Action>, t: State)
    requires Reaches(c, acts, s) && (forall m :: 0 <= m < |s.mine| ==> !s.mine[m])
    requires !SomeoneStranded(s)
    requires Run(Stepper(c), s, more) == Some(t)
    ensures |more| <= FinishRank(c, s)
    ensures Sound(t) && Terminal(Stepper(c), t) ==> Finished(t)
  {
    ReachableInv(c, acts, s);
    var inv := (s: State) => FlagsDown(c, s);
    var rank := (s: State) => FinishRank(c, s);
    forall s: State, a: Action | inv(s) && Stepper(c)(s, a).Some?
      ensures inv(Stepper(c)(s, a).value) && rank(Stepper(c)(s, a).value) < rank(s)
    {
      StepLowersRank(c, s, a);
    }
    RunIsBounded(Stepper(c), inv, rank, s, more);
    NoLateReadsWithFlagsDown(c, s, more, t);
    StrandedIffLateRead(c, s, more, t);
    if Sound(t) && Terminal(Stepper(c), t) {
      TerminalIffFinished(c, t);
    }
  }

  // ---------- a run that strands a miner ----------

  const TWO := Config(2, 1)

  /** Miner 0 stops before its first block; miner 1 sees its flag late and waits for block 1 for ever. */
  const STRANDING: seq<Action> := [
    ClientStop, ClearFlag(0), ReadFlag(0), SignalLast(0),
    ReadFlag(1), SignalNext(1), PassBarrier(1), MineOk(1), ReadFlag(1), SignalNext(1), ClearFlag(1)]

  lemma Advance(s: State, k: nat, a: Action, t: State)
    requires k < |STRANDING| && STRANDING[k] == a && Step(TWO, s, a).Some?
    requires var u := Step(TWO, s, a).value;
      u.pcs == t.pcs && u.mine == t.mine && u.counts == t.counts && u.stops == t.stops
    ensures Run(Stepper(TWO), s, STRANDING[k..]) == Run(Stepper(TWO), t, STRANDING[k + 1..])
  {
    assert Step(TWO, s, a).value == t;
    assert STRANDING[k..][0] == STRANDING[k] && STRANDING[k..][1..] == STRANDING[k + 1..];
  }

  lemma FlagIsCleared(s0: State, s2: State)
    requires s0 == State([Check(0), Check(0)], [true, true], map[], 0)
    requires s2 == State([Check(0), Check(0)], [false, true], map[], 1)
    ensures Run(Stepper(TWO), s0, STRANDING[0..]) == Run(Stepper(TWO), s2, STRANDING[2..])
  {
    var s1 := s0.(stops := 1);
    Advance(s0, 0, ClientStop, s1);
    Advance(s1, 1, ClearFlag(0), s2);
  }

  lemma FirstMinerLeaves(s2: State, s4: State)
    requires s2 == State([Check(0), Check(0)], [false, true], map[], 1)
    requires s4 == State([Exited(0), Check(0)], [false, true], map[0 := 1], 1)
    ensures Run(Stepper(TWO), s2, STRANDING[2..]) == Run(Stepper(TWO), s4, STRANDING[4..])
  {
    var s3 := s2.(pcs := [Farewell(0), Check(0)]);
    Advance(s2, 2, ReadFlag(0), s3);
    Advance(s3, 3, SignalLast(0), s4);
  }

  lemma SecondMinerSignals(s4: State, s6: State)
    requires s4 == State([Exited(0), Check(0)], [false, true], map[0 := 1], 1)
    requires s6 == State([Exited(0), Wait(0)], [false, true], map[0 := 2], 1)
    ensures Run(Stepper(TWO), s4, STRANDING[4..]) == Run(Stepper(TWO), s6, STRANDING[6..])
  {
    var s5 := s4.(pcs := [Exited(0), Signal(0)]);
    Advance(s4, 4, ReadFlag(1), s5);
    Advance(s5, 5, SignalNext(1), s6);
  }

  lemma SecondMinerMines(s6: State, s8: State)
    requires s6 == State([Exited(0), Wait(0)], [false, true], map[0 := 2], 1)
    requires s8 == State([Exited(0), Check(1)], [false, true], map[0 := 2], 1)
    ensures Run(Stepper(TWO), s6, STRANDING[6..]) == Run(Stepper(TWO), s8, STRANDING[8..])
  {
    var s7 := s8.(pcs := [Exited(0), Mine(0, 0)]);
    Advance(s6, 6, PassBarrier(1), s7);
    Advance(s7, 7, MineOk(1), s8);
  }

  lemma SecondMinerWaits(s8: State, s11: State)
    requires s8 == State([Exited(0), Check(1)], [false, true], map[0 := 2], 1)
    requires s11 == State([Exited(0), Wait(1)], [false, false], map[0 := 2, 1 := 1], 1)
    ensures Run(Stepper(TWO), s8, STRANDING[8..]) == Some(s11)
  {
    var s9 := s8.(pcs := [Exited(0), Signal(1)]);
    var s10 := s11.(mine := [false, true]);
    Advance(s8, 8, ReadFlag(1), s9);
    Advance(s9, 9, SignalNext(1), s10);
    Advance(s10, 10, ClearFlag(1), s11);
    assert STRANDING[11..] == [];
  }

  lemma AtRest(s: State)
    requires s == State([Exited(0), Wait(1)], [false, false], map[0 := 2, 1 := 1], 1)
    ensures Terminal(Stepper(TWO), s) && Sound(s) && !Finished(s)
  {
    forall a: Action ensures Step(TWO, s, a).None? {}
    assert s.pcs[1] == Wait(1);
  }

  /** The promise that no miner is left waiting does not hold of every run. */
  lemma {:induction false} MinerCanBeStranded() returns (t: State)
    ensures Reaches(TWO, STRANDING, t) && Sound(t) && Terminal(Stepper(TWO), t)
    ensures t.pcs == [Exited(0), Wait(1)] && !Finished(t)
  {
    var s0 := State([Check(0), Check(0)], [true, true], map[], 0);
    var s2 := State([Check(0), Check(0)], [false, true], map[], 1);
    var s4 := State([Exited(0), Check(0)], [false, true], map[0 := 1], 1);
    var s6 := State([Exited(0), Wait(0)], [false, true], map[0 := 2], 1);
    var s8 := State([Exited(0), Check(1)], [false, true], map[0 := 2], 1);
    t := State([Exited(0), Wait(1)], [false, false], map[0 := 2, 1 := 1], 1);
    FlagIsCleared(s0, s2);
    FirstMinerLeaves(s2, s4);
    SecondMinerSignals(s4, s6);
    SecondMinerMines(s6, s8);
    SecondMinerWaits(s8, t);
    StartsAs(s0);
    AtRest(t);
  }

  lemma StartsAs(s0: State)
    requires s0 == State([Check(0), Check(0)], [true, true], map[], 0)
    ensures Initial(TWO) == s0 && STRANDING[0..] == STRANDING
  {
    assert Initial(TWO).pcs == s0.pcs && Initial(TWO).mine == s0.mine;
  }
}
