/**
 The end of a run with synchronized mining.  A miner's main goroutine waits for the clients to ask
 for a stop, clears its stop flag, waits for its mining goroutine to close the done channel, and
 meets all instances at the done barrier.  The other instances, clients among them, signal that
 barrier in their own time, and some of them wait at it.
 */
module MiningShutdown {
  import opened Prelude
  import opened Runs
  import Mining

  /** Where a miner's main goroutine is. */
  datatype Main = AtStop | Joining | Signalling | Waiting | Through

  /** others counts the instances that are no miners; waiting, those of them that wait at the barrier. */
  datatype Config = Config(mining: Mining.Config, others: nat, waiting: nat) {
    function Instances(): nat { mining.miners + others }
  }

  /** dones counts the signals at the done barrier; signalled and passed are the other instances' part. */
  datatype State = State(inner: Mining.State, mains: seq<Main>, dones: nat, signalled: nat, passed: nat)

  datatype Action =
    | Inner(a: Mining.Action)
    | Join(m: nat) | SignalDone(m: nat) | PassDone(m: nat)
    | OtherSignals | OtherPasses

  function Initial(c: Config): State {
    State(Mining.Initial(c.mining), seq(c.mining.miners, m => AtStop), 0, 0, 0)
  }

  function Goto(s: State, m: nat, main: Main): State
    requires m < |s.mains|
  {
    s.(mains := s.mains[m := main])
  }

  /** Clearing the flag is the main goroutine's own step; the other actions of mining leave it where it is. */
  function InnerStep(c: Config, s: State, a: Mining.Action): Option<State> {
    match Mining.Step(c.mining, s.inner, a)
    case None => None
    case Some(t) =>
      if !a.ClearFlag? then Some(s.(inner := t))
      else if a.m < |s.mains| && s.mains[a.m] == AtStop
      then Some(s.(inner := t, mains := s.mains[a.m := Joining])) else None
  }

  function Step(c: Config, s: State, a: Action): Option<State> {
    match a
    case Inner(b) => InnerStep(c, s, b)
    case Join(m) =>
      if m < |s.mains| && m < |s.inner.pcs| && s.mains[m] == Joining && s.inner.pcs[m].Exited?
      then Some(Goto(s, m, Signalling)) else None
    case SignalDone(m) =>
      if m < |s.mains| && s.mains[m] == Signalling
      then Some(Goto(s, m, Waiting).(dones := s.dones + 1)) else None
    case PassDone(m) =>
      if m < |s.mains| && s.mains[m] == Waiting && c.Instances() <= s.dones
      then Some(Goto(s, m, Through)) else None
    case OtherSignals =>
      if s.signalled < c.others then Some(s.(signalled := s.signalled + 1, dones := s.dones + 1)) else None
    case OtherPasses =>
      if s.passed < c.waiting && c.Instances() <= s.dones then Some(s.(passed := s.passed + 1)) else None
  }

  ghost function Stepper(c: Config): (State, Action) -> Option<State> {
    (s: State, a: Action) => Step(c, s, a)
  }

  ghost predicate Reaches(c: Config, acts: seq<Action>, s: State) {
    Run(Stepper(c), Initial(c), acts) == Some(s)
  }

  // ---------- the mining run inside ----------

  /** The mining actions of a schedule. */
  function Project(acts: seq<Action>): seq<Mining.Action> {
    if acts == [] then []
    else if acts[0].Inner? then [acts[0].a] + Project(acts[1..])
    else Project(acts[1..])
  }

  lemma {:induction false} ProjectRuns(c: Config, s: State, acts: seq<Action>, t: State)
    requires Run(Stepper(c), s, acts) == Some(t)
    ensures Run(Mining.Stepper(c.mining), s.inner, Project(acts)) == Some(t.inner)
    decreases |acts|
  {
    if acts != [] {
      var u := Step(c, s, acts[0]).value;
      ProjectRuns(c, u, acts[1..], t);
      if acts[0].Inner? {
        var rest := Project(acts[1..]);
        assert ([acts[0].a] + rest)[1..] == rest;
      }
    }
  }

  // ---------- the invariant ----------

  function HasSignalled(main: Main): nat { if main.Waiting? || main.Through? then 1 else 0 }

  /** The flag is up as long as main has not cleared it, and main joins only a goroutine that has exited. */
  predicate MainFits(s: State, m: nat)
    requires m < |s.mains| == |s.inner.pcs| == |s.inner.mine|
  {
    && (s.inner.mine[m] <==> s.mains[m] == AtStop)
    && (s.mains[m].Signalling? || s.mains[m].Waiting? || s.mains[m].Through? ==> s.inner.pcs[m].Exited?)
  }

  ghost predicate Inv(c: Config, s: State) {
    && |s.mains| == |s.inner.pcs| == |s.inner.mine| == c.mining.miners
    && s.signalled <= c.others && s.passed <= c.waiting
    && s.dones == s.signalled + Sum(HasSignalled, s.mains)
    && (forall m :: 0 <= m < |s.mains| ==> MainFits(s, m))
    && (0 < s.passed ==> c.Instances() <= s.dones)
    && (forall m :: 0 <= m < |s.mains| && s.mains[m].Through? ==> c.Instances() <= s.dones)
  }

  lemma {:induction false} NobodyHasSignalled(mains: seq<Main>)
    requires forall m :: 0 <= m < |mains| ==> mains[m] == AtStop
    ensures Sum(HasSignalled, mains) == 0
  {
    if mains != [] {
      NobodyHasSignalled(mains[1..]);
    }
  }

  lemma InitialInv(c: Config)
    ensures Inv(c, Initial(c))
  {
    NobodyHasSignalled(Initial(c).mains);
  }

  lemma {:induction false} InnerStepKeepsInv(c: Config, s: State, a: Mining.Action)
    requires Inv(c, s) && InnerStep(c, s, a).Some?
    ensures Inv(c, InnerStep(c, s, a).value)
  {
    var t := InnerStep(c, s, a).value;
    if a.ClearFlag? {
      SumUpdate(HasSignalled, s.mains, a.m, Joining);
    }
    forall m | 0 <= m < |t.mains| ensures MainFits(t, m) {
      assert MainFits(s, m);
    }
  }

  lemma {:induction false} StepKeepsInv(c: Config, s: State, a: Action)
    requires Inv(c, s) && Step(c, s, a).Some?
    ensures Inv(c, Step(c, s, a).value)
  {
    var t := Step(c, s, a).value;
    if a.Inner? {
      InnerStepKeepsInv(c, s, a.a);
    } else {
      if a.Join? || a.SignalDone? || a.PassDone? {
        SumUpdate(HasSignalled, s.mains, a.m, t.mains[a.m]);
      }
      forall m | 0 <= m < |t.mains| ensures MainFits(t, m) {
        assert MainFits(s, m);
      }
    }
  }

  lemma {:induction false} ReachableInv(c: Config, acts: seq<Action>, s: State)
    requires Reaches(c, acts, s)
    ensures Inv(c, s) && Mining.Inv(c.mining, s.inner)
    ensures Mining.Reaches(c.mining, Project(acts), s.inner)
  {
    var inv := (s: State) => Inv(c, s);
    forall s: State, a: Action | inv(s) && Stepper(c)(s, a).Some? ensures inv(Stepper(c)(s, a).value) {
      StepKeepsInv(c, s, a);
    }
    InitialInv(c);
    RunKeeps(Stepper(c), inv, Initial(c), acts);
    ProjectRuns(c, Initial(c), acts, s);
    Mining.ReachableInv(c.mining, Project(acts), s.inner);
  }

  // ---------- who gets through ----------

  ghost predicate Everybody(c: Config, s: State) {
    (forall m :: 0 <= m < |s.mains| ==> s.mains[m].Through?) && s.passed == c.waiting
  }

  ghost predicate Nobody(s: State) {
    (forall m :: 0 <= m < |s.mains| ==> !s.mains[m].Through?) && s.passed == 0
  }

  /** When nothing can move, nothing of the mining run inside can. */
  lemma {:induction false} InnerRests(c: Config, s: State)
    requires Inv(c, s) && Terminal(Stepper(c), s)
    ensures Terminal(Mining.Stepper(c.mining), s.inner)
  {
    forall a: Mining.Action ensures Mining.Step(c.mining, s.inner, a).None? {
      assert Stepper(c)(s, Inner(a)).None?;
      assert a.ClearFlag? && a.m < |s.mains| ==> MainFits(s, a.m);
    }
  }

  lemma {:induction false} SignalsOfAll(mains: seq<Main>)
    ensures Sum(HasSignalled, mains) <= |mains|
    ensures Sum(HasSignalled, mains) == |mains| <==> forall m :: 0 <= m < |mains| ==> HasSignalled(mains[m]) == 1
  {
    if mains != [] {
      SignalsOfAll(mains[1..]);
      assert forall m :: 0 < m < |mains| ==> mains[m] == mains[1..][m - 1];
    }
  }

  /** A miner whose goroutine has not exited keeps the done barrier closed for everybody. */
  lemma {:induction false} OneMinerHoldsAll(c: Config, s: State)
    requires Inv(c, s) && !Mining.Finished(s.inner)
    ensures Nobody(s)
  {
    var m :| 0 <= m < |s.inner.pcs| && !s.inner.pcs[m].Exited?;
    assert MainFits(s, m);
    assert HasSignalled(s.mains[m]) == 0;
    SignalsOfAll(s.mains);
    assert s.dones < c.Instances();
  }

  lemma {:induction false} MainMovesOn(c: Config, s: State, m: nat)
    requires Inv(c, s) && Mining.Inv(c.mining, s.inner) && Terminal(Stepper(c), s)
    requires m < |s.mains| && s.inner.pcs[m].Exited?
    ensures s.mains[m].Through? || (s.mains[m].Waiting? && s.dones < c.Instances())
  {
    assert MainFits(s, m) && !s.inner.mine[m];
    assert Stepper(c)(s, Join(m)).None? && Stepper(c)(s, SignalDone(m)).None? && Stepper(c)(s, PassDone(m)).None?;
  }

  /** With all mining goroutines gone, the done barrier opens and lets everybody through. */
  lemma {:induction false} BarrierOpens(c: Config, s: State)
    requires Inv(c, s) && Mining.Inv(c.mining, s.inner) && Terminal(Stepper(c), s)
    requires Mining.Finished(s.inner)
    ensures Everybody(c, s)
  {
    assert Stepper(c)(s, OtherSignals).None? && Stepper(c)(s, OtherPasses).None?;
    forall m | 0 <= m < |s.mains| ensures s.mains[m].Through? || (s.mains[m].Waiting? && s.dones < c.Instances()) {
      MainMovesOn(c, s, m);
    }
    SignalsOfAll(s.mains);
  }

  /**
   The whole shutdown, exactly: when a run without panics comes to rest, either everybody is through
   the done barrier or nobody is, and everybody is if and only if no check of a block found the flag
   up after some miner had exited one block earlier.
   */
  lemma {:induction false} EverybodyGetsThroughIff(c: Config, acts: seq<Action>, s: State)
    requires Reaches(c, acts, s) && Mining.Sound(s.inner) && Terminal(Stepper(c), s)
    ensures if Mining.HasLateRead(c.mining, Mining.Initial(c.mining), Project(acts)) then Nobody(s) else Everybody(c, s)
    ensures Mining.Finished(s.inner) <==> !Mining.HasLateRead(c.mining, Mining.Initial(c.mining), Project(acts))
  {
    ReachableInv(c, acts, s);
    InnerRests(c, s);
    Mining.ShutdownCompletesIff(c.mining, Project(acts), s.inner);
    if Mining.Finished(s.inner) { BarrierOpens(c, s); } else { OneMinerHoldsAll(c, s); }
  }

  // ---------- progress ----------

  function MainLeft(main: Main): nat {
    match main
    case AtStop => 4
    case Joining => 3
    case Signalling => 2
    case Waiting => 1
    case Through => 0
  }

  function Rank(c: Config, s: State): nat {
    Mining.FinishRank(c.mining, s.inner) + Sum(MainLeft, s.mains)
      + (if s.signalled < c.others then c.others - s.signalled else 0)
      + (if s.passed < c.waiting then c.waiting - s.passed else 0)
  }

  ghost predicate Stopping(c: Config, s: State) {
    Inv(c, s) && Mining.FlagsDown(c.mining, s.inner)
  }

  lemma {:induction false} StepLowersRank(c: Config, s: State, a: Action)
    requires Stopping(c, s) && Step(c, s, a).Some?
    ensures Stopping(c, Step(c, s, a).value) && Rank(c, Step(c, s, a).value) < Rank(c, s)
  {
    StepKeepsInv(c, s, a);
    if a.Inner? {
      Mining.StepLowersRank(c.mining, s.inner, a.a);
    } else if a.Join? || a.SignalDone? || a.PassDone? {
      SumUpdate(MainLeft, s.mains, a.m, Step(c, s, a).value.mains[a.m]);
    }
  }

  /**
   Once every flag is down with nobody stranded, every way of going on is finite, and unless a miner
   gives up on a block it ends with every instance through the done barrier.
   */
  lemma {:induction false} EverybodyFinishes(c: Config, acts: seq<Action>, s: State, more: seq<Action>, t: State)
    requires Reaches(c, acts, s) && (forall m :: 0 <= m < |s.inner.mine| ==> !s.inner.mine[m])
    requires !Mining.SomeoneStranded(s.inner)
    requires Run(Stepper(c), s, more) == Some(t)
    ensures |more| <= Rank(c, s)
    ensures Mining.Sound(t.inner) && Terminal(Stepper(c), t) ==> Everybody(c, t)
  {
    ReachableInv(c, acts, s);
    var inv := (s: State) => Stopping(c, s);
    var rank := (s: State) => Rank(c, s);
    forall s: State, a: Action | inv(s) && Stepper(c)(s, a).Some?
      ensures inv(Stepper(c)(s, a).value) && rank(Stepper(c)(s, a).value) < rank(s)
    {
      StepLowersRank(c, s, a);
    }
    RunIsBounded(Stepper(c), inv, rank, s, more);
    RunKeeps(Stepper(c), inv, s, more);
    if Mining.Sound(t.inner) && Terminal(Stepper(c), t) {
      ProjectRuns(c, s, more, t);
      InnerRests(c, t);
      Mining.MinersFinish(c.mining, Project(acts), s.inner, Project(more), t.inner);
      BarrierOpens(c, t);
    }
  }
}
