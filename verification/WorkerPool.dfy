/**
 The batch runner: main queues one job per run, a pool of workers takes jobs and delivers results,
 and main collects as many results as there are runs.
 */
module WorkerPool {
  import opened Prelude
  import opened Runs
  import Decimal

  /** How a composition went: it ran, it ran and failed, or its output could not be set up. */
  datatype Outcome = Ran | RunFailed | SetupFailed

  /** run is the job a result comes from; named is the run number it carries (job.runNumber). */
  datatype Result = Result(run: nat, named: nat, outcome: Outcome)

  datatype Worker = Idle | Running(job: nat) | Holding(result: Result) | Stopped

  datatype State = State(
    sent: nat, closed: bool, jobs: seq<nat>, workers: seq<Worker>, results: seq<Result>, collected: seq<Result>)

  datatype Config = Config(runs: nat, parallelism: nat)

  datatype Action =
    | Send | Close | Take(w: nat) | Finish(w: nat, outcome: Outcome) | Deliver(w: nat) | Quit(w: nat) | Collect

  /** runComposition: a failed set-up returns a result without its job. */
  function RunComposition(job: nat, outcome: Outcome): Result {
    match outcome
    case SetupFailed => Result(job, 0, outcome)
    case _ => Result(job, job, outcome)
  }

  function Initial(c: Config): State {
    State(0, false, [], seq(c.parallelism, w => Idle), [], [])
  }

  /** Both channels hold as many elements as there are runs. */
  function Step(c: Config, s: State, a: Action): Option<State> {
    match a
    case Send =>
      if s.sent < c.runs && |s.jobs| < c.runs then Some(s.(sent := s.sent + 1, jobs := s.jobs + [s.sent + 1])) else None
    case Close => if s.sent == c.runs && !s.closed then Some(s.(closed := true)) else None
    case Collect =>
      if s.closed && |s.collected| < c.runs && s.results != []
      then Some(s.(results := s.results[1..], collected := s.collected + [s.results[0]])) else None
    case Take(w) =>
      if w < |s.workers| && s.workers[w].Idle? && s.jobs != []
      then Some(s.(jobs := s.jobs[1..], workers := s.workers[w := Running(s.jobs[0])])) else None
    case Finish(w, outcome) =>
      if w < |s.workers| && s.workers[w].Running?
      then Some(s.(workers := s.workers[w := Holding(RunComposition(s.workers[w].job, outcome))])) else None
    case Deliver(w) =>
      if w < |s.workers| && s.workers[w].Holding? && |s.results| < c.runs
      then Some(s.(results := s.results + [s.workers[w].result], workers := s.workers[w := Idle])) else None
    case Quit(w) =>
      if w < |s.workers| && s.workers[w].Idle? && s.jobs == [] && s.closed
      then Some(s.(workers := s.workers[w := Stopped])) else None
  }

  ghost function Stepper(c: Config): (State, Action) -> Option<State> {
    (s: State, a: Action) => Step(c, s, a)
  }

  ghost predicate Reaches(c: Config, acts: seq<Action>, s: State) {
    Run(Stepper(c), Initial(c), acts) == Some(s)
  }

  // ---------- where a job is ----------

  function IsJob(j: nat): nat -> nat { (x: nat) => if x == j then 1 else 0 }

  function IsResultOf(j: nat): Result -> nat { (r: Result) => if r.run == j then 1 else 0 }

  function HasJob(j: nat): Worker -> nat {
    (w: Worker) => if (w.Running? && w.job == j) || (w.Holding? && w.result.run == j) then 1 else 0
  }

  function Busy(w: Worker): nat { if w.Running? || w.Holding? then 1 else 0 }

  /** In how many places job j is: unsent, queued, in a worker's hands, pending or collected. */
  function Places(c: Config, s: State, j: nat): nat {
    (if s.sent < j <= c.runs then 1 else 0) + Sum(IsJob(j), s.jobs) + Sum(HasJob(j), s.workers)
      + Sum(IsResultOf(j), s.results) + Sum(IsResultOf(j), s.collected)
  }

  ghost predicate NamedWell(r: Result) {
    r.named == if r.outcome.SetupFailed? then 0 else r.run
  }

  ghost predicate Inv(c: Config, s: State) {
    && s.sent <= c.runs && |s.workers| == c.parallelism
    && (s.closed ==> s.sent == c.runs)
    && (forall w :: 0 <= w < |s.workers| && s.workers[w].Stopped? ==> s.closed && s.jobs == [])
    && (c.runs - s.sent) + |s.jobs| + Sum(Busy, s.workers) + |s.results| + |s.collected| == c.runs
    && (forall j: nat :: Places(c, s, j) == if 1 <= j <= c.runs then 1 else 0)
  }

  lemma {:induction false} AllIdle(n: nat, f: Worker -> nat)
    requires f(Idle) == 0
    ensures Sum(f, seq(n, w => Idle)) == 0
  {
    if n > 0 {
      assert seq(n, w => Idle)[1..] == seq(n - 1, w => Idle);
      AllIdle(n - 1, f);
    }
  }

  lemma InitialInv(c: Config)
    ensures Inv(c, Initial(c))
  {
    AllIdle(c.parallelism, Busy);
    forall j: nat ensures Places(c, Initial(c), j) == if 1 <= j <= c.runs then 1 else 0 {
      AllIdle(c.parallelism, HasJob(j));
    }
  }

  lemma StepKeepsPlaces(c: Config, s: State, a: Action, j: nat)
    requires Step(c, s, a).Some?
    ensures Places(c, Step(c, s, a).value, j) == Places(c, s, j)
  {
    var t := Step(c, s, a).value;
    if a.Take? || a.Finish? || a.Deliver? || a.Quit? {
      SumUpdate(HasJob(j), s.workers, a.w, t.workers[a.w]);
      if a.Deliver? { SumAppend(IsResultOf(j), s.results, s.workers[a.w].result); }
    } else if a.Send? {
      SumAppend<nat>(IsJob(j), s.jobs, s.sent + 1);
    } else if a.Collect? {
      SumAppend(IsResultOf(j), s.collected, s.results[0]);
    }
  }

  lemma StepKeepsInv(c: Config, s: State, a: Action)
    requires Inv(c, s) && Step(c, s, a).Some?
    ensures Inv(c, Step(c, s, a).value)
  {
    var t := Step(c, s, a).value;
    if a.Take? || a.Finish? || a.Deliver? || a.Quit? {
      SumUpdate(Busy, s.workers, a.w, t.workers[a.w]);
    }
    forall j: nat ensures Places(c, t, j) == if 1 <= j <= c.runs then 1 else 0 {
      StepKeepsPlaces(c, s, a, j);
    }
  }

  lemma ReachableInv(c: Config, acts: seq<Action>, s: State)
    requires Reaches(c, acts, s)
    ensures Inv(c, s)
  {
    var inv := (s: State) => Inv(c, s);
    forall s: State, a: Action | inv(s) && Stepper(c)(s, a).Some? ensures inv(Stepper(c)(s, a).value) {
      StepKeepsInv(c, s, a);
    }
    InitialInv(c);
    RunKeeps(Stepper(c), inv, Initial(c), acts);
  }

  /** In every reachable state each of the jobs 1..runs is in exactly one place, and nothing else is in any. */
  lemma JobsArePartitioned(c: Config, acts: seq<Action>, s: State, j: nat)
    requires Reaches(c, acts, s)
    ensures Places(c, s, j) == if 1 <= j <= c.runs then 1 else 0
  {
    ReachableInv(c, acts, s);
  }

  // ---------- progress ----------

  function WorkerRank(w: Worker): nat {
    match w
    case Running(_) => 4
    case Holding(_) => 3
    case Idle => 1
    case Stopped => 0
  }

  function Rank(c: Config, s: State): nat {
    (if s.sent <= c.runs then 5 * (c.runs - s.sent) else 0) + (if s.closed then 0 else 1)
      + 4 * |s.jobs| + Sum(WorkerRank, s.workers) + |s.results|
  }

  lemma StepLowersRank(c: Config, s: State, a: Action)
    requires Inv(c, s) && Step(c, s, a).Some?
    ensures Rank(c, Step(c, s, a).value) < Rank(c, s)
  {
    if a.Take? || a.Finish? || a.Deliver? || a.Quit? {
      SumUpdate(WorkerRank, s.workers, a.w, Step(c, s, a).value.workers[a.w]);
    }
  }

  /** Main has collected as many results as there are runs. */
  predicate Done(c: Config, s: State) {
    s.closed && |s.collected| == c.runs
  }

  /** With a worker to run them, no job is left behind when nothing can move. */
  lemma RestMeansDone(c: Config, s: State)
    requires Inv(c, s) && Terminal(Stepper(c), s) && (c.parallelism > 0 || c.runs == 0)
    ensures Done(c, s)
  {
    assert Stepper(c)(s, Send).None? && Stepper(c)(s, Close).None? && Stepper(c)(s, Collect).None?;
    forall w: nat | w < c.parallelism ensures s.workers[w].Stopped? {
      assert Stepper(c)(s, Take(w)).None? && Stepper(c)(s, Finish(w, Ran)).None?;
      assert Stepper(c)(s, Deliver(w)).None? && Stepper(c)(s, Quit(w)).None?;
      SumBoundsEach(Busy, s.workers, w);
    }
    NobodyBusy(s.workers);
    assert c.parallelism > 0 ==> s.workers[0].Stopped?;
  }

  lemma {:induction false} NobodyBusy(workers: seq<Worker>)
    requires forall w :: 0 <= w < |workers| ==> !workers[w].Running? && !workers[w].Holding?
    ensures Sum(Busy, workers) == 0
  {
    if workers != [] {
      NobodyBusy(workers[1..]);
    }
  }

  /**
   Every schedule is finite, and when nothing can move main has collected one result of each job.
   */
  lemma PoolCompletes(c: Config, acts: seq<Action>, s: State)
    requires c.parallelism > 0 || c.runs == 0
    requires Reaches(c, acts, s)
    ensures |acts| <= Rank(c, Initial(c))
    ensures Terminal(Stepper(c), s) ==> Done(c, s)
    ensures Done(c, s) ==> forall j: nat :: Sum(IsResultOf(j), s.collected) == if 1 <= j <= c.runs then 1 else 0
  {
    ScheduleIsBounded(c, acts, s);
    ReachableInv(c, acts, s);
    if Terminal(Stepper(c), s) {
      RestMeansDone(c, s);
    }
    if Done(c, s) {
      forall j: nat ensures Sum(IsResultOf(j), s.collected) == if 1 <= j <= c.runs then 1 else 0 {
        CollectedOnce(c, s, j);
      }
    }
  }

  lemma ScheduleIsBounded(c: Config, acts: seq<Action>, s: State)
    requires Reaches(c, acts, s)
    ensures |acts| <= Rank(c, Initial(c))
  {
    PoolIsRanked(c);
    InitialInv(c);
    RunIsBounded(Stepper(c), (s: State) => Inv(c, s), (s: State) => Rank(c, s), Initial(c), acts);
  }

  lemma PoolIsRanked(c: Config)
    ensures Inductive(Stepper(c), (s: State) => Inv(c, s))
    ensures Ranked(Stepper(c), (s: State) => Inv(c, s), (s: State) => Rank(c, s))
  {
    forall s: State, a: Action | Inv(c, s) && Stepper(c)(s, a).Some?
      ensures Inv(c, Stepper(c)(s, a).value) && Rank(c, Stepper(c)(s, a).value) < Rank(c, s)
    {
      StepKeepsInv(c, s, a);
      StepLowersRank(c, s, a);
    }
  }

  lemma CollectedOnce(c: Config, s: State, j: nat)
    requires Inv(c, s) && Done(c, s)
    ensures Sum(IsResultOf(j), s.collected) == if 1 <= j <= c.runs then 1 else 0
  {
    assert s.jobs == [] && s.results == [];
    NobodyHas(s.workers, j);
    assert Places(c, s, j) == if 1 <= j <= c.runs then 1 else 0;
  }

  lemma {:induction false} NobodyHas(workers: seq<Worker>, j: nat)
    requires Sum(Busy, workers) == 0
    ensures Sum(HasJob(j), workers) == 0
  {
    if workers != [] {
      NobodyHas(workers[1..], j);
    }
  }

  /** Without a worker and with a run to do, main never completes. */
  lemma PoolCompletesIff(c: Config)
    ensures (c.parallelism > 0 || c.runs == 0) <==>
      forall acts, s :: Reaches(c, acts, s) && Terminal(Stepper(c), s) ==> Done(c, s)
  {
    if c.parallelism > 0 || c.runs == 0 {
      forall acts, s | Reaches(c, acts, s) && Terminal(Stepper(c), s) ensures Done(c, s) {
        PoolCompletes(c, acts, s);
      }
    } else {
      PoolIsRanked(c);
      InitialInv(c);
      var acts, s := RunToRest(Stepper(c), (s: State) => Inv(c, s), (s: State) => Rank(c, s), Initial(c));
      NobodyDelivers(c, acts, s);
      assert Reaches(c, acts, s) && Terminal(Stepper(c), s) && !Done(c, s);
    }
  }

  lemma NobodyDelivers(c: Config, acts: seq<Action>, s: State)
    requires c.parallelism == 0 && Reaches(c, acts, s)
    ensures s.collected == []
  {
    var inv := (s: State) => s.workers == [] && s.results == [] && s.collected == [];
    RunKeeps(Stepper(c), inv, Initial(c), acts);
  }

  // ---------- output directories and result labels ----------

  /** path.Join(outdir, "run-<j>"), for an outdir that is already clean. */
  function OutputDir(outdir: string, j: nat): string {
    outdir + "/run-" + Decimal.Print(j)
  }

  lemma OutputDirsDiffer(outdir: string, i: nat, j: nat)
    requires i != j
    ensures OutputDir(outdir, i) != OutputDir(outdir, j)
  {
    Decimal.RoundTrip(i);
    Decimal.RoundTrip(j);
    var n := |outdir + "/run-"|;
    assert OutputDir(outdir, i)[n..] == Decimal.Print(i);
    assert OutputDir(outdir, j)[n..] == Decimal.Print(j);
  }

  /** Two workers that run at the same time run different jobs, in different directories. */
  lemma WorkersNeverShare(c: Config, acts: seq<Action>, s: State, outdir: string, v: nat, w: nat)
    requires Reaches(c, acts, s) && v < w < |s.workers| && s.workers[v].Running? && s.workers[w].Running?
    ensures s.workers[v].job != s.workers[w].job
    ensures OutputDir(outdir, s.workers[v].job) != OutputDir(outdir, s.workers[w].job)
  {
    ReachableInv(c, acts, s);
    var j := s.workers[v].job;
    SumOfTwo(HasJob(j), s.workers, v, w);
    assert Places(c, s, j) <= 1;
    OutputDirsDiffer(outdir, j, s.workers[w].job);
  }

  ghost predicate ResultsNamedWell(s: State) {
    && (forall r :: r in s.results ==> NamedWell(r))
    && (forall r :: r in s.collected ==> NamedWell(r))
    && (forall w :: 0 <= w < |s.workers| && s.workers[w].Holding? ==> NamedWell(s.workers[w].result))
  }

  /** A collected result names its own run, except that one that failed in set-up names run 0. */
  lemma CollectedNames(c: Config, acts: seq<Action>, s: State)
    requires Reaches(c, acts, s)
    ensures forall r :: r in s.collected ==> r.named == if r.outcome.SetupFailed? then 0 else r.run
  {
    var inv := (s: State) => ResultsNamedWell(s);
    forall s: State, a: Action | inv(s) && Stepper(c)(s, a).Some? ensures inv(Stepper(c)(s, a).value) {
      if a.Collect? {
        assert s.results[0] in s.results;
      }
    }
    RunKeeps(Stepper(c), inv, Initial(c), acts);
  }

  // ---------- what is collected is what happened ----------

  /** Action k of the schedule finishes job j with this outcome, in the hands of a worker that runs j. */
  ghost predicate Finishes(c: Config, acts: seq<Action>, k: nat, j: nat, outcome: Outcome) {
    && k < |acts| && acts[k].Finish? && acts[k].outcome == outcome
    && match Run(Stepper(c), Initial(c), acts[..k])
       case None => false
       case Some(u) => acts[k].w < |u.workers| && u.workers[acts[k].w] == Running(j)
  }

  ghost predicate Finished(c: Config, acts: seq<Action>, r: Result) {
    exists k: nat :: Finishes(c, acts, k, r.run, r.outcome)
  }

  lemma {:induction false} FinishedStays(c: Config, acts: seq<Action>, r: Result)
    requires acts != [] && Finished(c, acts[..|acts| - 1], r)
    ensures Finished(c, acts, r)
  {
    var n := |acts| - 1;
    var k: nat :| Finishes(c, acts[..n], k, r.run, r.outcome);
    assert acts[..n][..k] == acts[..k];
    assert Finishes(c, acts, k, r.run, r.outcome);
  }

  /** Every result, held, pending or collected, is one with which its job finished. */
  ghost predicate Truthful(c: Config, acts: seq<Action>, s: State) {
    && (forall r :: r in s.collected ==> Finished(c, acts, r))
    && (forall r :: r in s.results ==> Finished(c, acts, r))
    && (forall w :: 0 <= w < |s.workers| && s.workers[w].Holding? ==> Finished(c, acts, s.workers[w].result))
  }

  lemma {:induction false} FinishIsTruthful(c: Config, acts: seq<Action>, u: State, s: State)
    requires acts != [] && Run(Stepper(c), Initial(c), acts[..|acts| - 1]) == Some(u)
    requires Step(c, u, acts[|acts| - 1]) == Some(s) && acts[|acts| - 1].Finish?
    ensures s.workers[acts[|acts| - 1].w].Holding? && Finished(c, acts, s.workers[acts[|acts| - 1].w].result)
  {
    var n := |acts| - 1;
    var w := acts[n].w;
    var r := s.workers[w].result;
    assert u.workers[w] == Running(r.run);
    assert Finishes(c, acts, n, r.run, r.outcome);
  }

  lemma {:induction false} StepIsTruthful(c: Config, acts: seq<Action>, u: State, s: State)
    requires acts != [] && Run(Stepper(c), Initial(c), acts[..|acts| - 1]) == Some(u)
    requires Step(c, u, acts[|acts| - 1]) == Some(s)
    requires Truthful(c, acts[..|acts| - 1], u)
    ensures Truthful(c, acts, s)
  {
    var n := |acts| - 1;
    forall r | Finished(c, acts[..n], r) ensures Finished(c, acts, r) {
      FinishedStays(c, acts, r);
    }
    if acts[n].Finish? {
      FinishIsTruthful(c, acts, u, s);
    } else if acts[n].Deliver? {
      assert u.workers[acts[n].w].Holding?;
    }
    forall w | 0 <= w < |s.workers| && s.workers[w].Holding? ensures Finished(c, acts, s.workers[w].result) {
      assert s.workers[w] == u.workers[w] || acts[n] == Finish(w, acts[n].outcome);
    }
  }

  lemma {:induction false} RunIsTruthful(c: Config, acts: seq<Action>, s: State)
    requires Reaches(c, acts, s)
    ensures Truthful(c, acts, s)
  {
    if acts != [] {
      var n := |acts| - 1;
      RunLast(Stepper(c), Initial(c), acts);
      var u := Run(Stepper(c), Initial(c), acts[..n]).value;
      RunIsTruthful(c, acts[..n], u);
      StepIsTruthful(c, acts, u, s);
    }
  }

  // ---------- a job finishes once ----------

  function IsRunning(j: nat): Worker -> nat {
    (w: Worker) => if w == Running(j) then 1 else 0
  }

  /** In how many places job j still is on its way to finishing. */
  function Before(c: Config, s: State, j: nat): nat {
    (if s.sent < j <= c.runs then 1 else 0) + Sum(IsJob(j), s.jobs) + Sum(IsRunning(j), s.workers)
  }

  lemma {:induction false} RunningIsHad(workers: seq<Worker>, j: nat)
    ensures Sum(IsRunning(j), workers) <= Sum(HasJob(j), workers)
  {
    if workers != [] {
      RunningIsHad(workers[1..], j);
    }
  }

  lemma {:induction false} BeforeFalls(c: Config, s: State, a: Action, j: nat)
    requires Step(c, s, a).Some?
    ensures var t := Step(c, s, a).value;
      && Before(c, t, j) <= Before(c, s, j)
      && (a.Finish? && s.workers[a.w] == Running(j) ==> Before(c, t, j) < Before(c, s, j))
  {
    var t := Step(c, s, a).value;
    if a.Take? || a.Finish? || a.Deliver? || a.Quit? {
      SumUpdate(IsRunning(j), s.workers, a.w, t.workers[a.w]);
    } else if a.Send? {
      SumAppend<nat>(IsJob(j), s.jobs, s.sent + 1);
    }
  }

  lemma {:induction false} BeforeAtMostOnce(c: Config, acts: seq<Action>, s: State, j: nat)
    requires Reaches(c, acts, s)
    ensures Before(c, s, j) <= 1
  {
    JobsArePartitioned(c, acts, s, j);
    RunningIsHad(s.workers, j);
  }

  /** Once job j has finished it is nowhere on its way any more. */
  lemma {:induction false} FinishedIsGone(c: Config, acts: seq<Action>, k: nat, j: nat, outcome: Outcome, s: State)
    requires Reaches(c, acts, s) && Finishes(c, acts, k, j, outcome)
    ensures Before(c, s, j) == 0
    decreases |acts|
  {
    var n := |acts| - 1;
    RunLast(Stepper(c), Initial(c), acts);
    var u := Run(Stepper(c), Initial(c), acts[..n]).value;
    if k == n {
      FinishingEnds(c, acts[..n], u, acts[n], j, s);
    } else {
      assert acts[..n][..k] == acts[..k];
      FinishedIsGone(c, acts[..n], k, j, outcome, u);
      BeforeFalls(c, u, acts[n], j);
    }
  }

  lemma {:induction false} FinishingEnds(c: Config, acts: seq<Action>, u: State, a: Action, j: nat, s: State)
    requires Reaches(c, acts, u) && Step(c, u, a) == Some(s) && a.Finish? && u.workers[a.w] == Running(j)
    ensures Before(c, s, j) == 0
  {
    BeforeAtMostOnce(c, acts, u, j);
    BeforeFalls(c, u, a, j);
  }

  lemma {:induction false} FinishesOnce(
    c: Config, acts: seq<Action>, s: State, j: nat, k: nat, outcome: Outcome, k': nat, outcome': Outcome)
    requires Reaches(c, acts, s) && Finishes(c, acts, k, j, outcome) && Finishes(c, acts, k', j, outcome')
    requires k <= k'
    ensures k == k' && outcome == outcome'
  {
    if k < k' {
      var u := Run(Stepper(c), Initial(c), acts[..k']).value;
      assert acts[..k'][..k] == acts[..k];
      FinishedIsGone(c, acts[..k'], k, j, outcome, u);
      SumBoundsEach(IsRunning(j), u.workers, acts[k'].w);
    }
  }

  /**
   What main collects of a job is how that job went: the outcome with which a worker that ran it
   finished it, and there is only one such.
   */
  lemma {:induction false} CollectedOutcomes(c: Config, acts: seq<Action>, s: State, r: Result)
    requires Reaches(c, acts, s) && r in s.collected
    ensures exists k: nat :: Finishes(c, acts, k, r.run, r.outcome)
    ensures forall k: nat, outcome :: Finishes(c, acts, k, r.run, outcome) ==> outcome == r.outcome
  {
    RunIsTruthful(c, acts, s);
    assert Finished(c, acts, r);
    var k: nat :| Finishes(c, acts, k, r.run, r.outcome);
    forall k': nat, outcome | Finishes(c, acts, k', r.run, outcome) ensures outcome == r.outcome {
      if k <= k' {
        FinishesOnce(c, acts, s, r.run, k, r.outcome, k', outcome);
      } else {
        FinishesOnce(c, acts, s, r.run, k', outcome, k, r.outcome);
      }
    }
  }

  /** Main collects nothing before it has sent every job and closed the channel. */
  lemma {:induction false} CollectsAfterSending(c: Config, acts: seq<Action>, s: State)
    requires Reaches(c, acts, s) && s.collected != []
    ensures s.closed && s.sent == c.runs
  {
    var inv := (s: State) => (s.closed ==> s.sent == c.runs) && (s.collected != [] ==> s.closed);
    RunKeeps(Stepper(c), inv, Initial(c), acts);
  }

  // ---------- order ----------

  /** The channel of jobs holds the last jobs sent, oldest first: jobs are taken in the order 1, 2, 3, ... */
  lemma {:induction false} JobsAreInOrder(c: Config, acts: seq<Action>, s: State, i: nat)
    requires Reaches(c, acts, s) && i < |s.jobs|
    ensures |s.jobs| <= s.sent && s.jobs[i] == s.sent - |s.jobs| + i + 1
  {
    var inv := (s: State) =>
      |s.jobs| <= s.sent && forall i :: 0 <= i < |s.jobs| ==> s.jobs[i] == s.sent - |s.jobs| + i + 1;
    RunKeeps(Stepper(c), inv, Initial(c), acts);
  }

  /** Results are collected in the order in which they are delivered. */
  lemma ResultsStayInOrder(c: Config, s: State, a: Action)
    requires Step(c, s, a).Some?
    ensures var t := Step(c, s, a).value;
      && s.collected <= t.collected
      && t.collected + t.results ==
           s.collected + s.results + if a.Deliver? then [s.workers[a.w].result] else []
  {
    if a.Collect? {
      assert s.results == [s.results[0]] + s.results[1..];
    } else if !a.Deliver? {
      assert s.collected + s.results + [] == s.collected + s.results;
    }
  }
}
