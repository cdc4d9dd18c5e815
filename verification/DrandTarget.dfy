/** A drand node as the suspender's target: halting stops its daemon, resuming starts it again. */
module DrandTarget {
  import opened Prelude
  import opened EventSpec
  import opened Suspenders

  datatype Daemon = Absent | Up | Down

  /** What is done to the daemon; Stop carries the state it was in, the others whether they succeeded. */
  datatype Op = Stop(was: Daemon) | Create(ok: bool) | Load(ok: bool)

  /** starts counts the calls of Start. */
  datatype Drand = Drand(daemon: Daemon, starts: nat, history: seq<Op>)

  /** works(k) says whether start k brings a daemon up; a failed start leaves the daemon field alone. */
  function Started(works: nat -> bool, d: Drand): Drand {
    var ok := works(d.starts);
    Drand(
      if ok then Up else d.daemon,
      d.starts + 1,
      d.history + [if d.daemon.Absent? then Create(ok) else Load(ok)])
  }

  function Stopped(d: Drand): Drand {
    Drand(if d.daemon.Absent? then Absent else Down, d.starts, d.history + [Stop(d.daemon)])
  }

  /** Resume ignores the error that Start returns. */
  function Target(works: nat -> bool): Suspendable<Drand> {
    Suspendable((d: Drand) => Stopped(d), (d: Drand) => Started(works, d))
  }

  class DrandInstance {
    var daemon: Daemon
    ghost var starts: nat
    ghost var history: seq<Op>

    ghost function State(): Drand
      reads this
    {
      Drand(daemon, starts, history)
    }

    constructor ()
      ensures daemon == Absent && starts == 0 && history == []
    {
      daemon, starts, history := Absent, 0, [];
    }

    /** works stands for the outcomes of drand's own calls; up is this one's. */
    method Start(up: bool, ghost works: nat -> bool) returns (ok: bool)
      requires up == works(starts)
      modifies this
      ensures State() == Started(works, old(State()))
      ensures ok == up && daemon == if ok then Up else old(daemon)
      ensures starts == old(starts) + 1
      ensures history == old(history) + [if old(daemon) == Absent then Create(ok) else Load(ok)]
    {
      starts := starts + 1;
      if daemon == Absent {
        history := history + [Create(up)];
        if !up { return false; }
        daemon := Up;
      } else {
        history := history + [Load(up)];
        if !up { return false; }
        daemon := Up;
      }
      return true;
    }

    method Halt()
      requires !daemon.Absent?
      modifies this
      ensures State() == Stopped(old(State()))
      ensures daemon == Down && starts == old(starts) && history == old(history) + [Stop(old(daemon))]
    {
      history := history + [Stop(daemon)];
      daemon := Down;
    }

    /** The error that Start may return is dropped. */
    method Resume(up: bool, ghost works: nat -> bool)
      requires up == works(starts)
      modifies this
      ensures State() == Started(works, old(State()))
      ensures daemon == if up then Up else old(daemon)
    {
      var _ := Start(up, works);
    }
  }

  // ---------- a started node under a suspender ----------

  /** Reload k has to bring the daemon back before halt k + 1. */
  function DaemonAt(works: nat -> bool, first: nat, calls: nat): Daemon {
    if Odd(calls) then Down
    else if calls == 0 || works(first + calls / 2 - 1) then Up
    else Down
  }

  function OpAt(works: nat -> bool, first: nat, i: nat): Op {
    if Odd(i) then Load(works(first + i / 2)) else Stop(DaemonAt(works, first, i))
  }

  /** What is done to a started node, from any alternating sequence of calls. */
  lemma {:induction false} HistoryIs(works: nat -> bool, start: Drand, calls: seq<Call>)
    requires Alternate(calls) && start.daemon == Up
    ensures var d := After(Target(works), World(start, []), calls).target;
      && d.daemon == DaemonAt(works, start.starts, |calls|)
      && d.starts == start.starts + |calls| / 2
      && d.history == start.history + seq(|calls|, i requires 0 <= i < |calls| => OpAt(works, start.starts, i))
  {
    if calls != [] {
      var n := |calls| - 1;
      HistoryIs(works, start, calls[..n]);
      var before := seq(n, i requires 0 <= i < n => OpAt(works, start.starts, i));
      assert before + [OpAt(works, start.starts, n)]
        == seq(|calls|, i requires 0 <= i < |calls| => OpAt(works, start.starts, i));
      assert start.history + before + [OpAt(works, start.starts, n)]
        == start.history + (before + [OpAt(works, start.starts, n)]);
    }
  }

  function CallsOf(spec: string, parse: string -> Option<int>): seq<Call> {
    Calls(false, Parse(spec, parse))
  }

  /** The node after a suspender has run a spec on it. */
  function NodeAfter(works: nat -> bool, start: Drand, spec: string, parse: string -> Option<int>): Drand {
    After(Target(works), World(start, []), CallsOf(spec, parse)).target
  }

  /** ops is what the alternating calls do to a node that has been started first times. */
  ghost predicate FitsOps(ops: seq<Op>, works: nat -> bool, first: nat) {
    forall i :: 0 <= i < |ops| ==> ops[i] == OpAt(works, first, i)
  }

  lemma {:induction false} NodeHistory(
    works: nat -> bool, start: Drand, spec: string, parse: string -> Option<int>) returns (ops: seq<Op>)
    requires start.daemon == Up
    ensures NodeAfter(works, start, spec, parse).history == start.history + ops
    ensures |ops| == |CallsOf(spec, parse)| && FitsOps(ops, works, start.starts)
  {
    var calls := CallsOf(spec, parse);
    CallsKeepAlternating([], Parse(spec, parse));
    assert [] + calls == calls;
    HistoryIs(works, start, calls);
    ops := seq(|calls|, i requires 0 <= i < |calls| => OpAt(works, start.starts, i));
  }

  /** Every restart takes the load branch and comes right after a stop, and there is a daemon to stop. */
  predicate RestartFollowsStop(ops: seq<Op>, i: nat)
    requires i < |ops|
  {
    match ops[i]
    case Create(_) => false
    case Load(_) => i > 0 && ops[i - 1].Stop?
    case Stop(was) => !was.Absent? && (i == 0 || ops[i - 1].Load?)
  }

  lemma {:induction false} RestartsFollowStops(
    works: nat -> bool, start: Drand, spec: string, parse: string -> Option<int>) returns (ops: seq<Op>)
    requires start.daemon == Up
    ensures NodeAfter(works, start, spec, parse).history == start.history + ops
    ensures forall i :: 0 <= i < |ops| ==> RestartFollowsStop(ops, i)
  {
    ops := NodeHistory(works, start, spec, parse);
    forall i | 0 <= i < |ops| ensures RestartFollowsStop(ops, i) {
      assert ops[i] == OpAt(works, start.starts, i);
      if i > 0 {
        assert ops[i - 1] == OpAt(works, start.starts, i - 1);
        assert Odd(i) != Odd(i - 1);
      }
    }
  }

  /** Reload k succeeds for every k whose reload a halt follows. */
  ghost predicate ReloadsWork(works: nat -> bool, first: nat, calls: nat) {
    forall k: nat :: 2 * k + 2 < calls ==> works(first + k)
  }

  lemma {:induction false} StopsFindItUp(ops: seq<Op>, works: nat -> bool, first: nat)
    requires FitsOps(ops, works, first)
    ensures Stop(Down) !in ops <==> ReloadsWork(works, first, |ops|)
  {
    if Stop(Down) in ops {
      var i :| 0 <= i < |ops| && ops[i] == Stop(Down);
      assert OpAt(works, first, i) == Stop(Down);
      assert i == 2 * (i / 2 - 1) + 2 && !works(first + (i / 2 - 1));
    }
    forall k: nat | 2 * k + 2 < |ops| && Stop(Down) !in ops ensures works(first + k) {
      assert !Odd(2 * k + 2) && (2 * k + 2) / 2 == k + 1;
      assert ops[2 * k + 2] == OpAt(works, first, 2 * k + 2);
    }
  }

  /**
   The daemon is never stopped while already down exactly when every reload that a later halt
   follows succeeds.
   */
  lemma {:induction false} NeverStoppedTwiceIff(
    works: nat -> bool, start: Drand, spec: string, parse: string -> Option<int>) returns (ops: seq<Op>)
    requires start.daemon == Up
    ensures NodeAfter(works, start, spec, parse).history == start.history + ops
    ensures Stop(Down) !in ops <==> ReloadsWork(works, start.starts, |CallsOf(spec, parse)|)
  {
    ops := NodeHistory(works, start, spec, parse);
    StopsFindItUp(ops, works, start.starts);
  }

  /**
   The whole life of a node whose first start succeeds: it is created once, at the start; every later
   start is a load right after a stop; and no stop finds it down exactly when reload k, which is
   start k + 1, succeeds for every k that a further halt follows.
   */
  lemma {:induction false} LifeOfNode(works: nat -> bool, spec: string, parse: string -> Option<int>)
    returns (ops: seq<Op>)
    requires works(0)
    ensures Started(works, Drand(Absent, 0, [])) == Drand(Up, 1, [Create(true)])
    ensures NodeAfter(works, Started(works, Drand(Absent, 0, [])), spec, parse).history == [Create(true)] + ops
    ensures forall i :: 0 <= i < |ops| ==> RestartFollowsStop(ops, i)
    ensures Stop(Down) !in ops <==> forall k: nat :: 2 * k + 2 < |CallsOf(spec, parse)| ==> works(1 + k)
  {
    var start := Started(works, Drand(Absent, 0, []));
    assert start.history == [Create(true)];
    ops := RestartsFollowStops(works, start, spec, parse);
    var same := NeverStoppedTwiceIff(works, start, spec, parse);
    assert (start.history + ops)[1..] == ops && (start.history + same)[1..] == same;
  }
}
