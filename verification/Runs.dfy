/**
 Runs of a transition system.  A system is a step function: step(s, a) is the state after
 action a, or None when a is not enabled in s.  A schedule is the sequence of actions that some
 interleaving performs, so a statement about every schedule is a statement about every interleaving.
 */
module Runs {
  import opened Prelude

  /** The state after the schedule, or None when one of its actions was not enabled in its turn. */
  function Run<S, A>(step: (S, A) -> Option<S>, s: S, acts: seq<A>): Option<S> {
    if acts == [] then Some(s)
    else match step(s, acts[0])
      case None => None
      case Some(t) => Run(step, t, acts[1..])
  }

  /** inv is kept by every enabled action. */
  ghost predicate Inductive<S(!new), A(!new)>(step: (S, A) -> Option<S>, inv: S -> bool) {
    forall s: S, a: A :: inv(s) && step(s, a).Some? ==> inv(step(s, a).value)
  }

  /** From a state in inv, every enabled action lowers rank. */
  ghost predicate Ranked<S(!new), A(!new)>(step: (S, A) -> Option<S>, inv: S -> bool, rank: S -> nat) {
    forall s: S, a: A :: inv(s) && step(s, a).Some? ==> rank(step(s, a).value) < rank(s)
  }

  /** No action is enabled. */
  ghost predicate Terminal<S(!new), A(!new)>(step: (S, A) -> Option<S>, s: S) {
    forall a: A :: step(s, a).None?
  }

  /** The last action of a schedule leads from where the ones before it end. */
  lemma {:induction false} RunLast<S, A>(step: (S, A) -> Option<S>, s: S, acts: seq<A>)
    requires acts != [] && Run(step, s, acts).Some?
    ensures var n := |acts| - 1;
      Run(step, s, acts[..n]).Some? && step(Run(step, s, acts[..n]).value, acts[n]) == Run(step, s, acts)
    decreases |acts|
  {
    if |acts| > 1 {
      RunLast(step, step(s, acts[0]).value, acts[1..]);
      assert acts[..|acts| - 1][1..] == acts[1..][..|acts| - 2];
    }
  }

  /** An inductive invariant holds at the end of every schedule. */
  lemma {:induction false} RunKeeps<S(!new), A(!new)>(step: (S, A) -> Option<S>, inv: S -> bool, s: S, acts: seq<A>)
    requires Inductive(step, inv) && inv(s)
    ensures Run(step, s, acts).Some? ==> inv(Run(step, s, acts).value)
    decreases |acts|
  {
    if acts != [] && step(s, acts[0]).Some? {
      RunKeeps(step, inv, step(s, acts[0]).value, acts[1..]);
    }
  }

  /** A schedule cannot be longer than the rank it starts from. */
  lemma {:induction false} RunIsBounded<S(!new), A(!new)>(
    step: (S, A) -> Option<S>, inv: S -> bool, rank: S -> nat, s: S, acts: seq<A>)
    requires Inductive(step, inv) && Ranked(step, inv, rank) && inv(s)
    ensures Run(step, s, acts).Some? ==> |acts| + rank(Run(step, s, acts).value) <= rank(s)
    decreases |acts|
  {
    if acts != [] && step(s, acts[0]).Some? {
      RunIsBounded(step, inv, rank, step(s, acts[0]).value, acts[1..]);
    }
  }

  /** A ranked system always has some schedule that runs until nothing is enabled. */
  lemma {:induction false} RunToRest<S(!new), A(!new)>(
    step: (S, A) -> Option<S>, inv: S -> bool, rank: S -> nat, s: S) returns (acts: seq<A>, t: S)
    requires Inductive(step, inv) && Ranked(step, inv, rank) && inv(s)
    ensures Run(step, s, acts) == Some(t) && Terminal(step, t) && inv(t)
    decreases rank(s)
  {
    if Terminal(step, s) {
      acts, t := [], s;
    } else {
      var a: A :| step(s, a).Some?;
      var rest;
      rest, t := RunToRest(step, inv, rank, step(s, a).value);
      acts := [a] + rest;
      assert acts[1..] == rest;
    }
  }
}
