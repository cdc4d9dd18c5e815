/** The event-driven state machine: events move the machine, entered states act and may raise more events. */
module StateMachines {
  import opened Prelude

  type StateType = string
  type EventType = string

  const DEFAULT: StateType := ""
  const NO_OP: EventType := "NoOp"

  /** A state's action, if it has one, and the events it can handle. An action updates its context. */
  datatype State<!W> = State(action: Option<W -> (W, EventType)>, events: map<EventType, StateType>)

  type States<!W> = map<StateType, State<W>>

  /** Crashed: the entered state is missing or has no action, so the call panics. */
  datatype Outcome = Done | Rejected | Crashed

  /** One transition; emitted is what the entered state's action returned, None when there was none to run. */
  datatype Hop = Hop(from: StateType, event: EventType, to: StateType, emitted: Option<EventType>)

  /** worlds[i] is the context before hop i; the last is the context at the end. */
  datatype Trace<W> = Trace(hops: seq<Hop>, worlds: seq<W>, outcome: Outcome)

  function NextState<W>(states: States<W>, current: StateType, event: EventType): Option<StateType> {
    if current in states && event in states[current].events then Some(states[current].events[event]) else None
  }

  predicate HasAction<W>(states: States<W>, state: StateType) {
    state in states && states[state].action.Some?
  }

  // ---------- what a call to SendEvent may do ----------

  /** One configured edge, with the action of the state it enters. */
  predicate HopFits<W(==)>(states: States<W>, h: Hop, before: W, after: W) {
    && NextState(states, h.from, h.event) == Some(h.to)
    && if HasAction(states, h.to)
       then var (w, e) := states[h.to].action.value(before); after == w && h.emitted == Some(e)
       else after == before && h.emitted == None
  }

  /** The second hop starts where the first ends, on the event its action raised. */
  predicate Chained(first: Hop, second: Hop) {
    first.emitted == Some(second.event) && second.event != NO_OP && first.to == second.from
  }

  ghost predicate Ends<W>(states: States<W>, current: StateType, event: EventType, t: Trace<W>) {
    if t.hops == [] then
      t.outcome == Rejected && NextState(states, current, event) == None
    else
      var last := t.hops[|t.hops| - 1];
      match t.outcome
      case Done => last.emitted == Some(NO_OP)
      case Crashed => last.emitted == None
      case Rejected =>
        last.emitted.Some? && last.emitted.value != NO_OP && NextState(states, last.to, last.emitted.value) == None
  }

  /** t is a complete run of the machine on event: a path of the configured graph, as long as it has to be. */
  ghost predicate IsRun<W>(states: States<W>, current: StateType, event: EventType, w: W, t: Trace<W>) {
    && |t.worlds| == |t.hops| + 1 && t.worlds[0] == w
    && (t.hops != [] ==> t.hops[0].from == current && t.hops[0].event == event)
    && (forall i :: 0 <= i < |t.hops| ==> HopFits(states, t.hops[i], t.worlds[i], t.worlds[i + 1]))
    && (forall i :: 0 < i < |t.hops| ==> Chained(t.hops[i - 1], t.hops[i]))
    && Ends(states, current, event, t)
  }

  function Tail<W>(t: Trace<W>): Trace<W>
    requires t.hops != [] && t.worlds != []
  {
    Trace(t.hops[1..], t.worlds[1..], t.outcome)
  }

  /** The first transition that event causes, if it is accepted. */
  function FirstHop<W>(states: States<W>, current: StateType, event: EventType, w: W): (r: Option<(Hop, W)>)
    ensures r.Some? ==> r.value.0.from == current && r.value.0.event == event
    ensures r.None? <==> NextState(states, current, event).None?
  {
    match NextState(states, current, event)
    case None => None
    case Some(to) =>
      if HasAction(states, to) then
        var (after, emitted) := states[to].action.value(w);
        Some((Hop(current, event, to, Some(emitted)), after))
      else Some((Hop(current, event, to, None), w))
  }

  /** After this hop the call goes on. */
  predicate GoesOn(h: Hop) {
    h.emitted.Some? && h.emitted.value != NO_OP
  }

  lemma RunStarts<W>(states: States<W>, current: StateType, event: EventType, w: W, t: Trace<W>)
    requires IsRun(states, current, event, w, t)
    ensures t.hops == [] <==> FirstHop(states, current, event, w).None?
    ensures t.hops == [] ==> t == Trace([], [w], Rejected)
    ensures t.hops != [] ==> FirstHop(states, current, event, w) == Some((t.hops[0], t.worlds[1]))
  {
    if t.hops != [] { assert HopFits(states, t.hops[0], t.worlds[0], t.worlds[1]); }
  }

  lemma RunStops<W>(states: States<W>, current: StateType, event: EventType, w: W, t: Trace<W>)
    requires IsRun(states, current, event, w, t) && t.hops != [] && !GoesOn(t.hops[0])
    ensures |t.hops| == 1 && t.outcome == if t.hops[0].emitted.None? then Crashed else Done
  {
    assert |t.hops| > 1 ==> Chained(t.hops[0], t.hops[1]);
  }

  /** An action that returns "NoOp" ends the call, with success. */
  lemma NoOpEnds<W>(states: States<W>, current: StateType, event: EventType, w: W, t: Trace<W>)
    requires IsRun(states, current, event, w, t) && t.hops != [] && t.hops[0].emitted == Some("NoOp")
    ensures |t.hops| == 1 && t.outcome == Done
  {
    RunStops(states, current, event, w, t);
  }

  /** The configuration, the event and the context leave the machine no choice. */
  lemma {:induction false} RunsAreUnique<W>(
    states: States<W>, current: StateType, event: EventType, w: W, t: Trace<W>, u: Trace<W>)
    requires IsRun(states, current, event, w, t) && IsRun(states, current, event, w, u)
    ensures t == u
    decreases |t.hops|
  {
    RunStarts(states, current, event, w, t);
    RunStarts(states, current, event, w, u);
    if t.hops != [] {
      var h := t.hops[0];
      if GoesOn(h) {
        RunsAreUnique(states, h.to, h.emitted.value, t.worlds[1], Tail(t), Tail(u));
        assert t.hops == [h] + Tail(t).hops && u.hops == [h] + Tail(u).hops;
        assert t.worlds == [w] + Tail(t).worlds && u.worlds == [w] + Tail(u).worlds;
      } else {
        RunStops(states, current, event, w, t);
        RunStops(states, current, event, w, u);
        assert t.hops == [h] && u.hops == [h];
        assert t.worlds == [w, t.worlds[1]] && u.worlds == [w, t.worlds[1]];
      }
    }
  }

  // ---------- termination ----------

  type Rank<!W> = (StateType, EventType, W) -> nat

  /** Every hop that goes on lowers the rank of the state, the event and the context it goes on with. */
  ghost predicate Ranked<W(!new)>(states: States<W>, rank: Rank<W>) {
    forall current: StateType, event: EventType, w: W :: RankFalls(states, rank, current, event, w)
  }

  ghost predicate RankFalls<W>(states: States<W>, rank: Rank<W>, current: StateType, event: EventType, w: W) {
    match FirstHop(states, current, event, w)
    case None => true
    case Some((h, after)) => GoesOn(h) ==> rank(h.to, h.emitted.value, after) < rank(current, event, w)
  }

  /** The run that SendEvent makes. */
  ghost function Cascade<W(!new)>(
    states: States<W>, rank: Rank<W>, current: StateType, event: EventType, w: W): (t: Trace<W>)
    requires Ranked(states, rank)
    ensures |t.worlds| == |t.hops| + 1 && t.worlds[0] == w
    decreases rank(current, event, w)
  {
    assert RankFalls(states, rank, current, event, w);
    match FirstHop(states, current, event, w)
    case None => Trace([], [w], Rejected)
    case Some((h, after)) =>
      if GoesOn(h) then
        var rest := Cascade(states, rank, h.to, h.emitted.value, after);
        Trace([h] + rest.hops, [w] + rest.worlds, rest.outcome)
      else Trace([h], [w, after], if h.emitted.None? then Crashed else Done)
  }

  lemma {:induction false} CascadeIsRun<W(!new)>(
    states: States<W>, rank: Rank<W>, current: StateType, event: EventType, w: W)
    requires Ranked(states, rank)
    ensures IsRun(states, current, event, w, Cascade(states, rank, current, event, w))
    decreases rank(current, event, w)
  {
    assert RankFalls(states, rank, current, event, w);
    match FirstHop(states, current, event, w)
    case None =>
    case Some((h, after)) =>
      if GoesOn(h) {
        CascadeIsRun(states, rank, h.to, h.emitted.value, after);
      }
  }

  ghost predicate Stops<W(!new)>(states: States<W>, current: StateType, event: EventType, w: W) {
    exists t: Trace<W> :: IsRun(states, current, event, w, t)
  }

  /** How many hops the run takes; 0 when there is none. */
  ghost function HopsLeft<W(!new)>(states: States<W>, current: StateType, event: EventType, w: W): nat {
    if Stops(states, current, event, w) then
      var t: Trace<W> :| IsRun(states, current, event, w, t);
      |t.hops|
    else 0
  }

  lemma HopsFall<W(!new)>(states: States<W>, current: StateType, event: EventType, w: W)
    requires Stops(states, current, event, w)
    ensures RankFalls(states, (s, e, x) => HopsLeft(states, s, e, x), current, event, w)
  {
    match FirstHop(states, current, event, w)
    case None =>
    case Some((h, after)) =>
      if GoesOn(h) {
        var t: Trace<W> :| IsRun(states, current, event, w, t);
        RunStarts(states, current, event, w, t);
        HopsAre(states, current, event, w, t);
        HopsAre(states, h.to, h.emitted.value, after, Tail(t));
      }
  }

  lemma HopsAre<W(!new)>(states: States<W>, current: StateType, event: EventType, w: W, t: Trace<W>)
    requires IsRun(states, current, event, w, t)
    ensures HopsLeft(states, current, event, w) == |t.hops|
  {
    assert Stops(states, current, event, w);
    var u: Trace<W> :| IsRun(states, current, event, w, u) && HopsLeft(states, current, event, w) == |u.hops|;
    RunsAreUnique(states, current, event, w, t, u);
  }

  ghost predicate AlwaysStops<W(!new)>(states: States<W>) {
    forall current: StateType, event: EventType, w: W :: Stops(states, current, event, w)
  }

  /** A ranking is not only enough for every call to return: whenever every call returns, there is one. */
  lemma StopsIffRanked<W(!new)>(states: States<W>)
    ensures AlwaysStops(states) <==> exists rank: Rank<W> :: Ranked(states, rank)
  {
    if rank: Rank<W> :| Ranked(states, rank) {
      forall current: StateType, event: EventType, w: W ensures Stops(states, current, event, w) {
        CascadeIsRun(states, rank, current, event, w);
      }
    }
    if AlwaysStops(states) {
      var rank: Rank<W> := (s, e, x) => HopsLeft(states, s, e, x);
      forall current: StateType, event: EventType, w: W ensures RankFalls(states, rank, current, event, w) {
        HopsFall(states, current, event, w);
      }
      assert Ranked(states, rank);
    }
  }

  // ---------- configuration errors ----------

  /** Every event leads to a state that is configured and has an action. */
  ghost predicate Closed<W>(states: States<W>) {
    forall s, e :: s in states && e in states[s].events ==> HasAction(states, states[s].events[e])
  }

  /** A call panics only by entering a state without an action, which a closed configuration does not have. */
  lemma ClosedNeverCrashes<W>(states: States<W>, current: StateType, event: EventType, w: W, t: Trace<W>)
    requires IsRun(states, current, event, w, t)
    ensures t.outcome == Crashed <==> t.hops != [] && !HasAction(states, t.hops[|t.hops| - 1].to)
    ensures Closed(states) ==> t.outcome != Crashed
  {
    if t.hops != [] {
      var n := |t.hops|;
      assert HopFits(states, t.hops[n - 1], t.worlds[n - 1], t.worlds[n]);
    }
  }

  // ---------- the engine ----------

  /** What actions see and update. */
  class Context<W> {
    var world: W

    constructor (w: W)
      ensures world == w
    {
      world := w;
    }
  }

  /** Where a run leaves the machine. */
  function Final(t: seq<Hop>, previous: StateType, current: StateType): (StateType, StateType) {
    if t == [] then (previous, current) else (t[|t| - 1].from, t[|t| - 1].to)
  }

  class StateMachine<W(!new)> {
    var previous: StateType
    var current: StateType
    const states: States<W>

    constructor (states: States<W>, initial: StateType)
      ensures previous == DEFAULT && current == initial && this.states == states
    {
      previous, current := DEFAULT, initial;
      this.states := states;
    }

    method GetNextState(event: EventType) returns (next: StateType, ok: bool)
      ensures ok == NextState(states, current, event).Some?
      ensures ok <==> current in states && event in states[current].events
      ensures next == if ok then states[current].events[event] else ""
    {
      if current in states {
        var state := states[current];
        if event in state.events {
          return state.events[event], true;
        }
      }
      return DEFAULT, false;
    }

    /** run is the path taken. A call that cannot be ranked need not return. */
    method SendEvent(firstEvent: EventType, ctx: Context<W>, ghost rank: Rank<W>)
      returns (outcome: Outcome, ghost run: Trace<W>)
      requires Ranked(states, rank)
      modifies this, ctx
      ensures IsRun(states, old(current), firstEvent, old(ctx.world), run)
      ensures outcome == run.outcome
      ensures (previous, current) == Final(run.hops, old(previous), old(current))
      ensures ctx.world == run.worlds[|run.hops|]
    {
      var event := firstEvent;
      run := Cascade(states, rank, current, event, ctx.world);
      CascadeIsRun(states, rank, current, event, ctx.world);
      ghost var done: nat := 0;
      while true
        invariant done <= |run.hops| && |run.worlds| == |run.hops| + 1
        invariant (previous, current) == Final(run.hops[..done], old(previous), old(current))
        invariant Remaining(run, done) == Cascade(states, rank, current, event, ctx.world)
        decreases rank(current, event, ctx.world)
      {
        NextHop(states, rank, run, done, current, event, ctx.world);
        var next, ok := GetNextState(event);
        if !ok {
          return Rejected, run;
        }
        previous, current := current, next;
        done := done + 1;
        if next !in states || states[next].action.None? {
          return Crashed, run;
        }
        var (world, nextEvent) := states[next].action.value(ctx.world);
        ctx.world := world;
        if nextEvent == NO_OP {
          return Done, run;
        }
        event := nextEvent;
      }
    }
  }

  /** What the next turn of the loop finds, when the rest of the run is what the cascade makes from here. */
  lemma {:induction false} NextHop<W(!new)>(
    states: States<W>, rank: Rank<W>, run: Trace<W>, done: nat, current: StateType, event: EventType, w: W)
    requires Ranked(states, rank) && done <= |run.hops| && |run.worlds| == |run.hops| + 1
    requires Remaining(run, done) == Cascade(states, rank, current, event, w)
    ensures run.worlds[done] == w
    ensures match FirstHop(states, current, event, w)
      case None => done == |run.hops| && run.outcome == Rejected
      case Some((h, after)) =>
        && done < |run.hops| && run.hops[done] == h && run.worlds[done + 1] == after
        && if GoesOn(h)
           then
             && Remaining(run, done + 1) == Cascade(states, rank, h.to, h.emitted.value, after)
             && rank(h.to, h.emitted.value, after) < rank(current, event, w)
           else done + 1 == |run.hops| && run.outcome == if h.emitted.None? then Crashed else Done
  {
    assert RankFalls(states, rank, current, event, w);
    var rest := Remaining(run, done);
    assert rest.worlds[0] == run.worlds[done];
    if rest.hops != [] {
      assert rest.hops[0] == run.hops[done] && rest.worlds[1] == run.worlds[done + 1];
      assert run.hops[done..][1..] == run.hops[done + 1..] && run.worlds[done..][1..] == run.worlds[done + 1..];
    }
  }

  ghost function Remaining<W>(t: Trace<W>, done: nat): Trace<W>
    requires done <= |t.hops| && |t.worlds| == |t.hops| + 1
  {
    Trace(t.hops[done..], t.worlds[done..], t.outcome)
  }
}
