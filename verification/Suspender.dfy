/** The suspender, the engine's one client, and the drand node it halts and resumes. */
module Suspenders {
  import opened Prelude
  import opened StateMachines
  import opened EventSpec

  const RUNNING: StateType := "running"
  const SUSPENDED: StateType := "suspended"
  const HALT: EventType := "halt"
  const RESUME: EventType := "resume"

  /** What the suspender asks of its target. */
  datatype Call = HaltCall | ResumeCall

  /** Anything that can be halted and resumed; T is its state. */
  datatype Suspendable<!T> = Suspendable(halt: T -> T, resume: T -> T)

  /** The target, with the calls made to it so far. */
  datatype World<T> = World(target: T, calls: seq<Call>)

  function Execute<T>(s: Suspendable<T>, call: Call, w: World<T>): World<T> {
    World(if call.HaltCall? then s.halt(w.target) else s.resume(w.target), w.calls + [call])
  }

  function Config<T>(s: Suspendable<T>): States<World<T>> {
    map[
      RUNNING := State(Some((w: World<T>) => (Execute(s, ResumeCall, w), NO_OP)), map[HALT := SUSPENDED]),
      SUSPENDED := State(Some((w: World<T>) => (Execute(s, HaltCall, w), NO_OP)), map[RESUME := RUNNING])
    ]
  }

  /** No action of the suspender raises an event. */
  ghost function NoRank<T>(): Rank<World<T>> {
    (s, e, w) => 0
  }

  lemma ConfigIsRanked<T(!new)>(s: Suspendable<T>)
    ensures Ranked(Config(s), NoRank()) && Closed(Config(s))
  {
    forall current: StateType, event: EventType, w: World<T>
      ensures RankFalls(Config(s), NoRank(), current, event, w)
    {}
  }

  /** The one call that the suspender makes on an event, if it makes any. */
  function CallOn(suspended: bool, event: EventType): Option<Call> {
    if !suspended && event == HALT then Some(HaltCall)
    else if suspended && event == RESUME then Some(ResumeCall)
    else None
  }

  function StateOf(suspended: bool): StateType {
    if suspended then SUSPENDED else RUNNING
  }

  lemma OneEvent<T(!new)>(s: Suspendable<T>, suspended: bool, event: EventType, w: World<T>, t: Trace<World<T>>)
    requires IsRun(Config(s), StateOf(suspended), event, w, t)
    ensures match CallOn(suspended, event)
      case None => t.hops == [] && t.worlds == [w] && t.outcome == Rejected
      case Some(call) =>
        && |t.hops| == 1 && t.hops[0].from == StateOf(suspended) && t.hops[0].to == StateOf(!suspended)
        && t.worlds == [w, Execute(s, call, w)] && t.outcome == Done
  {
    RunStarts(Config(s), StateOf(suspended), event, w, t);
    if t.hops != [] {
      RunStops(Config(s), StateOf(suspended), event, w, t);
    }
  }

  /** The one event that each state handles, by name. */
  lemma EventsByName(suspended: bool, event: EventType)
    ensures CallOn(suspended, event) == Some(HaltCall) <==> !suspended && event == "halt"
    ensures CallOn(suspended, event) == Some(ResumeCall) <==> suspended && event == "resume"
  {}

  // ---------- whole specs ----------

  /** Delays only wait, and empty events are ignored. */
  function CallFor(suspended: bool, entry: EventTiming): Option<Call> {
    if entry.delay != 0 || entry.event == "" then None else CallOn(suspended, entry.event)
  }

  predicate Odd(n: nat) {
    n % 2 == 1
  }

  /** The calls that the entries cause; each call that is made flips the state. */
  function Calls(suspended: bool, entries: seq<EventTiming>): seq<Call> {
    if entries == [] then []
    else
      var n := |entries| - 1;
      var calls := Calls(suspended, entries[..n]);
      Record(calls, CallFor(suspended != Odd(|calls|), entries[n]))
  }

  function Record(calls: seq<Call>, call: Option<Call>): seq<Call> {
    match call case None => calls case Some(c) => calls + [c]
  }

  /** The target after the calls. */
  function After<T>(s: Suspendable<T>, w: World<T>, calls: seq<Call>): World<T> {
    if calls == [] then w
    else
      var n := |calls| - 1;
      Execute(s, calls[n], After(s, w, calls[..n]))
  }

  function React<T>(s: Suspendable<T>, w: World<T>, call: Option<Call>): World<T> {
    match call case None => w case Some(c) => Execute(s, c, w)
  }

  lemma AfterRecord<T>(s: Suspendable<T>, w: World<T>, calls: seq<Call>, call: Option<Call>)
    ensures After(s, w, Record(calls, call)) == React(s, After(s, w, calls), call)
  {
    if call.Some? { assert (calls + [call.value])[..|calls|] == calls; }
  }

  lemma {:induction false} AfterRecords<T>(s: Suspendable<T>, w: World<T>, calls: seq<Call>)
    ensures After(s, w, calls).calls == w.calls + calls
  {
    if calls != [] {
      var n := |calls| - 1;
      AfterRecords(s, w, calls[..n]);
      assert calls[..n] + [calls[n]] == calls;
    }
  }

  lemma {:induction false} ParityOfCalls<T>(s: Suspendable<T>, w: World<T>, calls: seq<Call>)
    ensures Odd(|After(s, w, calls).calls|) == (Odd(|w.calls|) != Odd(|calls|))
  {
    AfterRecords(s, w, calls);
    OddSum(|w.calls|, |calls|);
  }

  lemma {:induction false} CallsOneMore(suspended: bool, entries: seq<EventTiming>, i: nat)
    requires i < |entries|
    ensures var calls := Calls(suspended, entries[..i]);
      Calls(suspended, entries[..i + 1]) == Record(calls, CallFor(suspended != Odd(|calls|), entries[i]))
  {
    assert entries[..i + 1][..i] == entries[..i];
  }

  /** Halt, Resume, Halt, ... */
  predicate Alternate(calls: seq<Call>) {
    forall i :: 0 <= i < |calls| ==> (calls[i].HaltCall? <==> !Odd(i))
  }

  predicate LastHalts(calls: seq<Call>) {
    calls != [] && calls[|calls| - 1].HaltCall?
  }

  /** From any alternating past, whatever the entries, the target's calls go on alternating. */
  lemma {:induction false} CallsKeepAlternating(past: seq<Call>, entries: seq<EventTiming>)
    requires Alternate(past)
    ensures Alternate(past + Calls(Odd(|past|), entries))
  {
    if entries == [] {
      assert past + [] == past;
    } else {
      var n := |entries| - 1;
      var calls := Calls(Odd(|past|), entries[..n]);
      CallsKeepAlternating(past, entries[..n]);
      OddSum(|past|, |calls|);
      var call := CallFor(Odd(|past + calls|), entries[n]);
      if call.Some? {
        assert past + (calls + [call.value]) == (past + calls) + [call.value];
      }
    }
  }

  lemma OddSum(m: nat, n: nat)
    ensures Odd(m + n) == (Odd(m) != Odd(n))
  {}

  /** Entries, in their order, that ask for a halt, a resume, a halt and so on. */
  ghost predicate Picks(entries: seq<EventTiming>, places: seq<nat>) {
    && (forall j, k :: 0 <= j < k < |places| ==> places[j] < places[k])
    && forall j :: 0 <= j < |places| ==>
         places[j] < |entries| && entries[places[j]] == EventTiming(0, if Odd(j) then RESUME else HALT)
  }

  lemma {:induction false} PicksOfPrefix(entries: seq<EventTiming>, places: seq<nat>)
    requires Picks(entries, places) && places != [] && entries != []
    ensures var n, m := |entries| - 1, |places| - 1;
      if places[m] == n then Picks(entries[..n], places[..m]) else Picks(entries[..n], places)
  {}

  lemma AcceptsNext(entries: seq<EventTiming>, m: nat)
    requires entries != [] && m == |Calls(false, entries[..|entries| - 1])|
    requires entries[|entries| - 1] == EventTiming(0, if Odd(m) then RESUME else HALT)
    ensures |Calls(false, entries)| == m + 1
  {}

  /** No other choice of entries that alternates is longer than the calls that are made. */
  lemma {:induction false} NoneIsLonger(entries: seq<EventTiming>, places: seq<nat>)
    requires Picks(entries, places)
    ensures |places| <= |Calls(false, entries)|
  {
    if places != [] {
      assert places[0] < |entries|;
      var n, m := |entries| - 1, |places| - 1;
      var calls := Calls(false, entries[..n]);
      PicksOfPrefix(entries, places);
      if places[m] == n {
        NoneIsLonger(entries[..n], places[..m]);
        if m == |calls| { AcceptsNext(entries, m); }
      } else {
        NoneIsLonger(entries[..n], places);
      }
    }
  }

  /** The calls are a longest alternating choice of the entries. */
  lemma {:induction false} CallsAreLongest(entries: seq<EventTiming>) returns (places: seq<nat>)
    ensures Picks(entries, places) && |places| == |Calls(false, entries)|
    ensures forall other :: Picks(entries, other) ==> |other| <= |places|
  {
    places := ChosenPlaces(entries);
    forall other | Picks(entries, other) ensures |other| <= |places| {
      NoneIsLonger(entries, other);
    }
  }

  lemma {:induction false} PickOneMore(entries: seq<EventTiming>, places: seq<nat>)
    requires entries != [] && Picks(entries[..|entries| - 1], places)
    ensures Picks(entries, places)
    ensures entries[|entries| - 1] == EventTiming(0, if Odd(|places|) then RESUME else HALT) ==>
      Picks(entries, places + [|entries| - 1])
  {
    var n := |entries| - 1;
    assert forall j :: 0 <= j < |places| ==> places[j] < n && entries[places[j]] == entries[..n][places[j]];
  }

  lemma {:induction false} ChosenPlaces(entries: seq<EventTiming>) returns (places: seq<nat>)
    ensures Picks(entries, places) && |places| == |Calls(false, entries)|
  {
    places := [];
    if entries != [] {
      var n := |entries| - 1;
      places := ChosenPlaces(entries[..n]);
      PickOneMore(entries, places);
      if CallFor(Odd(|places|), entries[n]).Some? {
        places := places + [n];
      }
    }
  }

  lemma {:induction false} NamesSurvive()
    ensures Survives(EventTiming(0, "halt")) && Survives(EventTiming(0, "resume"))
  {
    FreeOfArrow("halt");
    FreeOfBlank("halt");
    FreeOfArrow("resume");
    FreeOfBlank("resume");
  }

  /** What a spec that halts, waits and resumes makes of a running target. */
  lemma {:induction false} HaltWaitResume(d: int, show: int -> string, parse: string -> Option<int>)
    requires PrintsBack(d, show, parse)
    ensures Calls(false, Parse("halt -> wait " + show(d) + " -> resume", parse)) == [HaltCall, ResumeCall]
  {
    var halt, wait, resume := EventTiming(0, "halt"), EventTiming(d, ""), EventTiming(0, "resume");
    var entries := [halt, wait, resume];
    NamesSurvive();
    ThreeComeBack(halt, wait, resume, show, parse);
    PrintsThree(halt, wait, resume, show);
    CallsOfThree(d);
  }

  lemma {:induction false} ThreeComeBack(
    a: EventTiming, b: EventTiming, c: EventTiming, show: int -> string, parse: string -> Option<int>)
    requires Survives(a) && b.event == "" && PrintsBack(b.delay, show, parse) && Survives(c)
    ensures Parse(Print([a, b, c], show), parse) == [a, b, c]
  {
    RoundTrip([a, b, c], show, parse);
  }

  lemma {:induction false} CallsOfThree(d: int)
    ensures Calls(false, [EventTiming(0, "halt"), EventTiming(d, ""), EventTiming(0, "resume")])
      == [HaltCall, ResumeCall]
  {
    var halt, wait, resume := EventTiming(0, "halt"), EventTiming(d, ""), EventTiming(0, "resume");
    CallsThenOne(false, [], halt);
    CallsThenOne(false, [halt], wait);
    CallsThenOne(false, [halt, wait], resume);
    assert [halt] + [wait] == [halt, wait] && [halt, wait] + [resume] == [halt, wait, resume];
    assert [] + [halt] == [halt];
  }

  lemma {:induction false} CallsThenOne(suspended: bool, entries: seq<EventTiming>, e: EventTiming)
    ensures Calls(suspended, entries + [e])
      == Record(Calls(suspended, entries), CallFor(suspended != Odd(|Calls(suspended, entries)|), e))
  {
    assert (entries + [e])[..|entries|] == entries;
  }

  lemma {:induction false} PrintMore(e: EventTiming, rest: seq<EventTiming>, show: int -> string)
    requires rest != []
    ensures Print([e], show) == PrintEntry(e, show)
    ensures Print([e] + rest, show) == PrintEntry(e, show) + " -> " + Print(rest, show)
  {
    assert ([e] + rest)[1..] == rest;
  }

  lemma {:induction false} PrintsThree(a: EventTiming, b: EventTiming, c: EventTiming, show: int -> string)
    requires a == EventTiming(0, "halt") && b.event == "" && c == EventTiming(0, "resume")
    ensures Print([a, b, c], show) == "halt -> wait " + show(b.delay) + " -> resume"
  {
    PrintMore(c, [a], show);
    PrintMore(b, [c], show);
    PrintMore(a, [b] + [c], show);
    assert [a, b, c] == [a] + ([b] + [c]);
    Spell(show(b.delay));
  }

  lemma Spell(d: string)
    ensures "halt" + " -> " + ("wait " + d + " -> " + "resume") == "halt -> wait " + d + " -> resume"
  {
    assert "halt" + " -> " + "wait " == "halt -> wait ";
    assert " -> " + "resume" == " -> resume";
  }

  class Suspender<T(!new)> {
    const target: Suspendable<T>
    const machine: StateMachine<World<T>>
    const ctx: Context<World<T>>

    ghost predicate Tracks()
      reads this, machine, ctx
    {
      && machine.states == Config(target)
      && machine.current == StateOf(Odd(|ctx.world.calls|))
      && (machine.previous == if ctx.world.calls == [] then DEFAULT else StateOf(!Odd(|ctx.world.calls|)))
    }

    /** The machine is suspended exactly when the last call was a halt, and the calls alternate. */
    ghost predicate Valid()
      reads this, machine, ctx
    {
      Tracks() && Alternate(ctx.world.calls)
    }

    constructor (target: Suspendable<T>, start: T)
      ensures Valid() && fresh(machine) && fresh(ctx)
      ensures this.target == target && ctx.world == World(start, []) && machine.current == "running"
    {
      this.target := target;
      machine := new StateMachine(Config(target), RUNNING);
      ctx := new Context(World(start, []));
    }

    lemma SuspendedMeansHalted()
      requires Valid()
      ensures machine.current == SUSPENDED <==> LastHalts(ctx.world.calls)
      ensures ctx.world.calls == [] || machine.current == StateOf(LastHalts(ctx.world.calls))
    {}

    /** Handles one entry; a rejected event is logged and changes nothing. */
    method RunEvent(et: EventTiming)
      requires Tracks()
      modifies machine, ctx
      ensures Tracks()
      ensures ctx.world == React(target, old(ctx.world), CallFor(Odd(|old(ctx.world).calls|), et))
    {
      if et.delay != 0 || et.event == "" {
        return;
      }
      ConfigIsRanked(target);
      ghost var now, before := Odd(|ctx.world.calls|), ctx.world;
      var outcome, run := machine.SendEvent(et.event, ctx, NoRank());
      OneEvent(target, now, et.event, before, run);
    }

    /** From base, in state start, exactly these calls have been made. */
    ghost predicate Made(base: World<T>, start: bool, calls: seq<Call>)
      reads this, machine, ctx
    {
      Tracks() && start == Odd(|base.calls|) && ctx.world == After(target, base, calls)
    }

    method RunNext(et: EventTiming, ghost base: World<T>, ghost start: bool, ghost calls: seq<Call>)
      requires Made(base, start, calls)
      modifies machine, ctx
      ensures Made(base, start, Record(calls, CallFor(start != Odd(|calls|), et)))
    {
      ParityOfCalls(target, base, calls);
      AfterRecord(target, base, calls, CallFor(start != Odd(|calls|), et));
      RunEvent(et);
    }

    method RunEvents(spec: string, parse: string -> Option<int>)
      requires Valid()
      modifies machine, ctx
      ensures Valid()
      ensures ctx.world == After(target, old(ctx.world), Calls(old(machine.current) == SUSPENDED, Parse(spec, parse)))
      ensures ctx.world.calls == old(ctx.world.calls) + Calls(old(machine.current) == SUSPENDED, Parse(spec, parse))
    {
      var entries := ParseEventSpec(spec, parse);
      SuspendedMeansOdd();
      ghost var base, start := ctx.world, machine.current == SUSPENDED;
      RunEntries(entries, base, start);
      KeepsAlternating(base, start, entries);
    }

    method RunEntries(entries: seq<EventTiming>, ghost base: World<T>, ghost start: bool)
      requires Made(base, start, [])
      modifies machine, ctx
      ensures Made(base, start, Calls(start, entries))
    {
      for i := 0 to |entries|
        invariant Made(base, start, Calls(start, entries[..i]))
      {
        RunNext(entries[i], base, start, Calls(start, entries[..i]));
        CallsOneMore(start, entries, i);
      }
      assert entries[..|entries|] == entries;
    }

    lemma SuspendedMeansOdd()
      requires Tracks()
      ensures machine.current == SUSPENDED <==> Odd(|ctx.world.calls|)
    {}

    lemma KeepsAlternating(base: World<T>, start: bool, entries: seq<EventTiming>)
      requires Made(base, start, Calls(start, entries))
      requires Alternate(base.calls)
      ensures Valid() && ctx.world.calls == base.calls + Calls(start, entries)
    {
      AfterRecords(target, base, Calls(start, entries));
      CallsKeepAlternating(base.calls, entries);
    }
  }
}
