/**
 Test instances that coordinate only through a sync service, as straight-line programs.

 The service keeps one append-only log per key.  Signalling a sync.State and publishing on a
 sync.Topic both append the caller to the key's log; a barrier on a State with target n and a
 subscriber that takes n messages from a Topic both wait until the log holds n entries.  Every
 subscriber reads a topic from its start, so message i of a topic is entry i of its log, and the
 sequence number a signal returns is the length of the log after it.
 */
module SyncPrograms {
  import opened Prelude
  import opened Runs

  /** Local is work that neither signals nor waits. */
  datatype Instr<K> = Post(key: K) | Await(key: K, target: nat) | Local(key: K)

  type Program<K> = seq<Instr<K>>

  /** pcs[p] is the index of process p's next instruction; logs holds the posters of each key. */
  datatype State<K> = State(pcs: seq<nat>, logs: map<K, seq<nat>>)

  /** A loop that takes n messages from the topic k, one at a time. */
  function Reads<K>(k: K, n: nat): (prog: Program<K>)
    ensures |prog| == n
    ensures forall x :: x in prog ==> x.Await? && x.key == k && x.target <= n
    ensures n > 0 ==> Await(k, n) in prog
  {
    if n == 0 then [] else Reads(k, n - 1) + [Await(k, n)]
  }

  function Log<K(==)>(s: State<K>, k: K): seq<nat> {
    if k in s.logs then s.logs[k] else []
  }

  function Initial<K>(progs: seq<Program<K>>): State<K> {
    State(seq(|progs|, p => 0), map[])
  }

  /** Process p performs its next instruction. */
  function Step<K(==)>(progs: seq<Program<K>>, s: State<K>, p: nat): Option<State<K>> {
    if p < |progs| && p < |s.pcs| && s.pcs[p] < |progs[p]| then
      var pcs := s.pcs[p := s.pcs[p] + 1];
      match progs[p][s.pcs[p]]
      case Post(k) => Some(State(pcs, s.logs[k := Log(s, k) + [p]]))
      case Await(k, n) => if n <= |Log(s, k)| then Some(State(pcs, s.logs)) else None
      case Local(_) => Some(State(pcs, s.logs))
    else None
  }

  ghost function Stepper<K>(progs: seq<Program<K>>): (State<K>, nat) -> Option<State<K>> {
    (s: State<K>, p: nat) => Step(progs, s, p)
  }

  /** s is the state in which the schedule leaves the processes, started together. */
  ghost predicate Reaches<K>(progs: seq<Program<K>>, schedule: seq<nat>, s: State<K>) {
    Run(Stepper(progs), Initial(progs), schedule) == Some(s)
  }

  predicate Finished<K>(progs: seq<Program<K>>, s: State<K>) {
    |s.pcs| == |progs| && forall p :: 0 <= p < |progs| ==> s.pcs[p] == |progs[p]|
  }

  /** How many of the first n instructions post k. */
  function Posts<K(==)>(prog: Program<K>, n: nat, k: K): nat
    requires n <= |prog|
  {
    if n == 0 then 0
    else Posts(prog, n - 1, k) + (if prog[n - 1] == Post(k) then 1 else 0)
  }

  /** How many posts of k the first n processes have performed. */
  function Posted<K(==)>(progs: seq<Program<K>>, pcs: seq<nat>, k: K, n: nat): nat
    requires n <= |progs| == |pcs|
    requires forall p :: 0 <= p < |progs| ==> pcs[p] <= |progs[p]|
  {
    if n == 0 then 0
    else Posted(progs, pcs, k, n - 1) + Posts(progs[n - 1], pcs[n - 1], k)
  }

  function Lengths<K>(progs: seq<Program<K>>): (r: seq<nat>)
    ensures |r| == |progs| && forall p :: 0 <= p < |r| ==> r[p] == |progs[p]|
  {
    seq(|progs|, p requires 0 <= p < |progs| => |progs[p]|)
  }

  ghost predicate InRange<K>(progs: seq<Program<K>>, s: State<K>) {
    && |s.pcs| == |progs|
    && forall p :: 0 <= p < |progs| ==> s.pcs[p] <= |progs[p]|
  }

  /** The log of k holds each process once for every post of k it has performed, and nothing else. */
  ghost predicate LogExact<K>(progs: seq<Program<K>>, s: State<K>, k: K)
    requires InRange(progs, s)
  {
    Counts(progs, s.pcs, Log(s, k), k)
  }

  ghost predicate Counts<K>(progs: seq<Program<K>>, pcs: seq<nat>, log: seq<nat>, k: K)
    requires |pcs| == |progs| && forall p :: 0 <= p < |progs| ==> pcs[p] <= |progs[p]|
  {
    && |log| == Posted(progs, pcs, k, |progs|)
    && forall p: nat :: multiset(log)[p] == if p < |progs| then Posts(progs[p], pcs[p], k) else 0
  }

  /** Every wait that was passed is still satisfied. */
  ghost predicate WaitsHold<K>(progs: seq<Program<K>>, s: State<K>)
    requires InRange(progs, s)
  {
    forall p, j :: 0 <= p < |progs| && 0 <= j < s.pcs[p] && progs[p][j].Await? ==>
      progs[p][j].target <= |Log(s, progs[p][j].key)|
  }

  ghost predicate Inv<K(!new)>(progs: seq<Program<K>>, s: State<K>) {
    && InRange(progs, s)
    && (forall k: K :: LogExact(progs, s, k))
    && WaitsHold(progs, s)
  }

  // ---------- the invariant ----------

  lemma {:induction false} PostedAdvance<K>(progs: seq<Program<K>>, pcs: seq<nat>, k: K, n: nat, p: nat)
    requires n <= |progs| == |pcs| && p < |progs|
    requires forall q :: 0 <= q < |progs| ==> pcs[q] <= |progs[q]|
    requires pcs[p] < |progs[p]|
    ensures Posted(progs, pcs[p := pcs[p] + 1], k, n)
         == Posted(progs, pcs, k, n) + if p < n && progs[p][pcs[p]] == Post(k) then 1 else 0
  {
    if n > 0 {
      PostedAdvance(progs, pcs, k, n - 1, p);
    }
  }

  lemma {:induction false} PostedNone<K>(progs: seq<Program<K>>, pcs: seq<nat>, k: K, n: nat)
    requires n <= |progs| == |pcs| && forall p :: 0 <= p < |progs| ==> pcs[p] == 0
    ensures Posted(progs, pcs, k, n) == 0
  {
    if n > 0 {
      PostedNone(progs, pcs, k, n - 1);
    }
  }

  lemma InitialInv<K(!new)>(progs: seq<Program<K>>)
    ensures Inv(progs, Initial(progs))
  {
    var s := Initial(progs);
    forall k: K ensures LogExact(progs, s, k) {
      PostedNone(progs, s.pcs, k, |progs|);
    }
  }

  lemma AdvanceCounts<K>(progs: seq<Program<K>>, pcs: seq<nat>, log: seq<nat>, k: K, p: nat)
    requires |pcs| == |progs| && forall q :: 0 <= q < |progs| ==> pcs[q] <= |progs[q]|
    requires p < |progs| && pcs[p] < |progs[p]| && Counts(progs, pcs, log, k)
    ensures Counts(progs, pcs[p := pcs[p] + 1], log + if progs[p][pcs[p]] == Post(k) then [p] else [], k)
  {
    PostedAdvance(progs, pcs, k, |progs|, p);
    assert log + [] == log;
    assert Posts(progs[p], pcs[p] + 1, k) == Posts(progs[p], pcs[p], k) + if progs[p][pcs[p]] == Post(k) then 1 else 0;
  }

  lemma StepKeepsLog<K>(progs: seq<Program<K>>, s: State<K>, p: nat, k: K)
    requires InRange(progs, s) && LogExact(progs, s, k) && Step(progs, s, p).Some?
    ensures InRange(progs, Step(progs, s, p).value) && LogExact(progs, Step(progs, s, p).value, k)
    ensures Log(s, k) <= Log(Step(progs, s, p).value, k)
  {
    assert Counts(progs, s.pcs, Log(s, k), k);
    AdvanceCounts(progs, s.pcs, Log(s, k), k, p);
    StepLogs(progs, s, p, k);
  }

  lemma StepLogs<K>(progs: seq<Program<K>>, s: State<K>, p: nat, k: K)
    requires Step(progs, s, p).Some?
    ensures var t := Step(progs, s, p).value;
      t.pcs == s.pcs[p := s.pcs[p] + 1] && Log(t, k) == Log(s, k) + if progs[p][s.pcs[p]] == Post(k) then [p] else []
  {}

  lemma StepKeepsInv<K(!new)>(progs: seq<Program<K>>, s: State<K>, p: nat)
    requires Inv(progs, s) && Step(progs, s, p).Some?
    ensures Inv(progs, Step(progs, s, p).value)
  {
    var t := Step(progs, s, p).value;
    forall k: K ensures LogExact(progs, t, k) && Log(s, k) <= Log(t, k) {
      StepKeepsLog(progs, s, p, k);
    }
    forall q, j | 0 <= q < |progs| && 0 <= j < t.pcs[q] && progs[q][j].Await?
      ensures progs[q][j].target <= |Log(t, progs[q][j].key)|
    {
      assert Log(s, progs[q][j].key) <= Log(t, progs[q][j].key);
    }
  }

  /** Every reachable state satisfies the invariant. */
  lemma ReachableInv<K(!new)>(progs: seq<Program<K>>, schedule: seq<nat>, s: State<K>)
    requires Reaches(progs, schedule, s)
    ensures Inv(progs, s)
  {
    var inv := (s: State<K>) => Inv(progs, s);
    forall s: State<K>, p: nat | inv(s) && Stepper(progs)(s, p).Some? ensures inv(Stepper(progs)(s, p).value) {
      StepKeepsInv(progs, s, p);
    }
    InitialInv(progs);
    RunKeeps(Stepper(progs), inv, Initial(progs), schedule);
  }

  // ---------- who has posted ----------

  lemma {:induction false} PostsMonotone<K>(prog: Program<K>, m: nat, n: nat, k: K)
    requires m <= n <= |prog|
    ensures Posts(prog, m, k) <= Posts(prog, n, k)
  {
    if m < n {
      PostsMonotone(prog, m, n - 1, k);
    }
  }

  lemma {:induction false} PostsWitness<K>(prog: Program<K>, m: nat, n: nat, k: K) returns (j: nat)
    requires m <= n <= |prog| && Posts(prog, m, k) < Posts(prog, n, k)
    ensures m <= j < n && prog[j] == Post(k)
  {
    if prog[n - 1] == Post(k) {
      j := n - 1;
    } else {
      j := PostsWitness(prog, m, n - 1, k);
    }
  }

  /** A process is in the log of k exactly when it is past an instruction that posts k. */
  lemma PosterIsPast<K(!new)>(progs: seq<Program<K>>, s: State<K>, k: K, p: nat)
    requires Inv(progs, s)
    ensures p in Log(s, k) <==> p < |progs| && exists j :: 0 <= j < s.pcs[p] && progs[p][j] == Post(k)
  {
    assert LogExact(progs, s, k);
    assert p in Log(s, k) <==> multiset(Log(s, k))[p] > 0;
    if p < |progs| {
      if p in Log(s, k) {
        var j := PostsWitness(progs[p], 0, s.pcs[p], k);
      }
      if j :| 0 <= j < s.pcs[p] && progs[p][j] == Post(k) {
        assert Posts(progs[p], j + 1, k) >= 1;
        PostsMonotone(progs[p], j + 1, s.pcs[p], k);
      }
    }
  }

  /** prog posts k at one place at most. */
  ghost predicate PostsAtMostOnce<K>(prog: Program<K>, k: K) {
    forall i, j :: 0 <= i < |prog| && 0 <= j < |prog| && prog[i] == Post(k) && prog[j] == Post(k) ==> i == j
  }

  lemma {:induction false} PostsAreAtMostOne<K>(prog: Program<K>, n: nat, k: K)
    requires PostsAtMostOnce(prog, k) && n <= |prog|
    ensures Posts(prog, n, k) <= 1
  {
    if n > 0 {
      PostsAreAtMostOne(prog, n - 1, k);
      if prog[n - 1] == Post(k) && Posts(prog, n - 1, k) > 0 {
        var j := PostsWitness(prog, 0, n - 1, k);
        assert false;
      }
    }
  }

  /** Only the processes in [lo, hi) post k, each at one place at most. */
  ghost predicate OnlyPosters<K>(progs: seq<Program<K>>, k: K, lo: nat, hi: nat) {
    && lo <= hi <= |progs|
    && (forall p :: 0 <= p < |progs| ==> PostsAtMostOnce(progs[p], k))
    && (forall p, j :: 0 <= p < |progs| && !(lo <= p < hi) && 0 <= j < |progs[p]| ==> progs[p][j] != Post(k))
  }

  lemma {:induction false} PostedOnlyBy<K>(progs: seq<Program<K>>, pcs: seq<nat>, k: K, lo: nat, hi: nat, n: nat)
    requires OnlyPosters(progs, k, lo, hi) && n <= |progs| == |pcs|
    requires forall p :: 0 <= p < |progs| ==> pcs[p] <= |progs[p]|
    ensures Posted(progs, pcs, k, n) <= if n <= lo then 0 else if n <= hi then n - lo else hi - lo
    ensures forall p :: lo <= p < n && p < hi && Posts(progs[p], pcs[p], k) == 0 ==>
              Posted(progs, pcs, k, n) < (if n <= hi then n - lo else hi - lo)
  {
    if n > 0 {
      PostedOnlyBy(progs, pcs, k, lo, hi, n - 1);
      PostsAreAtMostOne(progs[n - 1], pcs[n - 1], k);
      if !(lo <= n - 1 < hi) && Posts(progs[n - 1], pcs[n - 1], k) > 0 {
        var j := PostsWitness(progs[n - 1], 0, pcs[n - 1], k);
        assert false;
      }
    }
  }

  /** When the log of k is as long as the number of its posters, each of them is in it. */
  lemma FullLogHasAll<K(!new)>(progs: seq<Program<K>>, s: State<K>, k: K, lo: nat, hi: nat, p: nat)
    requires Inv(progs, s) && OnlyPosters(progs, k, lo, hi)
    requires hi - lo <= |Log(s, k)| && lo <= p < hi
    ensures p in Log(s, k)
  {
    assert LogExact(progs, s, k);
    PostedOnlyBy(progs, s.pcs, k, lo, hi, |progs|);
    assert Posts(progs[p], s.pcs[p], k) > 0;
    assert multiset(Log(s, k))[p] > 0;
  }

  /** The log of a key that each process posts at most once repeats nobody. */
  lemma LogHasNoRepeats<K(!new)>(progs: seq<Program<K>>, s: State<K>, k: K, lo: nat, hi: nat)
    requires Inv(progs, s) && OnlyPosters(progs, k, lo, hi)
    ensures |Log(s, k)| <= hi - lo
    ensures forall i, j :: 0 <= i < j < |Log(s, k)| ==> Log(s, k)[i] != Log(s, k)[j]
    ensures forall i :: 0 <= i < |Log(s, k)| ==> lo <= Log(s, k)[i] < hi
  {
    var log := Log(s, k);
    assert LogExact(progs, s, k);
    PostedOnlyBy(progs, s.pcs, k, lo, hi, |progs|);
    forall i, j | 0 <= i < j < |log| ensures log[i] != log[j] {
      if log[i] == log[j] {
        var p := log[i];
        assert log == log[..j] + log[j..];
        assert log[j] in log[j..] && p in log[..j];
        assert multiset(log)[p] >= 2;
        PostsAreAtMostOne(progs[p], s.pcs[p], k);
        assert false;
      }
    }
    forall i | 0 <= i < |log| ensures lo <= log[i] < hi {
      PosterIsPast(progs, s, k, log[i]);
    }
  }

  lemma {:induction false} PostedByAll<K>(progs: seq<Program<K>>, pcs: seq<nat>, k: K, lo: nat, hi: nat, n: nat)
    requires n <= |progs| == |pcs| && lo <= hi <= |progs|
    requires forall p :: 0 <= p < |progs| ==> pcs[p] <= |progs[p]|
    requires forall p :: lo <= p < hi ==> Posts(progs[p], pcs[p], k) > 0
    ensures Posted(progs, pcs, k, n) >= if n <= lo then 0 else if n <= hi then n - lo else hi - lo
  {
    if n > 0 {
      PostedByAll(progs, pcs, k, lo, hi, n - 1);
    }
  }

  /** The converse: when everyone in [lo, hi) is in the log of k, it holds hi - lo entries. */
  lemma AllMeansFull<K(!new)>(progs: seq<Program<K>>, s: State<K>, k: K, lo: nat, hi: nat)
    requires Inv(progs, s) && OnlyPosters(progs, k, lo, hi)
    requires forall p :: lo <= p < hi ==> p in Log(s, k)
    ensures |Log(s, k)| == hi - lo
  {
    assert LogExact(progs, s, k);
    forall p: nat | lo <= p < hi ensures Posts(progs[p], s.pcs[p], k) > 0 {
      assert p in Log(s, k);
      assert multiset(Log(s, k))[p] > 0;
    }
    PostedByAll(progs, s.pcs, k, lo, hi, |progs|);
    PostedOnlyBy(progs, s.pcs, k, lo, hi, |progs|);
  }

  /** A process that has posted k has performed every instruction ahead of the part that posts k. */
  lemma PostedAfter<K(!new)>(progs: seq<Program<K>>, s: State<K>, p: nat, k: K, before: Program<K>, after: Program<K>)
    requires Inv(progs, s) && p in Log(s, k)
    requires p < |progs| && progs[p] == before + after && Post(k) !in before
    ensures |before| < s.pcs[p]
    ensures forall k1: K :: Post(k1) in before ==> p in Log(s, k1)
    ensures forall k1: K, n: nat :: Await(k1, n) in before ==> n <= |Log(s, k1)|
  {
    PosterIsPast(progs, s, k, p);
    forall k1: K | Post(k1) in before ensures p in Log(s, k1) {
      var i :| 0 <= i < |before| && before[i] == Post(k1);
      assert progs[p][i] == Post(k1);
      PosterIsPast(progs, s, k1, p);
    }
    forall k1: K, n: nat | Await(k1, n) in before ensures n <= |Log(s, k1)| {
      var i :| 0 <= i < |before| && before[i] == Await(k1, n);
      assert progs[p][i].Await?;
    }
  }

  /** Logs only grow: what a subscriber has read stays where it was. */
  lemma LogsGrow<K(!new)>(progs: seq<Program<K>>, s: State<K>, schedule: seq<nat>, t: State<K>, k: K)
    requires Inv(progs, s) && Run(Stepper(progs), s, schedule) == Some(t)
    ensures Log(s, k) <= Log(t, k)
  {
    var inv := (u: State<K>) => Inv(progs, u) && Log(s, k) <= Log(u, k);
    forall u: State<K>, p: nat | inv(u) && Stepper(progs)(u, p).Some? ensures inv(Stepper(progs)(u, p).value) {
      StepKeepsInv(progs, u, p);
      StepKeepsLog(progs, u, p, k);
    }
    RunKeeps(Stepper(progs), inv, s, schedule);
  }

  // ---------- progress ----------

  /** Whatever prog waits for before it posts k ranks below k. */
  ghost predicate OrderedProgram<K>(prog: Program<K>, rank: K -> nat) {
    forall i, j :: 0 <= i < j < |prog| && prog[i].Await? && prog[j].Post? ==> rank(prog[i].key) < rank(prog[j].key)
  }

  lemma OrderedConcat<K(!new)>(a: Program<K>, b: Program<K>, rank: K -> nat)
    requires OrderedProgram(a, rank) && OrderedProgram(b, rank)
    requires forall x, y :: x in a && y in b && x.Await? && y.Post? ==> rank(x.key) < rank(y.key)
    ensures OrderedProgram(a + b, rank)
  {
    forall i, j | 0 <= i < j < |a + b| && (a + b)[i].Await? && (a + b)[j].Post?
      ensures rank((a + b)[i].key) < rank((a + b)[j].key)
    {
      if j < |a| {
        assert a[i].Await? && a[j].Post?;
      } else if |a| <= i {
        assert b[i - |a|].Await? && b[j - |a|].Post?;
      } else {
        assert a[i] in a && b[j - |a|] in b;
      }
    }
  }

  ghost predicate Ordered<K>(progs: seq<Program<K>>, rank: K -> nat) {
    forall p :: 0 <= p < |progs| ==> OrderedProgram(progs[p], rank)
  }

  /** No process waits for more posts than the programs contain. */
  ghost predicate Covered<K>(progs: seq<Program<K>>) {
    forall p, x :: 0 <= p < |progs| && x in progs[p] && x.Await? ==>
      x.target <= Posted(progs, Lengths(progs), x.key, |progs|)
  }

  lemma {:induction false} MissingPoster<K>(progs: seq<Program<K>>, pcs: seq<nat>, k: K, n: nat)
    returns (q: nat, j: nat)
    requires n <= |progs| == |pcs|
    requires forall p :: 0 <= p < |progs| ==> pcs[p] <= |progs[p]|
    requires Posted(progs, pcs, k, n) < Posted(progs, Lengths(progs), k, n)
    ensures q < |progs| && pcs[q] <= j < |progs[q]| && progs[q][j] == Post(k)
  {
    if Posts(progs[n - 1], pcs[n - 1], k) < Posts(progs[n - 1], |progs[n - 1]|, k) {
      q := n - 1;
      j := PostsWitness(progs[q], pcs[q], |progs[q]|, k);
    } else {
      q, j := MissingPoster(progs, pcs, k, n - 1);
    }
  }

  function BlockRank<K>(progs: seq<Program<K>>, rank: K -> nat, s: State<K>, p: nat): nat {
    if p < |progs| && p < |s.pcs| && s.pcs[p] < |progs[p]| && progs[p][s.pcs[p]].Await?
    then rank(progs[p][s.pcs[p]].key) + 1
    else 0
  }

  lemma {:induction false} FindEnabled<K(!new)>(progs: seq<Program<K>>, rank: K -> nat, s: State<K>, p: nat)
    returns (q: nat)
    requires Inv(progs, s) && Ordered(progs, rank) && Covered(progs)
    requires p < |progs| && s.pcs[p] < |progs[p]|
    ensures Step(progs, s, q).Some?
    decreases BlockRank(progs, rank, s, p)
  {
    if Step(progs, s, p).Some? {
      q := p;
    } else {
      var k := progs[p][s.pcs[p]].key;
      assert LogExact(progs, s, k);
      assert progs[p][s.pcs[p]] in progs[p] && OrderedProgram(progs[p], rank);
      var r, j := MissingPoster(progs, s.pcs, k, |progs|);
      assert OrderedProgram(progs[r], rank);
      q := FindEnabled(progs, rank, s, r);
    }
  }

  /** Ordered and covered programs never deadlock: an unfinished reachable state has an enabled process. */
  lemma NoDeadlock<K(!new)>(progs: seq<Program<K>>, rank: K -> nat, schedule: seq<nat>, s: State<K>)
    requires Ordered(progs, rank) && Covered(progs) && Reaches(progs, schedule, s)
    ensures Terminal(Stepper(progs), s) <==> Finished(progs, s)
  {
    ReachableInv(progs, schedule, s);
    if !Finished(progs, s) {
      var p :| 0 <= p < |progs| && s.pcs[p] != |progs[p]|;
      var q := FindEnabled(progs, rank, s, p);
      assert Stepper(progs)(s, q).Some?;
    }
    if Finished(progs, s) {
      forall q: nat ensures Stepper(progs)(s, q).None? {}
    }
  }

  /** The instructions the first n processes have yet to perform. */
  function Remaining<K>(progs: seq<Program<K>>, pcs: seq<nat>, n: nat): nat
    requires n <= |progs| == |pcs|
    requires forall p :: 0 <= p < |progs| ==> pcs[p] <= |progs[p]|
  {
    if n == 0 then 0 else Remaining(progs, pcs, n - 1) + |progs[n - 1]| - pcs[n - 1]
  }

  lemma {:induction false} RemainingAdvance<K>(progs: seq<Program<K>>, pcs: seq<nat>, n: nat, p: nat)
    requires n <= |progs| == |pcs| && p < |progs|
    requires forall q :: 0 <= q < |progs| ==> pcs[q] <= |progs[q]|
    requires pcs[p] < |progs[p]|
    ensures Remaining(progs, pcs[p := pcs[p] + 1], n) == Remaining(progs, pcs, n) - if p < n then 1 else 0
  {
    if n > 0 {
      RemainingAdvance(progs, pcs, n - 1, p);
    }
  }

  function StateRank<K>(progs: seq<Program<K>>, s: State<K>): nat {
    if |s.pcs| == |progs| && forall p :: 0 <= p < |progs| ==> s.pcs[p] <= |progs[p]|
    then Remaining(progs, s.pcs, |progs|) else 0
  }

  lemma StepLowersRank<K>(progs: seq<Program<K>>, s: State<K>, p: nat)
    requires InRange(progs, s) && Step(progs, s, p).Some?
    ensures InRange(progs, Step(progs, s, p).value)
    ensures StateRank(progs, Step(progs, s, p).value) < StateRank(progs, s)
  {
    RemainingAdvance(progs, s.pcs, |progs|, p);
  }

  /** Every step performs one instruction, so no schedule outlasts the instructions there are. */
  lemma ScheduleIsBounded<K(!new)>(progs: seq<Program<K>>, schedule: seq<nat>, s: State<K>)
    requires Reaches(progs, schedule, s)
    ensures |schedule| <= StateRank(progs, Initial(progs))
  {
    var inv := (s: State<K>) => InRange(progs, s);
    var rank := (s: State<K>) => StateRank(progs, s);
    forall s: State<K>, p: nat | inv(s) && Stepper(progs)(s, p).Some?
      ensures inv(Stepper(progs)(s, p).value) && rank(Stepper(progs)(s, p).value) < rank(s)
    {
      StepLowersRank(progs, s, p);
    }
    RunIsBounded(Stepper(progs), inv, rank, Initial(progs), schedule);
  }

  // ---------- counting the posts a program family contains ----------

  lemma ProgramPosts<K>(prog: Program<K>, k: K)
    requires Post(k) in prog
    ensures Posts(prog, |prog|, k) > 0
  {
    var j :| 0 <= j < |prog| && prog[j] == Post(k);
    assert Posts(prog, j + 1, k) >= 1;
    PostsMonotone(prog, j + 1, |prog|, k);
  }

  lemma PostedAtLeast<K>(progs: seq<Program<K>>, k: K, lo: nat, hi: nat)
    requires lo <= hi <= |progs|
    requires forall p :: lo <= p < hi ==> Post(k) in progs[p]
    ensures Posted(progs, Lengths(progs), k, |progs|) >= hi - lo
  {
    var ends := Lengths(progs);
    forall p | lo <= p < hi ensures Posts(progs[p], ends[p], k) > 0 {
      ProgramPosts(progs[p], k);
    }
    PostedByAll(progs, ends, k, lo, hi, |progs|);
  }
}
