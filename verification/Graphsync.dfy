/**
 The graphsync stress test: one provider and any number of requestors go through one round per
 network shape, meeting at a barrier between rounds and at a last barrier before they shut down.
 */
module Graphsync {
  import opened Prelude
  import opened Runs
  import opened SyncPrograms

  type Cid = nat

  const UINT64: nat := 0x1_0000_0000_0000_0000

  datatype NetworkParams = NetworkParams(latency: int, bandwidth: nat)
  datatype LinkShape = LinkShape(latency: int, bandwidth: nat)

  /** The shape asked of the sidecar: bandwidth in bits per second, as a uint64. */
  function ShapeOf(np: NetworkParams): LinkShape {
    LinkShape(np.latency, (np.bandwidth * 8) % UINT64)
  }

  // ---------- the rounds' parameters ----------

  datatype ParsedConfig = Panicked | Parsed(params: seq<NetworkParams>)

  /** Entry k pairs bandwidth k / W with latency k % W, where W is the number of latencies. */
  ghost predicate Paired(params: seq<NetworkParams>, bandwidths: seq<nat>, latencies: seq<int>)
    requires |latencies| > 0
  {
    forall k :: 0 <= k < |params| ==>
      k / |latencies| < |bandwidths| &&
      params[k] == NetworkParams(latencies[k % |latencies|], bandwidths[k / |latencies|])
  }

  lemma {:induction false} SameRow(row: nat, column: nat, row': nat, column': nat, width: nat)
    requires column < width && column' < width && row * width + column == row' * width + column'
    ensures row == row' && column == column'
  {
    if row > 0 && row' > 0 {
      SameRow(row - 1, column, row' - 1, column', width);
    }
  }

  lemma RowAndColumn(row: nat, column: nat, width: nat)
    requires column < width
    ensures (row * width + column) / width == row && (row * width + column) % width == column
  {
    var k := row * width + column;
    SameRow(k / width, k % width, row, column, width);
  }

  lemma PairedOneMore(params: seq<NetworkParams>, bandwidths: seq<nat>, latencies: seq<int>, i: nat, j: nat)
    requires i < |bandwidths| && j < |latencies| && |params| == i * |latencies| + j
    requires Paired(params, bandwidths, latencies)
    ensures Paired(params + [NetworkParams(latencies[j], bandwidths[i])], bandwidths, latencies)
  {
    RowAndColumn(i, j, |latencies|);
  }

  method ParseLatencies(lats: seq<string>, parse: string -> Option<int>) returns (r: Option<seq<int>>)
    ensures r.None? <==> exists i :: 0 <= i < |lats| && parse(lats[i]).None?
    ensures r.Some? ==> |r.value| == |lats|
    ensures r.Some? ==> forall i :: 0 <= i < |lats| ==> parse(lats[i]) == Some(r.value[i])
  {
    var latencies := [];
    for i := 0 to |lats|
      invariant |latencies| == i
      invariant forall j :: 0 <= j < i ==> parse(lats[j]) == Some(latencies[j])
    {
      match parse(lats[i])
      case None => return None;
      case Some(d) => latencies := latencies + [d];
    }
    r := Some(latencies);
  }

  /** parse stands for time.ParseDuration; a latency it rejects is a panic. */
  method ParseNetworkConfig(bandwidths: seq<nat>, lats: seq<string>, parse: string -> Option<int>)
    returns (r: ParsedConfig)
    ensures r.Panicked? <==> exists i :: 0 <= i < |lats| && parse(lats[i]).None?
    ensures r.Parsed? ==> exists latencies: seq<int> ::
      && |latencies| == |lats| && (forall i :: 0 <= i < |lats| ==> parse(lats[i]) == Some(latencies[i]))
      && |r.params| == (|bandwidths| + 1) * (|lats| + 1)
      && Paired(r.params, [0] + bandwidths, [0] + latencies)
  {
    var parsed := ParseLatencies(lats, parse);
    if parsed.None? {
      return Panicked;
    }
    var bws, latencies := [0] + bandwidths, [0] + parsed.value;
    var width := |latencies|;
    var params := [];
    for i := 0 to |bws|
      invariant |params| == i * width
      invariant Paired(params, bws, latencies)
    {
      for j := 0 to width
        invariant |params| == i * width + j
        invariant Paired(params, bws, latencies)
      {
        PairedOneMore(params, bws, latencies, i, j);
        params := params + [NetworkParams(latencies[j], bws[i])];
      }
    }
    r := Parsed(params);
  }

  // ---------- the processes ----------

  datatype Key =
    | Next(round: nat) | CidTopic(round: nat) | NetConfigured(round: nat) | Done
    | Remove(round: nat) | Generate(round: nat) | Configure(round: nat) | Transfer(round: nat) | CloseHost

  /** files(r) are the roots of the random files of round r; nothing is assumed about them. */
  datatype Config = Config(params: seq<NetworkParams>, requestors: nat, files: nat -> seq<Cid>) {
    function Rounds(): nat { |params| }
    function Instances(): nat { requestors + 1 }
  }

  function ProviderRound(c: Config, r: nat): (prog: Program<Key>)
    ensures |prog| == 8
  {
    [Post(Next(r)), Await(Next(r), c.Instances()), Local(Remove(r)), Local(Generate(r)),
     Post(CidTopic(r)), Local(Configure(r)), Post(NetConfigured(r)), Await(NetConfigured(r), 1)]
  }

  function RequestorRound(c: Config, r: nat): (prog: Program<Key>)
    ensures |prog| == 6
  {
    [Post(Next(r)), Await(Next(r), c.Instances()), Local(Remove(r)),
     Await(CidTopic(r), 1), Await(NetConfigured(r), 1), Local(Transfer(r))]
  }

  /** The deferred calls, which run last in, first out. */
  function Teardown(c: Config): Program<Key> {
    [Post(Done), Await(Done, c.Instances()), Local(CloseHost)]
  }

  function Provider(c: Config): (prog: Program<Key>)
    ensures |prog| == 8 * c.Rounds() + 3
  {
    seq(8 * c.Rounds(), i requires 0 <= i => ProviderRound(c, i / 8)[i % 8]) + Teardown(c)
  }

  function Requestor(c: Config): (prog: Program<Key>)
    ensures |prog| == 6 * c.Rounds() + 3
  {
    seq(6 * c.Rounds(), i requires 0 <= i => RequestorRound(c, i / 6)[i % 6]) + Teardown(c)
  }

  /** Process 0 is the provider. */
  function Programs(c: Config): (progs: seq<Program<Key>>)
    ensures |progs| == c.Instances()
  {
    seq(c.Instances(), p => if p == 0 then Provider(c) else Requestor(c))
  }

  lemma ProviderAt(c: Config, r: nat, o: nat)
    requires r < c.Rounds() && o < 8
    ensures Provider(c)[8 * r + o] == ProviderRound(c, r)[o]
  {
    assert (8 * r + o) / 8 == r && (8 * r + o) % 8 == o;
  }

  lemma RequestorAt(c: Config, r: nat, o: nat)
    requires r < c.Rounds() && o < 6
    ensures Requestor(c)[6 * r + o] == RequestorRound(c, r)[o]
  {
    assert (6 * r + o) / 6 == r && (6 * r + o) % 6 == o;
  }

  lemma TeardownAt(c: Config, o: nat)
    requires o < 3
    ensures Provider(c)[8 * c.Rounds() + o] == Requestor(c)[6 * c.Rounds() + o] == Teardown(c)[o]
  {}

  /** Where the provider signals and publishes. */
  lemma ProviderPosts(c: Config, i: nat)
    requires i < |Provider(c)| && Provider(c)[i].Post?
    ensures match Provider(c)[i].key
      case Next(r) => i == 8 * r && r < c.Rounds()
      case CidTopic(r) => i == 8 * r + 4
      case NetConfigured(r) => i == 8 * r + 6
      case k => k == Done && i == 8 * c.Rounds()
  {
    assert i == 8 * (i / 8) + i % 8;
  }

  /** Where a requestor signals. */
  lemma RequestorPosts(c: Config, i: nat)
    requires i < |Requestor(c)| && Requestor(c)[i].Post?
    ensures match Requestor(c)[i].key
      case Next(r) => i == 6 * r && r < c.Rounds()
      case k => k == Done && i == 6 * c.Rounds()
  {
    assert i == 6 * (i / 6) + i % 6;
  }

  // ---------- progress ----------

  ghost function Rank(c: Config): Key -> nat {
    (k: Key) => match k
      case Next(r) => 3 * r
      case CidTopic(r) => 3 * r + 1
      case NetConfigured(r) => 3 * r + 2
      case _ => 3 * c.Rounds()
  }

  lemma ProviderRanks(c: Config, i: nat)
    requires i < |Provider(c)|
    ensures Provider(c)[i].Await? ==> Rank(c)(Provider(c)[i].key) <= 3 * (i / 8) + if i % 8 == 1 then 0 else 2
    ensures Provider(c)[i].Post? ==> 3 * (i / 8) <= Rank(c)(Provider(c)[i].key)
    ensures Provider(c)[i].Post? && i % 8 > 1 ==> 3 * (i / 8) < Rank(c)(Provider(c)[i].key)
    ensures Provider(c)[i].Await? ==> i % 8 == 1 || i % 8 == 7
  {
    if i < 8 * c.Rounds() {
      assert Provider(c)[i] == ProviderRound(c, i / 8)[i % 8];
    }
  }

  lemma ProviderIsOrdered(c: Config)
    ensures OrderedProgram(Provider(c), Rank(c))
  {
    var prog, rank := Provider(c), Rank(c);
    forall i, j | 0 <= i < j < |prog| && prog[i].Await? && prog[j].Post?
      ensures rank(prog[i].key) < rank(prog[j].key)
    {
      ProviderRanks(c, i);
      ProviderRanks(c, j);
      assert i / 8 < j / 8 || (i / 8 == j / 8 && i % 8 < j % 8);
    }
  }

  lemma RequestorIsOrdered(c: Config)
    ensures OrderedProgram(Requestor(c), Rank(c))
  {
    var prog, rank := Requestor(c), Rank(c);
    forall i, j | 0 <= i < j < |prog| && prog[i].Await? && prog[j].Post?
      ensures rank(prog[i].key) < rank(prog[j].key)
    {
      assert i / 6 <= j / 6;
    }
  }

  /** Every process posts Next(r) and Done once; the rest is the provider's. */
  lemma BarriersAreCovered(c: Config, r: nat)
    requires r < c.Rounds()
    ensures Posted(Programs(c), Lengths(Programs(c)), Next(r), c.Instances()) >= c.Instances()
    ensures Posted(Programs(c), Lengths(Programs(c)), CidTopic(r), c.Instances()) >= 1
    ensures Posted(Programs(c), Lengths(Programs(c)), NetConfigured(r), c.Instances()) >= 1
  {
    ProviderAt(c, r, 0);
    ProviderAt(c, r, 4);
    ProviderAt(c, r, 6);
    RequestorAt(c, r, 0);
    PostedAtLeast(Programs(c), Next(r), 0, c.Instances());
    PostedAtLeast(Programs(c), CidTopic(r), 0, 1);
    PostedAtLeast(Programs(c), NetConfigured(r), 0, 1);
  }

  lemma DoneIsCovered(c: Config)
    ensures Posted(Programs(c), Lengths(Programs(c)), Done, c.Instances()) >= c.Instances()
  {
    TeardownAt(c, 0);
    PostedAtLeast(Programs(c), Done, 0, c.Instances());
  }

  ghost predicate IsCovered(c: Config, x: Instr<Key>) {
    x.Await? ==> x.target <= Posted(Programs(c), Lengths(Programs(c)), x.key, c.Instances())
  }

  lemma RoundsAreCovered(c: Config, r: nat, o: nat)
    requires r < c.Rounds()
    ensures o < 8 ==> IsCovered(c, ProviderRound(c, r)[o])
    ensures o < 6 ==> IsCovered(c, RequestorRound(c, r)[o])
  {
    BarriersAreCovered(c, r);
  }

  lemma ProviderIsCovered(c: Config, i: nat)
    requires i < |Provider(c)|
    ensures IsCovered(c, Provider(c)[i])
  {
    DoneIsCovered(c);
    if i < 8 * c.Rounds() {
      assert Provider(c)[i] == ProviderRound(c, i / 8)[i % 8];
      RoundsAreCovered(c, i / 8, i % 8);
    }
  }

  lemma RequestorIsCovered(c: Config, i: nat)
    requires i < |Requestor(c)|
    ensures IsCovered(c, Requestor(c)[i])
  {
    DoneIsCovered(c);
    if i < 6 * c.Rounds() {
      assert Requestor(c)[i] == RequestorRound(c, i / 6)[i % 6];
      RoundsAreCovered(c, i / 6, i % 6);
    }
  }

  lemma RolesFit(c: Config)
    ensures Ordered(Programs(c), Rank(c)) && Covered(Programs(c))
  {
    ProviderIsOrdered(c);
    RequestorIsOrdered(c);
    forall p, x | 0 <= p < c.Instances() && x in Programs(c)[p] && x.Await?
      ensures x.target <= Posted(Programs(c), Lengths(Programs(c)), x.key, c.Instances())
    {
      var i :| 0 <= i < |Programs(c)[p]| && Programs(c)[p][i] == x;
      if p == 0 { ProviderIsCovered(c, i); } else { RequestorIsCovered(c, i); }
    }
  }

  /** Every interleaving of the rounds ends, and ends with everybody past the last barrier. */
  lemma RoundsComplete(c: Config, schedule: seq<nat>, s: State<Key>)
    requires Reaches(Programs(c), schedule, s)
    ensures |schedule| <= StateRank(Programs(c), Initial(Programs(c)))
    ensures Terminal(Stepper(Programs(c)), s) <==> Finished(Programs(c), s)
  {
    RolesFit(c);
    NoDeadlock(Programs(c), Rank(c), schedule, s);
    ScheduleIsBounded(Programs(c), schedule, s);
  }

  // ---------- the provider's node ----------

  /** What the provider has on hand: the CIDs of the round, the blocks stored, the link's shape. */
  datatype Node = Node(cids: seq<Cid>, store: set<Cid>, shape: LinkShape)

  const FRESH := Node([], {}, LinkShape(0, 0))

  /** The effect of one instruction of the provider on its node. */
  function Perform(c: Config, n: Node, x: Instr<Key>): Node {
    if !x.Local? then n
    else match x.key
      case Remove(_) => Node([], n.store - (set x | x in n.cids), n.shape)
      case Generate(r) => Node(c.files(r), n.store + (set x | x in c.files(r)), n.shape)
      case Configure(r) => if r < c.Rounds() then Node(n.cids, n.store, ShapeOf(c.params[r])) else n
      case _ => n
  }

  /** The node after the first n instructions of a program that finds it as start. */
  function NodeAfter(c: Config, start: Node, prog: Program<Key>, n: nat): Node
    requires n <= |prog|
  {
    if n == 0 then start else Perform(c, NodeAfter(c, start, prog, n - 1), prog[n - 1])
  }

  /** The node at the start of round r, and after the last one. */
  function RoundNode(c: Config, r: nat): Node
    requires r <= c.Rounds()
  {
    if r == 0 then FRESH else NodeAfter(c, RoundNode(c, r - 1), ProviderRound(c, r - 1), 8)
  }

  /** The node after the provider's first n instructions, which are its rounds and then the teardown. */
  function NodeAt(c: Config, n: nat): Node
    requires n <= |Provider(c)|
  {
    if n < 8 * c.Rounds() then NodeAfter(c, RoundNode(c, n / 8), ProviderRound(c, n / 8), n % 8)
    else NodeAfter(c, RoundNode(c, c.Rounds()), Teardown(c), n - 8 * c.Rounds())
  }

  /** Round by round or instruction by instruction, it is the same node. */
  lemma {:induction false} NodeNext(c: Config, n: nat)
    requires n < |Provider(c)|
    ensures NodeAt(c, 0) == FRESH && NodeAt(c, n + 1) == Perform(c, NodeAt(c, n), Provider(c)[n])
  {
    if n < 8 * c.Rounds() {
      var r, o := n / 8, n % 8;
      assert Provider(c)[n] == ProviderRound(c, r)[o];
      var start := RoundNode(c, r);
      assert NodeAfter(c, start, ProviderRound(c, r), o + 1)
        == Perform(c, NodeAfter(c, start, ProviderRound(c, r), o), ProviderRound(c, r)[o]);
      if o == 7 {
        assert (n + 1) / 8 == r + 1 && (n + 1) % 8 == 0;
      } else {
        assert (n + 1) / 8 == r && (n + 1) % 8 == o + 1;
      }
    }
  }

  /** The message of round r: the CIDs that the provider holds when it publishes. */
  function Published(c: Config, r: nat): seq<Cid>
    requires r < c.Rounds()
  {
    NodeAfter(c, RoundNode(c, r), ProviderRound(c, r), 4).cids
  }

  /** The node serves exactly what was published for round r. */
  ghost predicate Serves(c: Config, node: Node, r: nat)
    requires r < c.Rounds()
  {
    && node.shape == ShapeOf(c.params[r])
    && node.cids == Published(c, r) == c.files(r)
    && forall x :: x in node.store <==> x in Published(c, r)
  }

  /** A round changes the provider's node at three instructions and nowhere else. */
  lemma {:induction false} RoundMakes(c: Config, r: nat, start: Node, ready: Node, node: Node)
    requires r < c.Rounds()
    requires ready == Perform(c, Perform(c, start, Local(Remove(r))), Local(Generate(r)))
    requires node == Perform(c, ready, Local(Configure(r)))
    ensures var prog := ProviderRound(c, r);
      && NodeAfter(c, start, prog, 4) == ready
      && NodeAfter(c, start, prog, 6) == NodeAfter(c, start, prog, 7) == NodeAfter(c, start, prog, 8) == node
  {
    var prog := ProviderRound(c, r);
    assert NodeAfter(c, start, prog, 1) == start;
    assert NodeAfter(c, start, prog, 2) == start;
    assert NodeAfter(c, start, prog, 3) == Perform(c, start, Local(Remove(r)));
    assert NodeAfter(c, start, prog, 4) == ready;
    assert NodeAfter(c, start, prog, 5) == ready;
    assert NodeAfter(c, start, prog, 6) == node;
    assert NodeAfter(c, start, prog, 7) == node;
  }

  /** What the topic of a round delivers is what the provider holds when it publishes there. */
  lemma {:induction false} PublishedIsHeld(c: Config, r: nat)
    requires r < c.Rounds()
    ensures Provider(c)[8 * r + 4] == Post(CidTopic(r))
    ensures NodeAt(c, 8 * r + 4).cids == Published(c, r) == c.files(r)
  {
    ProviderAt(c, r, 4);
    var start := RoundNode(c, r);
    var ready := Perform(c, Perform(c, start, Local(Remove(r))), Local(Generate(r)));
    RoundMakes(c, r, start, ready, Perform(c, ready, Local(Configure(r))));
    assert (8 * r + 4) / 8 == r && (8 * r + 4) % 8 == 4;
  }

  /** Nothing is stored but what the list holds. */
  ghost predicate Tidy(node: Node) {
    forall x :: x in node.store <==> x in node.cids
  }

  /** From a tidy node, a round leaves one that serves it, with nothing of an earlier round in store. */
  lemma {:induction false} RoundServes(c: Config, r: nat, o: nat)
    requires r < c.Rounds() && Tidy(RoundNode(c, r)) && 6 <= o <= 8
    ensures Serves(c, NodeAfter(c, RoundNode(c, r), ProviderRound(c, r), o), r)
  {
    var start := RoundNode(c, r);
    var ready := Perform(c, Perform(c, start, Local(Remove(r))), Local(Generate(r)));
    var node := Perform(c, ready, Local(Configure(r)));
    RoundMakes(c, r, start, ready, node);
    assert NodeAfter(c, start, ProviderRound(c, r), o) == node;
  }

  /** A round starts with nothing in store but what the list still holds of the round before. */
  lemma {:induction false} RoundStartsTidy(c: Config, r: nat)
    requires r <= c.Rounds()
    ensures Tidy(RoundNode(c, r))
  {
    if r > 0 {
      RoundStartsTidy(c, r - 1);
      RoundServes(c, r - 1, 8);
    }
  }

  lemma {:induction false} WaitingChangesNothing(c: Config, start: Node, prog: Program<Key>, n: nat)
    requires n <= |prog| && n <= 2 && forall i :: 0 <= i < n ==> !prog[i].Local?
    ensures NodeAfter(c, start, prog, n) == start
  {
    if n == 2 { assert NodeAfter(c, start, prog, 1) == start; }
  }

  /** At the barrier after round r the node is still as the round left it. */
  lemma {:induction false} NodeAtBarrier(c: Config, r: nat, n: nat)
    requires r < c.Rounds() && 8 * r + 8 <= n <= 8 * r + 10 && n <= |Provider(c)|
    ensures NodeAt(c, n) == RoundNode(c, r + 1)
  {
    var o := n - 8 * (r + 1);
    if r + 1 < c.Rounds() {
      assert n / 8 == r + 1 && n % 8 == o;
      WaitingChangesNothing(c, RoundNode(c, r + 1), ProviderRound(c, r + 1), o);
    } else {
      WaitingChangesNothing(c, RoundNode(c, r + 1), Teardown(c), o);
    }
  }

  /** From configuring round r up to the next barrier, the node serves exactly what was published. */
  lemma {:induction false} NodeServesRound(c: Config, r: nat, n: nat)
    requires r < c.Rounds() && 8 * r + 6 <= n <= 8 * r + 10 && n <= |Provider(c)|
    ensures Serves(c, NodeAt(c, n), r)
  {
    RoundStartsTidy(c, r);
    if n < 8 * r + 8 {
      assert n / 8 == r && n % 8 == n - 8 * r;
      RoundServes(c, r, n % 8);
    } else {
      NodeAtBarrier(c, r, n);
      RoundServes(c, r, 8);
    }
  }

  class ProviderNode {
    var cids: seq<Cid>
    var store: set<Cid>
    var shape: LinkShape

    function View(): Node
      reads this
    {
      Node(cids, store, shape)
    }

    constructor ()
      ensures View() == FRESH
    {
      cids, store, shape := [], {}, LinkShape(0, 0);
    }

    method RemovePrevious(c: Config, r: nat)
      modifies this
      ensures View() == Perform(c, old(View()), Local(Remove(r)))
      ensures cids == [] && shape == old(shape)
      ensures forall x :: x in store <==> x in old(store) && x !in old(cids)
    {
      for i := 0 to |cids|
        invariant cids == old(cids) && shape == old(shape)
        invariant store == old(store) - (set x | x in cids[..i])
      {
        store := store - {cids[i]};
      }
      assert cids[..|cids|] == cids;
      cids := [];
    }

    method GenerateFiles(c: Config, r: nat)
      requires cids == []
      modifies this
      ensures View() == Perform(c, old(View()), Local(Generate(r)))
      ensures cids == c.files(r) && shape == old(shape)
      ensures forall x :: x in store <==> x in old(store) || x in c.files(r)
    {
      var files := c.files(r);
      var buffered := {};
      for i := 0 to |files|
        invariant store == old(store) && shape == old(shape)
        invariant cids == files[..i] && buffered == set x | x in files[..i]
      {
        buffered := buffered + {files[i]};
        cids := cids + [files[i]];
      }
      assert files[..|files|] == files;
      store := store + buffered;
    }

    method ConfigureNetwork(c: Config, r: nat)
      requires r < c.Rounds()
      modifies this
      ensures View() == Perform(c, old(View()), Local(Configure(r)))
      ensures cids == old(cids) && store == old(store)
      ensures shape.latency == c.params[r].latency
      ensures shape.bandwidth == c.params[r].bandwidth * 8 % 0x1_0000_0000_0000_0000
    {
      shape := ShapeOf(c.params[r]);
    }

    /** One turn of the provider's loop, without the waiting. */
    method RunRound(c: Config, r: nat) returns (published: seq<Cid>)
      requires r < c.Rounds() && View() == RoundNode(c, r)
      modifies this
      ensures View() == RoundNode(c, r + 1)
      ensures published == Published(c, r) == c.files(r) == cids
    {
      ghost var ready := Perform(c, Perform(c, View(), Local(Remove(r))), Local(Generate(r)));
      RoundMakes(c, r, View(), ready, Perform(c, ready, Local(Configure(r))));
      RemovePrevious(c, r);
      GenerateFiles(c, r);
      published := cids;
      ConfigureNetwork(c, r);
    }
  }

  // ---------- a requestor's node ----------

  /** What a requestor has on hand: the CIDs it was last given, and the blocks it stores. */
  datatype Fetcher = Fetcher(cids: seq<Cid>, store: set<Cid>)

  /** The effect of one instruction of a requestor on its node; the message of a round is what was published. */
  function Fetch(c: Config, f: Fetcher, x: Instr<Key>): Fetcher {
    match x
    case Await(CidTopic(r), _) => if r < c.Rounds() then Fetcher(Published(c, r), f.store) else f
    case Local(Remove(_)) => Fetcher(f.cids, f.store - (set x | x in f.cids))
    case Local(Transfer(_)) => Fetcher(f.cids, f.store + (set x | x in f.cids))
    case _ => f
  }

  /** The node after the first n instructions of a program that finds it as start. */
  function FetcherAfter(c: Config, start: Fetcher, prog: Program<Key>, n: nat): Fetcher
    requires n <= |prog|
  {
    if n == 0 then start else Fetch(c, FetcherAfter(c, start, prog, n - 1), prog[n - 1])
  }

  /** The node at the start of round r, and after the last one. */
  function RoundFetcher(c: Config, r: nat): Fetcher
    requires r <= c.Rounds()
  {
    if r == 0 then Fetcher([], {}) else FetcherAfter(c, RoundFetcher(c, r - 1), RequestorRound(c, r - 1), 6)
  }

  /** The node after a requestor's first n instructions, which are its rounds and then the teardown. */
  function FetcherAt(c: Config, n: nat): Fetcher
    requires n <= |Requestor(c)|
  {
    if n < 6 * c.Rounds() then FetcherAfter(c, RoundFetcher(c, n / 6), RequestorRound(c, n / 6), n % 6)
    else FetcherAfter(c, RoundFetcher(c, c.Rounds()), Teardown(c), n - 6 * c.Rounds())
  }

  lemma {:induction false} FetcherNext(c: Config, n: nat)
    requires n < |Requestor(c)|
    ensures FetcherAt(c, 0) == Fetcher([], {}) && FetcherAt(c, n + 1) == Fetch(c, FetcherAt(c, n), Requestor(c)[n])
  {
    if n < 6 * c.Rounds() {
      var r, o := n / 6, n % 6;
      assert Requestor(c)[n] == RequestorRound(c, r)[o];
      var start := RoundFetcher(c, r);
      assert FetcherAfter(c, start, RequestorRound(c, r), o + 1)
        == Fetch(c, FetcherAfter(c, start, RequestorRound(c, r), o), RequestorRound(c, r)[o]);
      if o == 5 {
        assert (n + 1) / 6 == r + 1 && (n + 1) % 6 == 0;
      } else {
        assert (n + 1) / 6 == r && (n + 1) % 6 == o + 1;
      }
    }
  }

  /** A requestor stores exactly the blocks of the CIDs it was last given. */
  ghost predicate HasFetched(f: Fetcher) {
    forall x :: x in f.store <==> x in f.cids
  }

  /** By the time of its requests a requestor has cleared its store and holds the CIDs of the round. */
  lemma {:induction false} FetchMakes(c: Config, r: nat, start: Fetcher, given: seq<Cid>)
    requires r < c.Rounds() && HasFetched(start) && given == Published(c, r)
    ensures FetcherAfter(c, start, RequestorRound(c, r), 5) == Fetcher(given, {})
    ensures FetcherAfter(c, start, RequestorRound(c, r), 6) == Fetcher(given, set x | x in given)
  {
    var prog := RequestorRound(c, r);
    assert FetcherAfter(c, start, prog, 1) == start;
    assert FetcherAfter(c, start, prog, 2) == start;
    assert FetcherAfter(c, start, prog, 3) == Fetcher(start.cids, {});
    assert FetcherAfter(c, start, prog, 4) == Fetcher(given, {});
  }

  /** Between rounds a requestor stores what it was given in the round before, and nothing else. */
  lemma {:induction false} FetcherStartsRound(c: Config, r: nat)
    requires r <= c.Rounds()
    ensures HasFetched(RoundFetcher(c, r))
    ensures r > 0 ==> RoundFetcher(c, r).cids == Published(c, r - 1)
  {
    if r > 0 {
      FetcherStartsRound(c, r - 1);
      FetchMakes(c, r - 1, RoundFetcher(c, r - 1), Published(c, r - 1));
    }
  }

  lemma {:induction false} FetcherRequests(c: Config, r: nat, n: nat)
    requires r < c.Rounds() && n == 6 * r + 5
    ensures FetcherAt(c, n) == Fetcher(Published(c, r), {})
  {
    FetcherStartsRound(c, r);
    FetchMakes(c, r, RoundFetcher(c, r), Published(c, r));
    assert n / 6 == r && n % 6 == 5;
  }

  class RequestorNode {
    var cids: seq<Cid>
    var store: set<Cid>

    constructor ()
      ensures cids == [] && store == {}
    {
      cids, store := [], {};
    }

    /** RemoveMany of the previous CIDs. */
    method RemovePrevious()
      modifies this
      ensures cids == old(cids) && forall x :: x in store <==> x in old(store) && x !in old(cids)
    {
      store := store - (set x | x in cids);
    }

    /** The requests of a round, each of which leaves its block in the store. */
    method RequestAll()
      modifies this
      ensures cids == old(cids) && forall x :: x in store <==> x in old(store) || x in cids
    {
      for i := 0 to |cids|
        invariant cids == old(cids)
        invariant forall x :: x in store <==> x in old(store) || x in cids[..i]
      {
        store := store + {cids[i]};
      }
      assert cids[..|cids|] == cids;
    }

    /** One turn of the requestor's loop, without the waiting; message is what the topic delivers. */
    method RunRound(c: Config, r: nat, message: seq<Cid>)
      requires r < c.Rounds() && Fetcher(cids, store) == RoundFetcher(c, r) && message == Published(c, r)
      modifies this
      ensures Fetcher(cids, store) == RoundFetcher(c, r + 1)
      ensures cids == message && forall x :: x in store <==> x in message
    {
      FetcherStartsRound(c, r);
      FetcherStartsRound(c, r + 1);
      RemovePrevious();
      cids := message;
      RequestAll();
    }
  }

  // ---------- safety ----------

  lemma NextHasOnePostEach(c: Config, r: nat)
    ensures OnlyPosters(Programs(c), Next(r), 0, c.Instances())
  {
    forall p, i | 0 <= p < c.Instances() && 0 <= i < |Programs(c)[p]| && Programs(c)[p][i] == Post(Next(r))
      ensures i == (if p == 0 then 8 else 6) * r
    {
      if p == 0 { ProviderPosts(c, i); } else { RequestorPosts(c, i); }
    }
  }

  lemma {:induction false} PostsRoundKey(c: Config, p: nat, i: nat, k: Key)
    requires p < c.Instances() && i < |Programs(c)[p]| && Programs(c)[p][i] == Post(k)
    requires k.CidTopic? || k.NetConfigured?
    ensures p == 0 && i == 8 * k.round + (if k.CidTopic? then 4 else 6) && k.round < c.Rounds()
  {
    if p == 0 { ProviderPosts(c, i); } else { RequestorPosts(c, i); }
  }

  /** The log of a topic or callback of round r holds the provider alone, once it has posted there. */
  lemma OnlyProviderPosts(c: Config, s: State<Key>, k: Key)
    requires Inv(Programs(c), s) && (k.CidTopic? || k.NetConfigured?)
    ensures Log(s, k) == [] || Log(s, k) == [0]
    ensures Log(s, k) == [0] <==> s.pcs[0] > 8 * k.round + (if k.CidTopic? then 4 else 6) && k.round < c.Rounds()
  {
    var progs := Programs(c);
    forall p: nat, i: nat | p < c.Instances() && i < |progs[p]| && progs[p][i] == Post(k)
      ensures p == 0 && i == 8 * k.round + (if k.CidTopic? then 4 else 6) && k.round < c.Rounds()
    {
      PostsRoundKey(c, p, i, k);
    }
    LogHasNoRepeats(progs, s, k, 0, 1);
    PosterIsPast(progs, s, k, 0);
    if k.round < c.Rounds() {
      ProviderAt(c, k.round, if k.CidTopic? then 4 else 6);
    }
  }

  lemma PosterIsInRound(c: Config, s: State<Key>, r: nat, q: nat)
    requires Inv(Programs(c), s) && q < c.Instances() && q in Log(s, Next(r))
    ensures s.pcs[q] > (if q == 0 then 8 else 6) * r
  {
    PosterIsPast(Programs(c), s, Next(r), q);
    var i :| 0 <= i < s.pcs[q] && Programs(c)[q][i] == Post(Next(r));
    if q == 0 { ProviderPosts(c, i); } else { RequestorPosts(c, i); }
  }

  /** The number of instructions of a round of process p. */
  function Width(p: nat): nat { if p == 0 then 8 else 6 }

  /** Past the barrier of round r, whoever is, every process has reached round r. */
  lemma {:induction false} BarrierMeansAll(c: Config, s: State<Key>, r: nat, p: nat, q: nat)
    requires Inv(Programs(c), s) && p < c.Instances() && q < c.Instances() && r < c.Rounds()
    requires s.pcs[p] > Width(p) * r + 1
    ensures s.pcs[q] > Width(q) * r
  {
    var progs := Programs(c);
    if p == 0 { ProviderAt(c, r, 1); } else { RequestorAt(c, r, 1); }
    assert progs[p][Width(p) * r + 1] == Await(Next(r), c.Instances());
    NextHasOnePostEach(c, r);
    FullLogHasAll(progs, s, Next(r), 0, c.Instances(), q);
    PosterIsInRound(c, s, r, q);
  }

  lemma {:induction false} DoneHasOnePostEach(c: Config)
    ensures OnlyPosters(Programs(c), Done, 0, c.Instances())
  {
    forall p, i | 0 <= p < c.Instances() && 0 <= i < |Programs(c)[p]| && Programs(c)[p][i] == Post(Done)
      ensures i == Width(p) * c.Rounds()
    {
      if p == 0 { ProviderPosts(c, i); } else { RequestorPosts(c, i); }
    }
  }

  /** Past the last barrier, whoever is, every process has gone through all its rounds. */
  lemma {:induction false} DoneMeansAll(c: Config, s: State<Key>, p: nat, q: nat)
    requires Inv(Programs(c), s) && p < c.Instances() && q < c.Instances()
    requires s.pcs[p] > Width(p) * c.Rounds() + 1
    ensures s.pcs[q] > Width(q) * c.Rounds()
  {
    var progs := Programs(c);
    TeardownAt(c, 1);
    assert progs[p][Width(p) * c.Rounds() + 1] == Await(Done, c.Instances());
    DoneHasOnePostEach(c);
    FullLogHasAll(progs, s, Done, 0, c.Instances(), q);
    PosterIsPast(progs, s, Done, q);
    var i :| 0 <= i < s.pcs[q] && progs[q][i] == Post(Done);
    if q == 0 { ProviderPosts(c, i); } else { RequestorPosts(c, i); }
  }

  /**
   Lockstep: nobody gets past the barrier of a round before everybody has finished the rounds before
   it, and nobody gets past the last barrier before everybody has finished all rounds.
   */
  lemma {:induction false} RoundsInStep(c: Config, schedule: seq<nat>, s: State<Key>, r: nat, p: nat, q: nat)
    requires Reaches(Programs(c), schedule, s) && p < c.Instances() && q < c.Instances() && r <= c.Rounds()
    ensures |s.pcs| == c.Instances()
    ensures s.pcs[p] > (if p == 0 then 8 else 6) * r + 1 ==> s.pcs[q] > (if q == 0 then 8 else 6) * r
  {
    ReachableInv(Programs(c), schedule, s);
    if s.pcs[p] > Width(p) * r + 1 {
      if r < c.Rounds() { BarrierMeansAll(c, s, r, p, q); } else { DoneMeansAll(c, s, p, q); }
    }
  }

  /** A requestor that transfers in round r holds the provider inside round r. */
  lemma TransferPinsProvider(c: Config, s: State<Key>, q: nat, r: nat)
    requires Inv(Programs(c), s) && 1 <= q < c.Instances() && r < c.Rounds()
    requires s.pcs[q] == 6 * r + 5
    ensures 8 * r + 7 <= s.pcs[0] <= 8 * r + 9
  {
    ProviderHasConfigured(c, s, q, r);
    if s.pcs[0] > 8 * r + 9 { ProviderHasNotMovedOn(c, s, q, r); }
  }

  lemma {:induction false} ProviderHasConfigured(c: Config, s: State<Key>, q: nat, r: nat)
    requires Inv(Programs(c), s) && 1 <= q < c.Instances() && r < c.Rounds() && s.pcs[q] == 6 * r + 5
    ensures 8 * r + 7 <= s.pcs[0]
  {
    RequestorAt(c, r, 4);
    assert Programs(c)[q][6 * r + 4] == Await(NetConfigured(r), 1);
    OnlyProviderPosts(c, s, NetConfigured(r));
  }

  lemma {:induction false} ProviderHasNotMovedOn(c: Config, s: State<Key>, q: nat, r: nat)
    requires Inv(Programs(c), s) && 1 <= q < c.Instances() && r < c.Rounds() && s.pcs[q] == 6 * r + 5
    ensures s.pcs[0] <= 8 * r + 9
  {
    if s.pcs[0] > 8 * r + 9 {
      if r + 1 < c.Rounds() {
        BarrierMeansAll(c, s, r + 1, 0, q);
      } else {
        DoneMeansAll(c, s, 0, q);
      }
    }
  }

  /**
   Round isolation: while a requestor transfers in round r, the provider's link has the shape of
   round r, the CIDs it requests are those published for round r, and the provider stores them all
   and nothing else.
   */
  lemma RoundIsolation(c: Config, schedule: seq<nat>, s: State<Key>, q: nat, r: nat)
    requires Reaches(Programs(c), schedule, s)
    requires 1 <= q < c.Instances() && r < c.Rounds()
    requires |s.pcs| == c.Instances() && s.pcs[q] < |Requestor(c)| && Requestor(c)[s.pcs[q]] == Local(Transfer(r))
    ensures s.pcs[0] <= |Provider(c)|
    ensures NodeAt(c, s.pcs[0]).shape.latency == c.params[r].latency
    ensures NodeAt(c, s.pcs[0]).shape.bandwidth == c.params[r].bandwidth * 8 % 0x1_0000_0000_0000_0000
    ensures Log(s, CidTopic(r)) == [0]
    ensures FetcherAt(c, s.pcs[q]) == Fetcher(c.files(r), {})
    ensures NodeAt(c, s.pcs[0]).cids == Published(c, r) == c.files(r)
    ensures forall x :: x in NodeAt(c, s.pcs[0]).store <==> x in c.files(r)
  {
    ReachableInv(Programs(c), schedule, s);
    ProviderWhileTransferring(c, s, q, r);
    FetcherRequests(c, r, s.pcs[q]);
  }

  lemma {:induction false} ProviderWhileTransferring(c: Config, s: State<Key>, q: nat, r: nat)
    requires Inv(Programs(c), s) && 1 <= q < c.Instances() && r < c.Rounds() && s.pcs[q] == 6 * r + 5
    ensures s.pcs[0] <= |Provider(c)| && Serves(c, NodeAt(c, s.pcs[0]), r)
    ensures Log(s, CidTopic(r)) == [0]
  {
    TransferPinsProvider(c, s, q, r);
    OnlyProviderPosts(c, s, CidTopic(r));
    NodeServesRound(c, r, s.pcs[0]);
  }

  /** The provider gets to closing its host only when every requestor has finished its last round. */
  lemma HostOutlivesTransfers(c: Config, schedule: seq<nat>, s: State<Key>, q: nat)
    requires Reaches(Programs(c), schedule, s) && q < c.Instances()
    requires s.pcs != [] && s.pcs[0] > 8 * c.Rounds() + 1
    ensures |s.pcs| == c.Instances() && s.pcs[q] > (if q == 0 then 8 else 6) * c.Rounds()
  {
    ReachableInv(Programs(c), schedule, s);
    DoneMeansAll(c, s, 0, q);
  }
}
