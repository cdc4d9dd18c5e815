/**
 The handshake that brings up a test network: drand nodes agree on a chain, miners and clients
 publish balances, miners publish preseals, the bootstrapper publishes the genesis block, everybody
 meets at the ready barrier.  Each role is the sequence of its sync-service calls.
 */
module Bootstrap {
  import opened Runs
  import opened SyncPrograms

  datatype Key =
    | DrandAddrs | DrandStart | DkgStart | GossipAddrs | DrandConfig
    | Balances | PickSeqNum | Preseals | GenesisBlock | ClientsAddrs | MinersAddrs | Ready

  /** Instance counts, and whether the beacon is a local drand group with a gossip relay. */
  datatype Config = Config(clients: nat, miners: nat, drands: nat, localDrand: bool, gossip: bool) {
    function Instances(): nat { 1 + miners + clients + drands }
  }

  // ---------- the roles ----------

  /** GetRandomBeaconOpts: a local drand group announces its configuration once. */
  function BeaconOpts(c: Config): Program<Key> {
    if c.localDrand then [Await(DrandConfig, 1)] else []
  }

  function SignalAndWait(k: Key, n: nat): Program<Key> {
    [Post(k), Await(k, n)]
  }

  function Meet(c: Config): Program<Key> {
    SignalAndWait(Ready, c.Instances())
  }

  function PrepareBootstrapper(c: Config): Program<Key> {
    BootstrapperCollects(c) + ([Post(GenesisBlock)] + Meet(c))
  }

  function BootstrapperCollects(c: Config): Program<Key> {
    BeaconOpts(c) + Reads(Balances, c.clients + c.miners) + Reads(Preseals, c.miners)
  }

  function PrepareMiner(c: Config): Program<Key> {
    BeaconOpts(c) + MinerEnrols(c) + MinerAnnounces() + Meet(c)
  }

  function MinerEnrols(c: Config): Program<Key> {
    [Post(Balances)] + SignalAndWait(PickSeqNum, c.miners) + [Post(Preseals)]
  }

  /** The dial loop after the announcement is Local: DialLoopNeverWaits shows it finds itself. */
  function MinerAnnounces(): Program<Key> {
    [Await(GenesisBlock, 1)] + [Post(MinersAddrs)] + [Local(MinersAddrs)]
  }

  function PrepareClient(c: Config): Program<Key> {
    BeaconOpts(c) + ClientEnrols() + Meet(c) + Reads(MinersAddrs, c.miners)
  }

  function ClientEnrols(): Program<Key> {
    [Post(Balances)] + [Await(GenesisBlock, 1)] + [Post(ClientsAddrs)]
  }

  function PrepareDrandInstance(c: Config, leader: bool): Program<Key> {
    DrandCeremony(c) + DrandGossip(c) + DrandPublishes(leader) + Meet(c)
  }

  function DrandCeremony(c: Config): Program<Key> {
    [Post(DrandAddrs)] + Reads(DrandAddrs, c.drands) + DrandStarts(c)
  }

  function DrandStarts(c: Config): Program<Key> {
    SignalAndWait(DrandStart, c.drands) + [Local(DrandStart)]
      + (SignalAndWait(DkgStart, c.drands) + [Local(DkgStart)])
  }

  function DrandGossip(c: Config): Program<Key> {
    if c.gossip then [Post(GossipAddrs)] + Reads(GossipAddrs, c.drands) else []
  }

  function DrandPublishes(leader: bool): Program<Key> {
    if leader then [Post(DrandConfig)] else []
  }

  /** Process 0 is the bootstrapper, then come the miners, the clients and the drand nodes. */
  function RoleProgram(c: Config, p: nat): Program<Key> {
    if p == 0 then PrepareBootstrapper(c)
    else if p < 1 + c.miners then PrepareMiner(c)
    else if p < 1 + c.miners + c.clients then PrepareClient(c)
    else PrepareDrandInstance(c, p == 1 + c.miners + c.clients)
  }

  function Programs(c: Config): (progs: seq<Program<Key>>)
    ensures |progs| == c.Instances()
  {
    seq(c.Instances(), p requires 0 <= p => RoleProgram(c, p))
  }

  predicate IsMiner(c: Config, p: nat) { 1 <= p < 1 + c.miners }

  predicate IsClient(c: Config, p: nat) { 1 + c.miners <= p < 1 + c.miners + c.clients }

  predicate IsDrand(c: Config, p: nat) { 1 + c.miners + c.clients <= p < c.Instances() }

  // ---------- progress ----------

  function Rank(k: Key): nat {
    match k
    case DrandAddrs => 0
    case DrandStart => 1
    case DkgStart => 2
    case GossipAddrs => 3
    case DrandConfig => 4
    case Balances => 5
    case PickSeqNum => 6
    case Preseals => 7
    case GenesisBlock => 8
    case ClientsAddrs => 9
    case MinersAddrs => 9
    case Ready => 10
  }

  /** The processes [lo, hi) that post k. */
  function Posters(c: Config, k: Key): (r: (nat, nat))
    ensures r.0 <= r.1 <= c.Instances()
  {
    var clients, drands, all := 1 + c.miners, 1 + c.miners + c.clients, c.Instances();
    match k
    case Balances => (1, drands)
    case PickSeqNum => (1, clients)
    case Preseals => (1, clients)
    case MinersAddrs => (1, clients)
    case ClientsAddrs => (clients, drands)
    case GenesisBlock => (0, 1)
    case DrandConfig => (drands, if c.drands > 0 then drands + 1 else drands)
    case Ready => (0, all)
    case DrandAddrs => (drands, all)
    case DrandStart => (drands, all)
    case DkgStart => (drands, all)
    case GossipAddrs => (drands, if c.gossip then all else drands)
  }

  lemma PostersPost(c: Config, k: Key)
    ensures Posted(Programs(c), Lengths(Programs(c)), k, c.Instances()) >= Posters(c, k).1 - Posters(c, k).0
  {
    PostedAtLeast(Programs(c), k, Posters(c, k).0, Posters(c, k).1);
  }

  /**
   A stretch of process p's role: its posts rank in [lo, hi), differ from one another and are p's to
   make; its waits rank below hi, below every later post, and ask for no more posts than there are.
   */
  ghost predicate Phase(c: Config, p: nat, prog: Program<Key>, lo: nat, hi: nat) {
    && OrderedProgram(prog, Rank)
    && (forall i, j :: 0 <= i < j < |prog| && prog[i].Post? && prog[j].Post? ==> prog[i].key != prog[j].key)
    && (forall x :: x in prog && x.Post? ==> lo <= Rank(x.key) < hi && Posters(c, x.key).0 <= p < Posters(c, x.key).1)
    && (forall x :: x in prog && x.Await? ==> Rank(x.key) < hi && x.target <= Posters(c, x.key).1 - Posters(c, x.key).0)
  }

  lemma JoinPhases(c: Config, p: nat, a: Program<Key>, b: Program<Key>, lo: nat, mid: nat, hi: nat)
    requires lo <= mid <= hi && Phase(c, p, a, lo, mid) && Phase(c, p, b, mid, hi)
    ensures Phase(c, p, a + b, lo, hi)
  {
    OrderedConcat(a, b, Rank);
    forall i, j | 0 <= i < j < |a + b| && (a + b)[i].Post? && (a + b)[j].Post?
      ensures (a + b)[i].key != (a + b)[j].key
    {
      if i < |a| <= j {
        assert a[i] in a && b[j - |a|] in b;
      }
    }
  }

  lemma PostPhase(c: Config, p: nat, k: Key)
    requires Posters(c, k).0 <= p < Posters(c, k).1
    ensures Phase(c, p, [Post(k)], Rank(k), Rank(k) + 1)
  {}

  lemma WaitPhase(c: Config, p: nat, k: Key, n: nat, lo: nat, hi: nat)
    requires Rank(k) < hi && n <= Posters(c, k).1 - Posters(c, k).0
    ensures Phase(c, p, [Await(k, n)], lo, hi)
  {}

  lemma LocalPhase(c: Config, p: nat, k: Key, lo: nat, hi: nat)
    ensures Phase(c, p, [Local(k)], lo, hi)
  {}

  lemma BarrierPhase(c: Config, p: nat, k: Key, n: nat)
    requires Posters(c, k).0 <= p < Posters(c, k).1 && n <= Posters(c, k).1 - Posters(c, k).0
    ensures Phase(c, p, SignalAndWait(k, n), Rank(k), Rank(k) + 1)
  {
    PostPhase(c, p, k);
    WaitPhase(c, p, k, n, Rank(k) + 1, Rank(k) + 1);
    JoinPhases(c, p, [Post(k)], [Await(k, n)], Rank(k), Rank(k) + 1, Rank(k) + 1);
    assert SignalAndWait(k, n) == [Post(k)] + [Await(k, n)];
  }

  lemma BeaconPhase(c: Config, p: nat)
    requires c.localDrand ==> c.drands > 0
    ensures Phase(c, p, BeaconOpts(c), 0, 5)
  {
    if c.localDrand { WaitPhase(c, p, DrandConfig, 1, 0, 5); }
  }

  lemma MinerEnrolsPhase(c: Config, p: nat)
    requires IsMiner(c, p)
    ensures Phase(c, p, MinerEnrols(c), 5, 8)
  {
    var numbers := SignalAndWait(PickSeqNum, c.miners);
    PostPhase(c, p, Balances);
    BarrierPhase(c, p, PickSeqNum, c.miners);
    JoinPhases(c, p, [Post(Balances)], numbers, 5, 6, 7);
    PostPhase(c, p, Preseals);
    JoinPhases(c, p, [Post(Balances)] + numbers, [Post(Preseals)], 5, 7, 8);
  }

  lemma MinerAnnouncesPhase(c: Config, p: nat)
    requires IsMiner(c, p)
    ensures Phase(c, p, MinerAnnounces(), 8, 10)
  {
    WaitPhase(c, p, GenesisBlock, 1, 8, 9);
    PostPhase(c, p, MinersAddrs);
    JoinPhases(c, p, [Await(GenesisBlock, 1)], [Post(MinersAddrs)], 8, 9, 10);
    LocalPhase(c, p, MinersAddrs, 10, 10);
    JoinPhases(c, p, [Await(GenesisBlock, 1)] + [Post(MinersAddrs)], [Local(MinersAddrs)], 8, 10, 10);
  }

  lemma ClientEnrolsPhase(c: Config, p: nat)
    requires IsClient(c, p)
    ensures Phase(c, p, ClientEnrols(), 5, 10)
  {
    PostPhase(c, p, Balances);
    WaitPhase(c, p, GenesisBlock, 1, 6, 9);
    JoinPhases(c, p, [Post(Balances)], [Await(GenesisBlock, 1)], 5, 6, 9);
    PostPhase(c, p, ClientsAddrs);
    JoinPhases(c, p, [Post(Balances)] + [Await(GenesisBlock, 1)], [Post(ClientsAddrs)], 5, 9, 10);
  }

  lemma DrandBarrierPhase(c: Config, p: nat, k: Key)
    requires IsDrand(c, p) && (k == DrandStart || k == DkgStart)
    ensures Phase(c, p, SignalAndWait(k, c.drands) + [Local(k)], Rank(k), Rank(k) + 1)
  {
    BarrierPhase(c, p, k, c.drands);
    LocalPhase(c, p, k, Rank(k) + 1, Rank(k) + 1);
    JoinPhases(c, p, SignalAndWait(k, c.drands), [Local(k)], Rank(k), Rank(k) + 1, Rank(k) + 1);
  }

  lemma DrandStartsPhase(c: Config, p: nat)
    requires IsDrand(c, p)
    ensures Phase(c, p, DrandStarts(c), 1, 3)
  {
    DrandBarrierPhase(c, p, DrandStart);
    DrandBarrierPhase(c, p, DkgStart);
    JoinPhases(c, p,
      SignalAndWait(DrandStart, c.drands) + [Local(DrandStart)],
      SignalAndWait(DkgStart, c.drands) + [Local(DkgStart)], 1, 2, 3);
  }

  lemma MeetPhase(c: Config, p: nat)
    requires p < c.Instances()
    ensures Phase(c, p, Meet(c), 10, 11)
  {
    BarrierPhase(c, p, Ready, c.Instances());
  }

  lemma ReadsPhase(c: Config, p: nat, k: Key, n: nat, lo: nat, hi: nat)
    requires Rank(k) < hi && n <= Posters(c, k).1 - Posters(c, k).0
    ensures Phase(c, p, Reads(k, n), lo, hi)
  {
    var prog := Reads(k, n);
    forall i | 0 <= i < |prog| ensures prog[i].Await? {
      assert prog[i] in prog;
    }
  }

  lemma BalancesPhase(c: Config)
    requires c.localDrand ==> c.drands > 0
    ensures Phase(c, 0, BeaconOpts(c) + Reads(Balances, c.clients + c.miners), 0, 6)
  {
    BeaconPhase(c, 0);
    ReadsPhase(c, 0, Balances, c.clients + c.miners, 5, 6);
    JoinPhases(c, 0, BeaconOpts(c), Reads(Balances, c.clients + c.miners), 0, 5, 6);
  }

  lemma BootstrapperCollectsPhase(c: Config)
    requires c.localDrand ==> c.drands > 0
    ensures Phase(c, 0, BootstrapperCollects(c), 0, 8)
  {
    BalancesPhase(c);
    ReadsPhase(c, 0, Preseals, c.miners, 6, 8);
    JoinPhases(c, 0, BeaconOpts(c) + Reads(Balances, c.clients + c.miners), Reads(Preseals, c.miners), 0, 6, 8);
  }

  lemma BootstrapperPhases(c: Config)
    requires c.localDrand ==> c.drands > 0
    ensures Phase(c, 0, PrepareBootstrapper(c), 0, 11)
  {
    BootstrapperCollectsPhase(c);
    PostPhase(c, 0, GenesisBlock);
    MeetPhase(c, 0);
    JoinPhases(c, 0, [Post(GenesisBlock)], Meet(c), 8, 10, 11);
    JoinPhases(c, 0, BootstrapperCollects(c), [Post(GenesisBlock)] + Meet(c), 0, 8, 11);
  }

  lemma MinerPhases(c: Config, p: nat)
    requires (c.localDrand ==> c.drands > 0) && IsMiner(c, p)
    ensures Phase(c, p, PrepareMiner(c), 0, 11)
  {
    BeaconPhase(c, p);
    MinerEnrolsPhase(c, p);
    MinerAnnouncesPhase(c, p);
    MeetPhase(c, p);
    JoinPhases(c, p, BeaconOpts(c), MinerEnrols(c), 0, 5, 8);
    JoinPhases(c, p, BeaconOpts(c) + MinerEnrols(c), MinerAnnounces(), 0, 8, 10);
    JoinPhases(c, p, BeaconOpts(c) + MinerEnrols(c) + MinerAnnounces(), Meet(c), 0, 10, 11);
  }

  lemma ClientPhases(c: Config, p: nat)
    requires (c.localDrand ==> c.drands > 0) && IsClient(c, p)
    ensures Phase(c, p, PrepareClient(c), 0, 11)
  {
    BeaconPhase(c, p);
    ClientEnrolsPhase(c, p);
    MeetPhase(c, p);
    ReadsPhase(c, p, MinersAddrs, c.miners, 11, 11);
    JoinPhases(c, p, BeaconOpts(c), ClientEnrols(), 0, 5, 10);
    JoinPhases(c, p, BeaconOpts(c) + ClientEnrols(), Meet(c), 0, 10, 11);
    JoinPhases(c, p, BeaconOpts(c) + ClientEnrols() + Meet(c), Reads(MinersAddrs, c.miners), 0, 11, 11);
  }

  lemma DrandCeremonyPhase(c: Config, p: nat)
    requires IsDrand(c, p)
    ensures Phase(c, p, DrandCeremony(c), 0, 3)
  {
    PostPhase(c, p, DrandAddrs);
    ReadsPhase(c, p, DrandAddrs, c.drands, 1, 1);
    JoinPhases(c, p, [Post(DrandAddrs)], Reads(DrandAddrs, c.drands), 0, 1, 1);
    DrandStartsPhase(c, p);
    JoinPhases(c, p, [Post(DrandAddrs)] + Reads(DrandAddrs, c.drands), DrandStarts(c), 0, 1, 3);
  }

  lemma DrandGossipPhase(c: Config, p: nat)
    requires IsDrand(c, p)
    ensures Phase(c, p, DrandGossip(c), 3, 4)
  {
    if c.gossip {
      PostPhase(c, p, GossipAddrs);
      ReadsPhase(c, p, GossipAddrs, c.drands, 4, 4);
      JoinPhases(c, p, [Post(GossipAddrs)], Reads(GossipAddrs, c.drands), 3, 4, 4);
    }
  }

  lemma DrandPublishesPhase(c: Config, p: nat)
    requires IsDrand(c, p)
    ensures Phase(c, p, DrandPublishes(p == 1 + c.miners + c.clients), 4, 5)
  {}

  lemma DrandPhases(c: Config, p: nat)
    requires IsDrand(c, p)
    ensures Phase(c, p, PrepareDrandInstance(c, p == 1 + c.miners + c.clients), 0, 11)
  {
    var publishes := DrandPublishes(p == 1 + c.miners + c.clients);
    DrandCeremonyPhase(c, p);
    DrandGossipPhase(c, p);
    DrandPublishesPhase(c, p);
    MeetPhase(c, p);
    JoinPhases(c, p, DrandCeremony(c), DrandGossip(c), 0, 3, 4);
    JoinPhases(c, p, DrandCeremony(c) + DrandGossip(c), publishes, 0, 4, 5);
    JoinPhases(c, p, DrandCeremony(c) + DrandGossip(c) + publishes, Meet(c), 0, 10, 11);
  }

  lemma RolePhases(c: Config, p: nat)
    requires (c.localDrand ==> c.drands > 0) && p < c.Instances()
    ensures Phase(c, p, Programs(c)[p], 0, 11)
  {
    if p == 0 {
      BootstrapperPhases(c);
    } else if IsMiner(c, p) {
      MinerPhases(c, p);
    } else if IsClient(c, p) {
      ClientPhases(c, p);
    } else {
      DrandPhases(c, p);
    }
  }

  lemma RolesFit(c: Config)
    requires c.localDrand ==> c.drands > 0
    ensures Ordered(Programs(c), Rank) && Covered(Programs(c))
  {
    forall p, x | 0 <= p < c.Instances() && x in Programs(c)[p] && x.Await?
      ensures x.target <= Posted(Programs(c), Lengths(Programs(c)), x.key, c.Instances())
    {
      RolePhases(c, p);
      PostersPost(c, x.key);
    }
    forall p | 0 <= p < c.Instances() ensures OrderedProgram(Programs(c)[p], Rank) {
      RolePhases(c, p);
    }
  }

  /** Posters names every process that posts k, and each of them posts it once. */
  lemma {:induction false} PostersAreExact(c: Config, k: Key)
    requires c.localDrand ==> c.drands > 0
    ensures OnlyPosters(Programs(c), k, Posters(c, k).0, Posters(c, k).1)
  {
    forall p | 0 <= p < c.Instances() ensures PostsAtMostOnce(Programs(c)[p], k) {
      RolePhases(c, p);
    }
    forall p, j | 0 <= p < c.Instances() && !(Posters(c, k).0 <= p < Posters(c, k).1) && 0 <= j < |Programs(c)[p]|
      ensures Programs(c)[p][j] != Post(k)
    {
      RolePhases(c, p);
      assert Programs(c)[p][j] in Programs(c)[p];
    }
  }

  /**
   The handshake ends, and ends with everybody ready, in every interleaving: no schedule outlasts
   the roles' instructions, and whenever no process can move, all have finished.
   */
  lemma HandshakeCompletes(c: Config, schedule: seq<nat>, s: State<Key>)
    requires c.localDrand ==> c.drands > 0
    requires Reaches(Programs(c), schedule, s)
    ensures |schedule| <= StateRank(Programs(c), Initial(Programs(c)))
    ensures Terminal(Stepper(Programs(c)), s) <==> Finished(Programs(c), s)
  {
    RolesFit(c);
    NoDeadlock(Programs(c), Rank, schedule, s);
    ScheduleIsBounded(Programs(c), schedule, s);
  }

  /** Without a drand node to announce it, a local-drand network does not start at all. */
  lemma NoDrandNoHandshake(c: Config)
    requires c.localDrand && c.drands == 0
    ensures Terminal(Stepper(Programs(c)), Initial(Programs(c))) && !Finished(Programs(c), Initial(Programs(c)))
  {
    var s := Initial(Programs(c));
    forall p: nat ensures Stepper(Programs(c))(s, p).None? {
      if p < c.Instances() {
        assert Programs(c)[p][0] == Await(DrandConfig, 1);
      }
    }
    assert s.pcs[0] == 0 && |Programs(c)[0]| > 0;
  }

  /** The handshake can only end with everybody ready exactly when a local beacon has a drand node. */
  lemma HandshakeCompletesIff(c: Config)
    ensures (c.localDrand ==> c.drands > 0) <==>
      forall schedule, s :: Reaches(Programs(c), schedule, s) && Terminal(Stepper(Programs(c)), s) ==>
        Finished(Programs(c), s)
  {
    if c.localDrand ==> c.drands > 0 {
      forall schedule, s | Reaches(Programs(c), schedule, s) && Terminal(Stepper(Programs(c)), s)
        ensures Finished(Programs(c), s)
      {
        HandshakeCompletes(c, schedule, s);
      }
    } else {
      NoDrandNoHandshake(c);
      assert Reaches(Programs(c), [], Initial(Programs(c)));
    }
  }

  // ---------- safety ----------

  ghost predicate NoRepeats(log: seq<nat>) {
    forall i, j :: 0 <= i < j < |log| ==> log[i] != log[j]
  }

  lemma LogIsRoster(c: Config, s: State<Key>, k: Key)
    requires (c.localDrand ==> c.drands > 0) && Inv(Programs(c), s)
    ensures NoRepeats(Log(s, k)) && |Log(s, k)| <= Posters(c, k).1 - Posters(c, k).0
  {
    PostersAreExact(c, k);
    LogHasNoRepeats(Programs(c), s, k, Posters(c, k).0, Posters(c, k).1);
  }

  lemma MemberIsPoster(c: Config, s: State<Key>, k: Key, p: nat)
    requires (c.localDrand ==> c.drands > 0) && Inv(Programs(c), s) && p in Log(s, k)
    ensures Posters(c, k).0 <= p < Posters(c, k).1
  {
    PostersAreExact(c, k);
    LogHasNoRepeats(Programs(c), s, k, Posters(c, k).0, Posters(c, k).1);
  }

  /** When as many posts of k are in as there are posters, everyone's is. */
  lemma AllPosted(c: Config, s: State<Key>, k: Key)
    requires (c.localDrand ==> c.drands > 0) && Inv(Programs(c), s)
    requires Posters(c, k).1 - Posters(c, k).0 <= |Log(s, k)|
    ensures |Log(s, k)| == Posters(c, k).1 - Posters(c, k).0
    ensures forall p: nat :: Posters(c, k).0 <= p < Posters(c, k).1 ==> p in Log(s, k)
  {
    PostersAreExact(c, k);
    LogHasNoRepeats(Programs(c), s, k, Posters(c, k).0, Posters(c, k).1);
    forall p: nat | Posters(c, k).0 <= p < Posters(c, k).1 ensures p in Log(s, k) {
      FullLogHasAll(Programs(c), s, k, Posters(c, k).0, Posters(c, k).1, p);
    }
  }

  lemma EverybodyPosted(c: Config, s: State<Key>, k: Key)
    requires (c.localDrand ==> c.drands > 0) && Inv(Programs(c), s)
    requires forall p: nat :: Posters(c, k).0 <= p < Posters(c, k).1 ==> p in Log(s, k)
    ensures |Log(s, k)| == Posters(c, k).1 - Posters(c, k).0
  {
    PostersAreExact(c, k);
    AllMeansFull(Programs(c), s, k, Posters(c, k).0, Posters(c, k).1);
  }

  lemma GenesisMeansCollected(c: Config, s: State<Key>)
    requires (c.localDrand ==> c.drands > 0) && Inv(Programs(c), s) && Log(s, GenesisBlock) != []
    ensures c.clients + c.miners <= |Log(s, Balances)| && c.miners <= |Log(s, Preseals)|
  {
    MemberIsPoster(c, s, GenesisBlock, Log(s, GenesisBlock)[0]);
    BootstrapperHasCollected(c, s);
  }

  lemma BootstrapperHasCollected(c: Config, s: State<Key>)
    requires Inv(Programs(c), s) && 0 in Log(s, GenesisBlock)
    ensures c.clients + c.miners <= |Log(s, Balances)| && c.miners <= |Log(s, Preseals)|
  {
    CollectingOnlyWaits(c);
    PostedAfter(Programs(c), s, 0, GenesisBlock, BootstrapperCollects(c), [Post(GenesisBlock)] + Meet(c));
  }

  lemma CollectingOnlyWaits(c: Config)
    ensures forall x :: x in BootstrapperCollects(c) ==> x.Await?
    ensures c.clients + c.miners > 0 ==> Await(Balances, c.clients + c.miners) in BootstrapperCollects(c)
    ensures c.miners > 0 ==> Await(Preseals, c.miners) in BootstrapperCollects(c)
  {}

  lemma PresealMeansNumber(c: Config, s: State<Key>, p: nat)
    requires Inv(Programs(c), s) && IsMiner(c, p) && p in Log(s, Preseals)
    ensures p in Log(s, PickSeqNum)
  {
    var before := BeaconOpts(c) + ([Post(Balances)] + SignalAndWait(PickSeqNum, c.miners));
    var after := [Post(Preseals)] + MinerAnnounces() + Meet(c);
    assert PrepareMiner(c) == before + after;
    PostedAfter(Programs(c), s, p, Preseals, before, after);
    assert Post(PickSeqNum) in before;
  }

  /** The genesis block is out only once every balance and every preseal is in. */
  lemma GenesisComesAfterEverybody(c: Config, schedule: seq<nat>, s: State<Key>)
    requires c.localDrand ==> c.drands > 0
    requires Reaches(Programs(c), schedule, s) && Log(s, GenesisBlock) != []
    ensures |Log(s, Balances)| == c.clients + c.miners
    ensures forall p: nat :: IsMiner(c, p) || IsClient(c, p) ==> p in Log(s, Balances)
    ensures |Log(s, Preseals)| == |Log(s, PickSeqNum)| == c.miners
    ensures forall p: nat :: IsMiner(c, p) ==> p in Log(s, Preseals) && p in Log(s, PickSeqNum)
  {
    ReachableInv(Programs(c), schedule, s);
    GenesisMeansCollected(c, s);
    AllPosted(c, s, Balances);
    AllPosted(c, s, Preseals);
    PresealsMeanNumbers(c, s);
  }

  lemma PresealsMeanNumbers(c: Config, s: State<Key>)
    requires (c.localDrand ==> c.drands > 0) && Inv(Programs(c), s)
    requires forall p: nat :: IsMiner(c, p) ==> p in Log(s, Preseals)
    ensures |Log(s, PickSeqNum)| == c.miners
    ensures forall p: nat :: IsMiner(c, p) ==> p in Log(s, PickSeqNum)
  {
    forall p: nat | IsMiner(c, p) ensures p in Log(s, PickSeqNum) {
      PresealMeansNumber(c, s, p);
    }
    EverybodyPosted(c, s, PickSeqNum);
  }

  lemma ReadyMeansPublished(c: Config, s: State<Key>, p: nat)
    requires Inv(Programs(c), s) && IsMiner(c, p) && p in Log(s, Ready)
    ensures p in Log(s, MinersAddrs)
  {
    var before := BeaconOpts(c) + MinerEnrols(c) + MinerAnnounces();
    PostedAfter(Programs(c), s, p, Ready, before, Meet(c));
    assert Post(MinersAddrs) in before;
  }

  /** Past the ready barrier every miner's addresses are published. */
  lemma ReadyMeansAddressed(c: Config, s: State<Key>)
    requires (c.localDrand ==> c.drands > 0) && Inv(Programs(c), s)
    requires c.Instances() <= |Log(s, Ready)|
    ensures |Log(s, MinersAddrs)| == c.miners
    ensures forall p: nat :: IsMiner(c, p) ==> p in Log(s, MinersAddrs)
  {
    AllPosted(c, s, Ready);
    forall p: nat | IsMiner(c, p) ensures p in Log(s, MinersAddrs) {
      ReadyMeansPublished(c, s, p);
    }
    EverybodyPosted(c, s, MinersAddrs);
  }

  /** A client that collects the miners' addresses is never kept waiting for one. */
  lemma ClientNeverWaitsForMiners(c: Config, schedule: seq<nat>, s: State<Key>, p: nat)
    requires c.localDrand ==> c.drands > 0
    requires Reaches(Programs(c), schedule, s)
    requires IsClient(c, p) && p < |s.pcs| && s.pcs[p] < |PrepareClient(c)|
    requires PrepareClient(c)[s.pcs[p]].Await? && PrepareClient(c)[s.pcs[p]].key == MinersAddrs
    ensures Step(Programs(c), s, p).Some?
  {
    ReachableInv(Programs(c), schedule, s);
    CollectingClientIsReady(c, s, p);
    ReadyMeansAddressed(c, s);
    AddressTargets(c, PrepareClient(c)[s.pcs[p]]);
  }

  lemma AddressTargets(c: Config, x: Instr<Key>)
    requires x in PrepareClient(c) && x.Await? && x.key == MinersAddrs
    ensures x.target <= c.miners
  {
    assert x in Reads(MinersAddrs, c.miners);
  }

  lemma CollectingClientIsReady(c: Config, s: State<Key>, p: nat)
    requires Inv(Programs(c), s) && IsClient(c, p) && s.pcs[p] < |PrepareClient(c)|
    requires PrepareClient(c)[s.pcs[p]].Await? && PrepareClient(c)[s.pcs[p]].key == MinersAddrs
    ensures c.Instances() <= |Log(s, Ready)|
  {
    var before := BeaconOpts(c) + ClientEnrols() + Meet(c);
    assert PrepareClient(c) == before + Reads(MinersAddrs, c.miners);
    assert forall x :: x in before && x.Await? ==> x.key != MinersAddrs;
    assert |before| <= s.pcs[p];
    assert before[|before| - 1] == Programs(c)[p][|before| - 1] == Await(Ready, c.Instances());
  }
}
