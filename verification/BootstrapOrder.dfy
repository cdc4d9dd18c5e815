/** In what order the handshake happens: which messages are out before which others. */
module BootstrapOrder {
  import opened Runs
  import opened SyncPrograms
  import opened Bootstrap

  // ---------- drand nodes ----------

  function AfterCeremony(c: Config, leader: bool): Program<Key> {
    DrandGossip(c) + DrandPublishes(leader) + Meet(c)
  }

  predicate Leads(c: Config, p: nat) {
    p == 1 + c.miners + c.clients
  }

  lemma Regroup<T>(a: seq<T>, b: seq<T>, c: seq<T>, d: seq<T>, e: seq<T>)
    ensures a + b + c + d + e == a + (b + (c + d + e))
  {}

  /** The drand role from its first barrier on. */
  lemma {:induction false} SplitsAtStart(c: Config, p: nat)
    requires IsDrand(c, p)
    ensures Programs(c)[p]
      == [Post(DrandAddrs)] + Reads(DrandAddrs, c.drands) + (DrandStarts(c) + AfterCeremony(c, Leads(c, p)))
  {
    Regroup([Post(DrandAddrs)] + Reads(DrandAddrs, c.drands),
      DrandStarts(c), DrandGossip(c), DrandPublishes(Leads(c, p)), Meet(c));
  }

  lemma {:induction false} SplitsAtCeremony(c: Config, p: nat)
    requires IsDrand(c, p)
    ensures Programs(c)[p] == DrandCeremony(c) + AfterCeremony(c, Leads(c, p))
  {
    Regroup([], DrandCeremony(c), DrandGossip(c), DrandPublishes(Leads(c, p)), Meet(c));
    assert [] + DrandCeremony(c) == DrandCeremony(c);
    var rest := AfterCeremony(c, Leads(c, p));
    assert [] + (DrandCeremony(c) + rest) == DrandCeremony(c) + rest;
  }

  lemma {:induction false} StartFollowsAddrs(c: Config, s: State<Key>, p: nat)
    requires Inv(Programs(c), s) && IsDrand(c, p) && p in Log(s, DrandStart)
    ensures c.drands <= |Log(s, DrandAddrs)|
  {
    var before := [Post(DrandAddrs)] + Reads(DrandAddrs, c.drands);
    var after := DrandStarts(c) + AfterCeremony(c, Leads(c, p));
    SplitsAtStart(c, p);
    PostedAfter(Programs(c), s, p, DrandStart, before, after);
    assert Await(DrandAddrs, c.drands) in before;
  }

  /** What a drand node does up to the barrier before the key generation, and from there on. */
  function BeforeDkg(c: Config): Program<Key> {
    [Post(DrandAddrs)] + Reads(DrandAddrs, c.drands) + (SignalAndWait(DrandStart, c.drands) + [Local(DrandStart)])
  }

  function FromDkg(c: Config, leader: bool): Program<Key> {
    SignalAndWait(DkgStart, c.drands) + [Local(DkgStart)] + AfterCeremony(c, leader)
  }

  lemma Nest<T>(a: seq<T>, b: seq<T>, c: seq<T>, d: seq<T>)
    ensures a + (b + c + d) == a + b + (c + d)
  {}

  lemma {:induction false} SplitsAtDkg(c: Config, p: nat)
    requires IsDrand(c, p)
    ensures Programs(c)[p] == BeforeDkg(c) + FromDkg(c, Leads(c, p))
  {
    SplitsAtStart(c, p);
    Nest([Post(DrandAddrs)] + Reads(DrandAddrs, c.drands),
      SignalAndWait(DrandStart, c.drands) + [Local(DrandStart)],
      SignalAndWait(DkgStart, c.drands) + [Local(DkgStart)], AfterCeremony(c, Leads(c, p)));
  }

  lemma {:induction false} DkgComesLater(c: Config)
    ensures Await(DrandStart, c.drands) in BeforeDkg(c) && Post(DkgStart) !in BeforeDkg(c)
  {
    assert Await(DrandStart, c.drands) in SignalAndWait(DrandStart, c.drands);
  }

  lemma {:induction false} DkgFollowsStart(c: Config, s: State<Key>, p: nat)
    requires Inv(Programs(c), s) && IsDrand(c, p) && p in Log(s, DkgStart)
    ensures c.drands <= |Log(s, DrandStart)|
  {
    SplitsAtDkg(c, p);
    DkgComesLater(c);
    PostedAfter(Programs(c), s, p, DkgStart, BeforeDkg(c), FromDkg(c, Leads(c, p)));
  }

  lemma {:induction false} CeremonyHasDkg(c: Config)
    ensures Await(DkgStart, c.drands) in DrandCeremony(c)
    ensures Post(GossipAddrs) !in DrandCeremony(c) && Post(DrandConfig) !in DrandCeremony(c)
  {
    assert Await(DkgStart, c.drands) in SignalAndWait(DkgStart, c.drands);
    assert Await(DkgStart, c.drands) in DrandStarts(c);
  }

  lemma {:induction false} GossipFollowsDkg(c: Config, s: State<Key>, p: nat)
    requires Inv(Programs(c), s) && IsDrand(c, p) && p in Log(s, GossipAddrs)
    ensures c.drands <= |Log(s, DkgStart)|
  {
    CeremonyHasDkg(c);
    SplitsAtCeremony(c, p);
    PostedAfter(Programs(c), s, p, GossipAddrs, DrandCeremony(c), AfterCeremony(c, Leads(c, p)));
  }

  lemma {:induction false} ConfigFollowsGroup(c: Config, s: State<Key>, p: nat)
    requires Inv(Programs(c), s) && IsDrand(c, p) && p in Log(s, DrandConfig)
    ensures c.drands <= |Log(s, DkgStart)| && (c.gossip ==> c.drands <= |Log(s, GossipAddrs)|)
  {
    CeremonyHasDkg(c);
    var before, after := DrandCeremony(c) + DrandGossip(c), DrandPublishes(Leads(c, p)) + Meet(c);
    Trail(before, DrandPublishes(Leads(c, p)), Meet(c));
    PostedAfter(Programs(c), s, p, DrandConfig, before, after);
    assert c.gossip ==> Await(GossipAddrs, c.drands) in DrandGossip(c);
  }

  // ---------- bootstrapper, miners and clients ----------

  lemma {:induction false} BalancesFollowBeacon(c: Config, s: State<Key>, p: nat)
    requires Inv(Programs(c), s) && (IsMiner(c, p) || IsClient(c, p)) && p in Log(s, Balances) && c.localDrand
    ensures 1 <= |Log(s, DrandConfig)|
  {
    var after := if IsMiner(c, p) then MinerEnrols(c) + MinerAnnounces() + Meet(c)
                 else ClientEnrols() + Meet(c) + Reads(MinersAddrs, c.miners);
    if IsMiner(c, p) {
      Nest2(BeaconOpts(c), MinerEnrols(c), MinerAnnounces(), Meet(c));
    } else {
      Nest2(BeaconOpts(c), ClientEnrols(), Meet(c), Reads(MinersAddrs, c.miners));
    }
    PostedAfter(Programs(c), s, p, Balances, BeaconOpts(c), after);
    assert Await(DrandConfig, 1) in BeaconOpts(c);
  }

  lemma Inside<T>(a: seq<T>, x: seq<T>, y: seq<T>, z: seq<T>, d: seq<T>)
    ensures a + (x + y + z) + d == a + x + (y + (z + d))
  {}

  lemma Within<T>(a: seq<T>, x: seq<T>, y: seq<T>, d: seq<T>, e: seq<T>)
    ensures a + (x + y) + d + e == a + x + (y + (d + e))
  {}

  lemma Nest2<T>(a: seq<T>, b: seq<T>, c: seq<T>, d: seq<T>)
    ensures a + b + c + d == a + (b + c + d)
  {}

  lemma {:induction false} PresealsFollowNumbers(c: Config, s: State<Key>, p: nat)
    requires Inv(Programs(c), s) && IsMiner(c, p) && p in Log(s, Preseals)
    ensures c.miners <= |Log(s, PickSeqNum)|
  {
    var before := BeaconOpts(c) + ([Post(Balances)] + SignalAndWait(PickSeqNum, c.miners));
    var after := [Post(Preseals)] + (MinerAnnounces() + Meet(c));
    Within(BeaconOpts(c), [Post(Balances)] + SignalAndWait(PickSeqNum, c.miners), [Post(Preseals)],
      MinerAnnounces(), Meet(c));
    PostedAfter(Programs(c), s, p, Preseals, before, after);
    assert Await(PickSeqNum, c.miners) in SignalAndWait(PickSeqNum, c.miners);
    assert Await(PickSeqNum, c.miners) in before;
  }

  lemma {:induction false} MinersFollowGenesis(c: Config, s: State<Key>, p: nat)
    requires Inv(Programs(c), s) && IsMiner(c, p) && p in Log(s, MinersAddrs)
    ensures 1 <= |Log(s, GenesisBlock)|
  {
    var before := BeaconOpts(c) + MinerEnrols(c) + [Await(GenesisBlock, 1)];
    var after := [Post(MinersAddrs)] + ([Local(MinersAddrs)] + Meet(c));
    Inside(BeaconOpts(c) + MinerEnrols(c),
      [Await(GenesisBlock, 1)], [Post(MinersAddrs)], [Local(MinersAddrs)], Meet(c));
    PostedAfter(Programs(c), s, p, MinersAddrs, before, after);
    assert Await(GenesisBlock, 1) in before;
  }

  lemma {:induction false} ClientsFollowGenesis(c: Config, s: State<Key>, p: nat)
    requires Inv(Programs(c), s) && IsClient(c, p) && p in Log(s, ClientsAddrs)
    ensures 1 <= |Log(s, GenesisBlock)|
  {
    var before := BeaconOpts(c) + ([Post(Balances)] + [Await(GenesisBlock, 1)]);
    var after := [Post(ClientsAddrs)] + (Meet(c) + Reads(MinersAddrs, c.miners));
    Within(BeaconOpts(c), [Post(Balances)] + [Await(GenesisBlock, 1)], [Post(ClientsAddrs)],
      Meet(c), Reads(MinersAddrs, c.miners));
    PostedAfter(Programs(c), s, p, ClientsAddrs, before, after);
    assert Await(GenesisBlock, 1) in before;
  }

  // ---------- the order as a whole ----------

  /** Somebody has posted k. */
  ghost predicate Out(s: State<Key>, k: Key) {
    Log(s, k) != []
  }

  /** Everybody who posts k has, and nobody twice. */
  ghost predicate AllOut(c: Config, s: State<Key>, k: Key) {
    && |Log(s, k)| == Posters(c, k).1 - Posters(c, k).0 && NoRepeats(Log(s, k))
    && forall p: nat :: Posters(c, k).0 <= p < Posters(c, k).1 ==> p in Log(s, k)
  }

  lemma {:induction false} EnoughIsAll(c: Config, s: State<Key>, k: Key)
    requires (c.localDrand ==> c.drands > 0) && Inv(Programs(c), s)
    requires Posters(c, k).1 - Posters(c, k).0 <= |Log(s, k)|
    ensures AllOut(c, s, k)
  {
    AllPosted(c, s, k);
    LogIsRoster(c, s, k);
  }

  /**
   The drand group: nobody starts before all addresses are known, nobody joins the key generation
   before all have started, and neither relay addresses nor the configuration go out before all have
   joined; the configuration also waits for all relay addresses, if there are relays.
   */
  lemma {:induction false} DrandOrder(c: Config, schedule: seq<nat>, s: State<Key>)
    requires (c.localDrand ==> c.drands > 0) && Reaches(Programs(c), schedule, s)
    ensures Out(s, DrandStart) ==> AllOut(c, s, DrandAddrs)
    ensures Out(s, DkgStart) ==> AllOut(c, s, DrandStart)
    ensures Out(s, GossipAddrs) ==> AllOut(c, s, DkgStart)
    ensures Out(s, DrandConfig) ==> AllOut(c, s, DkgStart) && AllOut(c, s, GossipAddrs)
  {
    ReachableInv(Programs(c), schedule, s);
    if Out(s, DrandStart) {
      MemberIsPoster(c, s, DrandStart, Log(s, DrandStart)[0]);
      StartFollowsAddrs(c, s, Log(s, DrandStart)[0]);
      EnoughIsAll(c, s, DrandAddrs);
    }
    if Out(s, DkgStart) {
      MemberIsPoster(c, s, DkgStart, Log(s, DkgStart)[0]);
      DkgFollowsStart(c, s, Log(s, DkgStart)[0]);
      EnoughIsAll(c, s, DrandStart);
    }
    if Out(s, GossipAddrs) {
      MemberIsPoster(c, s, GossipAddrs, Log(s, GossipAddrs)[0]);
      GossipFollowsDkg(c, s, Log(s, GossipAddrs)[0]);
      EnoughIsAll(c, s, DkgStart);
    }
    if Out(s, DrandConfig) {
      MemberIsPoster(c, s, DrandConfig, Log(s, DrandConfig)[0]);
      ConfigFollowsGroup(c, s, Log(s, DrandConfig)[0]);
      EnoughIsAll(c, s, DkgStart);
      EnoughIsAll(c, s, GossipAddrs);
    }
  }

  /**
   The chain: with a local beacon no balance goes out before its configuration, no preseal before
   every miner has drawn its number, and no node publishes its address before the genesis block.
   */
  lemma {:induction false} ChainOrder(c: Config, schedule: seq<nat>, s: State<Key>)
    requires (c.localDrand ==> c.drands > 0) && Reaches(Programs(c), schedule, s)
    ensures c.localDrand && Out(s, Balances) ==> AllOut(c, s, DrandConfig)
    ensures Out(s, Preseals) ==> AllOut(c, s, PickSeqNum)
    ensures Out(s, MinersAddrs) || Out(s, ClientsAddrs) ==> AllOut(c, s, GenesisBlock)
  {
    ReachableInv(Programs(c), schedule, s);
    if c.localDrand && Out(s, Balances) { FirstIsLotus(c, s, Log(s, Balances)[0]); }
    if Out(s, Preseals) { FirstIsMiner(c, s, Log(s, Preseals)[0]); }
    if Out(s, MinersAddrs) || Out(s, ClientsAddrs) { AddressesFollowGenesis(c, s); }
  }

  lemma {:induction false} AddressesFollowGenesis(c: Config, s: State<Key>)
    requires (c.localDrand ==> c.drands > 0) && Inv(Programs(c), s)
    requires Out(s, MinersAddrs) || Out(s, ClientsAddrs)
    ensures AllOut(c, s, GenesisBlock)
  {
    if Out(s, MinersAddrs) {
      MemberIsPoster(c, s, MinersAddrs, Log(s, MinersAddrs)[0]);
      MinersFollowGenesis(c, s, Log(s, MinersAddrs)[0]);
    } else {
      MemberIsPoster(c, s, ClientsAddrs, Log(s, ClientsAddrs)[0]);
      ClientsFollowGenesis(c, s, Log(s, ClientsAddrs)[0]);
    }
    EnoughIsAll(c, s, GenesisBlock);
  }

  lemma {:induction false} FirstIsMiner(c: Config, s: State<Key>, p: nat)
    requires (c.localDrand ==> c.drands > 0) && Inv(Programs(c), s) && p in Log(s, Preseals)
    ensures AllOut(c, s, PickSeqNum)
  {
    MemberIsPoster(c, s, Preseals, p);
    PresealsFollowNumbers(c, s, p);
    EnoughIsAll(c, s, PickSeqNum);
  }

  lemma {:induction false} FirstIsLotus(c: Config, s: State<Key>, p: nat)
    requires c.localDrand && c.drands > 0 && Inv(Programs(c), s) && p in Log(s, Balances)
    ensures AllOut(c, s, DrandConfig)
  {
    MemberIsPoster(c, s, Balances, p);
    BalancesFollowBeacon(c, s, p);
    EnoughIsAll(c, s, DrandConfig);
  }

  // ---------- the ready barrier ----------

  /** What process p does before it signals that it is ready. */
  function BeforeReady(c: Config, p: nat): Program<Key> {
    if p == 0 then BootstrapperCollects(c) + [Post(GenesisBlock)]
    else if IsMiner(c, p) then BeaconOpts(c) + MinerEnrols(c) + MinerAnnounces()
    else if IsClient(c, p) then BeaconOpts(c) + ClientEnrols()
    else DrandCeremony(c) + DrandGossip(c) + DrandPublishes(Leads(c, p))
  }

  function AfterReady(c: Config, p: nat): Program<Key> {
    if IsClient(c, p) then Reads(MinersAddrs, c.miners) else []
  }

  lemma Trail<T>(a: seq<T>, b: seq<T>, c: seq<T>)
    ensures a + b + c == a + (b + c) && a + b == a + (b + [])
  {
    assert b + [] == b;
  }

  lemma {:induction false} RoleMeets(c: Config, p: nat)
    requires p < c.Instances()
    ensures Programs(c)[p] == BeforeReady(c, p) + (Meet(c) + AfterReady(c, p))
  {
    Trail(BeforeReady(c, p), Meet(c), AfterReady(c, p));
    if p == 0 { Trail(BootstrapperCollects(c), [Post(GenesisBlock)], Meet(c)); }
  }

  lemma {:induction false} ReadyComesLast(c: Config, p: nat)
    requires p < c.Instances()
    ensures Post(Ready) !in BeforeReady(c, p)
  {
    if p == 0 {
      CollectingOnlyWaits(c);
    } else if IsDrand(c, p) {
      assert Post(Ready) !in DrandStarts(c);
      assert Post(Ready) !in DrandCeremony(c);
    }
  }

  /** Every post that is p's to make, but for the ready signal itself, comes before it. */
  lemma {:induction false} PostsComeFirst(c: Config, p: nat, k: Key)
    requires p < c.Instances() && k != Ready && Posters(c, k).0 <= p < Posters(c, k).1
    ensures Post(k) in BeforeReady(c, p)
  {
    if IsMiner(c, p) {
      assert Post(k) in MinerEnrols(c) + MinerAnnounces();
    } else if IsClient(c, p) {
      assert Post(k) in ClientEnrols();
    } else if IsDrand(c, p) {
      assert Post(k) in DrandStarts(c) || Post(k) in [Post(DrandAddrs)] || Post(k) in DrandGossip(c)
          || Post(k) in DrandPublishes(Leads(c, p));
      assert Post(k) in DrandStarts(c) ==> Post(k) in DrandCeremony(c);
    }
  }

  lemma {:induction false} ReadyHasPosted(c: Config, s: State<Key>, p: nat, k: Key)
    requires Inv(Programs(c), s) && p < c.Instances() && p in Log(s, Ready)
    requires Posters(c, k).0 <= p < Posters(c, k).1
    ensures p in Log(s, k)
  {
    if k != Ready {
      RoleMeets(c, p);
      ReadyComesLast(c, p);
      PostedAfter(Programs(c), s, p, Ready, BeforeReady(c, p), Meet(c) + AfterReady(c, p));
      PostsComeFirst(c, p, k);
    }
  }

  lemma {:induction false} ThroughMeansMet(c: Config, s: State<Key>, p: nat)
    requires Inv(Programs(c), s) && p < c.Instances() && s.pcs[p] == |Programs(c)[p]|
    ensures c.Instances() <= |Log(s, Ready)|
  {
    RoleMeets(c, p);
    var j := |BeforeReady(c, p)| + 1;
    assert Programs(c)[p][j] == Meet(c)[1] == Await(Ready, c.Instances());
  }

  /** Once anybody is through, every message of every kind is out: nobody is ready too early. */
  lemma {:induction false} ThroughMeansAllOut(c: Config, schedule: seq<nat>, s: State<Key>, p: nat, k: Key)
    requires (c.localDrand ==> c.drands > 0) && Reaches(Programs(c), schedule, s)
    requires p < |s.pcs| && p < c.Instances() && s.pcs[p] == |Programs(c)[p]|
    ensures AllOut(c, s, k)
  {
    ReachableInv(Programs(c), schedule, s);
    ThroughMeansMet(c, s, p);
    AllPosted(c, s, Ready);
    forall q: nat | Posters(c, k).0 <= q < Posters(c, k).1 ensures q in Log(s, k) {
      ReadyHasPosted(c, s, q, k);
    }
    EverybodyPosted(c, s, k);
    LogIsRoster(c, s, k);
  }
}
