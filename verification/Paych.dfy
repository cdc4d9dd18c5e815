/**
 The payment-channel stress test with one sender and one receiver: the vouchers the sender creates,
 and the protocol that delivers them before the channel is settled.
 */
module Paych {
  import opened Runs
  import opened SyncPrograms

  datatype Voucher = Voucher(lane: nat, amount: nat)

  /** The lanes allocated on the channel, the vouchers to send on each, and the attoFIL step. */
  datatype Config = Config(lanes: seq<nat>, vouchersPerLane: nat, increments: nat) {
    function Total(): nat { |lanes| * vouchersPerLane }
    function ChannelAmount(): nat { Total() * increments }
  }

  ghost predicate DistinctLanes(c: Config) {
    forall x, y :: 0 <= x < y < |c.lanes| ==> c.lanes[x] != c.lanes[y]
  }

  // ---------- vouchers ----------

  function VoucherAmount(c: Config, i: nat): nat {
    (i + 1) * c.increments
  }

  /** Turn i of the outer loop: one voucher per lane, for i + 1 increments. */
  function Turn(c: Config, i: nat): (r: seq<Voucher>)
    ensures |r| == |c.lanes|
  {
    seq(|c.lanes|, x requires 0 <= x < |c.lanes| => Voucher(c.lanes[x], VoucherAmount(c, i)))
  }

  function Turns(c: Config, n: nat): (r: seq<Voucher>)
    ensures |r| == n * |c.lanes|
  {
    if n == 0 then [] else Turns(c, n - 1) + Turn(c, n - 1)
  }

  /** Every voucher of the run, in the order of the nested loops. */
  function Plan(c: Config): (r: seq<Voucher>)
    ensures |r| == c.Total()
  {
    Turns(c, c.vouchersPerLane)
  }

  /** The turns that come later leave the vouchers of turn i where they are, from base on. */
  lemma {:induction false} TurnsEntry(c: Config, n: nat, i: nat, base: nat, j: nat)
    requires i < n && j < |c.lanes| && base == |Turns(c, i)|
    ensures base + j < |Turns(c, n)| && Turns(c, n)[base + j] == Voucher(c.lanes[j], VoucherAmount(c, i))
  {
    var before, last := Turns(c, n - 1), Turn(c, n - 1);
    assert Turns(c, n) == before + last;
    if i < n - 1 {
      TurnsEntry(c, n - 1, i, base, j);
      assert (before + last)[base + j] == before[base + j];
    } else {
      assert (before + last)[base + j] == last[j];
    }
  }

  /** Round robin: voucher i * laneCount + j is for lane j, worth i + 1 increments. */
  lemma {:induction false} PlanIsRoundRobin(c: Config, i: nat, j: nat)
    requires i < c.vouchersPerLane && j < |c.lanes|
    ensures i * |c.lanes| + j < c.Total()
    ensures Plan(c)[i * |c.lanes| + j] == Voucher(c.lanes[j], (i + 1) * c.increments)
  {
    TurnsEntry(c, c.vouchersPerLane, i, i * |c.lanes|, j);
  }

  /** What a lane is worth: vouchers are cumulative, so only the largest counts. */
  function Best(vs: seq<Voucher>, lane: nat): nat {
    if vs == [] then 0
    else
      var best, v := Best(vs[..|vs| - 1], lane), vs[|vs| - 1];
      if v.lane == lane && v.amount > best then v.amount else best
  }

  /** What the vouchers redeem, lane by lane. */
  function Redeemable(vs: seq<Voucher>, lanes: seq<nat>): nat {
    if lanes == [] then 0
    else Redeemable(vs, lanes[..|lanes| - 1]) + Best(vs, lanes[|lanes| - 1])
  }

  lemma {:induction false} RedeemableGrows(vs: seq<Voucher>, v: Voucher, lanes: seq<nat>, d: nat)
    requires forall x, y :: 0 <= x < y < |lanes| ==> lanes[x] != lanes[y]
    requires v.amount == Best(vs, v.lane) + d
    ensures Redeemable(vs + [v], lanes) == Redeemable(vs, lanes) + if v.lane in lanes then d else 0
  {
    if lanes != [] {
      var n := |lanes| - 1;
      assert (vs + [v])[..|vs|] == vs;
      assert lanes == lanes[..n] + [lanes[n]];
      RedeemableGrows(vs, v, lanes[..n], d);
    }
  }

  // ---------- the first i turns and j vouchers of the next ----------

  function Upto(c: Config, i: nat, j: nat): (r: seq<Voucher>)
    requires j <= |c.lanes|
  {
    Turns(c, i) + Turn(c, i)[..j]
  }

  lemma {:induction false} UptoNext(c: Config, i: nat, j: nat)
    requires j < |c.lanes|
    ensures Upto(c, i, j + 1) == Upto(c, i, j) + [Voucher(c.lanes[j], VoucherAmount(c, i))]
  {
    assert Turn(c, i)[..j + 1] == Turn(c, i)[..j] + [Turn(c, i)[j]];
  }

  lemma {:induction false} UptoTurn(c: Config, i: nat)
    ensures Upto(c, i + 1, 0) == Upto(c, i, |c.lanes|) == Turns(c, i + 1)
  {
    assert Turn(c, i)[..|c.lanes|] == Turn(c, i);
  }

  lemma {:induction false} OtherLanesStay(c: Config, i: nat, j: nat, x: nat)
    requires DistinctLanes(c) && j < |c.lanes| && x < |c.lanes| && x != j
    ensures Best(Upto(c, i, j + 1), c.lanes[x]) == Best(Upto(c, i, j), c.lanes[x])
  {
    UptoNext(c, i, j);
  }

  lemma {:induction false} LaneGains(c: Config, i: nat, j: nat, amount: nat)
    requires j < |c.lanes| && amount == VoucherAmount(c, i) && Best(Upto(c, i, j), c.lanes[j]) <= amount
    ensures Best(Upto(c, i, j + 1), c.lanes[j]) == amount
  {
    UptoNext(c, i, j);
  }

  /** n steps of d, one by one. */
  function Steps(n: nat, d: nat): nat {
    if n == 0 then 0 else Steps(n - 1, d) + d
  }

  lemma {:induction false} StepsMultiply(n: nat, d: nat)
    ensures Steps(n, d) == n * d
  {
    if n > 0 {
      StepsMultiply(n - 1, d);
      StepUp(n - 1, d);
    }
  }

  /** Lane x holds i or i + 1 increments. */
  function LaneWorth(c: Config, i: nat, j: nat, x: nat): nat {
    Steps(if x < j then i + 1 else i, c.increments)
  }

  lemma {:induction false} LaneStep(c: Config, i: nat, j: nat, x: nat)
    requires DistinctLanes(c) && j < |c.lanes| && x < |c.lanes|
    requires Best(Upto(c, i, j), c.lanes[x]) == LaneWorth(c, i, j, x)
    ensures Best(Upto(c, i, j + 1), c.lanes[x]) == LaneWorth(c, i, j + 1, x)
  {
    if x == j {
      StepsMultiply(i + 1, c.increments);
      LaneGains(c, i, x, Steps(i + 1, c.increments));
    } else {
      OtherLanesStay(c, i, j, x);
    }
  }

  lemma {:induction false} LaneTurns(c: Config, i: nat, x: nat)
    requires x < |c.lanes| && Best(Upto(c, i, |c.lanes|), c.lanes[x]) == LaneWorth(c, i, |c.lanes|, x)
    ensures Best(Upto(c, i + 1, 0), c.lanes[x]) == LaneWorth(c, i + 1, 0, x)
  {
    UptoTurn(c, i);
  }

  lemma {:induction false} LaneBalance(c: Config, i: nat, j: nat, x: nat)
    requires DistinctLanes(c) && j <= |c.lanes| && x < |c.lanes|
    ensures Best(Upto(c, i, j), c.lanes[x]) == LaneWorth(c, i, j, x)
    decreases i, j
  {
    if j > 0 {
      LaneBalance(c, i, j - 1, x);
      LaneStep(c, i, j - 1, x);
    } else if i > 0 {
      LaneBalance(c, i - 1, |c.lanes|, x);
      LaneTurns(c, i - 1, x);
    }
  }

  /** The next voucher of a turn adds one increment to what can be redeemed. */
  lemma {:induction false} OneMoreVoucher(c: Config, i: nat, j: nat, amount: nat)
    requires DistinctLanes(c) && j < |c.lanes| && amount == VoucherAmount(c, i)
    ensures Upto(c, i, j + 1) == Upto(c, i, j) + [Voucher(c.lanes[j], amount)]
    ensures Redeemable(Upto(c, i, j + 1), c.lanes) == Redeemable(Upto(c, i, j), c.lanes) + c.increments
  {
    LaneBalance(c, i, j, j);
    StepsMultiply(i + 1, c.increments);
    RedeemableGrows(Upto(c, i, j), Voucher(c.lanes[j], amount), c.lanes, c.increments);
    UptoNext(c, i, j);
  }

  /** n vouchers in all redeem n increments. */
  lemma {:induction false} LaneBalances(c: Config, i: nat, j: nat, n: nat)
    requires DistinctLanes(c) && j <= |c.lanes| && n == i * |c.lanes| + j
    ensures Redeemable(Upto(c, i, j), c.lanes) == n * c.increments
    decreases i, j
  {
    if j > 0 {
      LaneBalances(c, i, j - 1, n - 1);
      OneMoreVoucher(c, i, j - 1, VoucherAmount(c, i));
      StepUp(n - 1, c.increments);
    } else if i > 0 {
      StepUp(i - 1, |c.lanes|);
      LaneBalances(c, i - 1, |c.lanes|, n);
      UptoTurn(c, i - 1);
    } else {
      NothingToRedeem(c.lanes);
    }
  }

  lemma StepUp(n: nat, d: nat)
    ensures (n + 1) * d == n * d + d
  {}

  lemma {:induction false} NothingToRedeem(lanes: seq<nat>)
    ensures Redeemable([], lanes) == 0
  {
    if lanes != [] {
      NothingToRedeem(lanes[..|lanes| - 1]);
    }
  }

  /** Each prefix of the plan stops some way through one turn. */
  lemma {:induction false} SplitPrefix(c: Config, n: nat, p: nat) returns (i: nat, j: nat)
    requires p <= n * |c.lanes|
    ensures i <= n && j <= |c.lanes| && p == i * |c.lanes| + j
    ensures Turns(c, n)[..p] == Upto(c, i, j)
  {
    if p == n * |c.lanes| {
      i, j := n, 0;
    } else if p >= (n - 1) * |c.lanes| {
      i, j := n - 1, p - (n - 1) * |c.lanes|;
    } else {
      i, j := SplitPrefix(c, n - 1, p);
    }
  }

  /** Any p vouchers redeem p increments. */
  lemma {:induction false} PrefixRedeems(c: Config, p: nat)
    requires DistinctLanes(c) && p <= c.Total()
    ensures Redeemable(Plan(c)[..p], c.lanes) == p * c.increments <= c.ChannelAmount()
  {
    var i, j := SplitPrefix(c, c.vouchersPerLane, p);
    LaneBalances(c, i, j, p);
    AtMost(p, c.Total(), c.increments);
  }

  lemma {:induction false} PlanRedeemsAll(c: Config)
    requires DistinctLanes(c)
    ensures Redeemable(Plan(c), c.lanes) == c.ChannelAmount()
  {
    PrefixRedeems(c, c.Total());
    assert Plan(c)[..c.Total()] == Plan(c);
  }

  lemma {:induction false} LanesEndFull(c: Config)
    requires DistinctLanes(c)
    ensures forall x :: 0 <= x < |c.lanes| ==> Best(Plan(c), c.lanes[x]) == c.vouchersPerLane * c.increments
  {
    var n := c.vouchersPerLane;
    assert Plan(c) == Upto(c, n, 0);
    forall x | 0 <= x < |c.lanes| ensures Best(Plan(c), c.lanes[x]) == c.vouchersPerLane * c.increments {
      LaneBalance(c, n, 0, x);
      StepsMultiply(n, c.increments);
    }
  }

  /**
   Conservation: after any p vouchers, what the lanes' best vouchers redeem and what remains of the
   channel make up the channel amount; at the end every lane's best is its full share.
   */
  lemma {:induction false} VouchersAreConserved(c: Config, p: nat)
    requires DistinctLanes(c) && p <= c.Total()
    ensures Redeemable(Plan(c)[..p], c.lanes) == p * c.increments <= c.ChannelAmount()
    ensures (c.Total() - p) * c.increments + Redeemable(Plan(c)[..p], c.lanes) == c.ChannelAmount()
    ensures p == c.Total() ==> forall x :: 0 <= x < |c.lanes| ==>
      Best(Plan(c)[..p], c.lanes[x]) == c.vouchersPerLane * c.increments
  {
    PrefixRedeems(c, p);
    if p == c.Total() {
      assert Plan(c)[..p] == Plan(c);
      LanesEndFull(c);
    }
  }

  lemma AtMost(a: nat, b: nat, d: nat)
    requires a <= b
    ensures a * d <= b * d
  {}

  /** Each recorded balance and what the vouchers created by then redeem make up the channel amount. */
  ghost predicate Balances(c: Config, amount: nat, vouchers: seq<Voucher>, recorded: seq<int>) {
    && |recorded| == |vouchers|
    && forall p :: 0 <= p < |recorded| ==> recorded[p] + Redeemable(vouchers[..p + 1], c.lanes) == amount
  }

  lemma {:induction false} BalancesOneMore(
    c: Config, amount: nat, vouchers: seq<Voucher>, recorded: seq<int>, v: Voucher, remaining: int)
    requires Balances(c, amount, vouchers, recorded)
    requires remaining + Redeemable(vouchers + [v], c.lanes) == amount
    ensures Balances(c, amount, vouchers + [v], recorded + [remaining])
  {
    var more, longer := vouchers + [v], recorded + [remaining];
    forall p | 0 <= p < |longer| ensures longer[p] + Redeemable(more[..p + 1], c.lanes) == amount {
      assert more[..p + 1] == if p < |vouchers| then vouchers[..p + 1] else more;
    }
  }

  /** Where the nested loops are after i turns and j vouchers of the next. */
  ghost predicate Created(
    c: Config, amount: nat, i: nat, j: nat, vouchers: seq<Voucher>, recorded: seq<int>, remaining: int)
    requires j <= |c.lanes|
  {
    && vouchers == Upto(c, i, j) && Balances(c, amount, vouchers, recorded)
    && remaining + Redeemable(vouchers, c.lanes) == amount
  }

  lemma {:induction false} CreatedNext(
    c: Config, amount: nat, i: nat, j: nat, vouchers: seq<Voucher>, recorded: seq<int>, remaining: int, v: Voucher)
    requires DistinctLanes(c) && j < |c.lanes| && v == Voucher(c.lanes[j], VoucherAmount(c, i))
    requires Created(c, amount, i, j, vouchers, recorded, remaining)
    ensures var left := remaining - c.increments;
      Created(c, amount, i, j + 1, vouchers + [v], recorded + [left], left)
  {
    OneMoreVoucher(c, i, j, v.amount);
    BalancesOneMore(c, amount, vouchers, recorded, v, remaining - c.increments);
  }

  lemma {:induction false} CreatedNothing(c: Config)
    ensures Created(c, c.ChannelAmount(), 0, 0, [], [], c.ChannelAmount())
  {
    NothingToRedeem(c.lanes);
  }

  lemma {:induction false} CreatedAll(c: Config, vouchers: seq<Voucher>, recorded: seq<int>, remaining: int)
    requires DistinctLanes(c)
    requires Created(c, c.ChannelAmount(), c.vouchersPerLane, 0, vouchers, recorded, remaining)
    ensures vouchers == Plan(c) && remaining == 0
  {
    PlanRedeemsAll(c);
  }

  /**
   runSender's nested loops: they create the planned vouchers, and the balance recorded after each
   voucher, together with what the vouchers so far redeem, is the channel amount.
   */
  method CreateVouchers(c: Config) returns (vouchers: seq<Voucher>, recorded: seq<int>, remaining: int)
    requires DistinctLanes(c)
    ensures vouchers == Plan(c)
    ensures Balances(c, c.ChannelAmount(), vouchers, recorded)
    ensures remaining == 0
  {
    var channelAmt := c.ChannelAmount();
    vouchers, recorded, remaining := [], [], channelAmt;
    CreatedNothing(c);
    for i := 0 to c.vouchersPerLane
      invariant Created(c, channelAmt, i, 0, vouchers, recorded, remaining)
    {
      vouchers, recorded, remaining := CreateTurn(c, channelAmt, i, vouchers, recorded, remaining);
    }
    CreatedAll(c, vouchers, recorded, remaining);
  }

  /** The inner loop. */
  method CreateTurn(
    c: Config, ghost amount: nat, i: nat, vouchers0: seq<Voucher>, recorded0: seq<int>, remaining0: int)
    returns (vouchers: seq<Voucher>, recorded: seq<int>, remaining: int)
    requires DistinctLanes(c) && Created(c, amount, i, 0, vouchers0, recorded0, remaining0)
    ensures Created(c, amount, i + 1, 0, vouchers, recorded, remaining)
  {
    vouchers, recorded, remaining := vouchers0, recorded0, remaining0;
    for j := 0 to |c.lanes|
      invariant Created(c, amount, i, j, vouchers, recorded, remaining)
    {
      var v := Voucher(c.lanes[j], VoucherAmount(c, i));
      CreatedNext(c, amount, i, j, vouchers, recorded, remaining, v);
      remaining := remaining - c.increments;
      vouchers, recorded := vouchers + [v], recorded + [remaining];
    }
  }

  // ---------- delivery and settlement ----------

  datatype Key =
    | ReceiverReady | VoucherTopic | SendersDone | ReceiverAdded | SettleTopic
    | PaychSettle | VoucherAdd(index: nat)

  function Sender(c: Config): (prog: Program<Key>)
    ensures |prog| == c.Total() + 5
  {
    [Await(ReceiverReady, 1)] + seq(c.Total(), i => Post(VoucherTopic))
      + [Post(SendersDone), Await(ReceiverAdded, 1), Local(PaychSettle), Post(SettleTopic)]
  }

  /** Message i of the voucher topic is entry i of the plan: there is one sender. */
  function Receiver(c: Config): (prog: Program<Key>)
    ensures |prog| == 2 * c.Total() + 3
  {
    [Post(ReceiverReady)] + seq(2 * c.Total(), i requires 0 <= i => ReceiveStep(i))
      + [Post(ReceiverAdded), Await(SettleTopic, 1)]
  }

  /** The receiver's loop takes voucher i / 2 off the topic, then adds it to the channel. */
  function ReceiveStep(i: nat): Instr<Key> {
    if i % 2 == 0 then Await(VoucherTopic, i / 2 + 1) else Local(VoucherAdd(i / 2))
  }

  function Programs(c: Config): (progs: seq<Program<Key>>)
    ensures |progs| == 2
  {
    [Sender(c), Receiver(c)]
  }

  function Rank(k: Key): nat {
    match k
    case ReceiverReady => 0
    case VoucherTopic => 1
    case ReceiverAdded => 2
    case _ => 3
  }

  /** The vouchers that the sender has published. */
  function Sent(c: Config, s: State<Key>): seq<Voucher>
    requires |s.pcs| == 2
  {
    Plan(c)[..if s.pcs[0] == 0 then 0 else if s.pcs[0] <= c.Total() + 1 then s.pcs[0] - 1 else c.Total()]
  }

  /** The vouchers that the receiver has added to the channel. */
  function Added(c: Config, s: State<Key>): seq<Voucher>
    requires |s.pcs| == 2
  {
    Plan(c)[..if s.pcs[1] == 0 then 0 else if s.pcs[1] <= 2 * c.Total() + 1 then (s.pcs[1] - 1) / 2 else c.Total()]
  }

  lemma {:induction false} SenderPosts(c: Config, n: nat)
    requires n <= c.Total() + 5
    ensures Posts(Sender(c), n, VoucherTopic) == if n == 0 then 0 else if n <= c.Total() + 1 then n - 1 else c.Total()
  {
    if n > 0 {
      SenderPosts(c, n - 1);
    }
  }

  lemma {:induction false} ReceiverPostsNoVoucher(c: Config, n: nat)
    requires n <= 2 * c.Total() + 3
    ensures Posts(Receiver(c), n, VoucherTopic) == 0
  {
    if n > 0 {
      ReceiverPostsNoVoucher(c, n - 1);
    }
  }

  lemma VouchersOnTopic(c: Config, s: State<Key>)
    requires Inv(Programs(c), s)
    ensures |Log(s, VoucherTopic)| == |Sent(c, s)|
  {
    assert LogExact(Programs(c), s, VoucherTopic);
    SenderPosts(c, s.pcs[0]);
    ReceiverPostsNoVoucher(c, s.pcs[1]);
    assert Posted(Programs(c), s.pcs, VoucherTopic, 1) == Posts(Sender(c), s.pcs[0], VoucherTopic);
  }

  lemma RolesAreOrdered(c: Config)
    ensures Ordered(Programs(c), Rank)
  {
    assert OrderedProgram(Sender(c), Rank) && OrderedProgram(Receiver(c), Rank);
  }

  lemma RolesAreCovered(c: Config)
    ensures Covered(Programs(c))
  {
    var progs := Programs(c);
    SenderPosts(c, |Sender(c)|);
    ReceiverPostsNoVoucher(c, |Receiver(c)|);
    assert Posted(progs, Lengths(progs), VoucherTopic, 1) == c.Total();
    assert Receiver(c)[0] == Post(ReceiverReady) && Receiver(c)[2 * c.Total() + 1] == Post(ReceiverAdded);
    assert Sender(c)[c.Total() + 4] == Post(SettleTopic);
    PostedAtLeast(progs, ReceiverReady, 1, 2);
    PostedAtLeast(progs, ReceiverAdded, 1, 2);
    PostedAtLeast(progs, SettleTopic, 0, 1);
  }

  /** Both sides always finish: no voucher is waited for in vain, and neither side outruns the other. */
  lemma PaymentsComplete(c: Config, schedule: seq<nat>, s: State<Key>)
    requires Reaches(Programs(c), schedule, s)
    ensures |schedule| <= StateRank(Programs(c), Initial(Programs(c)))
    ensures Terminal(Stepper(Programs(c)), s) <==> Finished(Programs(c), s)
  {
    RolesAreOrdered(c);
    RolesAreCovered(c);
    NoDeadlock(Programs(c), Rank, schedule, s);
    ScheduleIsBounded(Programs(c), schedule, s);
  }

  lemma {:induction false} AddedWasSent(c: Config, s: State<Key>)
    requires Inv(Programs(c), s)
    ensures Added(c, s) <= Sent(c, s)
  {
    VouchersOnTopic(c, s);
    var n := |Added(c, s)|;
    if n > 0 {
      var i := 2 * (n - 1) + 1;
      assert Programs(c)[1][i] == ReceiveStep(2 * (n - 1)) == Await(VoucherTopic, n);
    }
  }

  /** What the receiver holds was sent, and is always covered by the channel. */
  lemma {:induction false} ReceiverIsCovered(c: Config, schedule: seq<nat>, s: State<Key>)
    requires DistinctLanes(c) && Reaches(Programs(c), schedule, s)
    ensures |s.pcs| == 2 && Added(c, s) <= Sent(c, s)
    ensures Redeemable(Added(c, s), c.lanes) == |Added(c, s)| * c.increments <= c.ChannelAmount()
  {
    ReachableInv(Programs(c), schedule, s);
    AddedWasSent(c, s);
    PrefixRedeems(c, |Added(c, s)|);
  }

  /** Past the barrier before settling, the receiver has added every voucher. */
  lemma {:induction false} SettlerHasAll(c: Config, s: State<Key>)
    requires Inv(Programs(c), s) && s.pcs[0] == c.Total() + 3
    ensures Added(c, s) == Plan(c)
  {
    assert Programs(c)[0][c.Total() + 2] == Await(ReceiverAdded, 1);
    var p := Log(s, ReceiverAdded)[0];
    PosterIsPast(Programs(c), s, ReceiverAdded, p);
    assert Programs(c)[p] == Receiver(c);
    assert s.pcs[1] > 2 * c.Total() + 1;
  }

  /** Settling is safe: whoever gets to settle the channel finds every voucher added, and they redeem all of it. */
  lemma {:induction false} SettleComesLast(c: Config, schedule: seq<nat>, s: State<Key>)
    requires DistinctLanes(c) && Reaches(Programs(c), schedule, s)
    requires |s.pcs| == 2 && s.pcs[0] < |Sender(c)| && Sender(c)[s.pcs[0]] == Local(PaychSettle)
    ensures Added(c, s) == Plan(c)
    ensures Redeemable(Added(c, s), c.lanes) == c.ChannelAmount()
    ensures forall x :: 0 <= x < |c.lanes| ==>
      Best(Added(c, s), c.lanes[x]) == c.vouchersPerLane * c.increments
  {
    ReachableInv(Programs(c), schedule, s);
    SettlerHasAll(c, s);
    PlanRedeemsAll(c);
    LanesEndFull(c);
  }

  /** Whoever has posted one of the protocol's own messages is the one side that posts it, and is past it. */
  lemma {:induction false} PosterIsSide(c: Config, s: State<Key>, k: Key)
    requires Inv(Programs(c), s) && Log(s, k) != []
    ensures k == VoucherTopic ==> s.pcs[0] > 1
    ensures k == SendersDone ==> s.pcs[0] > c.Total() + 1
    ensures k == SettleTopic ==> s.pcs[0] > c.Total() + 4
    ensures k == ReceiverReady ==> s.pcs[1] > 0
    ensures k == ReceiverAdded ==> s.pcs[1] > 2 * c.Total() + 1
  {
    var p := Log(s, k)[0];
    PosterIsPast(Programs(c), s, k, p);
    var i :| 0 <= i < s.pcs[p] && Programs(c)[p][i] == Post(k);
    if p == 0 {
      assert Sender(c)[i] == Post(k);
    } else {
      assert Receiver(c)[i] == Post(k);
    }
  }

  /**
   The order of the protocol: no voucher goes out before the receiver is ready; the sender declares
   itself done, and waits, only when all are out; the settle message goes out only after the
   receiver has added every voucher; and the receiver ends only once it is out.
   */
  lemma {:induction false} PaymentOrder(c: Config, schedule: seq<nat>, s: State<Key>)
    requires Reaches(Programs(c), schedule, s)
    ensures |s.pcs| == 2
    ensures Log(s, VoucherTopic) != [] ==> Log(s, ReceiverReady) != []
    ensures Log(s, SendersDone) != [] ==> |Log(s, VoucherTopic)| == c.Total()
    ensures Log(s, SettleTopic) != [] ==> Log(s, ReceiverAdded) != [] && Added(c, s) == Plan(c)
    ensures s.pcs[1] == |Receiver(c)| ==> Log(s, SettleTopic) != []
  {
    ReachableInv(Programs(c), schedule, s);
    VouchersOnTopic(c, s);
    if Log(s, VoucherTopic) != [] {
      PosterIsSide(c, s, VoucherTopic);
      assert Programs(c)[0][0] == Await(ReceiverReady, 1);
    }
    if Log(s, SendersDone) != [] {
      PosterIsSide(c, s, SendersDone);
    }
    if Log(s, SettleTopic) != [] {
      PosterIsSide(c, s, SettleTopic);
      assert Programs(c)[0][c.Total() + 2] == Await(ReceiverAdded, 1);
      PosterIsSide(c, s, ReceiverAdded);
    }
    if s.pcs[1] == |Receiver(c)| {
      assert Programs(c)[1][2 * c.Total() + 2] == Await(SettleTopic, 1);
    }
  }
}
