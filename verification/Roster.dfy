/**
 What the order of arrival decides: which address each miner is given in the genesis block, and
 which miner dials which.
 */
module Roster {
  import opened Prelude
  import opened Runs
  import opened SyncPrograms
  import opened Genesis
  import opened Bootstrap

  /** The place of p in a topic. */
  function IndexOf(log: seq<nat>, p: nat): (i: nat)
    requires p in log
    ensures i < |log| && log[i] == p && forall j :: 0 <= j < i ==> log[j] != p
  {
    if log[0] == p then 0 else 1 + IndexOf(log[1..], p)
  }

  // ---------- genesis addresses ----------

  /** The sequence number that signalling miner-pick-seq-num returned to p. */
  function SeqNo(s: State<Key>, p: nat): nat
    requires p in Log(s, PickSeqNum)
  {
    IndexOf(Log(s, PickSeqNum), p) + 1
  }

  /** The preseal of p, sealed for the ID address MinerStart + (seq - 1). */
  function PresealOf(minerStart: nat, s: State<Key>, p: nat): PresealMsg
    requires p in Log(s, PickSeqNum)
  {
    PresealMsg(Miner(minerStart + (SeqNo(s, p) - 1), p), SeqNo(s, p))
  }

  /** The preseal topic's messages, in the order they arrived. */
  function PresealTopic(minerStart: nat, s: State<Key>): (r: seq<PresealMsg>)
    requires forall p :: p in Log(s, Preseals) ==> p in Log(s, PickSeqNum)
    ensures |r| == |Log(s, Preseals)|
  {
    seq(|Log(s, Preseals)|,
        i requires 0 <= i < |Log(s, Preseals)| => PresealOf(minerStart, s, Log(s, Preseals)[i]))
  }

  lemma SortedPresealsFollowNumbers(minerStart: nat, s: State<Key>, k: nat)
    requires NoRepeats(Log(s, Preseals)) && |Log(s, Preseals)| == |Log(s, PickSeqNum)|
    requires forall p :: p in Log(s, Preseals) ==> p in Log(s, PickSeqNum)
    requires k < |Log(s, PickSeqNum)|
    ensures MinersOf(SortBySeqno(PresealTopic(minerStart, s)))[k] == Miner(minerStart + k, Log(s, PickSeqNum)[k])
  {
    var topic := PresealTopic(minerStart, s);
    SortPlacesByNumber(topic);
    var m := SortBySeqno(topic)[k];
    var i :| 0 <= i < |topic| && topic[i] == m;
    assert SeqNo(s, Log(s, Preseals)[i]) == k + 1;
  }

  lemma PresealsHaveNumbers(c: Config, s: State<Key>)
    requires (c.localDrand ==> c.drands > 0) && Inv(Programs(c), s)
    requires forall p: nat :: IsMiner(c, p) ==> p in Log(s, PickSeqNum)
    ensures forall p :: p in Log(s, Preseals) ==> p in Log(s, PickSeqNum)
  {
    forall p | p in Log(s, Preseals) ensures p in Log(s, PickSeqNum) {
      MemberIsPoster(c, s, Preseals, p);
    }
  }

  /**
   Whatever the order in which preseals arrive, entry k of the genesis miners is the miner that
   drew number k + 1, and the address it sealed for is the k-th genesis address.
   */
  lemma GenesisMinerOrder(c: Config, minerStart: nat, schedule: seq<nat>, s: State<Key>)
    requires c.localDrand ==> c.drands > 0
    requires Reaches(Programs(c), schedule, s) && Log(s, GenesisBlock) != []
    ensures forall p :: p in Log(s, Preseals) ==> p in Log(s, PickSeqNum)
    ensures |PresealTopic(minerStart, s)| == |Log(s, PickSeqNum)| == c.miners
    ensures forall k :: 0 <= k < c.miners ==>
      MinersOf(SortBySeqno(PresealTopic(minerStart, s)))[k] == Miner(minerStart + k, Log(s, PickSeqNum)[k])
  {
    ReachableInv(Programs(c), schedule, s);
    GenesisComesAfterEverybody(c, schedule, s);
    LogIsRoster(c, s, Preseals);
    PresealsHaveNumbers(c, s);
    forall k | 0 <= k < c.miners
      ensures MinersOf(SortBySeqno(PresealTopic(minerStart, s)))[k] == Miner(minerStart + k, Log(s, PickSeqNum)[k])
    {
      SortedPresealsFollowNumbers(minerStart, s, k);
    }
  }

  // ---------- dialling ----------

  /** The miners that p dials: those that published before it. */
  function Dialled(topic: seq<nat>, p: nat): seq<nat>
    requires p in topic
  {
    topic[..IndexOf(topic, p)]
  }

  /** The connecting loop; taken counts the messages it took from the topic. */
  method DialMiners(topic: seq<nat>, self: nat, miners: nat) returns (fullNetAddrs: seq<nat>, taken: nat)
    requires self in topic
    ensures fullNetAddrs == if IndexOf(topic, self) < miners then Dialled(topic, self) else topic[..miners]
    ensures taken == if IndexOf(topic, self) < miners then IndexOf(topic, self) + 1 else miners
  {
    var own := IndexOf(topic, self);
    fullNetAddrs, taken := [], 0;
    for i := 0 to miners
      invariant taken == i <= own
      invariant fullNetAddrs == topic[..i]
    {
      var m := topic[i];
      taken := taken + 1;
      if m == self {
        break;
      }
      fullNetAddrs := fullNetAddrs + [m];
    }
  }

  /** A published miner finds itself within the loop's bound, so the loop waits for no later message. */
  lemma DialLoopNeverWaits(c: Config, s: State<Key>, p: nat)
    requires (c.localDrand ==> c.drands > 0) && Inv(Programs(c), s)
    requires p in Log(s, MinersAddrs)
    ensures IndexOf(Log(s, MinersAddrs), p) < |Log(s, MinersAddrs)| <= c.miners
  {
    LogIsRoster(c, s, MinersAddrs);
  }

  /** What a miner dials is settled the moment it has published, whatever happens afterwards. */
  lemma DialListIsSettled(progs: seq<Program<Key>>, s: State<Key>, p: nat, schedule: seq<nat>, t: State<Key>)
    requires Inv(progs, s) && p in Log(s, MinersAddrs)
    requires Run(Stepper(progs), s, schedule) == Some(t)
    ensures p in Log(t, MinersAddrs) && Dialled(Log(t, MinersAddrs), p) == Dialled(Log(s, MinersAddrs), p)
  {
    LogsGrow(progs, s, schedule, t, MinersAddrs);
  }

  /** Every pair of published miners is dialled once, by the one that published later. */
  lemma {:induction false} DialledOnce(c: Config, s: State<Key>, a: nat, b: nat)
    requires (c.localDrand ==> c.drands > 0) && Inv(Programs(c), s)
    requires a in Log(s, MinersAddrs) && b in Log(s, MinersAddrs) && a != b
    ensures var topic := Log(s, MinersAddrs);
      && (a in Dialled(topic, b) <==> IndexOf(topic, a) < IndexOf(topic, b))
      && (a in Dialled(topic, b) <==> b !in Dialled(topic, a))
      && multiset(Dialled(topic, b))[a] <= 1
      && a !in Dialled(topic, a)
  {
    LogIsRoster(c, s, MinersAddrs);
    DialsAtMostOnce(Log(s, MinersAddrs), b, a);
  }

  lemma {:induction false} DialsAtMostOnce(topic: seq<nat>, b: nat, a: nat)
    requires b in topic && NoRepeats(topic)
    ensures multiset(Dialled(topic, b))[a] <= 1
  {
    AtMostOnce(Dialled(topic, b), a);
  }

  lemma {:induction false} AtMostOnce(log: seq<nat>, p: nat)
    requires NoRepeats(log)
    ensures multiset(log)[p] <= 1
  {
    if log != [] {
      AtMostOnce(log[1..], p);
      assert log == [log[0]] + log[1..];
    }
  }
}
