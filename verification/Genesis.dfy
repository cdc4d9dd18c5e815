/** How the bootstrapper turns the collected balances and preseals into a genesis template. */
module Genesis {

  /** build.FilecoinPrecision: the number of attoFIL in one FIL. */
  const FILECOIN_PRECISION: int := 1_000_000_000_000_000_000

  type Address = nat

  /** The balance is the attoFIL amount that filToAttoFil yields. */
  datatype InitialBalanceMsg = InitialBalanceMsg(addr: Address, balance: int)
  datatype Miner = Miner(id: nat, owner: nat)
  datatype PresealMsg = PresealMsg(miner: Miner, seqno: nat)

  datatype Account = Account(owner: Address, balance: int)
  datatype Outcome = Panicked | Assembled(accounts: seq<Account>, miners: seq<Miner>)

  function Total<T>(amount: T -> int, xs: seq<T>): int {
    if xs == [] then 0 else Total(amount, xs[..|xs| - 1]) + amount(xs[|xs| - 1])
  }

  /** Adding up: a single amount, and two lists one after the other. */
  lemma {:induction false} TotalAdds<T>(amount: T -> int, xs: seq<T>, ys: seq<T>, x: T)
    ensures Total(amount, [x]) == amount(x)
    ensures Total(amount, xs + ys) == Total(amount, xs) + Total(amount, ys)
  {
    if ys == [] {
      assert xs + ys == xs;
    } else {
      var n := |ys| - 1;
      TotalAdds(amount, xs, ys[..n], x);
      assert (xs + ys)[..|xs| + n] == xs + ys[..n];
    }
  }

  function Asked(m: InitialBalanceMsg): int { m.balance }

  function Held(a: Account): int { a.balance }

  lemma {:induction false} TotalsAgree(balances: seq<InitialBalanceMsg>, accounts: seq<Account>)
    requires |accounts| == |balances|
    requires forall i :: 0 <= i < |accounts| ==> accounts[i].balance == balances[i].balance
    ensures Total(Held, accounts) == Total(Asked, balances)
  {
    if accounts != [] {
      TotalsAgree(balances[..|balances| - 1], accounts[..|accounts| - 1]);
    }
  }

  /** Whole FIL in an attoFIL amount; big.Int.Div is Euclidean, as Dafny's division is. */
  function AttoFilToFil(atto: int): (fil: int)
    ensures fil * 1_000_000_000_000_000_000 <= atto < (fil + 1) * 1_000_000_000_000_000_000
  {
    atto / FILECOIN_PRECISION
  }

  // ---------- ordering the preseals ----------

  ghost predicate SortedBySeqno(msgs: seq<PresealMsg>) {
    forall i, j :: 0 <= i < j < |msgs| ==> msgs[i].seqno <= msgs[j].seqno
  }

  function InsertBySeqno(m: PresealMsg, msgs: seq<PresealMsg>): (r: seq<PresealMsg>)
    ensures multiset(r) == multiset(msgs) + multiset{m} && |r| == |msgs| + 1
  {
    if msgs == [] || m.seqno <= msgs[0].seqno then [m] + msgs
    else
      assert msgs == [msgs[0]] + msgs[1..];
      [msgs[0]] + InsertBySeqno(m, msgs[1..])
  }

  lemma AtLeast(msgs: seq<PresealMsg>, m: PresealMsg, low: nat)
    requires low <= m.seqno && forall i :: 0 <= i < |msgs| ==> low <= msgs[i].seqno
    ensures forall i :: 0 <= i < |msgs| + 1 ==> low <= InsertBySeqno(m, msgs)[i].seqno
  {
    var r := InsertBySeqno(m, msgs);
    forall i | 0 <= i < |r| ensures low <= r[i].seqno {
      assert r[i] in multiset(r);
      assert r[i] == m || r[i] in msgs;
    }
  }

  lemma {:induction false} InsertKeepsOrder(m: PresealMsg, msgs: seq<PresealMsg>)
    requires SortedBySeqno(msgs)
    ensures SortedBySeqno(InsertBySeqno(m, msgs))
  {
    if msgs != [] && m.seqno > msgs[0].seqno {
      InsertKeepsOrder(m, msgs[1..]);
      AtLeast(msgs[1..], m, msgs[0].seqno);
    }
  }

  /** sort.Slice by Seqno: some sorted permutation. */
  function SortBySeqno(msgs: seq<PresealMsg>): (r: seq<PresealMsg>)
    ensures multiset(r) == multiset(msgs) && |r| == |msgs|
  {
    if msgs == [] then []
    else
      assert msgs == [msgs[0]] + msgs[1..];
      InsertBySeqno(msgs[0], SortBySeqno(msgs[1..]))
  }

  lemma {:induction false} SortIsSorted(msgs: seq<PresealMsg>)
    ensures SortedBySeqno(SortBySeqno(msgs))
  {
    if msgs != [] {
      SortIsSorted(msgs[1..]);
      InsertKeepsOrder(msgs[0], SortBySeqno(msgs[1..]));
    }
  }

  /** The messages carry the sequence numbers 1..|msgs|, each once, in some order. */
  ghost predicate NumberedOnce(msgs: seq<PresealMsg>) {
    && (forall i :: 0 <= i < |msgs| ==> 1 <= msgs[i].seqno <= |msgs|)
    && (forall i, j :: 0 <= i < j < |msgs| ==> msgs[i].seqno != msgs[j].seqno)
  }

  lemma {:induction false} MultiplicityOfTwo<T>(a: seq<T>, i: nat, j: nat)
    requires i < j < |a| && a[i] == a[j]
    ensures multiset(a)[a[i]] >= 2
  {
    assert a == a[..j] + a[j..];
    assert a[i] in a[..j] && a[j] in a[j..];
  }

  lemma {:induction false} DistinctMultiplicity(a: seq<PresealMsg>, x: PresealMsg)
    requires forall i, j :: 0 <= i < j < |a| ==> a[i].seqno != a[j].seqno
    ensures multiset(a)[x] <= 1
    ensures forall y :: y in a && y.seqno == x.seqno && x in a ==> y == x
  {
    if a != [] {
      DistinctMultiplicity(a[1..], x);
      assert a == [a[0]] + a[1..];
    }
  }

  lemma {:induction false} SortKeepsMembers(msgs: seq<PresealMsg>)
    ensures forall k :: 0 <= k < |msgs| ==> SortBySeqno(msgs)[k] in msgs
  {
    var r := SortBySeqno(msgs);
    forall k | 0 <= k < |r| ensures r[k] in msgs {
      assert r[k] in multiset(r) && r[k] in multiset(msgs);
    }
  }

  lemma {:induction false} SortSeparates(msgs: seq<PresealMsg>, i: nat, j: nat)
    requires NumberedOnce(msgs) && i < j < |msgs|
    ensures SortBySeqno(msgs)[i].seqno < SortBySeqno(msgs)[j].seqno
  {
    var r := SortBySeqno(msgs);
    SortIsSorted(msgs);
    SortKeepsMembers(msgs);
    if r[i].seqno == r[j].seqno {
      DistinctMultiplicity(msgs, r[i]);
      assert r[i] == r[j];
      MultiplicityOfTwo(r, i, j);
      assert false;
    }
  }

  /** Sorting is blind to the arrival order: entry k is the message that carries number k + 1. */
  lemma {:induction false} SortPlacesByNumber(msgs: seq<PresealMsg>)
    requires NumberedOnce(msgs)
    ensures forall k :: 0 <= k < |msgs| ==> SortBySeqno(msgs)[k].seqno == k + 1 && SortBySeqno(msgs)[k] in msgs
  {
    var r := SortBySeqno(msgs);
    SortKeepsMembers(msgs);
    forall i, j | 0 <= i < j < |r| ensures r[i].seqno < r[j].seqno {
      SortSeparates(msgs, i, j);
    }
    StrictlyIncreasingFillsRange(r, |r|);
  }

  lemma {:induction false} StrictlyIncreasingFillsRange(r: seq<PresealMsg>, k: nat)
    requires k <= |r|
    requires forall i :: 0 <= i < |r| ==> 1 <= r[i].seqno <= |r|
    requires forall i, j :: 0 <= i < j < |r| ==> r[i].seqno < r[j].seqno
    ensures forall i :: 0 <= i < k ==> r[i].seqno == i + 1
  {
    if k > 0 {
      StrictlyIncreasingFillsRange(r, k - 1);
      LeavesRoom(r, k - 1);
      assert k > 1 ==> r[k - 2].seqno < r[k - 1].seqno;
    }
  }

  lemma {:induction false} LeavesRoom(r: seq<PresealMsg>, i: nat)
    requires i < |r|
    requires forall i :: 0 <= i < |r| ==> 1 <= r[i].seqno <= |r|
    requires forall i, j :: 0 <= i < j < |r| ==> r[i].seqno < r[j].seqno
    ensures r[i].seqno <= i + 1
    decreases |r| - i
  {
    if i + 1 < |r| {
      LeavesRoom(r, i + 1);
    }
  }

  // ---------- the collecting loops ----------

  method WaitForBalances(topic: seq<InitialBalanceMsg>, nodes: nat) returns (balances: seq<InitialBalanceMsg>)
    requires nodes <= |topic|
    ensures balances == topic[..nodes]
  {
    balances := [];
    for i := 0 to nodes
      invariant balances == topic[..i]
    {
      balances := balances + [topic[i]];
    }
  }

  method CollectPreseals(topic: seq<PresealMsg>, miners: nat) returns (preseals: seq<PresealMsg>)
    requires miners <= |topic|
    ensures SortedBySeqno(preseals) && multiset(preseals) == multiset(topic[..miners])
    ensures preseals == SortBySeqno(topic[..miners])
  {
    preseals := [];
    for i := 0 to miners
      invariant preseals == topic[..i]
    {
      preseals := preseals + [topic[i]];
    }
    SortIsSorted(preseals);
    preseals := SortBySeqno(preseals);
  }

  method SumBalances(balances: seq<InitialBalanceMsg>) returns (totalBalance: int)
    ensures totalBalance == Total(Asked, balances)
  {
    totalBalance := 0;
    for i := 0 to |balances|
      invariant totalBalance == Total(Asked, balances[..i])
    {
      assert balances[..i + 1][..i] == balances[..i];
      totalBalance := balances[i].balance + totalBalance;
    }
    assert balances[..|balances|] == balances;
  }

  method MakeAccounts(balances: seq<InitialBalanceMsg>) returns (accounts: seq<Account>)
    ensures |accounts| == |balances|
    ensures forall i :: 0 <= i < |accounts| ==> accounts[i] == Account(balances[i].addr, balances[i].balance)
  {
    accounts := [];
    for i := 0 to |balances|
      invariant |accounts| == i
      invariant forall j :: 0 <= j < i ==> accounts[j] == Account(balances[j].addr, balances[j].balance)
    {
      accounts := accounts + [Account(balances[i].addr, balances[i].balance)];
    }
  }

  function MinersOf(preseals: seq<PresealMsg>): (r: seq<Miner>)
    ensures |r| == |preseals|
  {
    seq(|preseals|, k requires 0 <= k < |preseals| => preseals[k].miner)
  }

  method MakeMiners(preseals: seq<PresealMsg>) returns (miners: seq<Miner>)
    ensures miners == MinersOf(preseals)
  {
    miners := [];
    for k := 0 to |preseals|
      invariant miners == MinersOf(preseals)[..k]
    {
      miners := miners + [preseals[k].miner];
    }
  }

  /**
   The bootstrapper's part between collecting balances and making the genesis block: it panics
   exactly when the balances, in whole FIL, reach max, and otherwise hands out what it was asked for.
   max is the raw value of types.TotalFilecoinInt, whatever unit that constant counts in.
   */
  method AssembleGenesis(
    balanceTopic: seq<InitialBalanceMsg>, presealTopic: seq<PresealMsg>, clients: nat, miners: nat, max: int)
    returns (r: Outcome)
    requires clients + miners <= |balanceTopic| && miners <= |presealTopic|
    ensures r.Panicked? <==> Total(Asked, balanceTopic[..clients + miners]) >= max * FILECOIN_PRECISION
    ensures r.Assembled? ==>
      Total(Held, r.accounts) == Total(Asked, balanceTopic[..clients + miners]) < max * FILECOIN_PRECISION
    ensures r.Assembled? ==> |r.accounts| == clients + miners
    ensures r.Assembled? ==> forall i :: 0 <= i < clients + miners ==>
      r.accounts[i] == Account(balanceTopic[i].addr, balanceTopic[i].balance)
    ensures r.Assembled? ==> r.miners == MinersOf(SortBySeqno(presealTopic[..miners]))
  {
    var balances := WaitForBalances(balanceTopic, clients + miners);
    var totalBalance := SumBalances(balances);
    if AttoFilToFil(totalBalance) >= max {
      return Panicked;
    }
    var preseals := CollectPreseals(presealTopic, miners);
    var genesisActors := MakeAccounts(balances);
    TotalsAgree(balances, genesisActors);
    var genesisMiners := MakeMiners(preseals);
    r := Assembled(genesisActors, genesisMiners);
  }
}
