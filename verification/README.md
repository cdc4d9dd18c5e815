# Verified models of the lotus-soup and graphsync test plans

The repository is a Testground test plan for Filecoin. Most of it drives Lotus; the code it owns
holds a handful of real protocols and data structures, and those are what is modelled and proved
here: how test instances coordinate through the sync service, how the recorder of miner states keeps
three redundant indexes, how the event-driven suspender behaves, and how the batch runner shares work.

`dafny verify dfyconfig.toml` checks everything.

## How it is organised

| file | contents |
|---|---|
| `Prelude.dfy`, `Runs.dfy` | sums over sequences; runs of a transition system, invariants, rankings |
| `SyncPrograms.dfy` | instances as straight-line programs over append-only logs (a `State` and a `Topic` both are one): the global invariant, deadlock freedom, bounded schedules, who must have posted what |
| `Bootstrap.dfy`, `BootstrapOrder.dfy`, `Genesis.dfy`, `Roster.dfy` | the bring-up handshake, the order in which its messages go out, the genesis template, sequence numbers and dialling |
| `Mining.dfy`, `MiningShutdown.dfy` | synchronized mining; how the main goroutines and the other instances end the run |
| `Graphsync.dfy` | the round protocol, the nodes of provider and requestors, teardown |
| `Paych.dfy` | vouchers and the sender/receiver protocol |
| `Decimal.dfy`, `DiffIndex.dfy`, `ChainState.dfy`, `SlashDetector.dfy`, `SlashWatch.dfy` | the recorder's indexes and the slash detector that reads them |
| `EventSpec.dfy`, `StateMachine.dfy`, `Suspender.dfy`, `DrandTarget.dfy` | event specs, the state-machine engine, its one client and the drand node that client suspends |
| `WorkerPool.dfy` | the batch runner |

A statement about every `schedule` (or `acts`) is a statement about every interleaving; instance
counts, rounds, lanes, runs and workers are arbitrary. Progress claims are about runs in which no
call fails and no timeout fires; safety claims need no such assumption about order or speed. Durations
and `time.ParseDuration` are parameters. Fetching a miner's state may fail at any point.

## What the proofs turned up

- Shutdown of synchronized mining can strand a miner. The farewell signal covers one block. If one
  miner leaves the loop with index e and another then checks block e+1 before its own flag is
  cleared, that other miner waits at barrier e+1 for ever (`Mining.MinerCanBeStranded` gives the
  run). `Mining.ShutdownCompletesIff` says this is the only way: a panic-free run at rest has
  finished exactly when no such late read took place. `MiningShutdown.EverybodyGetsThroughIff` carries
  this to the done barrier: after a late read no instance at all gets through it, otherwise all do.
- The event-spec parser inverts the printer on exactly the lists that are not empty and whose events
  are words other than "wait", without a blank or an arrow in them or a space character at an end
  (`EventSpec.RoundTrip`). The empty list prints as the empty string and parses to one empty entry,
  which the suspender ignores.
- With a local drand beacon and no drand node nobody gets past the first step
  (`Bootstrap.HandshakeCompletesIff`).
- With `-parallel 0` and at least one run the batch runner never completes
  (`WorkerPool.PoolCompletesIff`).
- A batch result whose output could not be set up does not carry its job, so its error is reported
  for run 0 (`WorkerPool.CollectedNames`).
- When recording a tipset fails half-way, `PrevHeight` stays behind while the miners listed before
  the failure are already one height ahead (`ChainStates.ChainState.RecordTipset`). The tables still
  agree with what was recorded, and the recorder stops there.
- A failed reload of the drand daemon goes unnoticed by the suspender, and the next halt stops a
  daemon that is already down (`DrandTarget.NeverStoppedTwiceIff`).

## Model

| member | source | states |
|---|---|---|
| `Mining.Lockstep` | lotus-soup/testkit/role_miner.go:531-573 | However and whenever miners stop, a miner that mines block i finds every miner past blocks 0..i-1; completed counts of any two miners, and final indices of any two that left, differ by at most one. |
| `Mining.OnlyLateReadsStrand` | lotus-soup/testkit/role_miner.go:531-586 | One step makes somebody stranded if and only if it is a check that finds the flag still up one block after some miner's last. |
| `Mining.StrandingIsForGood` | lotus-soup/testkit/role_miner.go:531-573 | No later step frees a stranded miner: its barrier cannot open. |
| `Mining.GivesUpIff` | lotus-soup/testkit/role_miner.go:538-567 | Over any run: a miner has panicked at block i exactly when 100 attempts at it have failed; it leaves block i behind by exactly one success, after fewer than 100 failures; while mining it can always try again. |
| `Mining.TerminalIffFinished` | lotus-soup/testkit/role_miner.go:531-586 | A panic-free state in which nothing can move has all goroutines finished exactly when nobody is stranded. |
| `Mining.ShutdownCompletesIff` | lotus-soup/testkit/role_miner.go:531-586 | A panic-free run that comes to rest has all mining goroutines finished if and only if it contains no late read. |
| `Mining.MinersFinish` | lotus-soup/testkit/role_miner.go:531-574 | With all flags down and nobody stranded, every continuation is bounded in length and, unless a miner panics (which takes 100 failed attempts at a block, see GivesUpIff), ends with all mining goroutines finished. |
| `MiningShutdown.EverybodyGetsThroughIff` | lotus-soup/testkit/role_miner.go:579-589 | When a panic-free run of main and mining goroutines and all other instances comes to rest: without a late read every instance is through the done barrier, with one none is. |
| `MiningShutdown.EverybodyFinishes` | lotus-soup/testkit/role_miner.go:579-589 | With all flags down and nobody stranded, every continuation of the whole is bounded and, without a panic, ends with every instance through the done barrier. |
| `Mining.MinerCanBeStranded` | lotus-soup/testkit/role_miner.go:531-586 | A concrete run of two miners and one client after which miner 1 waits at block 1 for ever. |
| `Bootstrap.HandshakeCompletes` | lotus-soup/testkit/role_bootstrapper.go:49-176 | For any instance counts, no interleaving outlasts the roles' calls, and a state in which no role can step is one in which all are through. |
| `Bootstrap.HandshakeCompletesIff` | lotus-soup/testkit/node.go:154-175 | Every run that stops has completed, if and only if a local beacon has at least one drand node. |
| `Bootstrap.GenesisComesAfterEverybody` | lotus-soup/testkit/role_bootstrapper.go:54-76 | Once the genesis block is out, every client and miner has published its balance, every miner has drawn its number and published its preseal, and nobody did so twice. |
| `Bootstrap.ReadyMeansAddressed` | lotus-soup/testkit/role_miner.go:362-393 | Past the ready barrier every miner's addresses are on the topic. |
| `Bootstrap.ClientNeverWaitsForMiners` | lotus-soup/testkit/role_client.go:115-122 | A client collecting miner addresses after the barrier can always take the next one. |
| `BootstrapOrder.DrandOrder` | lotus-soup/testkit/role_drand.go:225-352 | No drand node starts before all addresses are known, none joins the key generation before all have started, neither relay addresses nor the configuration go out before all have joined, and the configuration waits for all relay addresses. |
| `BootstrapOrder.ChainOrder` | lotus-soup/testkit/role_miner.go:70-125 | With a local beacon no balance goes out before its configuration; no preseal before every miner has drawn its number; no node address before the genesis block. |
| `BootstrapOrder.ThroughMeansAllOut` | lotus-soup/testkit/role_miner.go:392-393 | Once any instance is through the handshake, every message of every kind has been published by each of its publishers, once. |
| `Bootstrap.PostersAreExact` | lotus-soup/testkit/role_drand.go:225-355 | Which instances signal or publish each key, each exactly once: the drand ceremony's keys by the drand nodes, the configuration by their leader alone, and so on. |
| `SyncPrograms.NoDeadlock` | lotus-soup/testkit/role_client.go:54-116 | Programs whose waits refer to lower-ranked keys than what they post later, and whose wait targets are covered by the posts, can step until all are finished. |
| `SyncPrograms.ScheduleIsBounded` | graphsync/main.go:167-235 | A measure over all processes falls at each step, so that no schedule is longer than its first value. |
| `SyncPrograms.FullLogHasAll` | lotus-soup/testkit/role_bootstrapper.go:176 | A barrier that has opened with as many signals as there are signallers has been reached by each of them. |
| `Genesis.AttoFilToFil` | lotus-soup/testkit/role_bootstrapper.go:197-202 | The whole number of FIL that an attoFIL amount contains. |
| `Genesis.TotalAdds` | lotus-soup/testkit/role_bootstrapper.go:61-64 | The total of one balance is that balance, and totals of two lists add up. |
| `Genesis.WaitForBalances` | lotus-soup/testkit/node.go:54-69 | Takes the first so many messages of the topic, in their order. |
| `Genesis.CollectPreseals` | lotus-soup/testkit/node.go:71-90 | Takes the first so many preseals and returns a permutation sorted by sequence number. |
| `Genesis.SortPlacesByNumber` | lotus-soup/testkit/node.go:85-87 | When the preseals carry the numbers 1..n once each, entry k after sorting is the one numbered k+1, whatever the arrival order. |
| `Genesis.AssembleGenesis` | lotus-soup/testkit/role_bootstrapper.go:56-95 | With max the raw value of types.TotalFilecoinInt: panics exactly when the balances come to max * 10^18 attoFIL or more; otherwise one account per balance, whose total is the checked one and below that bound, and the miners in order of their numbers. |
| `Roster.GenesisMinerOrder` | lotus-soup/testkit/role_miner.go:97-120 | When the genesis block is out, entry k of its miners is the miner that drew number k+1 and sealed for the address MinerStart+k. |
| `Roster.DialMiners` | lotus-soup/testkit/role_miner.go:376-390 | The loop dials the entries before its own, in their order, and takes no message after its own. |
| `Roster.DialLoopNeverWaits` | lotus-soup/testkit/role_miner.go:377-382 | A published miner's own entry is within the loop's bound and already there. |
| `Roster.DialListIsSettled` | lotus-soup/testkit/role_miner.go:362-390 | Nothing that happens after a miner has published changes whom it dials. |
| `Roster.DialledOnce` | lotus-soup/testkit/role_miner.go:371-390 | Every pair of published miners is dialled exactly once, by the later one; nobody dials itself. |
| `Graphsync.ParseLatencies` | graphsync/main.go:133-140 | All durations in order, or nothing exactly when one is malformed. |
| `Graphsync.ParseNetworkConfig` | graphsync/main.go:127-158 | (B+1)(L+1) parameters, entry r pairing bandwidth r/(L+1) with latency r%(L+1) of the zero-prepended lists; a panic exactly when a latency does not parse. |
| `Graphsync.RoundsComplete` | graphsync/main.go:80-94 | For any number of requestors and rounds, every schedule is bounded and a stuck state is a finished one. |
| `Graphsync.RoundIsolation` | graphsync/main.go:167-235 | While a requestor transfers in round r, the provider's link has params[r]'s latency and 8 times its bandwidth modulo 2^64; the CIDs requested are those published for round r and the requestor stores nothing else; the provider stores exactly those CIDs. |
| `Graphsync.TransferPinsProvider` | graphsync/main.go:246-316 | A transfer in round r holds the provider between configuring round r and the next barrier. |
| `Graphsync.NodeServesRound` | graphsync/main.go:256-316 | From configuring round r to the next barrier, the provider's link and list are those of round r and its store holds exactly the CIDs published for it, whatever files earlier rounds generated. |
| `Graphsync.HostOutlivesTransfers` | graphsync/main.go:80-94 | The provider gets to closing its host only when every requestor has gone through all its rounds. |
| `Graphsync.ProviderNode.RemovePrevious` | graphsync/main.go:256-261 | After the removal loop the store holds what it held but for the listed CIDs, the list is empty and the link untouched. |
| `Graphsync.ProviderNode.GenerateFiles` | graphsync/main.go:265-295 | After the generating loop the list holds the round's roots in order, and the store holds them besides what it held. |
| `Graphsync.ProviderNode.RunRound` | graphsync/main.go:246-316 | One turn of the loop takes the node from its state at the start of round r to that at the start of round r+1 and publishes round r's CIDs. |
| `Graphsync.NodeNext` | graphsync/main.go:246-316 | The node that the rounds make is the one that the provider's program makes instruction by instruction. |
| `Graphsync.PublishedIsHeld` | graphsync/main.go:302 | What the topic of round r delivers is what the provider lists when it publishes there. |
| `Graphsync.RoundsInStep` | graphsync/main.go:174-175 | Nobody gets past the barrier of a round, or past the last one, before everybody has finished the rounds before it. |
| `Graphsync.RequestorNode.RequestAll` | graphsync/main.go:195-234 | The requests add the blocks of the listed CIDs to the store, and nothing else. |
| `Graphsync.RequestorNode.RunRound` | graphsync/main.go:167-235 | One turn of the requestor's loop clears the store of the round before and leaves it with exactly the CIDs of the message. |
| `Paych.VouchersAreConserved` | lotus-soup/paych/stress.go:100-109 | After any p vouchers the lanes' best vouchers redeem p increments, which with the remaining Total - p increments make up the channel amount; at the end each lane's best is its full share. |
| `Paych.PlanIsRoundRobin` | lotus-soup/paych/stress.go:173-187 | Voucher i * laneCount + j is for lane j and worth i + 1 increments. |
| `Paych.CreateVouchers` | lotus-soup/paych/stress.go:173-192 | The nested loops create the planned vouchers; the balance recorded after each voucher and what the vouchers so far redeem add up to the channel amount, and nothing remains at the end. |
| `Paych.PaymentsComplete` | lotus-soup/paych/stress.go:169-214 | Sender and receiver always finish; no voucher is waited for in vain. |
| `Paych.ReceiverIsCovered` | lotus-soup/paych/stress.go:249-278 | What the receiver has added was sent, and the channel covers it at all times. |
| `Paych.SettleComesLast` | lotus-soup/paych/stress.go:199-211 | Whenever the sender is about to settle, the receiver holds every voucher and they redeem exactly the channel amount. |
| `Paych.PaymentOrder` | lotus-soup/paych/stress.go:169-211 | No voucher goes out before the receiver is ready; the sender is done only when all are out; the settle message goes out only when all have been added; the receiver ends only after it. |
| `Decimal.RoundTrip` | lotus-soup/rfwp/e2e.go:134-138 | A printed integer parses back to itself, so that distinct amounts have distinct index keys. |
| `Decimal.PrintDigits` | lotus-soup/rfwp/diffs.go:92-101 | Integers print in base 10, one digit per factor of ten, with a minus sign if negative. |
| `DiffIndex.ValueIndexIsExact` | lotus-soup/rfwp/diffs.go:89-104 | A height is listed under v exactly when v is the value recorded at it. |
| `DiffIndex.StepIndexIsExact` | lotus-soup/rfwp/diffs.go:89-104 | A height is listed under d exactly when it is not the first and d, not zero, is the step from the height recorded before it. |
| `DiffIndex.ListsIncrease` | lotus-soup/rfwp/diffs.go:89-104 | Every list of heights is strictly increasing. |
| `DiffIndex.KeysArePrinted` | lotus-soup/rfwp/diffs.go:89-104 | The keys are exactly the prints of the values, and of the non-zero steps, that occur. |
| `DiffIndex.StepsAreConserved` | lotus-soup/rfwp/diffs.go:96-103 | The sum over d of d times the number of heights listed under d is the last recorded value less the first. |
| `DiffIndex.HistoryIsDetermined` | lotus-soup/rfwp/diffs.go:89-104 | Two histories are equal if and only if they have the same first value, the same set of heights and the same step index, so that these three determine every recorded value. |
| `ChainStates.TablesAreExact` | lotus-soup/rfwp/diffs.go:75-286 | Whenever the lock is free, for every miner and each of the 13 value types, the three tables say exactly what was recorded, with increasing lists and conserved steps. |
| `ChainStates.PlainEntries` | lotus-soup/rfwp/diffs.go:89-241 | Under each of seven names the first table holds the field of that name as it was read. |
| `ChainStates.RoundedEntries` | lotus-soup/rfwp/diffs.go:134-194 | Under Balance, LockedFunds and AvailableFunds it holds the multiple of 10^15 at or below the field. |
| `ChainStates.CounterEntries` | lotus-soup/rfwp/diffs.go:242-285 | Under Faults, ProvenSectors and Recoveries it holds the counter, as int64 makes of it. |
| `ChainStates.NamesAgree` | lotus-soup/rfwp/diffs.go:75-286 | Under each name the other two tables list exactly the heights at which the first one's entry has the value, or differs by the step from the entry before. |
| `ChainStates.ChainState.RecordValue` | lotus-soup/rfwp/diffs.go:89-104 | One block of recordDiff changes the three entries of one miner and value type as the point's index prescribes, and nothing else. |
| `ChainStates.ChainState.RecordDiff` | lotus-soup/rfwp/diffs.go:75-286 | Keeps the tables consistent with the histories, which fixes every entry by name (PlainEntries, RoundedEntries, CounterEntries, NamesAgree), and adds one snapshot to one miner's history. |
| `ChainStates.ChainState.RecordTipset` | lotus-soup/rfwp/chain_state.go:62-134 | Consistent again when the lock is released, error or not; success moves PrevHeight on with one snapshot per miner; an error leaves PrevHeight and exactly the miners ahead of the failure recorded, the failing one only if it failed after recordDiff. |
| `ChainStates.ChainState.UpdateChainState` | lotus-soup/rfwp/chain_state.go:52-138 | Over a whole run snapshot i of every miner is what was read of it at tipset i, for all tipsets, or up to the first failure and exactly the miners read ahead of it; it succeeds exactly when miners are listed and read at every tipset. |
| `DiffIndex.RoundBalance` | lotus-soup/rfwp/diffs.go:288-291 | The multiple of 10^15 at or below the amount. |
| `SlashDetector.SlashIsForGood` | lotus-soup/rfwp/e2e.go:133-154 | Once the slash conditions hold of a history they hold of every longer one. |
| `SlashDetector.SlashConditionsIff` | lotus-soup/rfwp/e2e.go:147-154 | The conditions hold if and only if the history has three drops of different sizes. |
| `SlashDetector.SlashIsSubstantial` | lotus-soup/rfwp/e2e.go:133-154 | When they hold there are three drops of different rounded size, at least 6*10^15 together, and more than 3*10^15 before rounding. |
| `SlashWatch.NegativeKeys` | lotus-soup/rfwp/e2e.go:133-145 | A negative key is in the index exactly when the recorded locked funds dropped by that amount. |
| `SlashWatch.NegativeAmounts` | lotus-soup/rfwp/e2e.go:130-145 | The loop, in any order of the map, finds each distinct drop once, and no key fails to parse. |
| `SlashWatch.LookForSlash` | lotus-soup/rfwp/e2e.go:126-155 | A poll succeeds exactly when the rounded history has three distinct drops. |
| `SlashWatch.Watcher.Tick` | lotus-soup/rfwp/e2e.go:120-156 | Before a detection a tick decides exactly the slash conditions of the recorded locked funds; after one it closes the channel; it never reports a parse error. |
| `SlashWatch.DetectionIsForGood` | lotus-soup/rfwp/e2e.go:120-158 | A detection survives the recording of any further tipset, complete or broken off. |
| `SlashWatch.DetectedIff` | lotus-soup/rfwp/e2e.go:133-154 | A miner is taken for slashed exactly when its locked funds as read, rounded to 10^15, dropped by three different amounts. |
| `SlashWatch.DetectionIsSubstantial` | lotus-soup/rfwp/e2e.go:133-154 | What a detection means for the locked funds as they were read. |
| `StateMachines.StateMachine.GetNextState` | lotus-soup/statemachine/statemachine.go:67-76 | The configured next state, or Default and a rejection. |
| `StateMachines.StateMachine.SendEvent` | lotus-soup/statemachine/statemachine.go:79-108 | The call takes a run of the configured graph from the current state and event: (Previous, Current) is its last edge, unchanged for an empty one; the context is what its actions made it; the outcome is the run's. |
| `StateMachines.RunsAreUnique` | lotus-soup/statemachine/statemachine.go:83-107 | State, event and context admit one run only, so that this contract fixes what SendEvent does. |
| `StateMachines.NoOpEnds` | lotus-soup/statemachine/statemachine.go:101-105 | An action that returns "NoOp" ends the call, with success. |
| `StateMachines.StopsIffRanked` | lotus-soup/statemachine/statemachine.go:83-107 | Every call returns if and only if some ranking of (state, event, context) falls along the transitions. |
| `StateMachines.ClosedNeverCrashes` | lotus-soup/statemachine/statemachine.go:90-101 | A call panics exactly by entering a state without an action; with a closed configuration it never does. |
| `EventSpec.ParseEventSpec` | lotus-soup/statemachine/suspend.go:104-128 | The loop computes the parse of the spec. |
| `EventSpec.EntriesFollowFields` | lotus-soup/statemachine/suspend.go:104-128 | For any input the entries come from the fields, in order, one each, and exactly the malformed waits are dropped. |
| `EventSpec.EventField` | lotus-soup/statemachine/suspend.go:107-125 | A field that, trimmed, does not begin with the word wait is the event named by its first word; what follows is ignored. |
| `EventSpec.WaitField` | lotus-soup/statemachine/suspend.go:112-123 | A field that, trimmed, is wait and one word is the delay that word parses to, or nothing if it is no duration. |
| `EventSpec.WaitFieldWithMore` | lotus-soup/statemachine/suspend.go:113-116 | A wait with more than one argument is dropped. |
| `EventSpec.SplitJoins` | lotus-soup/statemachine/suspend.go:105 | Splitting loses nothing and leaves no separator in a piece. |
| `EventSpec.TrimAround` | lotus-soup/statemachine/suspend.go:108 | Trimming takes the space around a text and nothing else. |
| `EventSpec.RoundTrip` | lotus-soup/statemachine/suspend.go:104-128 | Where durations print as words that parse back: parsing what was printed gives back the list if and only if it is not empty and each event in it is a word other than wait, with no delay. |
| `Suspenders.OneEvent` | lotus-soup/statemachine/suspend.go:54-77 | In the suspender's configuration a halt while running and a resume while suspended make one call and one transition, and every other event is rejected. |
| `Suspenders.CallsKeepAlternating` | lotus-soup/statemachine/suspend.go:79-97 | Whatever the events, calls to the target go on alternating, from any alternating past. |
| `Suspenders.CallsAreLongest` | lotus-soup/statemachine/suspend.go:79-97 | The calls made are a longest halt, resume, halt, ... choice of the spec's events. |
| `Suspenders.HaltWaitResume` | lotus-soup/statemachine/suspend.go:79-97 | The spec "halt -> wait d -> resume" halts a running target and resumes it. |
| `Suspenders.Suspender.RunEvents` | lotus-soup/statemachine/suspend.go:79-97 | The target ends as those calls leave it, the calls made are recorded in order, and the alternation invariant holds. |
| `Suspenders.Suspender.SuspendedMeansHalted` | lotus-soup/statemachine/suspend.go:54-77 | The machine is suspended exactly when the last call was a halt. |
| `DrandTarget.DrandInstance.Start` | lotus-soup/testkit/role_drand.go:51-79 | Creates the daemon the first time and loads it afterwards; success leaves it up, a failure leaves the field alone. |
| `DrandTarget.HistoryIs` | lotus-soup/testkit/role_drand.go:129-138 | The complete history of a started daemon under any alternating calls, in terms of which reloads succeed. |
| `DrandTarget.RestartsFollowStops` | lotus-soup/testkit/role_drand.go:64-78 | For every spec every restart takes the load branch and comes right after a stop, and there is always a daemon to stop. |
| `DrandTarget.NeverStoppedTwiceIff` | lotus-soup/testkit/role_drand.go:129-173 | For every spec no daemon is stopped while already down, if and only if every reload that a later halt follows succeeds. |
| `DrandTarget.LifeOfNode` | lotus-soup/testkit/role_drand.go:64-78 | From a fresh instance whose first start succeeds, over every spec: created once, then only loads, each right after a stop; and no stop finds it down exactly when every reload that a halt follows succeeds. |
| `WorkerPool.JobsArePartitioned` | lotus-soup/runner/main.go:101-119 | In every reachable state each of the jobs 1..runs is unsent, queued, in hand, delivered or collected, in exactly one of these places, and nothing else is. |
| `WorkerPool.PoolCompletes` | lotus-soup/runner/main.go:101-119 | Every schedule is bounded, a stuck state is a final one, and main has then collected one result per job. |
| `WorkerPool.PoolCompletesIff` | lotus-soup/runner/main.go:101-119 | Every run that stops has completed, if and only if there is a worker or nothing to do. |
| `WorkerPool.WorkersNeverShare` | lotus-soup/runner/main.go:51-57 | Two workers running at once have different jobs and different output directories. |
| `WorkerPool.CollectedNames` | lotus-soup/runner/main.go:27-49 | Each collected result names its own run, except those of failed set-ups, which name run 0. |
| `WorkerPool.CollectedOutcomes` | lotus-soup/runner/main.go:45-56 | Every collected result has the outcome with which a worker running that job finished it in the schedule, and the job finished with no other. |
| `WorkerPool.CollectsAfterSending` | lotus-soup/runner/main.go:107-115 | Main collects only after it has sent all jobs and closed the channel. |
| `WorkerPool.JobsAreInOrder` | lotus-soup/runner/main.go:107-111 | Jobs leave the channel in the order 1, 2, 3, and so on. |

## Left out

- Lotus, drand, libp2p, graphsync and Testground calls: each is an abstract step. Mining one block succeeds or fails per attempt, a transfer completes, a publish appends, a barrier counts.
- Errors, cancelled contexts and timeouts of the sync protocols: progress claims are about runs without them. The panics of mining and of parsing are modelled.
- The sync protocols (mining, bootstrap, graphsync, payment channels) and the worker pool are step systems on values, one step per sync-service call, flag read or channel operation; the memory of the individual goroutines is not modelled, except for the provider's node and the loops over received messages, which are imperative.
- `Mining.ShutdownCompletesIff`: the read and the clearing of the stop flag are atomic; Go's memory model gives the unsynchronized variable no such guarantee.
- `MiningShutdown.EverybodyGetsThroughIff`: what instances other than miners do before they signal the done barrier; they signal in their own time, and clients ask for the stop independently of that.
- `Roster.DialledOnce`: messages of a topic reach all subscribers in one order, which is what the sync service promises.
- Natural mining, metrics, logs, HTTP and RPC servers, repositories, key generation and sealing.
- `filToAttoFil` and the range choosers of the test environment: amounts are given in attoFIL as integers.
- The pubsub tracer role and its address topic; the configuration is that of a run without one.
- `Genesis.AssembleGenesis`: the unit of types.TotalFilecoinInt is not in the repository. The check compares it with whole FIL, so the bound it enforces is that constant times 10^18 attoFIL; if the constant itself counts attoFIL, that is 10^18 times the supply.
- `Genesis.CollectPreseals`: sort.Slice is modelled by an insertion sort. For equal numbers it would leave the order open; the numbers are shown to be distinct.
- `ChainStates.ChainState.RecordDiff`: the thirteen blocks of recordDiff, one per value type, are one loop over the type names, in their order.
- `ChainStates.ChainState.RecordTipset`: heights increase, the same miners are listed at every tipset and none twice. A miner that appears later has no previous value, which recordDiff does not provide for. The files and JSON written meanwhile are not modelled.
- `SlashWatch.NegativeAmounts`: the map of negative differences is keyed by big integers that hold pointers, so that its size counts insertions; the model counts the appended amounts, which are as many.
- `Graphsync.NodeServesRound`: a file is its root CID; the blocks beneath a root, which removing the root leaves in a real store, are not modelled, and removals do not fail.
- Two watchers on one recorder, and the report of a parse error through the channel, which is shown not to happen.
- `StateMachines.StateMachine.SendEvent`: actions are deterministic and the call needs a ranking, without which it need not return; the mutex is held throughout, so that calls do not overlap. An action that sends events to the machine it belongs to would block on the mutex and is left out.
- `Suspenders.Suspender.RunEvents`: waiting takes no time, and target calls are functions on the target's state.
- `DrandTarget.DrandInstance.Start`: key files and listen addresses are not modelled; whether drand comes up is a parameter. The wait for the chain to catch up in Resume is left out, as it changes nothing.
- `EventSpec.RoundTrip`: strings are sequences of characters; input that is not valid UTF-8 is left out. That durations print as words that parse back is an assumption about Go's time package.
- `WorkerPool.WorkersNeverShare`: directories are compared as path strings under a clean output path.
- Payment channels with several senders: the receiver counts the vouchers of one. Currency amounts are non-negative.
- Rendering as text, HTML and JSON, the sector and proving summaries, and the composer.
