# Verified model of the sharded block emulator

A Dafny model of the parts of the emulator that keep counts, money, order or agreement, with proofs of what they keep.

| file | models |
|---|---|
| `Sums.dfy`, `Shards.dfy`, `Transactions.dfy` | sums over maps and slices, default account placement, transactions |
| `EdgeCounts.dfy`, `Graph.dfy`, `Clpa.dfy`, `Scores.dfy` | the account partitioner: adjacency lists, full recount, incremental update, scores, whole runs |
| `Committee.dfy` | the supervisor: injection in rounds, re-partition rounds, the workers' copies of the map |
| `Chain.dfy`, `TxPool.dfy`, `Relay.dfy`, `RelayNode.dfy`, `Injection.dfy` | execution of blocks and the relay protocol between shards |
| `Accounts.dfy`, `Delivery.dfy` | what happens to one account and to one transaction, over whole runs |
| `Pbft.dfy`, `PbftNode.dfy` | consensus inside a shard in a fixed view |
| `PbftVotes.dfy`, `PbftQuorum.dfy`, `PbftCatchUp.dfy`, `PbftLock.dfy` | when a node votes, what a quorum certifies, what catch-up can reach, and the lock it takes |
| `PbftRuns.dfy`, `PbftRepeat.dfy`, `PbftScenario.dfy` | concrete runs that respect every wait and in which one of these fails |
| `FeeTracker.dfy`, `Justitia.dfy`, `Incentives.dfy` | fee window, subsidy modes and their controllers, split, classification |
| `Scheduler.dfy`, `PooledTxs.dfy` | scoring and block selection |
| `PriorityPool.dfy`, `PriorityLeader.dfy` | the priority pool and its leader in the relay protocol |
| `BlockRoom.dfy`, `Epochs.dfy` | what a block can leave behind, and epochs of the shadow price |
| `Ledger.dfy`, `Rewards.dfy`, `Budget.dfy` | settlement of cross-shard rewards, per-block subsidy budgets |

Code that updates objects is a class whose methods are proved against functions of the old state; the properties are
proved about those functions. Protocols are state machines: `Relay` and `Pbft` say what one step of the whole system
may do, `RelayNode`, `PriorityLeader` and `PbftNode` tie each handler of one node to such a step.

Conventions. `big.Int.Div` is Euclidean, like `/` here. Amounts are unbounded, as `big.Int` is; the budget module
wraps at 64 bits. A missing (nil) amount is `None` or 0, as the code treats it. Maps are visited in an arbitrary
order. `sort.Slice` may order ties as it likes; the sifting of `container/heap` is modelled with the priority queue.
Floating point is exact real arithmetic, with the infinities and the not-a-number that the partitioner's
division can produce. Hashes and digests carry what they are computed from, so they are injective; a state root is
the state. A clock is a parameter, one reading for each transaction stamped.

## What the proofs found

The code is modelled as it is. Where it does less than its comments or names promise, the exact condition is proved.

- The incremental update of the partitioner equals the recount if and only if the moved vertex has no self-loop; each
  self-loop leaves the cross-edge count short by two (`Clpa.CLPAState.ChangeShardRecompute`,
  `Clpa.FastFormFailsOnSelfLoop`). The supervisor's reader drops rows whose sender is the recipient
  (supervisor/committee/committee_relay.go:54), so such an edge can only come through `AddEdge` itself. The result of
  a run is right even then, because it ends with a recount (`Clpa.CLPAState.Partition`).
- The comment at incentive/justitia/justitia.go:500 says the two shares add up to fee plus subsidy. They do if a share
  was clamped or the halved sums are even; otherwise one unit is lost (`Justitia.Split2Exact`).
- Both ends of a cross-shard transaction classify it alike if and only if both average fees are positive or the total
  covers them (`Justitia.BothEndsAgreeIff`). A shard without fee history has average 0.
- A cross-shard transfer refused at the source for lack of funds is still relayed and paid out at the destination
  (`Relay.RefusedTransferIsRelayed`). Money is conserved up to exactly the summed value of such transfers
  (`Relay.MoneyConserved`), and every transaction is executed once at each of its ends (`Delivery.EveryTransactionOnce`).
- Nothing checks the sign of a value, so a transfer can overdraw its recipient (`Relay.NegativeValueOverdraws`). A
  transfer does not, exactly if it is refused, its recipient lives elsewhere, it is charged to its own recipient, or the
  recipient's balance covers it (`Chain.TxSolventIff`). In every run no balance is negative at any moment of any block
  if and only if each transaction is covered in this sense at its turn (`Relay.NeverOverdrawnIff`).
- A node that reaches a commit quorum for a request it lacks asks from the height after the one it is waiting for
  (consensus_shard/pbft_all/messageHandle.go:253). If the missing block is the one it is waiting for, no reply adds it
  (`PbftCatchUp.CatchUpSkipsTheMissingBlock`). A reply extends a chain if and only if it is complete and covers the
  height after the chain (`PbftCatchUp.CatchUpExtendsIff`), and a node falls behind its sequence number exactly as
  `PbftCatchUp.FallsBehindIff` says. Once all its questions start too high it never gets another block
  (`PbftCatchUp.NeverCatchesUp`). The stage waits do not prevent this: `PbftScenario.ANodeFallsBehind` is a run of two
  nodes in which every wait is respected. One node has prepared height 1 and misses the request for height 2; the
  commit for height 2 arrives first, so the node asks for height 2 while it lacks block 1. This costs progress, not
  agreement.
- The confirm maps count delivered messages, since every decoded message has its own sender object
  (`PbftQuorum.CountIsDeliveries`). A block is added by a commit when exactly 2f+1 deliveries have been counted, and they
  come from 2f+1 distinct nodes, each of which decided on that block, if and only if the node counted no message twice
  before (`PbftQuorum.QuorumCertificateIff`). `PbftRepeat.OneNodeIsEnough` is a run with f = 1 that respects every wait
  and adds a block on one node's commit message, delivered three times. The agreement theorem holds with the counting as
  it is.
- A catch-up reply releases the asking lock whether or not it is held (consensus_shard/pbft_all/messageHandle.go:381),
  and releasing it unheld stops the program. In every run a node that is not the leader has been stopped if and only if
  at some point it had handled more replies than it had asked questions (`PbftLock.CrashedIff`). A reply delivered twice
  does it (`PbftScenario.DuplicateReplyCrashes`); where every wait is respected and no question and no reply is handled
  twice, no node is stopped (`PbftLock.NoNodeCrashes`).
- A scheduling round puts transactions back by hash, so an unselected transaction is lost exactly when it shares its
  hash with a selected one (`PriorityPool.NothingLostIff`); exactly then the leader's new block is no proposal step of
  the relay protocol (`PriorityLeader.PriorityLeader.GenerateBlock`).
- In Lagrangian mode the epoch total grows by the subsidies of what a round selects and of what it leaves behind
  (`Scheduler.Scheduler.SelectForBlock`). Over an epoch it is what was issued if and only if no transaction with a
  subsidy was ever left behind (`Epochs.CountsIssuedIff`); one that waits counts in every round it waits
  (`Epochs.WaitingCountsEveryRound`), and the price is set by that total (`Epochs.RunEpoch`), never below the price that
  the issued amount would set (`Epochs.PriceNeverBelowIssued`). Before a round it is certain that no subsidy is left
  behind if and only if every transaction with one has no more rivals in the pool, itself included, than the block has
  room for (`BlockRoom.NoGrantLeftIff`); a rival is a transaction it does not outrank.
- Scaling a subsidy is exact if and only if the product fits 64 bits (`SubsidyBudget.ScalesExactlyIff`). An active
  budget is not exceeded as long as the sum of the subsidies fits (`SubsidyBudget.BudgetNotExceeded`). For no more entries
  than the maximum has units, and as long as no product wraps, it is kept if and only if the sum fits
  (`SubsidyBudget.NotExceededIff`); a block left unscaled exceeds it exactly when its sum wraps
  (`SubsidyBudget.UnscaledExceedsIff`). Neither condition can go: with more entries, or with wrapping products, a sum that
  wraps can end on either side (`SubsidyBudget.RoundedUnderMaximum`, `SubsidyBudget.WrappedProductsEitherWay`).

## Model

| member | source | states |
|---|---|---|
| EdgeCounts.Handshake | partition/partition_CLPA.go:102-143 | Summed over all vertices' adjacency lists, neighbours in shard k seen from outside are the edges leaving k, and from inside twice the edges within k. |
| EdgeCounts.LeavingIsTwiceCrossing | partition/partition_CLPA.go:128-136 | The per-shard sums of leaving edges add up to exactly twice the cross-shard edges, so the halving is exact. |
| EdgeCounts.CountsArePositions | partition/partition_CLPA.go:102-143 | The counts are numbers of edges in the list: those with an end in the shard, with exactly one end in it, with ends in two shards. |
| EdgeCounts.MoveEffect | partition/partition_CLPA.go:146-168 | The true effect of moving one vertex on every shard's edge count and on the cross count, in terms of its neighbours' shards and its self-loops. |
| Graphs.Graph.AddVertex | partition/graph.go:23-28 | Adds the vertex and changes no list. |
| Graphs.Graph.AddEdge | partition/graph.go:31-45 | Every list stays the in-order neighbour list of the undirected edges added, each edge in both its ends' lists. |
| Graphs.Graph.CopyGraph | partition/graph.go:48-60 | A source with lists is copied exactly; one without leaves the old lists in place, so the copy has the same lists exactly if there were lists to copy or none before. |
| Clpa.MinEdgesIsMinimum | partition/partition_CLPA.go:137-142 | The minimum search returns a lower bound of all counts that is one of them, unless none is below the starting value. |
| Clpa.MemberCountsTotal | partition/partition_CLPA.go:47-56 | For any partition the per-shard vertex counts add up to the number of vertices. |
| Clpa.MoveMember | partition/partition_CLPA.go:259-261 | Moving a vertex changes exactly two shards' member counts, by one each. |
| Clpa.CLPAState.constructor | partition/partition_CLPA.go:171-177 | The fresh partitioner is empty and its vertex counts are exact. |
| Clpa.CLPAState.Preset | supervisor/committee/committee_clpa.go:209-211 | Placing an account before any edge mentions it keeps the vertex counts exact. |
| Clpa.CLPAState.AddVertex | partition/partition_CLPA.go:47-56 | A known vertex keeps its shard, a new one gets its default; the vertex counts stay exact if and only if the vertex is new to the graph. |
| Clpa.CLPAState.AddEdge | partition/partition_CLPA.go:59-70 | One more edge, missing ends added, no placement changed, vertex counts kept exact. |
| Clpa.CLPAState.ComputeEdges2Shard | partition/partition_CLPA.go:102-143 | Counts computed from the lists are the edges touching each shard, the cross-shard edges, and the minimum of the former. |
| Clpa.CLPAState.ChangeShardRecompute | partition/partition_CLPA.go:146-168 | After a real move the incremental counters equal the recount if and only if the vertex has no self-loop; called without a move, if and only if it has no neighbour in its own shard. |
| Clpa.CLPAState.ApplyMove | partition/partition_CLPA.go:146-160 | The loop over neighbours adds the stated net change to each shard's count and to the cross count. |
| Clpa.NetChangeOfMove | partition/partition_CLPA.go:146-168 | The loop's net changes are the true effect of the move, short by the self-loops. |
| Clpa.FastFormExactIff | partition/partition_CLPA.go:146-168 | On values: the fast form agrees with the slow one exactly on vertices without self-loops, or without own-shard neighbours if nothing moved. |
| Clpa.FastFormFailsOnSelfLoop | partition/partition_CLPA.go:146-168 | One self-loop and one move make the fast form wrong and the cross count negative. |
| Clpa.CLPAState.GetShardScore | partition/partition_CLPA.go:215-228 | The loop counts the edges to the shard and scores it; what the score says is in the Scores rows below. |
| Scores.ScoreEquation | partition/partition_CLPA.go:215-228 | Degree times minimum times the score is the number of edges to the shard times what the penalized load leaves of the minimum. |
| Scores.ScoreWithoutMinimum | partition/partition_CLPA.go:215-228 | With a minimum of 0 a shard with edges and a positive penalized load scores minus infinity, one without edges or load has no score. |
| Scores.ScoreWithoutEdges | partition/partition_CLPA.go:215-228 | A vertex without edges has no score for any shard. |
| Scores.LoadLowersScore | partition/partition_CLPA.go:215-228 | Of two shards with equally many neighbours the more loaded one scores strictly less. |
| Scores.EdgesRaiseScoreIff | partition/partition_CLPA.go:215-228 | Of two equally loaded shards the one with more neighbours scores more if and only if the penalized load is below the minimum. |
| Clpa.CLPAState.BestShard | partition/partition_CLPA.go:241-254 | The scan picks the first neighbouring shard of best score above the start value, or stays, for any choice of scores and with not-a-number scores skipped. |
| Scores.NothingBeatsChosen | partition/partition_CLPA.go:241-254 | No shard with neighbours of the vertex scores more than the one it goes to. |
| Scores.LoadedShardNotChosen | partition/partition_CLPA.go:241-254 | A vertex never goes to a shard when another one has as many of its neighbours and less load. |
| Scores.MajorityWins | partition/partition_CLPA.go:241-254 | Without a penalty a vertex only goes where most of its neighbours are. |
| Scores.FirstOfTheBest | partition/partition_CLPA.go:241-254 | Among shards of equal score the one first met along the vertex's edges is chosen. |
| Scores.ChosenAboveFloor | partition/partition_CLPA.go:240-254 | A vertex leaves its shard only for one that scores above -9999. |
| Scores.LighterShardWins | partition/partition_CLPA.go:215-254 | With one neighbour in a shard of 10 edges and one in a shard of 30, the scores are 1/4 and -1/4 and the lighter shard is chosen. |
| Clpa.CLPAState.Choose | partition/partition_CLPA.go:239-258 | The best shard is found, and the vertex moves exactly if its threshold is not reached, the best shard is another one and its own would not become empty. |
| Clpa.CLPAState.Visit | partition/partition_CLPA.go:237-265 | One visit makes the stated choice and its updates and records what the choice depended on; all counters stay exact, edge counters on graphs without self-loops. |
| Clpa.CLPAState.MoveTo | partition/partition_CLPA.go:255-264 | One move keeps vertex counts exact and, without self-loops, edge counts too. |
| Clpa.CLPAState.Sweep | partition/partition_CLPA.go:236-266 | One iteration visits every vertex exactly once, each visit starting where the one before ended and, without self-loops, choosing on true counters. |
| Clpa.CLPAState.Partition | partition/partition_CLPA.go:231-274 | Whole run: exactly MaxIterations sweeps over all vertices; vertex and edge counters exact at the end, no non-empty shard emptied, each vertex moves at most min(50, MaxIterations) times, start overlaid with the result is the final partition, the returned number is the true cross-edge count; without self-loops every choice was made on true counters and the incremental count equals the recount. |
| Clpa.RunProgress | partition/partition_CLPA.go:231-274 | Every run that its record describes ends with the start overlaid with exactly the moved vertices, each moved at most once a sweep and at most 50 times. |
| Scores.QuietSweepIsRest | partition/partition_CLPA.go:236-266 | A sweep in which no vertex moves leaves each one where its neighbours and the counters want it, unless it has moved 50 times or is the last of its shard. |
| Committee.TxSending | supervisor/committee/committee_relay.go:160-208 | For any positive injection speed the messages sent are the list, marked with routing fields and its own clock readings, in rounds of that many transactions and one for the rest, each round with one message to every shard. |
| Committee.WhatIsMarked | supervisor/committee/committee_relay.go:185-204 | Field by field what the injector sets, a default fee only where there is none, and that it leaves the rest alone. |
| Committee.MessageOfRound | supervisor/committee/committee_relay.go:160-208 | Round r sends shard s, as its own message, its part of the r-th slice of injectSpeed transactions. |
| Committee.RoundsCount | supervisor/committee/committee_relay.go:160-208 | There is one message for every shard in every round and no other. |
| Committee.RoutedConcat | supervisor/committee/committee_relay.go:186-207 | What a shard gets of two lists in a row is what it gets of each, in order. |
| Shards.ShardOfSuffix | utils/utils_partition.go:11-21 | An address ending in eight hexadecimal digits lives in the shard they number, modulo the number of shards. |
| Committee.RoundsDeliver | supervisor/committee/committee_relay.go:160-208 | Over all rounds each shard receives exactly the order-preserving filter of the list by sender shard. |
| Committee.RoundsFit | supervisor/committee/committee_relay.go:164-181 | Every message goes to an existing shard and carries no more transactions than the injection speed. |
| Committee.GatherStep | supervisor/committee/committee_relay.go:186-207 | Gathering one transaction keeps every shard's batch equal to its part of the transactions since the last round. |
| Committee.RoutedLength | supervisor/committee/committee_relay.go:160-208 | The shards together receive as many transactions as were listed. |
| Committee.CLPACommittee.HandleBlockInfo | supervisor/committee/committee_clpa.go:214-230 | Every reported transfer becomes one edge and no account changes its shard. |
| Committee.CLPACommittee.Repartition | supervisor/committee/committee_clpa.go:142-152 | After an epoch the final partition, the merged map and the fresh partitioner place every account alike. |
| Committee.CLPACommittee.ClpaReset | supervisor/committee/committee_clpa.go:206-212 | The fresh partitioner has penalty 0.5 and 100 iterations, holds no edge and agrees with the supervisor's map on every account in it. |
| Committee.PartitionTable.AccountTransfer | consensus_shard/pbft_all/accountTransfer_module.go:169-175 | Updating a worker's map entry by entry in any order overlays the whole round. |
| Committee.PartitionTable.UpdatePartitionMap | chain/blockchain.go:61-66 | One entry is set and no other changes. |
| Committee.LaggingWorker | chain/blockchain.go:68-75 | A worker with only the first j rounds places an account like the supervisor exactly when the missed rounds together leave it where it was. |
| Committee.SupervisorRound | supervisor/committee/committee_clpa.go:142-152 | Transfers are reported, the partitioner runs and its result is merged: the final partition covers every account reported and agrees with the merged map. |
| Committee.CompleteRound | supervisor/committee/committee_clpa.go:142-152 | A round completed by the supervisor adds one map to the rounds and leaves every worker where it was. |
| Committee.ApplyNext | consensus_shard/pbft_all/accountTransfer_module.go:169-175 | One worker applies the next round it misses, if any, and no other worker changes. |
| Committee.CompletedRounds | supervisor/committee/committee_clpa.go:105-186 | For any interleaving of rounds completed and rounds applied by any number of workers: the supervisor's map is the overlay of all rounds, each worker's that of the rounds it has applied, and supervisor, fresh partitioner, last final partition and every worker that has caught up place each account alike. |
| Chain.AccountState.Deduct | core/account.go:30-36 | Deducts exactly when the balance suffices. |
| Chain.AccountState.Deposit | core/account.go:39-41 | Adds the amount. |
| Chain.ApplyTx | chain/blockchain.go:96-147 | One round of the execution loop computes the effect of one transaction, which Accounts.WhoPaysAndIsPaid spells out, and reports no change only if there is none. |
| Chain.GetUpdateStatusTrie | chain/blockchain.go:83-147 | The loop over a body computes the effect of its transactions in order, which Accounts.BalanceAfterBody adds up, and keeps the old state if no account changed. |
| Accounts.WhoPaysAndIsPaid | chain/blockchain.go:96-147 | One transaction, account by account: short of funds nothing changes; otherwise the sender charged here pays, the recipient living here is paid, no other account changes, and a new account gets the initial balance and the number of the transaction as nonce. |
| Accounts.TransferInsideShard | chain/blockchain.go:96-147 | A transfer between two fresh accounts of one shard takes its value from the one and gives it to the other. |
| Accounts.Untouched | params/static_config.go:21 | An account without an entry holds 10^44. |
| Accounts.BalanceAfterBody | chain/blockchain.go:83-147 | A body changes an account by the sum of what its transactions move on it, those short of funds at their turn moving nothing. |
| Accounts.BalanceOverRun | consensus_shard/pbft_all/pbftInside_module.go:57-120 | In every run an account holds the initial balance plus what its shard's committed blocks moved on it. |
| Chain.ExecutionBalance | chain/blockchain.go:83-147 | A shard's balance change plus what it sends away equals what relayed transactions pay out plus refused cross-shard value. |
| Chain.ExecutionStaysHome | chain/blockchain.go:83-147 | Execution creates entries only for accounts of the shard. |
| Chain.ExecutionNonNegative | chain/blockchain.go:83-147 | Transfers of non-negative value never overdraw an account. |
| Chain.TxSolventIff | chain/blockchain.go:96-147 | From non-negative balances a transaction leaves one negative exactly if it is not refused, its recipient lives here, it is not a charged transfer to oneself and the balance plus value is below zero. |
| Chain.ExecutionSolventIff | chain/blockchain.go:83-147 | No balance is negative at any moment of a block exactly if every transaction is covered at its turn. |
| TxPools.TxPool.AddTxs2Pool | core/txpool.go:41-54 | The transactions join the end of the queue in order, each stamped with its own clock reading where it carries no time or original proposal time. |
| Transactions.WhenStamped | core/txpool.go:41-54 | A time already carried is kept, a missing one is the clock's; the first proposal's time likewise, from the time; nothing else changes. |
| TxPools.TxPool.PackTxs | core/txpool.go:64-74 | The oldest transactions, as many as fit, leave; the queue splits without loss. |
| TxPools.TxPool.AddRelayTx | core/txpool.go:97-105 | The transaction joins the end of its shard's relay list and no other list changes; after ClearRelayPool there is no map to add to, and the call needs InitRelayPool first. |
| Relay.RoutingKept | consensus_shard/pbft_all/pbftInside_module.go:80-112 | Every step keeps: unrelayed transactions sit at the sender's shard, relayed ones at the recipient's, in pools, blocks and messages. |
| Relay.OutboxValue | consensus_shard/pbft_all/toolFuncs.go:114-137 | The relay messages of a block carry exactly the value bound for other shards. |
| Delivery.EveryTransactionOnce | consensus_shard/pbft_all/pbftInside_module.go:57-120 | In every run and for every transaction: the copies injected are waiting for their sender's shard or were executed there, and of those that cross shards the executed ones are waiting for their recipient's shard or were executed there too. |
| Delivery.ExecutedAtMostOnce | consensus_shard/pbft_all/pbftInside_module.go:57-120 | No transaction is executed more often than injected, the recipient's shard never runs ahead of the sender's, and when nothing waits both have executed every copy. |
| Delivery.OutgoingConcat | consensus_shard/pbft_all/toolFuncs.go:114-137 | Relayed transactions keep their order in the block. |
| Delivery.MarksOnTheWay | consensus_shard/pbft_all/pbftInside_module.go:93-105 | A transaction is marked as relayed when it leaves, with incentives on as cross-shard too, and as in its second phase when it arrives; nothing else changes. |
| Relay.StepBalance | consensus_shard/pbft_all/pbftInside_module.go:57-120 | No step changes balance changes plus value in flight, but for refused cross-shard transfers at commit. |
| Relay.MoneyConserved | consensus_shard/pbft_all/pbftInside_module.go:57-120 | In every run, balance changes plus value in flight equal the summed value of refused cross-shard transfers, and both "incorrect tx" stops are unreachable. |
| Relay.RefusedTransferIsRelayed | chain/blockchain.go:116-120 | A refused cross-shard transfer changes no account at the source and is relayed all the same. |
| Relay.NegativeValueOverdraws | chain/blockchain.go:126-146 | A charged transfer on fresh accounts leaves its recipient below zero exactly if its value is below minus the initial balance. |
| Relay.NeverOverdrawnIff | chain/blockchain.go:83-147 | In every run, no balance is negative at any moment of any committed block if and only if every transaction is covered at its turn, and no world has a negative balance then. |
| Relay.BalancesNeverNegative | chain/blockchain.go:83-147 | A condition the injector can keep: if no negative value is injected, no balance of any shard is negative in any run. |
| RelayNode.Leader.HandleRelay | consensus_shard/pbft_all/pbftOutside_module.go:35-57 | A relay message is a delivery step of the protocol, second-phase marks included; the sender's height is noted. |
| RelayNode.Leader.HandleInjectTx | consensus_shard/pbft_all/pbftOutside_module.go:87-95 | An injection message is a delivery step of the protocol. |
| RelayNode.Leader.HandleFeeInfoSync | consensus_shard/pbft_all/pbftOutside_module.go:99-115 | Another shard's average is stored and no other changes. |
| RelayNode.Leader.GenerateBlock | chain/blockchain.go:169-194 | With the first-in first-out pool, packing and executing is a proposal step, with the oldest transactions up to the block size. |
| RelayNode.Leader.HandleInCommit | consensus_shard/pbft_all/pbftInside_module.go:57-180 | Committing is a commit step: it stops exactly on a misrouted body, otherwise sends one message to every other shard and reports the three lists; with incentives on, the fee window moves by the block's own fees and every other shard is told the average. |
| RelayNode.Leader.ClassifyBody | consensus_shard/pbft_all/pbftInside_module.go:80-118 | The loop files every transaction as inner, relay 1 or relay 2, and fills the relay pool with exactly the outgoing ones, marked as relayed and, with incentives on, as cross-shard. |
| RelayNode.Leader.UpdateFeeTracker | consensus_shard/pbft_all/pbftInside_module.go:206-233 | The window gains the mean of the positive fees of transactions that stay in their shard; without any, nothing changes. |
| RelayNode.Leader.BroadcastFeeInfo | consensus_shard/pbft_all/pbftInside_module.go:237-272 | One copy of the shard's average for every other shard. |
| RelayNode.Leader.RelayMsgSend | consensus_shard/pbft_all/toolFuncs.go:114-137 | One message per other shard in shard order. |
| RelayNode.ReportedOnce | consensus_shard/pbft_all/pbftInside_module.go:80-118 | The three lists together are the body, each transaction once, with the marks it is reported with. |
| RelayNode.ReportedWhere | consensus_shard/pbft_all/pbftInside_module.go:80-118 | Each list holds its kind only: inside the shard, leaving it, come from elsewhere. |
| RelayNode.HowReported | consensus_shard/pbft_all/pbftInside_module.go:80-118 | A transaction is reported as executed, with the relay marks if it leaves the shard. |
| RelayNode.WhichFeesAveraged | consensus_shard/pbft_all/pbftInside_module.go:206-218 | A block averages an amount as often as a transaction that is neither cross-shard nor relayed pays it, if it is positive. |
| RelayNode.OthersToldOnce | consensus_shard/pbft_all/pbftInside_module.go:258-267 | Every shard but the sender is told the average once. |
| PriorityLeader.RoundConservesIff | core/txpool_justitia.go:154-185 | On transaction contents: queue after plus selected is queue before plus arrived exactly if no unselected entry shares a hash with a selected one. |
| PriorityLeader.PriorityLeader.GenerateBlock | chain/blockchain.go:169-194 | With the priority pool, a block packed while a message arrives is a delivery and a proposal step exactly if no unselected entry shares a hash with a selected one; distinct hashes suffice. |
| Injection.InjectorFollowsProtocol | supervisor/committee/committee_relay.go:160-208 | Every message of the injector is an injection step of the relay protocol. |
| Injection.InjectedTxBothEnds | supervisor/committee/committee_relay.go:185-206 | What the injector marks on a transaction between two shards is what both schedulers go by: a non-zero fee, and the same phase at both ends exactly if both averages are positive or the total covers them. |
| Pbft.LeaderCommits | consensus_shard/pbft_all/messageHandle.go:213-283 | At the leader a commit that is not out of date is for the block it holds the sequence lock for, and that block continues its chain. |
| Pbft.CommitExtendsIff | consensus_shard/pbft_all/messageHandle.go:213-283 | A commit message extends the chain exactly when it completes 2f+1 counted messages for a held, unanswered request for the next height. |
| Pbft.HandleFollows | consensus_shard/pbft_all/messageHandle.go:90-382 | Every handler keeps the node on the leader's proposals and sends only messages about them. |
| Pbft.RunKeepsInv | consensus_shard/pbft_all/messageHandle.go:15-382 | The protocol invariant holds at every point of every run. |
| Pbft.PrefixAgreement | consensus_shard/pbft_all/messageHandle.go:15-382 | With one honest leader and arbitrary delay, order, loss and duplication, every chain is a prefix of the leader's proposals, any two chains are comparable, and the sequence lock is never released unheld. |
| Pbft.ChainsOnlyGrow | chain/blockchain.go:232-250 | No step rewrites a chain, catch-up included. |
| PbftVotes.PrePrepareVotesIff | consensus_shard/pbft_all/messageHandle.go:90-146 | A pre-prepare is answered with a prepare message if and only if it is for the height waited for, carries its request's digest, and its block has the stated body and names the chain's last block as parent. |
| PbftVotes.ProposalVotedIff | consensus_shard/pbft_all/messageHandle.go:90-146 | On the leader's proposals that is: for the height after the chain, if the node waits for it. |
| PbftVotes.ProposalVoted | consensus_shard/pbft_all/messageHandle.go:15-146 | A node on the leader's chain and height votes for what the leader proposes. |
| PbftVotes.PrePrepareKept | consensus_shard/pbft_all/messageHandle.go:108-125 | A request is kept under its digest and height unless it is out of date or does not match its digest. |
| PbftVotes.BlockAddedIff | chain/blockchain.go:232-241 | A block is added if and only if its number is the next one and it names the last block as its parent. |
| PbftVotes.DecidedIff | consensus_shard/pbft_all/messageHandle.go:151-208 | In every run a node's count for a request is the number of prepare messages it counted while waiting for its height and holding it, and it has decided to commit if and only if that is at least 2f+1. |
| PbftVotes.DecidesAtIff | consensus_shard/pbft_all/messageHandle.go:184-206 | The commit message goes out exactly with the delivery that brings the count to 2f+1. |
| PbftVotes.DecidesOnce | consensus_shard/pbft_all/messageHandle.go:184-206 | It goes out once. |
| PbftVotes.CommitSentIff | consensus_shard/pbft_all/messageHandle.go:184-206 | A node's commit message for a request is in the net if and only if it counted 2f+1 prepare messages. |
| PbftVotes.StageIsVotes | consensus_shard/pbft_all/messageHandle.go:127-275 | In a run that respects the waits the stage is one more than the votes the node cast in its round. |
| PbftVotes.WaitsIff | consensus_shard/pbft_all/messageHandle.go:103-226 | In such a run a current prepare message waits until the node has voted in its round, a current commit message until it has voted twice, and all wait while a handler is blocked. |
| PbftCatchUp.AddBlocksReach | consensus_shard/pbft_all/pbftInside_module.go:188-203 | Adding consecutive proposals takes a chain to the last of them exactly if they cover its next height, and leaves it alone otherwise. |
| PbftCatchUp.CollectedIs | consensus_shard/pbft_all/messageHandle.go:302-314 | What is sent back is the requests held, height by height, up to the first one missing. |
| PbftCatchUp.QuestionAnsweredIff | consensus_shard/pbft_all/messageHandle.go:289-333 | Only the leader answers, to the node that asked, and completely if and only if it holds every height asked for. |
| PbftCatchUp.RepliedHeights | consensus_shard/pbft_all/messageHandle.go:347-352 | Every request of a reply is kept under its height, and no other height changes. |
| PbftCatchUp.RepliedRequests | consensus_shard/pbft_all/messageHandle.go:347-352 | The requests of a reply are held and answered for, and no others are added. |
| PbftCatchUp.ReplyVotesIff | consensus_shard/pbft_all/messageHandle.go:353-379 | After a reply a prepare message goes out if and only if the next height's request is held and fits the chain. |
| PbftCatchUp.CatchUpExtendsIff | consensus_shard/pbft_all/messageHandle.go:336-382 | A catch-up reply extends a chain if and only if it is complete and covers the height after the chain, which then ends at the reply's last height. |
| PbftCatchUp.CatchUpSkipsTheMissingBlock | consensus_shard/pbft_all/messageHandle.go:240-265 | A node with a quorum for a request it lacks asks from the height after the one it waits for, or blocks if an earlier question is open, and no reply to such a question adds a block to its chain. |
| PbftCatchUp.BlockedAsksLater | consensus_shard/pbft_all/messageHandle.go:240-265 | A handler blocked on the asking lock goes on when a reply arrives, takes the lock and asks from the second height after the reply's last. |
| PbftCatchUp.FallsBehindIff | consensus_shard/pbft_all/messageHandle.go:213-382 | A handler takes an in-step node past the height after its chain exactly if a quorum completes for a later request it holds, or a reply ends beyond its chain without extending it. |
| PbftCatchUp.BypassedStays | consensus_shard/pbft_all/messageHandle.go:213-382 | No step of any node mends a node all of whose questions and answers start too high. |
| PbftCatchUp.NeverCatchesUp | consensus_shard/pbft_all/messageHandle.go:213-382 | Such a node gets no further block in any run. |
| PbftScenario.ANodeFallsBehind | consensus_shard/pbft_all/messageHandle.go:224-266 | A run of two nodes respecting every stage wait and the request lock ends with the leader on block 1 and the other node bypassed on an empty chain. |
| PbftQuorum.OneSenderSuffices | consensus_shard/pbft_all/messageHandle.go:233-240 | One commit message handled 2f+1 times, and not before, extends the chain. |
| PbftQuorum.CountIsDeliveries | consensus_shard/pbft_all/toolFuncs.go:22-34 | In every run a node's count for a request is the number of its commit messages delivered and not out of date, and at most 2f until the request is answered for. |
| PbftQuorum.SendersAreDeliveriesIff | consensus_shard/pbft_all/toolFuncs.go:22-34 | A node has counted no more senders than deliveries, and as many exactly if it counted no message twice. |
| PbftQuorum.CountIsSendersIff | consensus_shard/pbft_all/toolFuncs.go:22-34 | The count is at least the number of distinct senders heard and equals it exactly if no message was counted twice. |
| PbftQuorum.QuorumCertificateIff | consensus_shard/pbft_all/messageHandle.go:213-283 | Whenever a commit adds a block, exactly 2f+1 deliveries for it were counted; they come from at least 2f+1 distinct nodes if and only if the node counted no message for it twice; every sender counted is a node that decided to commit it. |
| PbftRepeat.OneNodeIsEnough | consensus_shard/pbft_all/messageHandle.go:213-283 | A run of four nodes with f = 1 that respects every wait: one node's commit message, delivered three times, adds a block. |
| PbftLock.LockStep | consensus_shard/pbft_all/messageHandle.go:213-382 | While every question and reply is handled at most once, each step keeps: a node with an open question holds the asking lock, has one open question at most, and no question repeats. |
| PbftLock.CommitLock | consensus_shard/pbft_all/messageHandle.go:240-265 | A commit handler of a node other than the leader asks if and only if 2f+1 commits complete for an unanswered request it lacks and the asking lock is free, and blocks if and only if the lock is taken. |
| PbftLock.CrashedIff | consensus_shard/pbft_all/messageHandle.go:240-381 | In every run a node other than the leader has released a lock it does not hold if and only if at some point it had handled more replies than it had asked questions. |
| PbftLock.NoNodeCrashes | consensus_shard/pbft_all/messageHandle.go:245-381 | In a run that respects the waits and handles no question and no reply twice, no node releases a lock it does not hold. |
| PbftScenario.DuplicateReplyCrashes | consensus_shard/pbft_all/messageHandle.go:336-382 | A run that respects every wait in which a reply delivered twice makes a node release a lock it does not hold. |
| PbftNode.PbftConsensusNode.constructor | consensus_shard/pbft_all/pbft.go:87-175 | The initial state over the stored chain, with a third of the other nodes tolerated. |
| PbftNode.PbftConsensusNode.AddBlock | chain/blockchain.go:232-241 | A block whose height or parent does not continue the chain is dropped, any other one is added. |
| PbftNode.PbftConsensusNode.Set2DMap | consensus_shard/pbft_all/toolFuncs.go:22-34 | One more counted message for the digest in the chosen map. |
| PbftNode.PbftConsensusNode.Propose | consensus_shard/pbft_all/messageHandle.go:15-88 | Refines the proposal of the protocol. |
| PbftNode.PbftConsensusNode.HandlePrePrepare | consensus_shard/pbft_all/messageHandle.go:90-148 | Waits exactly while the stage is below 1 for a current message or a blocked handler holds the lock; otherwise refines the pre-prepare handler of the protocol. |
| PbftNode.PbftConsensusNode.HandlePrepare | consensus_shard/pbft_all/messageHandle.go:151-210 | Waits exactly while the stage is below 2 for a current message or a blocked handler holds the lock; otherwise refines the prepare handler of the protocol, which counts and decides as PbftVotes.DecidedIff says. |
| PbftNode.PbftConsensusNode.HandleCommit | consensus_shard/pbft_all/messageHandle.go:213-283 | Waits exactly while the stage is below 3 for a current message or a blocked handler holds the lock; otherwise refines the commit handler of the protocol, which blocks after counting when it must ask while an earlier question is open. |
| PbftNode.PbftConsensusNode.HandleRequestOldSeq | consensus_shard/pbft_all/messageHandle.go:289-333 | The collecting loop returns the requests up to the first missing height. |
| PbftNode.PbftConsensusNode.HandleSendOldSeq | consensus_shard/pbft_all/messageHandle.go:336-382 | Refines the catch-up handler of the protocol, with the release of the asking lock and its hand-over to a blocked handler. |
| PbftNode.PbftConsensusNode.HandleForSequentialRequest | consensus_shard/pbft_all/pbftInside_module.go:188-203 | The blocks are added in order, unless some are missing. |
| FeeTracker.MeanBounds | fees/expectation/avg.go:131-146 | A floored mean lies between any bounds of its elements. |
| FeeTracker.Tracker.AverageWithin | fees/expectation/avg.go:35-84 | The average of a shard whose latest news is its own block lies between any bounds of the block averages in its window. |
| FeeTracker.WindowSlides | fees/expectation/avg.go:77-80 | Appending to the window and trimming it gives the window of the longer history. |
| FeeTracker.LastIsNewest | fees/expectation/avg.go:77-80 | Trimming keeps as many as fit, each at the same distance from the end. |
| FeeTracker.Tracker.WindowHoldsNewest | fees/expectation/avg.go:74-80 | A shard's window holds its newest block averages in order, as many as fit. |
| FeeTracker.Tracker.OldBlocksForgotten | fees/expectation/avg.go:74-84 | Trackers that agree on a shard's newest WindowSize block averages agree on its average, whatever came before. |
| FeeTracker.WhichFeesCount | fees/expectation/avg.go:48-63 | A positive fee counts with at most 10^14, a missing, zero or negative one not at all. |
| FeeTracker.MeanIsFloored | fees/expectation/avg.go:131-146 | The mean times the number of elements reaches their sum to within less than that number. |
| FeeTracker.Tracker.BlockAverage | fees/expectation/avg.go:42-64 | The loop computes the floored mean of the positive fees, each capped, and 0 without any. |
| FeeTracker.Tracker.OnBlockFinalized | fees/expectation/avg.go:35-84 | The shard's average becomes the mean of the newest block averages, as many as the window holds, within 0 and the cap; no other shard changes. |
| FeeTracker.Tracker.UpdateRemoteShardFee | fees/expectation/avg.go:206-223 | The reported average is stored as it is and the window kept. |
| FeeTracker.Replay | fees/expectation/avg.go:35-84 | After any interleaving, a shard whose latest news is its own block has as average the floored mean of the newest of its block averages, from position n - WindowSize on if there are n. |
| Justitia.Split2Exact | incentive/justitia/justitia.go:501-550 | Exactly what the split pays out: the total, less one unit if unclamped halves are odd; shares non-negative exactly if the total is; swapping the averages swaps the shares. |
| Justitia.Split2LosesAUnit | incentive/justitia/justitia.go:500-550 | A total of 1 between equal shards pays out nothing. |
| Justitia.SharesFollowAverages | incentive/justitia/justitia.go:501-550 | Unclamped shares differ by exactly what the averages differ by; clamped, the end with the lower average gets nothing and the other everything; clamped is a total smaller than the difference. |
| Justitia.SharesMonotone | incentive/justitia/justitia.go:501-550 | A higher fee lowers neither share. |
| Justitia.ClassifyClosedForm | incentive/justitia/justitia.go:580-615 | The case depends on the total alone, by two thresholds, through rounding and clamping, except that an average of 0 takes everything as Case 1. |
| Justitia.BothEndsAgreeIff | incentive/justitia/justitia.go:580-615 | Both ends classify alike exactly if both averages are positive or the total covers them. |
| Justitia.DestAvgFairness | incentive/justitia/justitia.go:425-449 | With the destination's average as subsidy, the source takes a transaction first exactly if its own fee reaches the source's average, with a score independent of the destination. |
| Justitia.SumAvgAlwaysCase1 | incentive/justitia/justitia.go:438-449 | With the sum of averages as subsidy every transaction is Case 1 at both ends. |
| Justitia.FallbackModesAreFair | incentive/justitia/justitia.go:425-488 | A custom mode without its function and a dynamic mode without its mechanism take a transaction first at the source exactly if its fee reaches the source's average, and at the destination exactly if so or the destination has no fee history. |
| Incentives.PayoutByMode | incentive/justitia/justitia.go:425-488 | Beyond the fee the proposers get nothing, the destination's average, both averages, one ether or what the custom function says, less the unit an odd split loses. |
| Incentives.NoSubsidyNeedsBothAverages | incentive/justitia/justitia.go:425-430 | Without a subsidy a transaction is first at either end if and only if its own fee covers both averages. |
| Incentives.ExtremeFixedAlwaysFirst | incentive/justitia/justitia.go:465-467 | One ether puts every transaction first at both ends. |
| Justitia.SubsidyFallsWithLambda | incentive/justitia/justitia.go:221-266 | A higher shadow price never raises the Lagrangian subsidy. |
| Incentives.LargestAffordable | incentive/justitia/justitia.go:221-266 | The Lagrangian subsidy is the largest whole amount that at the price in force costs no more than the congestion-weighted average; the price in force is at least its minimum. |
| Justitia.ViolationIff | incentive/justitia/justitia.go:282-298 | The normalized violation reaches d exactly if at least 1 + d times the limit was issued. |
| Incentives.PriceMoves | incentive/justitia/justitia.go:271-315 | One epoch moves the price by alpha times the violation, or to the bound this would pass. |
| Incentives.PriceFollowsViolations | incentive/justitia/justitia.go:271-315 | As long as no bound is passed, the price has moved by alpha times the sum of the violations. |
| Justitia.LambdaInBounds | incentive/justitia/justitia.go:271-315 | After any positive number of epochs the shadow price is within its bounds. |
| Justitia.OverspendingRaisesLambda | incentive/justitia/justitia.go:271-315 | m epochs overspending by at least fraction d raise the price by m times alpha times d, up to its maximum. |
| Justitia.ThriftNeverRaisesLambda | incentive/justitia/justitia.go:271-315 | Epochs within the limit never raise the price. |
| Justitia.Mechanism.CalcPIDSubsidy | incentive/justitia/justitia.go:147-216 | The error is utilization less target, the integral accumulates it over the elapsed seconds within its anti-windup bounds, and the subsidy is the average times the clamped multiplier that gains, error, integral and slope give. |
| Justitia.PIDAtRest | incentive/justitia/justitia.go:147-216 | At the target utilization and without history the subsidy is the average itself. |
| Incentives.UtilizationTimesCapacity | incentive/justitia/justitia.go:155-165 | Utilization times the capacity, or 1000 where none is configured, is the queue length. |
| Incentives.SecondsCounted | incentive/justitia/justitia.go:167-171 | A clock that has not moved counts as one second. |
| Incentives.IntegralGrows | incentive/justitia/justitia.go:173-182 | The integral grows by error times seconds and stops at plus and minus ten. |
| Incentives.OutputMoves | incentive/justitia/justitia.go:184-188 | From rest the output moves by the integral gain per accumulated error, the derivative gain per change of error and second, and the proportional gain per steady error. |
| Incentives.FactorOfOutput | incentive/justitia/justitia.go:194-203 | The average is multiplied with one more than the output, between its two bounds. |
| Justitia.Mechanism.CalculateRAB | incentive/justitia/justitia.go:350-416 | The subsidy in every mode; dynamic ones are non-negative, the PID one is between its two multiples of the average, and only the PID mode moves its state. Lagrangian mode needs an effective price other than 0. |
| Justitia.Mechanism.UpdateShadowPrice | incentive/justitia/justitia.go:271-315 | One epoch's price update, clamped. |
| Justitia.Mechanism.ResetEpoch | incentive/justitia/justitia.go:319-328 | Clears the epoch total and keeps the price. |
| Scheduler.BothEndsSamePhaseIff | txpool/scheduler/select.go:232-313 | Source and destination put a transaction in the same phase exactly if both averages are positive or the total covers them; their scores are the two shares of one split. |
| Scheduler.DestAvgIsFair | txpool/scheduler/select.go:113-133 | A cross-shard transaction enters phase 1 at its source exactly when an intra-shard one of the same fee would. |
| Scheduler.HigherFeeNeverRanksLower | txpool/scheduler/select.go:113-133 | Paying more never means a later phase or a lower score. |
| Scheduler.FiledUnderItsPhase | txpool/scheduler/select.go:113-133 | The phase an entry is filed under is the one its transaction's fee, case and shard average give. |
| Scheduler.BlockOrderMeans | txpool/scheduler/select.go:160-167 | Block order spelt out: earlier phases, then higher scores, then earlier arrivals. |
| Scheduler.NothingBetterLeftBehind | txpool/scheduler/select.go:159-228 | No unselected transaction outranks a selected one, and selected and left over make up the pool. |
| Scheduler.SelectedFromPool | txpool/scheduler/select.go:66-228 | What is selected comes from the pool, exactly min(capacity, n) transactions. |
| Scheduler.PhasesConcatenate | txpool/scheduler/select.go:159-215 | Three phases, each in rank order, form one ordering by phase, score and arrival. |
| Scheduler.SortedIsSort | txpool/scheduler/select.go:160-167 | The order asked of the library sort exists: a permutation in rank order. |
| Scheduler.Divide | txpool/scheduler/select.go:109-133 | Every scored entry goes to exactly one phase list. |
| Scheduler.Fill | txpool/scheduler/select.go:170-176 | A filling loop appends the phase's transactions until the block is full. |
| Scheduler.TakeByPhase | txpool/scheduler/select.go:159-227 | Sorting later phases only if reached still returns a prefix of one ordering of everything. |
| Scheduler.Scheduler.ScoreCTX | txpool/scheduler/select.go:232-313 | Score, case and marks of a cross-shard transaction from either end; the destination keeps a case already set; the epoch total grows by the subsidy. |
| Scheduler.Scheduler.WhatIsGranted | txpool/scheduler/select.go:232-283 | Without a mechanism a transaction scored at either end is granted what its mode says of the source's and the destination's averages, and marked with the split at these averages. |
| Scheduler.Scheduler.ScoreAll | txpool/scheduler/select.go:79-103 | The pool's scoring; intra-shard transactions are left alone; every cross-shard subsidy counts towards the epoch. |
| Scheduler.Scheduler.SelectForBlock | txpool/scheduler/select.go:66-228 | The selection is a prefix, of length min(capacity, n), of an ordering of the whole scored pool; in Lagrangian mode the epoch total grows by the subsidies of the selected and of the left-over transactions. |
| Scheduler.NoGrantsIff | txpool/scheduler/select.go:268-285 | Left-over transactions add nothing to the epoch total exactly if none of them has a subsidy. |
| Scheduler.GrantsDivide | txpool/scheduler/select.go:268-285 | The subsidies of a pool are those of what is selected plus those of what is left. |
| Scheduler.Scheduler.UpdateEpoch | txpool/scheduler/select.go:338-358 | In Lagrangian mode the price moves by the epoch's overspending and the counters restart; otherwise nothing changes. |
| Epochs.CountsIssuedIff | txpool/scheduler/select.go:66-313 | What an epoch counts is what it issued if and only if no transaction with a subsidy was left behind in any round. |
| Epochs.WaitingCountsEveryRound | txpool/scheduler/select.go:66-313 | A transaction left behind in n rounds with subsidy at least g adds at least n times g. |
| Epochs.OneLeftBehindDoublesTheCount | txpool/scheduler/select.go:66-313 | Two transactions of subsidy 100 and room for one count 200. |
| Epochs.PriceNeverBelowIssued | incentive/justitia/justitia.go:271-315 | Counting more than was issued never lowers the price set. |
| Epochs.FittingEpochCountsIssued | txpool/scheduler/select.go:66-313 | An epoch whose pools fit their blocks in the sense of BlockRoom counts exactly what it issued. |
| Epochs.RunEpoch | chain/blockchain.go:252-267 | Over any rounds with arrivals and moving averages, the price an epoch sets is that of everything issued plus everything left behind, round by round, and no round whose pool fits leaves a subsidy behind. |
| BlockRoom.RivalsComeFirst | txpool/scheduler/select.go:159-228 | In a block order an entry at position p has more than p rivals. |
| BlockRoom.LastOfRivals | txpool/scheduler/select.go:159-228 | Every entry comes right after all its rivals in some block order. |
| BlockRoom.NoGrantLeftIff | txpool/scheduler/select.go:159-228 | No allowed selection leaves a subsidy behind if and only if every entry with one has no more rivals than the block has room for. |
| BlockRoom.SmallPoolFits | txpool/scheduler/select.go:159-228 | A pool no larger than the block leaves no subsidy behind. |
| PriorityPool.LessOrderMeans | core/txpool_justitia.go:36-63 | Less order spelt out: higher fees, then earlier times. |
| PriorityPool.RootIsFirst | core/txpool_justitia.go:36-63 | Nothing in a heap is ahead of its root. |
| PriorityPool.TxPriorityQueue.Push | core/txpool_justitia.go:69-72 | Pushing restores the heap order and adds exactly the entry. |
| PriorityPool.TxPriorityQueue.Pop | core/txpool_justitia.go:74-81 | Popping takes an entry no other is ahead of and restores the heap order. |
| PriorityPool.NothingLostIff | core/txpool_justitia.go:172-181 | Putting back by hash loses nothing exactly when no unselected entry shares a hash with a selected one. |
| PriorityPool.DistinctHashesSuffice | core/txpool_justitia.go:172-181 | With pairwise distinct hashes nothing is lost. |
| PriorityPool.SharedHashLosesOne | core/txpool_justitia.go:172-181 | Of two entries with one hash, selecting either loses the other. |
| PriorityPool.PriorityTxPool.AddTxs2Pool | core/txpool_justitia.go:126-139 | Every transaction enters the heap, each stamped with its own clock reading where it carries no time or original proposal time. |
| PriorityPool.PriorityTxPool.PackTxsSimple | core/txpool_justitia.go:188-206 | The best entries come out in order, nothing left is ahead of them, nothing is lost. |
| PriorityPool.PriorityTxPool.PutBack | core/txpool_justitia.go:170-182 | The heap gains exactly the entries whose hash was not selected. |
| PriorityPool.PriorityTxPool.PackTxsWithScheduler | core/txpool_justitia.go:154-185 | One round with arrivals while unlocked: queue after plus selected is queue before plus arrived, if and only if no hash is shared; the queue holds nothing else; the selection is the scheduler's, and the epoch total grows as stated. |
| PriorityPool.SignedWord | core/txpool_justitia.go:154-185 | The capacity handed to the scheduler is the signed reading of an unsigned word. |
| PriorityPool.PriorityTxPool.FilterTxs | core/txpool_justitia.go:327-347 | The queue splits without loss into what the filter wants, best first, and a heap of the rest. |
| PriorityPool.PriorityTxPool.TransferTxs | core/txpool_justitia.go:288-324 | What is transferred plus what stays in queue and relay lists is what was there; all of the former and none of the latter is the account's; lists keep their order and empty ones are dropped. |
| PriorityPool.ListSplitsWithoutLoss | core/txpool_justitia.go:308-319 | Dividing a relay list by sender loses nothing. |
| PriorityPool.ListsSplitWithoutLoss | core/txpool_justitia.go:306-319 | Dividing all relay lists by sender loses nothing, in whatever order they are visited. |
| PriorityPool.WithItsSender | core/txpool_justitia.go:297-319 | A transaction leaves exactly with its sender's account. |
| PriorityPool.DividedInOrder | core/txpool_justitia.go:306-319 | Both parts of a divided list keep its order. |
| Ledgers.CreditedAtMostOnce | crossshard/pending/ledger.go:44-106 | In every run no identifier is pending and settled, and the settled ones are exactly those credited, each once. |
| Ledgers.CreditsAreSettlements | crossshard/pending/ledger.go:74-106 | A run makes two credits for every entry it settles, and they add up to the utilities of the settled entries. |
| Ledgers.CreditedInTotal | crossshard/pending/ledger.go:74-106 | If utilities are splits of non-negative totals, the credits of a run with k settlements add up to between the settled worth less k and the settled worth, short by exactly the lost units. |
| Rewards.CreditsOneByOne | crossshard/pending/ledger.go:89-99 | Credit by credit: the source's proposer, in the block that carried the transaction, gets the source's share, then the destination's proposer, in the including block, gets the other. |
| Rewards.CreditedToEachShard | crossshard/pending/ledger.go:89-99 | The credits to a shard add up to the source's shares of what it was the source of plus the destination's shares of what it was the end of. |
| Rewards.CreditedToEachBlock | crossshard/pending/ledger.go:89-99 | The same for the proposer of every block. |
| Rewards.EachEndGetsItsShare | crossshard/pending/ledger.go:89-99 | If entries carry the split of their own amounts, each end is credited its own component of the split. |
| Rewards.SourceGetsItsShare | crossshard/pending/ledger.go:89-99 | Shares of 6 and 4 between shards 0 and 1: shard 0 is credited 6 and shard 1 is credited 4. |
| Ledgers.NothingDisappears | crossshard/pending/ledger.go:44-169 | The worth of all accepted entries is what is pending, was settled, or was dropped as too old. |
| Ledgers.StatsAddUp | crossshard/pending/ledger.go:189-210 | The two sums of the statistics add up to what is pending. |
| Ledgers.StatsOfFiled | crossshard/pending/ledger.go:189-210 | A filed entry raises the sum of the fees by its fee and the sum of the subsidies by its subsidy. |
| Ledgers.Ledger.AddEntry | crossshard/pending/ledger.go:44-60 | An entry is filed unless its identifier is settled or, if not, pending, each with its own error. |
| Ledgers.Ledger.SettleEntry | crossshard/pending/ledger.go:74-106 | An identifier settled before or not pending is refused with its own error and no credit; otherwise the entry is closed and two credits are made, one to each end as Rewards.CreditsOneByOne says. |
| Ledgers.Ledger.Cleanup | crossshard/pending/ledger.go:157-169 | Exactly the entries created before the bound go, they are counted, and the others stay as they are. |
| Ledgers.Ledger.GetStats | crossshard/pending/ledger.go:189-210 | Counts and sums of the books, in any visiting order. |
| SubsidyBudget.ScalesExactlyIff | economics/subsidy_budget/budget.go:67-74 | A subsidy gets its true floored share exactly if the product fits a word. |
| SubsidyBudget.ScalingOverflows | economics/subsidy_budget/budget.go:67-74 | Scaling 2^63 by two thirds gives 0. |
| SubsidyBudget.WordSumExactIff | economics/subsidy_budget/budget.go:136-139 | The accumulated sum is the true one exactly if that fits a word. |
| SubsidyBudget.BudgetRefusedIff | economics/subsidy_budget/budget.go:15-23 | A budget is refused if and only if it is switched on and its minimum exceeds its maximum. |
| SubsidyBudget.SwitchedOff | economics/subsidy_budget/budget.go:40-44 | With a maximum of 0 every subsidy is paid as it is, whatever the block adds up to. |
| SubsidyBudget.ScaledBlock | economics/subsidy_budget/budget.go:134-156 | Without overflow the scaled sum lies between the bound less n-1 and the bound, and the order is kept. |
| SubsidyBudget.BudgetNotExceeded | economics/subsidy_budget/budget.go:40-156 | An accepted, active budget is never exceeded if the sum of the subsidies fits a word, whether or not products wrap. |
| SubsidyBudget.BudgetKept | economics/subsidy_budget/budget.go:40-64 | If no product wraps either, the minimum is missed by less than one unit an entry but one. |
| SubsidyBudget.UnscaledExceedsIff | economics/subsidy_budget/budget.go:134-156 | A block left unscaled exceeds an active budget exactly when its sum wraps, however many entries it has. |
| SubsidyBudget.NotExceededIff | economics/subsidy_budget/budget.go:40-156 | If no product wraps and there are no more entries than the maximum has units, the maximum is kept if and only if the sum of the subsidies fits a word. |
| SubsidyBudget.RoundedUnderMaximum | economics/subsidy_budget/budget.go:134-156 | With more entries than units rounding alone can bring a wrapped block under the maximum. |
| SubsidyBudget.WrappedProductsEitherWay | economics/subsidy_budget/budget.go:67-156 | Once products wrap, the same wrapped block exceeds a maximum of 1 and keeps one of 2. |
| SubsidyBudget.BudgetExceeded | economics/subsidy_budget/budget.go:134-156 | Two subsidies of 2^63 pass a budget of 1. |
| SubsidyBudget.ApplyBudgetToBlock | economics/subsidy_budget/budget.go:134-156 | The loops compute the scaling factor of the wrapped sum and scale every subsidy, or return them unchanged. |

## Left out

- Networking, encoding, storage, logging, CSV files, configuration and the command line: I/O. Encoding and decoding are the identity.
- Merkle proofs and the proof-carrying relay path: foreign libraries.
- View change and Byzantine nodes: no prepared certificate reaches the new view, so agreement is claimed for one fixed view with an honest leader.
- Handlers of one node are atomic steps. The two catch-up handlers do not take the node's lock in the code; interleaving inside them is not modelled.
- Pbft.RunKeepsInv: lets a handler run whether or not its stage would make it wait, which covers every schedule the waits allow; the waits are a predicate of their own, used where a claim of failure needs them.
- Scheduler.Scheduler.ScoreCTX: in PID mode the subsidy depends on the clock between calls, which is arbitrary; only its bounds are stated.
- PbftNode.PbftConsensusNode.constructor: a run starts from stored chains that are prefixes of the leader's stored chain; other leftovers on disk are not modelled.
- PbftNode.PbftConsensusNode.AddBlock: the state execution and the epoch update that follow in the code are modelled by Chain.GetUpdateStatusTrie and Epochs.RunEpoch.
- Liveness: nothing says that a block is eventually committed; PbftCatchUp states only when catch-up cannot help.
- Broker modes: broker balances are split across shards on purpose.
- Moving pooled transactions, relays in flight and account states when a re-partition takes effect: money and routing are claimed for a fixed placement.
- Committee.TxSending: the placement used is the default one of relay mode; the re-partition mode's loop differs only in looking the sender up in the modified map.
- CopyCLPA, EraseEdges and the two initial-partition helpers of the partitioner. CopyCLPA shares the vertex-count slice with its source, which the model does not express.
- Addresses whose last eight characters are not hexadecimal stop the program; here they live in shard 0, and no theorem depends on well-formed addresses.
- Rounding of floating point, and the power function of the Lagrangian congestion factor, which is a parameter. A division by an effective price of 0 is excluded.
- Justitia.LambdaInBounds: says nothing before the first update, since the initial price of 1 need not be within the configured bounds.
- PriorityPool.PriorityTxPool.AddTxs2Pool: pools a fresh object for each transaction, so an object shared with its sender or pooled twice is not expressed; entries with equal hashes are.
- PriorityLeader.PriorityLeader.GenerateBlock: messages arriving while the scheduler runs are one message; several are one with their transactions in order of arrival.
- RelayNode.Leader.RelayMsgSend: the sender's shard and height travel with a message in the code; here the receiving handler takes them as parameters.
- PackTxsWithBytes, PackRelayTxs, GetMetrics, EstimateBlockReward, GetEpochStats: they would only add easy members.
- Tracker.Reset, ResetAll and the unused trimExtremes of the fee tracker.
- Ledgers.Ledger.SettleEntry: placeholder proposer names are pairs of shard and block instead of formatted strings, and an entry changed through a pointer kept outside the ledger is not expressed.
- Reset of the ledger, which its comment reserves for testing.
- AnnualToPerBlock, ComputeBlocksPerYear and ToBudget: straight-line conversions.
- Storage of added accounts (AddAccounts) and fetching of account states: part of migration.
