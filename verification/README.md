# Thorflux verified

A Dafny 4.11 model of the block-following, prediction and decoding logic of thorflux, the service that
publishes VeChainThor blocks to a time-series database, with machine-checked proofs about it.
`dafny verify dfyconfig.toml` checks everything.

## What is modelled

**Following a forking chain** (`Chain`, `Lru`, `BlockFetcher`, `ForwardSyncer`, `Replay`, `Stabilisation`,
`ExactBound`, `EdgeRollback`, `RollbackDepth`, `MidIteration`, `AfterReorg`, `Control`, `Wiring`, `ForkHandler`,
`Points`, `Database`, `Restart`).  Blocks form a tree.  Each iteration of the forward syncer makes three kinds of requests: the check of the
next block, the fetch of that block, and the fetch of its parent; each sees a canonical chain of its own.  Block IDs are collision-free
digests, so comparing blocks stands for comparing IDs.  Blocks are served through a 100-entry cache keyed by height
that nothing purges on a fork.  The main results:

- A follower with the cache takes exactly the steps of one without it (`Replay.StepFollows`), provided that
  rollbacks are deeper than the cache, that finalized blocks stay canonical, and that within one iteration the
  checked block stays canonical and its parent's fetch does not fail.  Over whole runs, with any number of forks,
  every published event is then the one its block deserves (`Database.RunServesNoStaleBlock`), in canonical order
  (`Stabilisation.ReachesHeightInOrder`).
- The database is a set of points, each with its own time, and it may hold anything when the service starts.  However
  the subscriber interleaves the two syncers' events, it ends with backward sync's points, those of the followed chain,
  a residue that the deletes leave, and what they spare of the earlier points (`Database.RunKeepsDatabase`,
  `Database.ServiceKeepsDatabase`).  Under proof of authority some points of a block carry its parent's time, so the
  residue is empty exactly when the first block of each abandoned branch needed no slot but its own, was block 1, or
  was signed under proof of stake (`Database.NoResidueIff`, `SlotAccounting.LeftoverIff`).  Nothing abandoned is left
  from before exactly when each earlier point is of a followed block or later than some fork event's finalized block
  (`Restart.SurvivorsAreFollowedIff`); after the exit on a chain that became shorter and a restart on one that only
  grows, the abandoned points stay (`Restart.RestartLeavesAbandoned`).
- How deep a rollback has to be, exactly: in an undisturbed run, for every start at or below the rollback height,
  every rollback height and every parting height, the replay publishes what it should if and only if the old tip is
  more than 100 blocks above the rollback block (101 above genesis, because the replay of block 1 fetches no parent),
  or just that many and the branches part only at the old tip (`RollbackDepth.RollbackIsCleanIff`).
- What is published when the requests of an iteration see different chains, exactly: whatever the cache holds, the
  event carries the block that is held or served at its height and the parent that is held or served below, and it is
  the one that the checked block deserves if and only if these are the checked block and its parent
  (`MidIteration.ServedIsNextIff`).
- A reorg between a block's check and its fetch: as long as the chain grows on past the checked block, no fork event
  comes and the sibling's points stay (`MidIteration.ReorgIsNeverRepaired`).  With nobody else about it spoils two events, its own and the next one, which
  names the sibling as its parent (`AfterReorg.ReorgSpoilsTwo`); the second is wrong exactly while the sibling is
  still held (`AfterReorg.NextParentIff`).  Everything after is right, through any number of forks
  (`AfterReorg.RunAfterReorg`).
- A parent's fetch that fails leaves its block cached; the next iteration publishes that block, which is right if and
  only if it is still canonical (`MidIteration.HalfFetchedIff`).  `MidIteration.HalfFetchedRun` is such a run of the
  service, with backward sync evicting the parent.

**Concurrent protocols** (`Pipeline`, `Publisher`, `WorkerPool`).  State machines over goroutine steps, with an
arbitrary list of actions as the schedule.  Conservation of block numbers and of tasks, and no send after a close,
hold in every interleaving.  Findings: a cancelled run whose subscriber no longer reads can still end if and only if
the forward syncer is not about to send a fork event into a full channel (`Pipeline.CancelledRunEndsIff`), a state
that some schedule reaches exactly while the forward syncer has not returned (`Pipeline.CanHangIff`); asking for
more history than there is covers less than asking for exactly as much (`Publisher.OverlongRequestLosesBlockOne`); and
a worker pool can panic exactly when somebody other than its submitter may shut it down
(`WorkerPool.PanicsOnlyWithOutsider`).

**Proposer prediction** (`Sorting`, `Calculator`, `SlotsWriter`, `FutureSlots`, `AuthorityShuffles`,
`SlotAccounting`).  The hash, the random generator, the logarithm and the unstable library sort are parameters;
scores are reals.  Independently written predictors agree across blocks, seeds and epochs; draws are independent
of other nodes' flags and weights; a raised weight never hurts.

**Decoding** (`Words`, `Abi`, `LinkedLists`, `AuthorityContract`, `Validators`, `StakeTotals`).  The encodings are
those of the Solidity "Contract ABI Specification", section "Formal Specification of the Encoding".  The two
helper contracts are modelled on arrays, from the linked lists in the built-in contracts through to the decoded
entities.  Go's 64-bit lengths and offsets wrap explicitly, and a slice, like an allocation, is at most 2^48 bytes,
the address space of a 64-bit Go program.

**Where the code and its comments differ**, the model follows the code:

- the stake totals for online and offline validators count the delegators' stake twice
  (`StakeTotals.CreateValidatorOverview`);
- the missed slots reported by the authority list and by the block statistics differ by one beyond an hour
  (`SlotAccounting.RecordSlots`);
- the proof-of-authority order predicted by the slots writer includes inactive nodes, although its comment speaks
  of active ones: it lists active nodes only if there are no others (`Calculator.ShuffleIsActiveIff`), and its
  expected signer is the authority list's expected proposer if and only if the node of least hash is active
  (`AuthorityShuffles.ExpectedSignersAgreeIff`);
- the activation height is a uint32 sum that wraps for a network that never forks
  (`Publisher.ActiveNotBeforeFork`), and blocks in between make the slots writer panic
  (`SlotsWriter.WritingPanicsIff`).

## Model

| member | source | states |
|---|---|---|
| Lru.LruCache.Get | pubsub/block_fetcher.go:60-62 | a hit returns the entry of that height and makes it the most recent; a miss changes nothing |
| Lru.LruCache.Add | pubsub/block_fetcher.go:125 | the entry becomes the most recent; the least recent leaves when 100 others are there |
| Lru.PromoteShape | pubsub/block_fetcher.go:26 | where every entry of the cache was before one was used: the stack-distance step, with no key twice |
| BlockFetcher.BlockFetcher.FetchBlock | pubsub/block_fetcher.go:55-135 | a cached height is served as it is, a missing one is fetched and stored, a failed fetch stores nothing |
| BlockFetcher.SeedHeightFormula | pubsub/block_fetcher.go:137-143 | the seed height is the start of the interval before the block's own, counted without division; zero in the first two intervals |
| BlockFetcher.FetchSeedIsSeedOf | pubsub/block_fetcher.go:137-173 | the seed read through a parent ID, with its wrapping increment, is the seed of that height on the block's own chain |
| BlockFetcher.SeedIsBetaBefore | pubsub/block_fetcher.go:137-143 | the seed is the beta of the block that begins the seeder interval before the block's own, and empty in the first two intervals |
| BlockFetcher.FutureSeedRule | pubsub/block_fetcher.go:79-86 | with the boundary rule the future seed is the seed of the next height, for every block |
| BlockFetcher.FetchIsResultOf | pubsub/block_fetcher.go:64-114 | an uncached fetch depends on the block alone, not on how far the canonical chain has grown |
| BlockFetcher.FutureSeedIsNextSeed | pubsub/block_fetcher.go:79-86 | FutureSeed(N) equals Seed(N+1) whichever heads the two fetches saw |
| BlockFetcher.NodesAreFaithful | pubsub/block_fetcher.go:64-114 | a real node meets the assumption of all theorems about the follower |
| ForwardSyncer.ForwardSyncer.constructor | pubsub/forward_syncer.go:26-45 | starts at the given block with an empty log |
| ForwardSyncer.ForwardSyncer.ProcessBlock | pubsub/event_block.go:22-59 | the cache accesses (n, then n-1 when n > 1) and the wiring of the parent's data into the event |
| ForwardSyncer.ForwardSyncer.Iterate | pubsub/forward_syncer.go:53-130 | one iteration takes the step of the specification, each request seeing a chain of its own: wait, restart, roll back with a fork event, or publish |
| ForwardSyncer.ForwardSyncer.Start | pubsub/forward_syncer.go:51-131 | the loop is the run of that step relation until it returns or restarts |
| Control.ControlIff | pubsub/forward_syncer.go:53-130 | exactly when an iteration returns (cancelled, or cancelled at a send that is ready), restarts the process (the chain is shorter), or lets the loop go on |
| Control.LogGrowsIff | pubsub/forward_syncer.go:67-128 | exactly when an iteration emits a fork event, when it emits a block event, and that otherwise nothing moves |
| Control.CancellationEnds | pubsub/forward_syncer.go:54-56 | from the first cancelled view on nothing is logged, the syncer stays, and later views do not matter |
| Control.RunContinuesIff | pubsub/forward_syncer.go:52-130 | the loop goes through its views in turn exactly as long as none ends it |
| Wiring.EventFields | pubsub/event_block.go:45-57 | every field of an event in terms of the network: active and forked from their heights on, the parent from block 2 on, stakers and node lists where each exists |
| Wiring.EventSeeds | pubsub/event_block.go:47-56 | seed and future seed as betas of the right blocks |
| Wiring.PoaEvent | pubsub/block_fetcher.go:97-105 | under proof of authority the node lists of a block and its parent are there |
| Replay.FetchSettled | pubsub/block_fetcher.go:55-135 | a fetch of a settled height serves the right result, hit or miss |
| Replay.PromoteKeepsSlots | pubsub/block_fetcher.go:60-62 | backward-sync accesses at or below the rollback height do not disturb the eviction distances |
| Replay.RollbackSlots | pubsub/forward_syncer.go:97-108 | a rollback deeper than the cache leaves every abandoned entry too far back to survive until its height is replayed |
| Replay.ProcessServesTheBlock | pubsub/event_block.go:22-59 | whatever else the cache holds, a block that is canonical when it and its parent are fetched yields the event it deserves |
| Replay.StepFollows | pubsub/forward_syncer.go:51-131 | a calm iteration with the cache is one iteration of a follower without it, and the cache invariant is kept across publishes and rollbacks |
| ExactBound.RecencyMid | pubsub/event_block.go:22-35 | the next block is never cached while a chain is followed, and goes ahead of the exact recency order of all followed blocks |
| ExactBound.FollowMany | pubsub/event_block.go:24-35 | any number of undisturbed iterations publish exactly what is deserved, and leave the cache in its exact recency order |
| EdgeRollback.RenewParent | pubsub/block_fetcher.go:60-62 | at the edge each replayed block evicts the one that comes next |
| EdgeRollback.ReplayMany | pubsub/event_block.go:22-59 | the state of cache and log at every height of that replay |
| RollbackDepth.ShallowRollbackIsStale | pubsub/block_fetcher.go:60-62 | a shallower rollback, genesis included, publishes the old branch's first block, wherever the branches part |
| RollbackDepth.DeepRollbackIsClean | pubsub/forward_syncer.go:97-108 | a deeper one logs exactly the old chain, one fork event and the new chain |
| RollbackDepth.EdgeRollbackIsStale | pubsub/event_block.go:24-35 | at the edge the block below the old tip hits, so branches that part below it are published wrongly |
| RollbackDepth.EdgeRollbackIsClean | pubsub/event_block.go:24-35 | and branches that part only at the old tip are published rightly |
| RollbackDepth.RollbackIsCleanIff | pubsub/block_fetcher.go:26-26 | the exact condition in depth, rollback height and parting height for a clean replay |
| MidIteration.RunIsGenuine | pubsub/block_fetcher.go:55-135 | on whatever chains, every cache entry is the full result of a block at its height, which is all the row below asks of the cache |
| MidIteration.ServedIsNextIff | pubsub/forward_syncer.go:69-112 | whatever the cache holds and whatever chains the requests see: when there is an event, which block and parent it carries, and that it is the checked block's if and only if these are that block and its parent |
| MidIteration.ReorgIsNeverRepaired | pubsub/forward_syncer.go:111-128 | a sibling published between check and fetch stays in the database however long the chain then grows |
| AfterReorg.ReorgPublishes | pubsub/forward_syncer.go:69-128 | the event that such a reorg publishes, and the state that it leaves |
| AfterReorg.NextParentIff | pubsub/event_block.go:34-42 | the next event names the sibling as parent, with its validators and authority nodes, if and only if the sibling is still held |
| AfterReorg.ReorgSpoilsTwo | pubsub/event_block.go:24-42 | undisturbed, the reorg spoils exactly its own event and the parent data of the next |
| AfterReorg.RunAfterReorg | pubsub/forward_syncer.go:51-131 | over every calm run after it, forks included, each event is the deserved one or that of a child of the checked block, wrong in its parent data alone |
| MidIteration.HalfFetchedIff | pubsub/event_block.go:24-38 | a failed parent fetch leaves a block that the next iteration publishes, rightly if and only if it is still canonical |
| MidIteration.HalfFetchedRun | pubsub/event_block.go:24-38 | such a run: blocks followed, the cache flushed by backward sync, the parent's fetch failing, a sibling becoming canonical |
| Stabilisation.AtMostOneFork | pubsub/forward_syncer.go:82-108 | once the canonical chain only grows there is at most one more fork event, and none when the followed block is canonical |
| Stabilisation.FollowsInOrder | pubsub/forward_syncer.go:111-128 | whatever the cache holds, k productive iterations from a canonical block publish k events and move k canonical blocks on |
| Stabilisation.PublishesInOrder | pubsub/forward_syncer.go:111-128 | in a calm run those are exactly the events that the next k canonical blocks deserve, in order |
| Stabilisation.ReachesHeight | pubsub/forward_syncer.go:51-131 | any canonical height is reached in exactly the distance from the followed block, or one fork step and the distance from the finalized block |
| Stabilisation.ReachesHeightInOrder | pubsub/forward_syncer.go:51-131 | in a calm run the log then grows by exactly the deserved events in canonical order, after one fork event when the followed block was abandoned |
| ForkHandler.GetSideChain | pubsub/fork_handler.go:54-108 | terminates; fails exactly when the side is too high or the chains differ below every height compared; otherwise returns the side chain |
| ForkHandler.SideChainIsSideChain | pubsub/fork_handler.go:66-107 | the result runs from the tip down to the child of the first block on the canonical chain, parent by parent |
| ForkHandler.SideChainUnique | pubsub/fork_handler.go:66-107 | nothing else is a side chain of that tip |
| ForkHandler.SideChainShape | pubsub/fork_handler.go:94-107 | it hangs off the lowest common ancestor, and positions count the distance to it |
| ForkHandler.FinalizedForksResolve | pubsub/fork_handler.go:94-101 | with the finalized block on both chains the search never takes the error exit and stays above it |
| ForkHandler.PointsCountFromAncestor | pubsub/fork_handler.go:111-129 | each written index is the block number minus the ancestor's, the length is the whole distance |
| ForkHandler.ForkHandler.WriteForkedBlock | pubsub/fork_handler.go:111-129 | appends one point for each block, in order |
| ForkHandler.ForkHandler.Resolve | pubsub/fork_handler.go:33-52 | deletes from one second past the finalized block to an hour ahead, spares the forks measurement, and records the side chain when it is found |
| Database.ForkEventsResolve | pubsub/forward_syncer.go:82-108 | every fork event carries blocks for which the side-chain search succeeds while its chains stand |
| Points.DeleteIsDropAfter | pubsub/fork_handler.go:34-42 | the bounded delete drops all that lies after the finalized block exactly when nothing later than its bound is stored |
| Points.RollbackLeaves | pubsub/fork_handler.go:33-42 | a delete leaves the points of the chain up to the finalized block and those of the next, abandoned block at the finalized block's time |
| Points.RollbackIsExact | pubsub/fork_handler.go:33-42 | it leaves exactly the former if and only if the finalized block is on the abandoned chain and the next block there has no point at its time |
| Database.InterpretSplits | pubsub/subscriber.go:86-92 | whatever was there before adds nothing but what the deletes spare of it |
| Database.RunKeepsDatabase | pubsub/subscriber.go:86-92 | over every calm run, any number of forks and any earlier contents: the chain from the start block to the block last followed, the residue of the deletes, and what they spare of the earlier points |
| Database.NoResidueIff | pubsub/fork_handler.go:33-42 | there is no residue exactly when no fork's delete leaves any |
| Database.BackwardServesTheBlock | pubsub/backward_syncer.go:88-99 | beside a calm run a backward worker publishes what its block deserves |
| Database.BackwardSyncIsKept | pubsub/subscriber.go:86-92 | in every interleaving of the two syncers' events backward sync's points survive all deletes |
| Database.ServiceKeepsDatabase | pubsub/publisher.go:84-130 | all of that for the service as it starts, on any database: empty cache, forward sync one block below the head of backward sync |
| Restart.SurvivorsAreFollowedIff | pubsub/publisher.go:91-97 | nothing abandoned is left from before if and only if each earlier point is of a followed block or later than some fork event's finalized block |
| Restart.DatabaseIsFollowedIff | pubsub/subscriber.go:86-92 | the whole database is of followed blocks if and only if that holds and the residue is of followed blocks |
| Restart.RestartLeavesAbandoned | pubsub/forward_syncer.go:71-74 | after the exit on a shorter chain and a restart on a growing one no fork event comes: the points of the block last followed stay, abandoned unless the chain grows back to it |
| Database.RunServesNoStaleBlock | pubsub/forward_syncer.go:111-128 | over a calm run every published event is the one its block deserves |
| Pipeline.StepKeepsPlaces | pubsub/backward_syncer.go:45-106 | a number leaves its place only by being sent, failing or being abandoned, once |
| Pipeline.RunIsSafe | pubsub/publisher.go:140-155 | in every interleaving no send meets a closed channel, no buffer overflows, and each number is in one place or was sent, failed or abandoned |
| Pipeline.ChannelQueues | pubsub/publisher.go:53-53 | what the subscriber receives and what is left in the channel is what was sent, in that order |
| Pipeline.Delivered | pubsub/backward_syncer.go:95-104 | each number is delivered as often as it is sent, and one item for each send of the forward syncer |
| Pipeline.EachNumberOnce | pubsub/backward_syncer.go:45-106 | over every schedule each number of (minBlock, head] is in one place, delivered, failed or abandoned, once in all, and no other is; a closed, uncancelled run has delivered or failed them all |
| Pipeline.CanDeliverAll | pubsub/backward_syncer.go:64-105 | some schedule delivers each number once and closes the channel |
| Pipeline.CanFail | pubsub/backward_syncer.go:89-93 | a fetch may fail |
| Pipeline.CanAbandon | pubsub/backward_syncer.go:96-98 | a cancelled run may abandon a number |
| Pipeline.NeverStuck | pubsub/publisher.go:140-155 | while the block channel has room, something can move until it is closed; a forward syncer that follows must have been cancelled |
| Pipeline.StepsRunOut | pubsub/backward_syncer.go:65-71 | each internal step uses up a bounded budget |
| Pipeline.RunsRunOut | pubsub/backward_syncer.go:45-106 | no schedule takes more internal steps than the budget |
| Pipeline.CancelledRunEndsIff | pubsub/forward_syncer.go:96-108 | a cancelled run that nobody reads can end, closed, if and only if the forward syncer is not about to send a fork event into a full channel |
| Pipeline.CanHangIff | pubsub/forward_syncer.go:96-108 | an unread schedule to that state exists if and only if the forward syncer has not returned |
| Pipeline.HangIsReachable | pubsub/forward_syncer.go:96-108 | that state is within reach of every run with a forward syncer |
| Publisher.MinBlock | pubsub/backward_syncer.go:27-30 | the lower end never wraps |
| Publisher.NewPublisher | pubsub/publisher.go:71-130 | no subtraction wraps; the two syncers cover exactly the heights above the gap, overlapping in the first block exactly when the back-sync count is positive |
| Publisher.OverlongRequestLosesBlockOne | pubsub/publisher.go:88-90 | on an empty database only a request equal to the first height covers everything; a longer one leaves out block 1 |
| Publisher.ActiveNotBeforeFork | pubsub/publisher.go:68-69 | activation is no earlier than the fork exactly when the uint32 sum does not wrap |
| WorkerPool.StepKeepsCopies | pubsub/worker_pool.go:67-83 | a task comes in when it is accepted and goes when its handler ends, and is in one place in between |
| WorkerPool.SubmittedAreAccepted | pubsub/worker_pool.go:129-146 | every submitted task is accepted, still to come in its batch, or given up after a cancellation |
| WorkerPool.PoolConserves | pubsub/worker_pool.go:67-164 | over all schedules: between batches an uncancelled pool has accepted every submitted task, each accepted task is queued, running or processed once, no worker is lost to a panic, nothing is sent after close, nothing runs once Shutdown returned |
| WorkerPool.CanProcessAll | pubsub/worker_pool.go:67-146 | some schedule processes a whole batch, each task once |
| WorkerPool.SubmitterIsNotStuck | pubsub/worker_pool.go:137-144 | a submitter in a batch goes on, gives up when cancelled, or waits for a worker that can move |
| WorkerPool.PanicsOnlyWithOutsider | pubsub/worker_pool.go:129-164 | a send after close is reachable if and only if another goroutine may shut the pool down |
| WorkerPool.ShutdownIsNotStuck | pubsub/worker_pool.go:149-164 | while Shutdown waits, some worker can move or it can return |
| Calculator.ShufflePosNodes | stats/slots/calculator.go:125-189 | the nodes at the places of the weighted order, one each |
| Calculator.NextBlockProposersPoS | stats/slots/calculator.go:61-85 | as many as asked for and there are: at position i + 1 the node at the i-th place of the order, field by field; a panic for a negative count |
| Calculator.ShuffleAuthorityNodes | stats/slots/calculator.go:88-122 | a permutation of all nodes, in the order of their hashes |
| Calculator.ShuffleIsActiveIff | stats/slots/calculator.go:40-41 | it lists active nodes only if and only if all nodes are active |
| Calculator.NextBlockProposersPoA | stats/slots/calculator.go:39-58 | as many as asked for and there are, numbered from one: the nodes of least hash, which with the rest make up the list, in the order of their hashes; a panic for a negative count |
| Calculator.OrderIsWeighted | stats/slots/calculator.go:148-188 | the order has exactly the online nodes with weight, each once |
| Calculator.OrderIsByScore | stats/slots/calculator.go:151-180 | earlier means a lower negated logarithm of the node's own draw over its weight, or the same and an earlier place in the list |
| Calculator.DrawsAreIndependent | stats/slots/calculator.go:148-158 | changing one node's flag or weight leaves the relative order of all others alone |
| Calculator.RaisedWeightIsNotLater | stats/slots/calculator.go:160-180 | raising an online node's weight never moves it to a later position, ties included |
| SlotsWriter.ConvertStakerToPosNodes | stats/slots/writer.go:167-195 | the validators with a positive scaled weight, in order |
| SlotsWriter.PosNodesAre | stats/slots/writer.go:172-192 | which validators those are and what each node takes from its validator |
| SlotsWriter.Writer.constructor | stats/slots/writer.go:26-30 | ten future proposers by default |
| SlotsWriter.Writer.SetFutureProposerCount | stats/slots/writer.go:33-35 | sets the count |
| SlotsWriter.Writer.CalculatePosProposers | stats/slots/writer.go:126-164 | expected signer from the parent's validators and the block's seed, future proposers from its own validators and the future seed; when it panics |
| SlotsWriter.Writer.CalculatePoaProposers | stats/slots/writer.go:104-123 | the same for authority nodes, nothing when the parent has no active node, and exactly when it panics |
| SlotsWriter.ValidationMapFinds | types/types.go:57-63 | the map holds the last validator of each address |
| SlotsWriter.Writer.Write | stats/slots/writer.go:38-101 | one point for each future proposer with its weight, the current signer and the expected one; none without a previous block; when it panics |
| SlotsWriter.PosPointsAre | stats/slots/writer.go:126-164 | every field of every point under proof of stake, by the weighted orders of the block's and its parent's validators |
| SlotsWriter.PoaPointsAre | stats/slots/writer.go:103-123 | every field of every point under proof of authority, by the hash orders |
| SlotsWriter.WeightMillionsIs | stats/slots/writer.go:67-76 | a proposer's weight: that of the last validator of its address in millions of VET, else 25 |
| SlotsWriter.WritingPanicsIff | pubsub/publisher.go:68-69 | writing a block's event panics, for a positive count, exactly from the activation height up to a later fork height, which takes a wrapped sum |
| SlotsWriter.PredictionsAgree | stats/slots/writer.go:104-163 | the first future proposer written with block N is the expected signer written with block N+1, in either consensus mode |
| FutureSlots.CreateSlotsProposers | stats/pos/staker.go:111-124 | the active validators, in order |
| FutureSlots.ActiveNodesAre | stats/pos/staker.go:113-122 | which validators those are and what each node takes from its validator |
| FutureSlots.Predict | stats/pos/staker.go:132-154 | one future slot for each remaining block of the epoch, signed by the first of its weighted order; a panic exactly when there is one and nobody is eligible |
| FutureSlots.FutureSlotIs | stats/pos/staker.go:143-150 | block, index and signer of a predicted slot |
| FutureSlots.PredictsRestOfEpoch | stats/pos/staker.go:133-136 | the predicted blocks are exactly the later blocks of the same epoch |
| FutureSlots.SeedServesTheEpoch | pubsub/block_fetcher.go:137-143 | when epochs divide seeder intervals, the current seed is the right one for every predicted block, on whichever branch |
| FutureSlots.UnpackedAreWeighed | stats/pos/staker.go:363-383 | for unpacked validators, the two predictors weigh alike exactly when the contract gives weight to the active ones only |
| FutureSlots.PredictorsAgree | stats/slots/writer.go:144-155 | the staker's first predicted signer is the slots writer's first future proposer |
| FutureSlots.EverySlotAgrees | stats/pos/staker.go:142-151 | every predicted slot's signer is the one the slots writer expects for that block, on whichever branch, when the validators with weight at its parent are the active ones at the predicting block |
| AuthorityShuffles.ShuffleCandidates | stats/authority/list.go:352-380 | a permutation of the active candidates' masters, in the order of their hashes |
| AuthorityShuffles.ShufflesAgree | stats/authority/list.go:352-380 | with distinct hashes that is the active part of the slots writer's shuffle, whatever unstable sort either uses |
| AuthorityShuffles.FirstHasLeastHash | stats/slots/calculator.go:110-122 | the first of the shuffle has the least hash |
| AuthorityShuffles.ExpectedSignersAgreeIff | stats/authority/list.go:210-221 | the slots writer's expected signer and the authority list's expected proposer are the same if and only if the node of least hash is active |
| SlotAccounting.SlotsReachTheBlock | stats/authority/list.go:164-164 | the slot count is the least number of intervals that reaches the block |
| SlotAccounting.SlotTimesInBetween | stats/authority/list.go:223-262 | slot points lie between the two blocks, and one lies at the parent exactly when a slot has passed |
| SlotAccounting.RecordSlots | stats/authority/list.go:162-266 | which slots are reported with which proposer and time; filled, missed and aggregated slots add up to the slots since the last block; at most 359 missed points; the missed total is the one of the block statistics (stats/blockstats/blocks.go:28-29) up to 360 slots and one less beyond |
| SlotAccounting.LeftoverIff | pubsub/fork_handler.go:33-42 | a rollback leaves nothing of the abandoned branch exactly when its first block needed no slot but its own, was block 1, or came under proof of stake |
| SlotAccounting.MissedOnline | stats/pos/staker.go:69-78 | every proposer scheduled in each slot that passed, as many slots as the block statistics report missed |
| SlotAccounting.MissesAreCounted | stats/pos/staker.go:70-78 | each proposer is reported once for each slot in which it is scheduled |
| SlotAccounting.OneMissPerSlot | stats/pos/staker.go:69-78 | one scheduled proposer in each slot gives exactly that many missed slots |
| Words.SetFill | stats/contracts/generated/listauthority/listauthority.go:121-121 | big-endian bytes of a value that fits read back as the value |
| Words.FillSet | stats/contracts/generated/listauthority/listauthority.go:223-223 | and every byte string is the encoding of what it reads as |
| Words.XorOnes | stats/contracts/generated/listauthority/listauthority.go:157-166 | exclusive or with all ones is the complement |
| Abi.UintRoundTrip | stats/contracts/generated/listauthority/listauthority.go:111-141 | encoding accepts exactly 0 to 2^256 - 1, and decoding inverts it |
| Abi.UintWordRoundTrip | stats/contracts/generated/listauthority/listauthority.go:219-224 | every word survives decoding and encoding |
| Abi.IntRoundTrip | stats/contracts/generated/listauthority/listauthority.go:144-176 | encoding accepts exactly the integers between -2^255 and 2^255, both excluded, and decoding inverts it |
| Abi.IntWordRoundTrip | stats/contracts/generated/listauthority/listauthority.go:227-248 | every word survives except the one for -2^255, which encoding rejects |
| Abi.AddressAndBoolRoundTrip | stats/contracts/generated/listauthority/listauthority.go:179-192 | addresses and booleans survive, in one word each |
| Abi.AddressAndBoolAreUints | stats/contracts/generated/listauthority/listauthority.go:179-192 | as the standard has it, an address is encoded as the integer of its bytes, a boolean as one or zero |
| Abi.AddressAndBoolDecode | stats/contracts/generated/listauthority/listauthority.go:251-266 | decoding looks at the low 20 bytes and at the last byte, and fails exactly on short data |
| Abi.BytesLayout | stats/contracts/generated/listauthority/listauthority.go:195-209 | a length word, the bytes, and zeros up to the next multiple of 32 |
| Abi.BytesRoundTrip | stats/contracts/generated/listauthority/listauthority.go:269-289 | at any offset the bytes come back with the exact next padded offset, whatever surrounds them |
| Abi.DecodeBytesIff | stats/contracts/generated/listauthority/listauthority.go:269-289 | exactly which data decodes, to what and to which next offset, and which makes the program panic |
| Abi.DecodeNode | stats/contracts/generated/listauthority/listauthority.go:688-722 | one node and the offset three words on, or an error exactly when the data ends before that |
| Abi.DecodeImpl | stats/contracts/generated/listauthority/listauthority.go:763-808 | which data decodes, which is an error and which panics, and to what list |
| Abi.NodesAtAre | stats/contracts/generated/listauthority/listauthority.go:688-722 | each element is three words: master, endorsor, whether it is active |
| Abi.ListOfIff | stats/contracts/generated/listauthority/listauthority.go:763-808 | exactly which data decodes, to how many elements, and which makes the program panic |
| Abi.ListRoundTrip | stats/contracts/generated/listauthority/listauthority.go:763-808 | decoding inverts the ABI encoding of every list of nodes, whatever follows it |
| AuthorityContract.Expand | stats/contracts/authority_list.sol:61-67 | doubles the array, or starts with ten, and keeps its contents in front |
| AuthorityContract.List | stats/contracts/authority_list.sol:24-58 | for any finite acyclic list: exactly the listed nodes in link order, across any number of expansions |
| AuthorityContract.ListedNodesAre | stats/contracts/authority_list.sol:31-49 | which links those are and what each node takes from its link |
| AuthorityContract.ReadAuthorityNodes | stats/slots/blockchain.go:52-65 | decodes the returned data and converts each node |
| AuthorityContract.ListSurvivesTheWire | stats/slots/blockchain.go:52-65 | the nodes that the contract lists are the nodes that the service reads |
| Validators.Walk | stats/pos/GetValidators.sol:72-86 | a linked list is appended to the buffer in order; reverts exactly when it does not fit |
| Validators.GetValidators | stats/pos/GetValidators.sol:51-174 | sixteen columns, one row for each active and then each queued validator; no answer exactly when there are over 1000 or a locked total is below the validator's own stake |
| Validators.ValidationFields | stats/pos/staker.go:355-396 | every field of the service's validator in terms of the contract's record |
| Validators.UnpackValidators | stats/pos/staker.go:320-400 | every validator is recovered from its row, its total stake included although only the difference was sent; online exactly when there is no offline block |
| Validators.ReadValidators | stats/pos/staker.go:320-400 | contract call and unpacking together: each validator as its record in the contract says |
| StakeTotals.SumsStep | stats/pos/writer.go:155-177 | what each validator adds to every total: nothing unless it is active |
| Types.ScalesToWholeVET | vetutil/vet.go:9-15 | wei scale to whole VET, modulo 2^64, below zero to the VET of the next whole amount |
| StakeTotals.CreateValidatorOverview | stats/pos/writer.go:136-177 | every uint64 total is the true sum modulo 2^64; accumulated weight is online plus offline weight; the two stake fields count delegators twice |
| StakeTotals.StakeIsNearlyTheTotal | vetutil/vet.go:9-15 | the accumulated stake is at most the scaled total and short by less than 2n for n active validators |
| StakeTotals.WholeStakesAreExact | stats/pos/compiled/Staker.sol:295-299 | whole-VET stakes, the only ones accepted, lose nothing |
| StakeTotals.BoundIsTight | vetutil/vet.go:9-15 | for every n there are n validators for which the shortfall is 2n - 1 |

## Left out

- Replay.StepFollows: assumes that within one iteration the checked block is still canonical when it is fetched, and its parent when that is, and that the parent's fetch does not fail; `MidIteration` and `AfterReorg` say exactly what happens otherwise.  Its bound on the depth is the exact one but for the edge case of `RollbackDepth.RollbackIsCleanIff`.
- RollbackDepth.RollbackIsCleanIff: speaks of runs in which every request gets through and no other goroutine touches the cache.
- Database.RunKeepsDatabase: assumes, beside that, that finalized blocks stay canonical, that rollbacks exceed the cache, that the database accepts every delete and holds nothing later than its one-hour bound (a failed delete is only logged; `ForkHandler.Resolve` and `Points.DeleteIsDropAfter` say what either does), and that the handlers' tasks are drained before a fork is resolved, which the subscriber does not wait for.  Points are told apart by block and time; a later point with the same tags and time replacing an earlier one is not modelled.
- Database.ForkEventsResolve: speaks of the chain on which the fork was detected; the search reads the chain again later, and `ForkHandler.GetSideChain` says what happens for any chain it then meets. Requests that fail inside the search are not modelled.
- BlockFetcher.BlockFetcher.FetchBlock: the lookup and the store are one step, and a caller that joins another caller's fetch of the same height in flight counts as a cache access of its own; retries become one flag. The requests inside one fetch, for a block and its seed block, see one chain.
- ForwardSyncer.ForwardSyncer.Iterate: waiting, sleeping and retry delays are left out; the clock and each request's success are inputs.
- Pipeline.NeverStuck: asks for room in the block channel; when the subscriber stops reading before the run is cancelled, backward workers and block events wait until it is, and a fork event waits for good.
- WorkerPool.PoolConserves: tasks still queued at shutdown may stay unprocessed; the theorem counts them as queued.
- Calculator.RaisedWeightIsNotLater: scores are reals; two different real scores may round to the same float64.
- SlotAccounting.OneMissPerSlot: takes it from thor's scheduler, which is not part of this model, that each slot has one scheduled proposer. The offline half of the missed slots is left out.
- SlotAccounting.RecordSlots: models the slot points only, not the owners, the top five proposers or the candidate cache, whose reset rule does not keep it equal to the chain.
- Validators.GetValidators: the output columns are sequences, written by index in the contract; the ABI library that carries them to the service is not part of this model, and neither is gas.
- StakeTotals.CreateValidatorOverview: the signer's probability, withdrawn funds and totals read straight from the contract are left out.
- The energy statistics: two subtractions and a division; the share split adds only easy members.
- Packing of call arguments, eight-byte integers and generic arrays of the generated codec: the packing does not follow the head and tail layout, and the sign extension of eight-byte integers is wrong for large negative values.
- Blake2b, ChaCha8, the logarithm, RLP, VRF and thor's scheduler are parameters.
- HTTP and RPC calls, the InfluxDB client, logging, flags, the owners' spreadsheet, prices, transaction, liveness and utilisation statistics: input and output, or simple sums.
