# Verified models of Nimiq Albatross components

This project models five components of the Albatross node in Dafny and proves properties of them over all inputs, all
reachable states and whole runs. `dafny verify dfyconfig.toml` checks everything.

- **Handel aggregation** (`BinomialPartitioner`, `ReplaceStore`, `WeightedVote`, `Levels`, `PendingContributions`,
  `Aggregation`, `AggregationRuns`, `AggregationDelivery`). Every node collects the signatures of all validators level
  by level. The node is a class whose `Poll` is one call of the source's stream: it drains the received updates, finishes
  the verification in flight, lets the timers fire and selects the next contribution. Incoming updates, timer ticks and
  verification outcomes are parameters. Panics, asserts and expects of the source are preconditions or checked
  assertions, so verification of `AggregationRuns.Run` means that none of them is reached.
- **Light client fork choice** (`BlockTree`, `ChainState`, `LightBlockchain`, `LightBlockchainRuns`). The stored blocks
  are a tree with a marked main chain. The class has the source's fields: the chain infos by hash, the height index, the
  election blocks and the three heads. A block stands for its own hash, so hashes are injective.
- **Rate limiter** (`RateLimiting`, `RateLimits`). Limits of peers that leave are marked and deleted later. The class has
  the nested map of active limits and the two indexes of marks; the clock readings are parameters.
- **Mempool** (`MempoolTransactions`, `MempoolState`, `Mempool`, `MempoolUpdates`). Two containers with a set of
  transactions and three priority queues each, one entry per sender, and the operations that change them. The blockchain
  is a parameter: known account balances, included transactions and the next height.
- **Bit set** (`BitSet`). Words of 64 bits with a cached count, refined to mathematical sets.

Two promises turned out not to hold for every input, and are stated as equivalences instead. A rate limiter that forgets
answers all continuations of a run like one that never does if and only if every request of the run that creates a
forgotten limit again is harmless: its two clock readings are equal, the window has passed between them, or the maximum
is zero (`RateLimiting.ForgettingIsExact`, with the run in `RateLimits.RunExample`). Returning handed-out transactions on
an unchanged chain restores the mempool if and only if each of them still applies and its sender's balance covers what is
reserved (`Mempool.HandOutAndReturn`, with the run in `Mempool.HandOutExample`).

Where documentation and code differ, the code is followed. The light client's chain ordering runs before the check of
the block number, although it relies on it: `LightBlockchain.OrderChains` states for any number when the ordering
succeeds. The evaluator's branch for the weight of an individual signer is never taken.

## Model

| member | source | states |
|---|---|---|
| `Bits.Ilog2` | handel/src/partitioner.rs:49-62 | the position of the highest set bit: the number lies between that power of two and the next |
| `Bits.MaskLowBits` | handel/src/partitioner.rs:90-110 | clearing or setting the low bits gives the ends of the aligned block that holds a number |
| `BinomialPartitioner.IdentitiesOnIsLevel` | handel/src/partitioner.rs:90-110 | the masked range computed for a level is exactly the set of ids at that xor distance, cut off at the number of ids |
| `BinomialPartitioner.LevelOfIsUnique` | handel/src/partitioner.rs:90-110 | every id is on exactly one level of a node |
| `BinomialPartitioner.LevelOfInRange` | handel/src/partitioner.rs:49-62 | that level is below the number of levels, so the levels cover all ids |
| `BinomialPartitioner.LevelsDisjoint` | handel/src/partitioner.rs:90-110 | two different levels share no id |
| `BinomialPartitioner.OnLevelSymmetric` | handel/src/partitioner.rs:90-110 | one node is on a level of another exactly when the other is on that level of the first |
| `BinomialPartitioner.OppositeSides` | handel/src/partitioner.rs:90-110 | what a node has below a level is exactly what a peer on that level sees there |
| `BinomialPartitioner.LevelSizeIsCardinality` | handel/src/partitioner.rs:74-80 | the computed size is the number of ids on the level |
| `BinomialPartitioner.CumulativeLevelSize` | handel/src/partitioner.rs:82-88 | the accumulated size counts the ids closer than the power of two in xor distance |
| `ReplaceStore.MergeIsLargestAggregate` | handel/src/store.rs:104-201 | the new best can be aggregated without overlap from the old best, the contribution and individuals, and nothing larger can |
| `ReplaceStore.MergeIsLarge` | handel/src/store.rs:104-201 | a merge is at least as large as the best and as the contribution with all individuals, and takes both if they do not overlap |
| `ReplaceStore.PutKeepsConsistent` | handel/src/store.rs:209-248 | after a put the individuals of each level are in its best, the best of the level does not shrink, and other levels keep theirs |
| `ReplaceStore.PutKeepsInsideLevels` | handel/src/store.rs:209-248 | every best stays inside its level |
| `ReplaceStore.CombineAll` | handel/src/partitioner.rs:113-127 | contributions without overlap combine to their union; there is no result exactly for no contributions |
| `ReplaceStore.BelowInsideUpTo` | handel/src/store.rs:279-286 | the combined levels below a level hold ids of these levels only and are disjoint from the next level |
| `ReplaceStore.Store.constructor` | handel/src/store.rs:86-94 | a new store knows nothing and satisfies the invariant |
| `ReplaceStore.Store.CheckMerge` | handel/src/store.rs:104-201 | the loop over individuals yields the merged best, and nothing exactly when the best stays as it is |
| `ReplaceStore.Store.RecordIndividual` | handel/src/store.rs:209-228 | the verified set and the map of individuals keep the same keys |
| `ReplaceStore.Store.Improve` | handel/src/store.rs:230-248 | the best of the level becomes the merge, and the best level is the highest with a best |
| `ReplaceStore.Store.Put` | handel/src/store.rs:209-248 | the store stays valid and knows exactly what the specification of a put says |
| `ReplaceStore.Store.Combined` | handel/src/store.rs:275-286 | the combination up to a level is the disjoint union of the bests, and exists exactly if one of them does |
| `WeightedVote.PredictionIsExact` | handel/src/evaluator.rs:178-241 | the predicted gain is positive exactly if a put makes the best larger, and the predicted total is its new size |
| `WeightedVote.PredictionFits` | handel/src/evaluator.rs:178-241 | the number of individual signatures that are merged in never exceeds the number of ids |
| `WeightedVote.LevelBound` | handel/src/evaluator.rs:71-85 | there are at most 17 levels for up to 65536 ids |
| `WeightedVote.CompleteLevelIsCovered` | handel/src/evaluator.rs:155-168 | a best has the size of its level exactly if it holds the whole level |
| `WeightedVote.CoveredGainsNothing` | handel/src/evaluator.rs:170-174 | a contribution inside the best leaves it as it is |
| `WeightedVote.EvaluatorIsExact` | handel/src/evaluator.rs:132-267 | the score is positive exactly if a put makes the level's best strictly larger, no score subtraction underflows, and the weight is never used |
| `WeightedVote.ScoreIsExact` | handel/src/evaluator.rs:251-267 | the score of a useful contribution, by whether the put completes the level, how many signers it adds and how many individual contributions are merged in |
| `WeightedVote.CompletingFirst` | handel/src/evaluator.rs:251-267 | a contribution that completes its level scores higher than one that does not, on any levels |
| `WeightedVote.MoreSignersFirst` | handel/src/evaluator.rs:258-266 | of two that complete nothing, with as many individual ones merged in, the one that adds more signers scores higher, or that of the earlier level |
| `WeightedVote.EarlierLevelFirst` | handel/src/evaluator.rs:251-257 | of two that complete a level, that of the earlier level scores higher unless more individual ones are merged in |
| `WeightedVote.FullFirst` | handel/src/evaluator.rs:132-136 | a full aggregate scores higher than everything else |
| `WeightedVote.NewUpdateKeepsFields` | handel/src/update.rs:28-35 | narrowing level and origin loses nothing for the levels and ids that occur |
| `WeightedVote.VerifyIsExact` | handel/src/evaluator.rs:269-326 | an update of a store level is accepted exactly if it comes from that level, attaches at most the sender's own contribution and aggregates signers of that level only |
| `WeightedVote.FullIsExact` | handel/src/evaluator.rs:276-284 | a full aggregate is accepted if and only if it is complete |
| `WeightedVote.SidesMatch` | handel/src/partitioner.rs:90-110 | what a node combines below a level lies in the level its peer has it on |
| `WeightedVote.HonestUpdateIsAccepted` | handel/src/aggregation.rs:257-317 | what an honest node sends for a level passes verification at every peer of that level |
| `WeightedVote.ImprovingStep` | handel/src/store.rs:209-248 | an improving application makes the aggregate of all levels strictly larger |
| `WeightedVote.RunGrows` | handel/src/aggregation.rs:356-387 | after any run of improving applications the store invariant holds and there are as many signers as applications at least |
| `WeightedVote.ProgressBound` | handel/src/aggregation.rs:356-387 | no run has more store applications than there are ids |
| `WeightedVote.IndividualsOf` | handel/src/store.rs:221-228 | the signers whose individual contributions were applied to a level |
| `WeightedVote.IndividualsAreRecorded` | handel/src/store.rs:221-228 | over any run the individual contributions that a level can be rebuilt from are exactly those that were applied to it |
| `WeightedVote.StoredWasApplied` | handel/src/evaluator.rs:148-152 | over any run the contributions that are scored as known are exactly the individual ones that were applied |
| `WeightedVote.BestIsLargest` | handel/src/store.rs:104-248 | after every application the best of its level is an aggregate of the previous best, the contribution and the individual ones applied so far, and no such aggregate without overlap is larger |
| `WeightedVote.BestIsNoSmaller` | handel/src/store.rs:104-248 | the best of a level is at least as large as every contribution that was applied to it |
| `WeightedVote.BestHoldsIndividuals` | handel/src/store.rs:104-248 | the best of a level holds every signer whose individual contribution was applied to it |
| `Levels.CreateLevel` | handel/src/level.rs:59-115 | a level has exactly the ids of its partition, and starts at this node's position on its own side of the tree, wrapped to a valid index |
| `Levels.CreateLevels` | handel/src/level.rs:59-115 | all levels are created, in order |
| `Levels.NextIndex` | handel/src/level.rs:130-149 | the remainder computed by the source is the position that many steps further around |
| `Levels.SelectNextPeers` | handel/src/level.rs:130-149 | the wrapped selection loop takes the next peers in ring order and moves the index past them |
| `Levels.RotatedIsDistinct` | handel/src/level.rs:130-149 | no peer is selected twice in one request |
| `Levels.SelectedIsNear` | handel/src/level.rs:130-149 | a peer is selected exactly if it is fewer steps away than the request asks for |
| `Levels.SelectionsAreHits` | handel/src/level.rs:130-149 | over any requests a peer is selected as often as a walk around the ring leaves from its position |
| `Levels.RoundRobinIsFair` | handel/src/level.rs:130-149 | over any requests two peers' selection counts differ by at most one |
| `Levels.RoundRobinReachesEveryone` | handel/src/level.rs:130-149 | requests that ask for as many peers as there are reach everyone |
| `PendingContributions.PollNext` | handel/src/pending_contributions.rs:154-202 | the item with the highest positive score is taken, items without a score are dropped, and all others stay |
| `Aggregation.MarkingKeepsStep` | handel/src/aggregation.rs:196-251 | marking a covered level and starting its successor keeps the level invariant |
| `Aggregation.PutOpensLevel` | handel/src/aggregation.rs:356-387 | an application can only leave the mark of its own level to be checked |
| `Aggregation.UpdatesAreWelcome` | handel/src/aggregation.rs:257-317 | every message sent to peers of a level goes to an existing node and is accepted there |
| `Aggregation.FinalIsWelcome` | handel/src/aggregation.rs:257-272 | a complete aggregate is accepted by every node |
| `Aggregation.ScoreMeansImproves` | handel/src/pending_contributions.rs:154-202 | a selected contribution is new to its level and makes its best larger |
| `Aggregation.ApplyingKeeps` | handel/src/aggregation.rs:356-387 | an improving application keeps the run, the store and the levels in step, and enlarges the aggregate |
| `Aggregation.Node.constructor` | handel/src/aggregation.rs:86-139 | the initial state satisfies the invariant |
| `Aggregation.Node.SendContribution` | handel/src/aggregation.rs:274-317 | one update goes to each recipient, with the own contribution attached unless all signers below are present; recipients are in bounds |
| `Aggregation.UpdatesServe` | handel/src/aggregation.rs:257-317 | every recipient gets one update with exactly the signers of the bests below its level, with the own contribution exactly if somebody of these levels is missing, and the final result if there is one; nobody gets anything else |
| `Aggregation.Node.SendUpdate` | handel/src/aggregation.rs:257-272 | the final result and the combined bests below the level are sent, and every recipient is served |
| `Aggregation.Node.StartLevel` | handel/src/aggregation.rs:142-182 | exactly the levels up to the given one are started, in order, and each newly started one sends its updates |
| `Aggregation.Node.IsCovered` | handel/src/aggregation.rs:196-225 | the size comparison decides whether the best holds all peers |
| `Aggregation.Node.CheckCompletedLevel` | handel/src/aggregation.rs:196-251 | covered levels are marked and their successors started or updated, in order; then started levels form a prefix, a level with peers is complete exactly if its best covers it, and complete levels have their successor started |
| `Aggregation.Node.AutomaticUpdate` | handel/src/aggregation.rs:320-336 | the levels from 1 up to the first idle one get their updates, in order, and move on |
| `Aggregation.StartedAreBelowIdle` | handel/src/aggregation.rs:320-336 | the levels below the first idle one are all started levels, so stopping there skips nothing |
| `Aggregation.UpdatingMovesOn` | handel/src/aggregation.rs:320-336 | each of these levels moves on by one request and no other level changes |
| `Aggregation.StartingAllStarts` | handel/src/aggregation.rs:142-182 | starting levels in order from the first idle one starts exactly these |
| `Aggregation.Node.ActivateNextLevel` | handel/src/aggregation.rs:339-351 | the first idle level is started and sends its updates, and the level invariant is kept |
| `Aggregation.TimeoutsStart` | handel/src/aggregation.rs:525-529 | each timeout starts exactly one more level until all are started |
| `Aggregation.Node.RunTimers` | handel/src/aggregation.rs:519-529 | all ticks of the update interval and then all level timeouts take effect |
| `Aggregation.Node.Receive` | handel/src/aggregation.rs:465-493 | a rejected update changes nothing; an accepted one is answered and its contributions are listed |
| `Aggregation.Node.ReceiveAll` | handel/src/aggregation.rs:446-494 | all received updates are handled, in order |
| `Aggregation.Node.RespondToUpdate` | handel/src/aggregation.rs:422-432 | the sender gets the own updates of its level, and nothing if it has a full aggregate |
| `Aggregation.Node.ApplyContribution` | handel/src/aggregation.rs:356-387 | the store's combined aggregate grows strictly and is returned, and exactly the levels this starts or completes are followed up; a full aggregate bypasses the store |
| `Aggregation.Node.BestAggregate` | handel/src/aggregation.rs:356-387 | the combined aggregate that the source expects exists |
| `Aggregation.Node.FinishVerification` | handel/src/aggregation.rs:496-517 | a verified contribution still improves the store when it is applied, a failed one is dropped, and one in flight stays |
| `Aggregation.Node.SelectNext` | handel/src/aggregation.rs:536-541 | the pending contribution with the highest score is taken off the list, the useless ones go, and it can be applied as long as the store stays as it is |
| `Aggregation.Node.Choose` | handel/src/aggregation.rs:536-575 | contributions are tried from the best on until one is trusted, verified or in flight, and each one tried before has failed |
| `Aggregation.Node.StartVerification` | handel/src/aggregation.rs:531-575 | the best contribution that has not failed is applied exactly if it is trusted or verified, and awaited if it is in flight |
| `Aggregation.Node.Conclude` | handel/src/aggregation.rs:577-604 | the first complete aggregate becomes the final result and all levels are marked |
| `Aggregation.Node.Poll` | handel/src/aggregation.rs:443-604 | one call keeps the whole invariant; the new state and the result are exactly those of answering all updates, finishing the verification in flight, running the timers and applying at most one contribution |
| `AggregationRuns.StoreGrows` | handel/src/aggregation.rs:356-387 | over any part of a run applications are only added, and each enlarges the combined aggregate |
| `AggregationRuns.ResultIsReplayed` | handel/src/aggregation.rs:356-387 | an aggregate of the store that is yielded is what replaying the applications up to its poll gives |
| `AggregationRuns.ResultsGrow` | handel/src/aggregation.rs:443-604 | of the aggregates of the store that a run yields, a later one is strictly larger |
| `AggregationRuns.StoreResultsBound` | handel/src/aggregation.rs:443-604 | a run yields at most as many of them as there are ids |
| `AggregationRuns.FinalStays` | handel/src/aggregation.rs:577-604 | after a complete aggregate nothing is yielded, and it stays the final result |
| `AggregationRuns.FinalWasYielded` | handel/src/aggregation.rs:577-604 | a final result was yielded before and is complete |
| `AggregationRuns.OnlyVerifiedIsApplied` | handel/src/aggregation.rs:443-575 | in any run every applied contribution is the own one, or it came with an accepted update and its verification succeeded |
| `AggregationRuns.ReceivedLists` | handel/src/aggregation.rs:477-493 | the aggregate and the individual contribution of an accepted update are listed, unless a later one of the same sender replaces them |
| `AggregationRuns.NothingUsefulIsLost` | handel/src/aggregation.rs:443-575 | in any run a contribution with a score stays pending, unless it is applied or awaited, or its verification failed |
| `AggregationRuns.OwnIsFirst` | handel/src/aggregation.rs:86-139 | the first poll of every run applies the own contribution, unless it receives a full aggregate |
| `AggregationRuns.FullIsYielded` | handel/src/aggregation.rs:356-366 | a full aggregate that is applied is yielded, and becomes the final result if it is complete |
| `AggregationRuns.CompletingIsVerifiedFirst` | handel/src/aggregation.rs:536-575 | in any run nothing that completes no level is verified while a contribution is pending that completes one |
| `AggregationRuns.FullIsVerifiedFirst` | handel/src/aggregation.rs:536-575 | in any run nothing else is verified while a full aggregate is pending |
| `AggregationDelivery.TickServes` | handel/src/aggregation.rs:519-523 | in any run every started level is served when the periodic update fires: as many of its peers as configured get what is known below it |
| `AggregationDelivery.StartServes` | handel/src/aggregation.rs:142-182 | in any run a level is served when it is started |
| `AggregationDelivery.TimeoutStarts` | handel/src/aggregation.rs:525-529 | in any run every level timeout starts one more level until all are started |
| `AggregationDelivery.CoveringServes` | handel/src/aggregation.rs:196-251 | in any run the next level is served when a level gets covered |
| `AggregationDelivery.ReplyServes` | handel/src/aggregation.rs:465-476 | in any run the sender of every accepted update of a level is served |
| `AggregationDelivery.BestIsStarted` | handel/src/aggregation.rs:377-383 | in any run every level with a best is started |
| `AggregationRuns.Run` | handel/src/aggregation.rs:443-604 | any run is a trace of polls and yields exactly their results; no abort is reached, every message is accepted by its receiver, the aggregates of the store grow strictly, at most as many as there are ids, and a complete one is the last |
| `Policies.LastMacroFormula` | primitives/src/policy.rs:481-492 | the last macro block is what the division computes |
| `Policies.MacroAtFormula` | primitives/src/policy.rs:495-500 | macro blocks are where the remainder is the last index of a batch |
| `Policies.ElectionAtFormula` | primitives/src/policy.rs:441-443 | election blocks are where the remainder is the last index of an epoch |
| `Policies.NextElectionFormula` | primitives/src/policy.rs:388-399 | the next election block is one epoch after the last one |
| `Policies.EpochAtFormula` | primitives/src/policy.rs:330-341 | the epoch number is the rounded-up quotient |
| `Policies.ElectionIsMacro` | primitives/src/policy.rs:441-443 | every election block is a macro block |
| `Policies.NoneSkipped` | primitives/block/src/block.rs:571-576 | a block skips no election block exactly if it is not above the next one |
| `Policies.NextMacroInEpoch` | primitives/block/src/block.rs:571-576 | the next macro block is never above the next election block |
| `BlockTree.LessTotal` | blockchain-interface/src/chain_ordering.rs:77-103 | two different skip words are always ordered |
| `BlockTree.LessTransitive` | blockchain-interface/src/chain_ordering.rs:77-103 | the order of skip words is transitive |
| `ChainState.StoredLinked` | light-blockchain/src/push.rs:242-260 | every stored block of the batch descends from the macro head |
| `ChainState.StoredInBatch` | light-blockchain/src/push.rs:25-35 | the macro head is the last macro block at every stored height above it |
| `ChainState.SameBlocksSamePattern` | blockchain-interface/src/chain_ordering.rs:38-103 | two nodes with the same blocks of a batch agree on the height and skip word of the head |
| `ChainState.SwitchKeepsBest` | light-blockchain/src/push.rs:120-127 | switching to a better block makes it best among all stored ones |
| `ChainState.ExtendKeepsSound` | light-blockchain/src/push.rs:154-197 | extending keeps the tree, the marks of the main chain and the best head |
| `ChainState.StoreKeepsSound` | light-blockchain/src/push.rs:128-141 | storing a fork block keeps them |
| `ChainState.RebranchFollows` | light-blockchain/src/push.rs:306-332 | after unmarking, relinking and marking, exactly the path of the new head is marked, with matching successors, at every height where the marks followed the old head; nothing below the macro head is touched |
| `ChainState.ExtendMacroFollows` | light-blockchain/src/push.rs:166-197 | a macro block on the head: the retained predecessor has it as successor, and every other retained mark follows it |
| `ChainState.RunKeepsFlags` | light-blockchain/src/push.rs:154-332 | once the marks follow the head from some height on, they do so over every run of pushes, below the macro head as well |
| `ChainState.MovedMarksRebranch` | light-blockchain/src/push.rs:306-332 | the two rewrite loops and the update of the ancestor amount to that change |
| `ChainState.PruningKeepsBatch` | light-blockchain/src/chain_store.rs:358-373 | no block of the last batch is pruned |
| `ChainState.PruningKeepsElected` | light-blockchain/src/chain_store.rs:349-373 | the entry of the current election block is never pruned |
| `ChainState.ElectionHeadIsDue` | primitives/block/src/block.rs:541-580 | a macro block within the allowed range never skips an election block |
| `ChainState.OutranksTransitive` | light-blockchain/src/push.rs:120-135 | the rank of heads is a strict order |
| `LightBlockchain.OrderExists` | blockchain-interface/src/chain_ordering.rs:38-114 | at least one of the four orders applies to a block |
| `LightBlockchain.OrderIsUnique` | blockchain-interface/src/chain_ordering.rs:38-114 | at most one of them applies |
| `LightBlockchain.LightBlockchain.constructor` | light-blockchain/src/blockchain.rs:57-81 | the chain of the genesis block satisfies the invariant |
| `LightBlockchain.LightBlockchain.PutChainInfo` | light-blockchain/src/chain_store.rs:70-99 | the height index lists exactly the stored blocks |
| `LightBlockchain.LightBlockchain.GetChainInfoAt` | light-blockchain/src/chain_store.rs:46-67 | the marked block of a height is found if there is one |
| `LightBlockchain.LightBlockchain.GetBlockAt` | light-blockchain/src/chain_store.rs:46-67 | from macro head to head the marked block of a height is the ancestor of the head there |
| `LightBlockchain.LightBlockchain.ClearOldBlocks` | light-blockchain/src/chain_store.rs:358-373 | exactly the blocks within a batch, or within an epoch for election blocks, stay; no subtraction underflows |
| `LightBlockchain.LightBlockchain.SkipFlags` | blockchain-interface/src/chain_ordering.rs:54-70 | the stack holds the skip flags of the fork down to where it leaves the main chain, whatever the number of the block; no predecessor is missing above the macro head |
| `LightBlockchain.LightBlockchain.CompareFlags` | blockchain-interface/src/chain_ordering.rs:79-103 | popping and comparing decides the order of the whole skip words, and the stack runs out exactly if the shorter word of the fork is a prefix |
| `LightBlockchain.LightBlockchain.OrderChains` | blockchain-interface/src/chain_ordering.rs:38-114 | the result is the order of the two skip words since the macro head, after the rules for extensions and macro blocks; for a number that is not checked yet it fails if and only if the flags run out |
| `LightBlockchain.LightBlockchain.ForkChain` | light-blockchain/src/push.rs:242-281 | the walk down the fork ends where it leaves the main chain, never below the macro head |
| `LightBlockchain.LightBlockchain.RevertChain` | light-blockchain/src/push.rs:283-304 | the walk down the main chain meets no macro block |
| `LightBlockchain.LightBlockchain.MoveMarks` | light-blockchain/src/push.rs:242-332 | afterwards the marks and successors describe the chain of the new head |
| `LightBlockchain.LightBlockchain.Extend` | light-blockchain/src/push.rs:154-229 | the invariant is kept; a macro block becomes macro head and prunes; the marks follow the new head |
| `LightBlockchain.LightBlockchain.Rebranch` | light-blockchain/src/push.rs:232-408 | the same for a fork, without reverting the macro head |
| `LightBlockchain.LightBlockchain.Push` | light-blockchain/src/push.rs:19-151 | each result with its exact condition, the stored blocks and the three heads after it; the ordering is aborted if and only if the flags run out, and never for a block with the right number; the marks that followed the old head follow the new one, and nothing below the macro head is touched |
| `LightBlockchain.LightBlockchain.PushMacro` | light-blockchain/src/sync.rs:16-113 | each result with its exact condition, the stored blocks and the three heads after it; the retained chain infos are as before |
| `LightBlockchain.LightBlockchain.PushPicoElection` | light-blockchain/src/sync.rs:116-200 | the same for an election block of any later epoch |
| `LightBlockchain.LightBlockchain.Reset` | light-blockchain/src/blockchain.rs:84-98 | back to the initial state |
| `LightBlockchain.LightBlockchain.GetBlocksForward` | light-blockchain/src/chain_store.rs:313-346 | the stored successors are returned in order, up to the count or the last one; from a main chain block of the batch these are the following main chain blocks up to the head |
| `LightBlockchain.LightBlockchain.GetBlocksBackward` | light-blockchain/src/chain_store.rs:278-311 | the stored ancestors are returned in order, at least down to the macro head |
| `LightBlockchainRuns.StepAdvances` | light-blockchain/src/push.rs:120-135 | a push leaves the head or moves it to a block that outranks it, and the macro head never goes back |
| `LightBlockchainRuns.NextIsExtended` | light-blockchain/src/push.rs:19-229 | every verified block that continues the head with the type that its height asks for extends the chain, and at an election height it becomes the election head |
| `LightBlockchainRuns.BetterIsAdopted` | light-blockchain/src/push.rs:120-151 | of the verified blocks that continue a stored block, exactly the macro blocks and those with a better skip word are adopted, and all are stored |
| `LightBlockchainRuns.MacroIsTakenOver` | light-blockchain/src/sync.rs:16-113 | a macro block is taken over if and only if it is verified, new, above the macro head, at a macro height, and skips no election block |
| `LightBlockchainRuns.ElectionIsTakenOver` | light-blockchain/src/sync.rs:116-200 | a new verified election block of any later epoch becomes all three heads |
| `LightBlockchainRuns.PushPrunes` | light-blockchain/src/chain_store.rs:358-373 | every new macro head prunes all blocks more than a batch below it, or an epoch for election blocks |
| `LightBlockchainRuns.RunStaysRecent` | light-blockchain/src/chain_store.rs:358-373 | over any run from the genesis block no older block is stored |
| `LightBlockchainRuns.RunAdvances` | light-blockchain/src/push.rs:120-135 | over any part of a run the last head is the same as or outranks the first, and it is the same only if it never changed |
| `LightBlockchainRuns.NoReadoption` | light-blockchain/src/push.rs:120-135 | a head that was abandoned in a run is never adopted again in it |
| `LightBlockchainRuns.FinalityHolds` | light-blockchain/src/push.rs:232-408 | over any series of pushed blocks, every macro head stays on the chain of all later heads and macro heads |
| `LightBlockchainRuns.NodesAgree` | light-blockchain/src/push.rs:56-141 | two nodes in any reachable state with the same blocks above the same macro head agree on the height and skip word of the head |
| `LightBlockchainRuns.Run` | light-blockchain/src/push.rs:19-151 | every run of pushes keeps the invariant and is a trace, with the exact effect of each push and the best head after it |
| `RateLimiting.RunMatches` | network-libp2p/src/rate_limiting.rs:166-221 | over any run with harmless creations the limits match those of a limiter that never deletes |
| `RateLimiting.ForgettingIsInvisible` | network-libp2p/src/rate_limiting.rs:199-307 | over any mix of requests and disconnects with harmless creations, all answers equal those of a limiter that never deletes |
| `RateLimiting.ForgettingIsVisible` | network-libp2p/src/rate_limiting.rs:199-221 | a limit created again cannot be told from a kept one if and only if the request is harmless |
| `RateLimiting.RecreationIsExact` | network-libp2p/src/rate_limiting.rs:199-221 | in any run, the first request that creates a forgotten limit again in another way can be told from then on |
| `RateLimiting.ForgettingIsExact` | network-libp2p/src/rate_limiting.rs:199-307 | for any run, all continuations are answered like by a limiter that never deletes if and only if the run creates deleted limits again in a harmless way only |
| `RateLimiting.ForgettingExample` | network-libp2p/src/rate_limiting.rs:199-221 | a run of four events in which the answers differ |
| `RateLimiting.RequestPays` | network-libp2p/src/rate_limiting.rs:166-179 | an allowed request is paid for by what an interval can still admit |
| `RateLimiting.WindowAdmitsTwice` | network-libp2p/src/rate_limiting.rs:166-221 | in any run, any interval as long as the window admits at most twice the maximum |
| `RateLimits.BeforeIsOrder` | network-libp2p/src/rate_limiting.rs:73-84 | the order of expirations is strict and total, by time first |
| `RateLimits.FirstExists` | network-libp2p/src/rate_limiting.rs:73-84 | there is a first one among any expirations |
| `RateLimits.ExpireKeepsTracked` | network-libp2p/src/rate_limiting.rs:254-307 | an expired mark always has its limit, and a limit that stays belongs to a peer that came back |
| `RateLimits.RateLimits.ExceedsRateLimit` | network-libp2p/src/rate_limiting.rs:199-221 | the limit is created if missing and counted, and the invariant is kept |
| `RateLimits.RateLimits.PopFirstIfExpired` | network-libp2p/src/rate_limiting.rs:100-116 | the first expired mark leaves both indexes; otherwise no mark has expired |
| `RateLimits.RateLimits.InsertPending` | network-libp2p/src/rate_limiting.rs:118-138 | the indexes stay in bijection, also when a mark is replaced |
| `RateLimits.RateLimits.CleanUp` | network-libp2p/src/rate_limiting.rs:254-307 | only expired limits are deleted, and no expired mark is left |
| `RateLimits.RateLimits.RetainLimits` | network-libp2p/src/rate_limiting.rs:232-246 | exactly the limits that still count stay, and each is marked |
| `RateLimits.RateLimits.RemoveRateLimits` | network-libp2p/src/rate_limiting.rs:225-251 | all limits of peers that left are marked with their exact reset time and have not expired |
| `RateLimits.Run` | network-libp2p/src/rate_limiting.rs:199-307 | every run keeps the invariant and is a trace of a limiter that deletes expired limits only |
| `RateLimits.RunExample` | network-libp2p/src/rate_limiting.rs:199-307 | the class answers the example run differently from a limiter that never deletes |
| `MempoolTransactions.OrdersAreReverse` | mempool/src/mempool_transactions.rs:44-90 | the order of eviction is the reverse of the order of inclusion, and both are total |
| `MempoolTransactions.BetterIsExact` | mempool/src/mempool_transactions.rs:44-90 | inclusion prefers the higher priority, then the higher fee per byte, then the earlier insertion; eviction the opposite |
| `MempoolTransactions.BetterTransitive` | mempool/src/mempool_transactions.rs:44-57 | the order of inclusion is transitive |
| `MempoolTransactions.InsertKeeps` | mempool/src/mempool_transactions.rs:172-207 | after an insertion the queues hold exactly the transactions with their orders, and the total size is their sum |
| `MempoolTransactions.OlderFirst` | mempool/src/mempool_transactions.rs:172-207 | an inserted transaction has its priority and fee, and loses against older ones with the same |
| `MempoolTransactions.ValidityWindow` | primitives/transaction/src/lib.rs:395-402 | a transaction is valid at as many heights as the window has, from its start height on, and for up to a batch before that |
| `MempoolTransactions.WithoutMore` | mempool/src/mempool_transactions.rs:209-219 | a deletion takes a transaction out of the set, the queues and the total size |
| `MempoolTransactions.EndsExist` | mempool/src/mempool_transactions.rs:44-90 | a queue that is not empty has a best and a worst transaction |
| `MempoolState.ReleaseKeeps` | mempool/src/mempool_state.rs:164-174 | a stored transaction has its amount reserved, and releasing it keeps every sender's entry exact |
| `MempoolState.ReserveKeeps` | mempool/src/mempool_state.rs:91-109 | reserving keeps every sender's entry exact |
| `MempoolState.MempoolState.constructor` | mempool/src/mempool_state.rs:41-56 | the empty mempool satisfies the invariant |
| `MempoolState.MempoolState.Remove` | mempool/src/mempool_state.rs:133-180 | exactly the transaction goes, or all of its sender if the account is unknown, and the entries stay exact |
| `MempoolState.MempoolState.Evict` | mempool/src/mempool_state.rs:119-128 | the container fits its limit; what goes with a known account never wins against what stays, by priority, fee per byte or age; without the last eviction the container would not fit |
| `MempoolState.TrimIsNeeded` | mempool/src/mempool_state.rs:119-128 | nothing is evicted if everything fits |
| `MempoolState.TrimIsInOrder` | mempool/src/mempool_state.rs:119-128 | of what is evicted from both containers, everything with a known account is worse than what stays in its container |
| `MempoolState.MempoolState.Put` | mempool/src/mempool_state.rs:72-131 | the first failing check is the result and changes nothing; otherwise the transaction is inserted and the worst ones go, no more than needed |
| `Mempool.CheckIsExact` | mempool/src/mempool_state.rs:72-109 | a transaction passes the checks if and only if its sender has room for it, a known account and a balance that covers it with the others |
| `Mempool.GetExpired` | mempool/src/mempool_transactions.rs:143-166 | the transactions up to the first valid one in order of age are collected |
| `Mempool.ExpiredIsPast` | mempool/src/mempool_transactions.rs:143-166 | everything past its window has expired; what has expired is past it, or not valid yet with nothing valid before |
| `Mempool.PruneExpired` | mempool/src/mempool.rs:544-554 | exactly the expired transactions go, and those of their senders with unknown accounts |
| `Mempool.SelectBest` | mempool/src/mempool.rs:668-703 | the longest prefix of the best order that fits, with its size |
| `Mempool.BestFirstIsOrdered` | mempool/src/mempool.rs:668-703 | earlier ones are better than later ones, and all are better than the rest |
| `Mempool.HandOut` | mempool/src/mempool.rs:572-592 | the prefix is handed out and removed; each wins against all later ones and all that is left, by priority, fee per byte or age |
| `Mempool.ReturnedWithRoom` | mempool/src/mempool.rs:645-666 | if there is room, a transaction comes back exactly if it still applies and the balance covers it |
| `Mempool.AllReturned` | mempool/src/mempool.rs:645-666 | if there is room, all transactions come back if and only if all are acceptable |
| `Mempool.ReturnAll` | mempool/src/mempool.rs:645-666 | the transactions are put back one by one; if there is room, nothing goes and what does not come back is not acceptable beside the rest |
| `Mempool.HandOutAndReturn` | mempool/src/mempool.rs:572-666 | for the longest prefix of the best order that fits, transactions, sizes and entries are restored if and only if each of them still applies and its sender is covered |
| `Mempool.HandOutExample` | mempool/src/mempool.rs:572-666 | a transaction that is put, expires, is handed out and is not taken back |
| `Mempool.PoolIsDetermined` | mempool/src/mempool_state.rs:19-38 | the transactions determine the containers' contents, the sizes and the senders' entries |
| `MempoolUpdates.Rebook` | mempool/src/mempool.rs:520-535 | the kept transactions of a sender are covered together, their sum is reserved, and each dropped one would be too much beside them |
| `MempoolUpdates.CoveredStay` | mempool/src/mempool.rs:520-535 | a sender whose balance covers everything keeps everything |
| `MempoolUpdates.Recompute` | mempool/src/mempool.rs:491-541 | exactly the given senders are settled: nothing of others goes, all of unknown accounts goes, and otherwise only what does not fit beside what is kept |
| `MempoolUpdates.AdoptBlocks` | mempool/src/mempool.rs:334-360 | exactly the adopted transactions go, with those of their senders with unknown accounts; the senders of unknown transactions are returned |
| `MempoolUpdates.Update` | mempool/src/mempool.rs:314-412 | the expired and the adopted transactions go, the reverted ones are put back one by one, and all senders are settled if there are adopted blocks |
| `MempoolUpdates.UpdateKeeps` | mempool/src/mempool.rs:314-412 | a covered transaction that neither expires nor is adopted stays if nothing is reverted |
| `MempoolUpdates.UpdateAdds` | mempool/src/mempool.rs:366-390 | what is new comes from a reverted block and still applies |
| `MempoolUpdates.UpdateReturns` | mempool/src/mempool.rs:366-390 | with room, a reverted transaction that still applies and is covered comes back |
| `MempoolUpdates.UpdatePrunes` | mempool/src/mempool.rs:323-324 | nothing that has expired is left |
| `MempoolUpdates.AdoptedAreGone` | mempool/src/mempool.rs:314-412 | no adopted transaction is left that the chain holds |
| `MempoolUpdates.Cleanup` | mempool/src/mempool.rs:454-487 | exactly the expired and the included transactions go and all senders are settled, so that all balances are covered |
| `MempoolUpdates.CleanupKeeps` | mempool/src/mempool.rs:454-487 | a covered transaction that has neither expired nor been included stays |
| `MempoolUpdates.CleanupPrunes` | mempool/src/mempool.rs:454-459 | nothing that has expired is left after a cleanup |
| `BitSet.CountIsCardinality` | collections/src/bitset.rs:89-108 | the number of ones is the number of elements |
| `BitSet.CombinedIsSetOperation` | collections/src/bitset.rs:89-108 | and, or and exclusive or on words are intersection, union and symmetric difference of the sets |
| `BitSet.TrimmedKeepsElems` | collections/src/bitset.rs:143-147 | trailing zero words hold no element |
| `BitSet.CompactIsCanonical` | collections/src/bitset.rs:143-147 | without them a set has one representation only |
| `BitSet.ApplyOp` | collections/src/bitset.rs:89-108 | the loop combines the words, the shorter operand continued by zeros, and counts the ones |
| `BitSet.Combine` | collections/src/bitset.rs:89-108 | the new set is the set operation of both, with its cardinality as count |
| `BitSet.BitSet.Contains` | collections/src/bitset.rs:58-65 | membership |
| `BitSet.BitSet.Insert` | collections/src/bitset.rs:67-76 | exactly the value is added, and the count stays the cardinality |
| `BitSet.BitSet.Remove` | collections/src/bitset.rs:78-87 | exactly the value is taken out, and the count stays the cardinality |
| `BitSet.BitSet.ApplyOpAssign` | collections/src/bitset.rs:110-141 | the form in place gives the same words and count as the other form |
| `BitSet.IsSuperset` | collections/src/bitset.rs:173-190 | the superset relation, whatever zero words follow |
| `BitSet.IntersectionSize` | collections/src/bitset.rs:196-202 | the number of common elements |
| `BitSet.Equal` | collections/src/bitset.rs:277-301 | equality of the sets, whatever zero words follow |
| `BitSet.WriteList` | collections/src/bitset.rs:382-393 | the elements in ascending order |
| `BitSet.ReadList` | collections/src/bitset.rs:418-445 | a list is read if and only if it is distinct and below the limit, and gives its elements |
| `BitSet.BinaryRoundTrip` | collections/src/bitset.rs:394-470 | the binary form reads back as the same words and count |
| `BitSet.ReadableRoundTrip` | collections/src/bitset.rs:382-445 | the readable form reads back as the same set if and only if no element is above 65536 |

## Left out

- Signatures, hashes, proposers and block contents: opaque outcomes of verification; a block or transaction stands for its hash.
- The identity registry: a contribution is its set of signers, and every id is one validator.
- More than 65536 ids: an origin is sent as 16 bits.
- Full aggregates past the last level: they bypass the store, so growth is stated for results of the store only.
- Contributions without a score: dropping one is lossy, since a later replacement of the best could make it useful again.
- Futures, wakers, locks, timers and network sending: parameters of each step and a list of messages sent.
- LightBlockchain.LightBlockchain.OrderChains: for a parent below the macro head and off the main chain, with a wrong block number, does not say when the ordering succeeds, because the blocks below the macro head are pruned without further invariants.
- LightBlockchain.LightBlockchain.Push: leaves open for the same blocks whether the ordering is aborted.
- Chain events, fork proofs, validator sets and the protocol version: notifications or data that no decision here depends on.
- Macro block queries of the chain store: they follow the same links.
- RateLimits.RateLimits.ExceedsRateLimit: counts without the 32-bit limit of the counter, and takes one configuration per id and a clock that does not go back.
- Overflow of instants and block numbers: clock readings and heights are unbounded.
- Floating point fees: the fee per byte is an exact number.
- Balances of contracts: reserving adds if the balance covers it, releasing subtracts.
- Verification of new transactions and the network side of the mempool: a put starts with a verified transaction.
- Metrics, logging, capacity and display of the bit set, and its derived order.
