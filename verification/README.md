# antdchain in Dafny

A model of the consensus core of antdchain and proofs about it: how blocks reorganise the chain, how difficulty
retargets, how transactions move money, how the rotating king is scheduled, how the transaction pool stays coherent,
and what the header and Merkle hashes bind. `dafny verify dfyconfig.toml` checks the whole project.

| file | models |
|---|---|
| `Bytes.dfy`, `Wrappers.dfy` | big-endian byte strings; option and result types |
| `Difficulty.dfy`, `DifficultyLaws.dfy`, `DifficultyEngine.dfy` | the calculators, their laws, the incremental engine against the chain |
| `Accounts.dfy`, `Execution.dfy`, `BatchValidation.dfy` | account store, transactions, maturity, the simulated validation pass |
| `Rewards.dfy`, `Supply.dfy` | halving schedule, reward distribution, money under the apply functions |
| `BlockExecution.dfy`, `BlockAccounts.dfy`, `Replay.dfy` | execution of validated blocks, what it does to the money supply and to every account; replay, reverts and reconnection |
| `ForkChoice.dfy`, `ChainStore.dfy`, `Reorg.dfy`, `InsertChain.dfy` | tie-break, block store and index, reorganisation manager, segment insertion |
| `RotatingKing.dfy` | rotation schedule, background catch-up, alignment with the kings that blocks name |
| `PriceHeap.dfy`, `TxPool.dfy` | the pending queue and the transaction pool |
| `HeaderPreimage.dfy`, `Merkle.dfy` | the bytes a header hash covers, the transaction root |

Objects the program updates in place are classes; a method's contract ties the new state to the old, usually through a
function on values, and the lemmas are about those functions. The outcome of validation, execution and storage, which
depends on signatures, proof of work and the disk, is an arbitrary choice (`ok := *`), so the theorems hold for every
outcome. Hashes are names: a hash names one block. Difficulty averages are exact rationals instead of floats. Clock,
peers, consensus votes, balances seen by the king manager and the chain view of the pool are parameters.

## What the proofs show about the code

Some properties one would expect hold only under a condition. The code is modelled as it is, and the exact condition is
proved.

- Disconnecting a block keeps its canonical index entry (the test double of the chain interface deletes it). A reverted
  block can then be taken for a fork point above the tip: `Reorg.StaleEntryMisleads`, `Reorg.ForkPointIsActive`.
- A reorganisation that forks at genesis loses the tip and cannot be undone: `Reorg.ReorgManager.PerformReorg`.
- The child of an orphan is processed again and meets its parent in the pool again, unless a full pool gave up that
  very parent or the parent is its own child: `Reorg.OrphanRoundRecursIff`.
- A segment is refused unless all its blocks but the last are stored already: `InsertChain.Inserter.CheckSegment`.
- Heights of inserted blocks are not compared with their parents'. An insertion leaves a linked chain if and only if the
  index leads to the parent and the last block's height follows (or nothing is written):
  `InsertChain.Inserter.Insert`, with an accepted skipped height and an accepted side parent in
  `InsertChain.SkippedHeightLeavesGap` and `InsertChain.SiblingParentUnlinks`.
- Validating a block pays its fees out to miner and kings but collects them from nobody. The sum of all balances stays
  on schedule if and only if the fee total is not positive, which with gas below 2^63 means an empty block:
  `BlockExecution.ValidatedBlockMints`, `BlockExecution.OnlyEmptyBlocksConserve`, for runs
  `BlockExecution.RunOnScheduleIff`, with an input in `BlockExecution.FeesOfOneTransferAreMinted`.
- Executing a transaction with data steps no nonce, so one and the same validates twice in a block:
  `BlockAccounts.CallRunsTwice`. A transfer does not: `BlockAccounts.NoTransferRunsTwice`.
- A revert replays the chain from genesis, pays no fees out and pays the king of the moment instead of the one a block
  names. It restores the accounts, and a block that was valid can be connected again, if and only if no block on the way
  paid fees and every one of them paid the payee of the present king: `Replay.ReplayAgreesIff`,
  `Replay.RevertRestoresIff`, `Replay.ReconnectsIff`. One block with a transaction is enough to prevent it:
  `Replay.NothingConnectsAboveTransactions`; so is a new king: `Replay.KingChangeShows`. Segment insertion executes its
  blocks by the same replay.
- Segment insertion is reached only through `Blockchain.WriteBlock` in `antdc/chain/blockchain.go`, which nothing calls.
- `applyBlockTransactions`, `applyTransaction`, `applyMinerReward` and `sortAndValidateTransactions` have no callers that
  reach a block; the results of `BatchValidation` and of `Supply` describe these functions. There a block adds exactly
  its reward if and only if its fee total is not negative; gas of 2^63 or more makes it negative:
  `Supply.BlockAddsReward`, `Supply.HugeGasIsApplied`.
- The published circulating supply counts block 0 instead of the last block and is exact only before the first halving:
  `Rewards.CirculatingExact`.
- Reward shares are 50, 20 and 130 parts of 200; the log lines that print 45%, 10% and 45% do not describe them.
- A validated batch of transfers fails if and only if one of them reaches a drained account whose used nonce is still
  needed, which takes a cost of zero or less: `BatchValidation.ValidatedBatchFailsIff`,
  `BatchValidation.ZeroCostBatchFails`.
- Normalising twice is normalising once exactly under the square of the suffix domain 2^160+1:
  `DifficultyLaws.NormalizeIdempotent`.
- A difficulty engine restarted with an empty window agrees with validation from 24 blocks on only at the limits of the
  difficulty: `DifficultyEngine.RestartedEngineAgreesIff`, `DifficultyEngine.RestartedShortChain`.
- A reverted chain leaves the difficulty engine as it was. When its prediction is right again:
  `DifficultyEngine.PredictionAfterSwitch`, `DifficultyEngine.TracksAgainIff`, with an input in
  `DifficultyEngine.ReconnectedTipMisleads`.
- A rotation that comes late is not made good by later rotations: `RotatingKing.LateRotationPersists`. The king named by
  a validated block makes it good, unless there is only one: `RotatingKing.BlocksRealign`,
  `RotatingKing.LateRotationHealsIff`, `RotatingKing.OneKingStaysLate`. That alignment writes no log entry:
  `RotatingKing.ForcedLogReplaysIff`. The search for an eligible king has no effect:
  `RotatingKing.Manager.RotateToNextKing`.
- The pool announces nonce 1 to an untouched account and then expects 0: `TxPool.NextNonceIsExpectedIff`. Removing a
  single transaction leaves queue and tracker stale: `TxPool.Pool.Remove`. After the tip has moved back, one cleanup
  drops transactions the other keeps: `TxPool.AgeRulesAgreeIff`. `GetPending` is commented as sorted by gas price and
  returns the heap: `PriceHeap.HeapSortedIffSmall`.
- Repeating the last of an odd number of transactions keeps the transaction root: `Merkle.OddDuplicateSharesRoot`.

## Model

| member | source | states |
|---|---|---|
| Reorg.ReorgManager.PerformReorg | antdc/chain/reorganize.go:452-524 | All or nothing. Completed leaves exactly the old prefix up to the fork followed by the candidate branch, with at most six blocks removed; more than six is refused unchanged; a failure whose undo calls succeed leaves the old chain and tip, for every fork height above genesis. The context-check failure never happens. A genesis fork whose first connect fails loses the tip and is never restored. |
| Reorg.ReorgManager.Switch | antdc/chain/reorganize.go:464-511 | The two rounds of the switch together, with the stored blocks only ever growing: completed, or failed and, where every undo succeeded above genesis, back on the old chain and tip. |
| Reorg.ReorgManager.DetachActive | antdc/chain/reorganize.go:469-485 | Removes newest first; what was removed is, in reverse, exactly a suffix of the active branch, and the chain is the old one without it, also when it stops early. |
| Reorg.ReorgManager.AttachOne | antdc/chain/reorganize.go:488-511 | One candidate goes directly on the tip or nothing changes; its context check cannot fail when its parent is stored. |
| Reorg.ReorgManager.AttachCandidates | antdc/chain/reorganize.go:488-511 | Adds oldest first; the chain is always the old one plus the connected part of the branch. |
| Reorg.ReorgManager.EmergencyRollback | antdc/chain/reorganize.go:529-541 | If every reconnection succeeds the detached blocks are back in their old order. |
| Reorg.ReorgManager.EmergencyRollbackFrom | antdc/chain/reorganize.go:544-558 | Takes off the connected candidates first, so a full undo ends on the old chain. |
| Reorg.ReorgManager.ProcessNewBlock | antdc/chain/reorganize.go:159-216 | Which way a block takes is determined by chain and pool before it: known, extension, rival or side branch switched to, orphan, or recursion, each if and only if its condition holds. Each leaves the canonical chain as it was, or one block longer, or switched at most six blocks deep with the new block on top; extension and switch strictly raise the total work. The pool changes only for an orphan and for the recursion. |
| Reorg.WaysByFields | antdc/chain/reorganize.go:159-216 | Which of these conditions a block meets, by its own fields: known blocks none, on the tip exactly the extension, under an orphan exactly the recursion, and with an unknown parent exactly the pool. |
| Reorg.ReorgManager.HandlePotentialFork | antdc/chain/reorganize.go:237-306 | Off the tip, a switch to a side branch is tried if and only if, above the fork point found, it has over three more work than the active branch. |
| Reorg.ReorgManager.HandleSameHeightFork | antdc/chain/reorganize.go:309-382 | A switch to the branch of a rival of a canonical block is tried if and only if it has strictly more work above the fork point. For a rival of the tip, both with positive difficulties, that is if and only if the rival's own difficulty is the larger number. |
| Reorg.RivalOfTipIff | antdc/chain/reorganize.go:309-382 | For a rival on the tip's parent, both with positive difficulties, a switch is due exactly when its difficulty field is the larger one. |
| Reorg.SideOfTipIff | antdc/chain/reorganize.go:237-306 | For a block on a stored sibling of the tip, a switch is due exactly when the two of them sum to over three more difficulty than the tip's. |
| Reorg.ReorgManager.ExtendChain | antdc/chain/reorganize.go:219-234 | The tip grows by the block or nothing changes. |
| Reorg.ReorgManager.ProcessAll | antdc/chain/reorganize.go:159-382 | Over any run every block is dealt with, on what the one before it left; if every step settles, the canonical chains only stay or gain total work, so a chain once left is never adopted again. |
| Reorg.SettledRunNeverReturns | antdc/chain/reorganize.go:159-382 | The argument for such a run: no canonical chain comes back after it was left. |
| Reorg.ReorgManager.AddOrphanBlock | antdc/chain/reorganize.go:561-589 | Only a full pool gives up an entry, one received no later than any other, and the new one is always taken. |
| Reorg.PooledMeans | antdc/chain/reorganize.go:561-589 | An orphan taken in is there as received; with under a hundred entries nothing is lost for it, and otherwise only an oldest one. |
| Reorg.ReorgManager.OldestOrphan | antdc/chain/reorganize.go:565-578 | The entry given up is one received no later than any other. |
| Reorg.ReorgManager.TakeOrphansOf | antdc/chain/reorganize.go:592-613 | The walk over the pool ends with exactly the children of the given block taken out; none is left and no other entry is touched. |
| Reorg.OrphanRoundRecursIff | antdc/chain/reorganize.go:199-203 | A block put in under an orphan parent is taken out again to be processed anew, and meets its parent in the pool again if and only if the parent was not the entry given up and is not its own child; the pool must be full for the former. |
| Reorg.FindForkPoint | antdc/chain/reorganize.go:385-412 | The loop returns the nearest indexed ancestor within a hundred steps, or fails when there is none. |
| Reorg.NearestIsHighest | antdc/chain/reorganize.go:385-412 | That ancestor is the highest canonical one, and failing means none lies within reach. |
| Reorg.ForkPointIsActive | antdc/chain/reorganize.go:385-412 | The fork block is on the active chain if and only if no ancestor above the tip and within reach is indexed; an index without leftover entries guarantees it. |
| Reorg.StaleEntryMisleads | antdc/chain/prune_reorg_integration.go:100-105 | Disconnecting keeps index entries, so a reverted block can be found as a fork point above the tip. |
| Reorg.BuildChainToFork | antdc/chain/reorganize.go:415-437 | The backward walk ends and gives the segment above the fork, oldest first. |
| ChainStore.SegmentIsPath | antdc/chain/reorganize.go:415-437 | The segment has consecutive heights, is linked by parent hashes, and starts on the ancestor at the fork height. |
| Reorg.BranchFits | antdc/chain/reorganize.go:264-297 | The two branches handed to the switch are the canonical suffix above the fork and a linked branch that hangs on the index entry at the fork and shares no block with the canonical chain. |
| Reorg.BranchIsNew | antdc/chain/reorganize.go:385-437 | Above the nearest indexed ancestor no block of a built branch is canonical, and neither is an unknown tip. |
| Reorg.CalculateChainWork | antdc/chain/reorganize.go:440-449 | The accumulated work of a list of blocks; what one unit of difficulty, and a missing difficulty, add to it is in `ForkChoice.OneUnitMore` and `ForkChoice.LittleDifficulty`. |
| Reorg.SwitchRaisesWork | antdc/chain/reorganize.go:440-524 | More work above the fork point means more work of the whole chain. |
| ChainStore.Blockchain.ConnectBlock | antdc/chain/prune_reorg_integration.go:94-99 | Extends the tip by a block that stands directly on it, or fails with nothing changed. |
| ChainStore.Blockchain.RevertToHeight | antdc/chain/blockchain.go:1145-1235 | Truncates the canonical chain and keeps bodies and index; reverting to genesis loses the tip. |
| ChainStore.Blockchain.DisconnectBlock | antdc/chain/prune_reorg_integration.go:100-105 | Truncates to one below the given height. |
| ChainStore.Blockchain.GetCumulativeWork | antdc/chain/prune_reorg_integration.go:77-87 | The total work of the canonical chain up to a height. |
| ChainStore.Blockchain.ValidateBlockContext | antdc/chain/prune_reorg_integration.go:109-124 | Holds exactly when the block is at height zero or its parent is stored. |
| ChainStore.Blockchain.DeleteCanonicalChain | antdc/chain/blockchain.go:1082-1097 | Drops exactly the index entries of the range; the active chain below is untouched. |
| ChainStore.Blockchain.WriteBlock | antdc/chain/blockchain.go:1279-1348 | Stores, indexes and makes the tip. |
| ChainStore.ConnectKeepsOk | antdc/chain/blockchain.go:1279-1348 | A block on the tip keeps the store parent-closed and the index linked. |
| ChainStore.CanonicalSegment | antdc/chain/reorganize.go:415-437 | Built from the tip, the segment above a canonical height is the canonical suffix. |
| ForkChoice.TieBreakIsStrictTotalOrder | antdc/chain/sync.go:958-1013 | The tie-break is irreflexive, asymmetric, transitive, and decides any two blocks of different hashes. |
| ForkChoice.PickBest | antdc/chain/sync.go:958-1013 | The replace-if-better loop keeps a candidate of the greatest difficulty; among those one of the least proof digest (the hash standing in for an empty one), then of the earliest time, then of the least hash. |
| ForkChoice.BestIsUnbeaten | antdc/chain/sync.go:958-1013 | The block kept is one of the candidates and none is better. |
| ForkChoice.GossipOrderIrrelevant | antdc/chain/sync.go:958-1013 | Any arrival order of the same candidates ends with the same block. |
| ForkChoice.SuffixDecides | antdc/chain/reorganize.go:440-449 | Above a common prefix the suffixes decide work and weight comparisons of whole chains. |
| ForkChoice.NeverReadopted | antdc/chain/reorganize.go:159-382 | In a history that only stays or improves, an entry once left never returns. |
| ForkChoice.RankingsAreStrict | antdc/chain/blockchain.go:946-989 | Total work, and weight with length and tie-break, are strict orders on chains. |
| ForkChoice.OneUnitMore | antdc/chain/prune_reorg_integration.go:88-93 | In any chain, giving one block a difficulty d+1 in place of d raises the work by exactly one if d is at least one, and the weight by exactly one for every d. |
| ForkChoice.LittleDifficulty | antdc/chain/prune_reorg_integration.go:88-93 | An absent difficulty and one of zero give the work of difficulty one; in the weight both count as nothing. |
| ForkChoice.NoDifficulties | antdc/chain/prune_reorg_integration.go:88-93 | A chain without difficulties has as much work as it has blocks, and no weight. |
| ForkChoice.BetterByFields | antdc/chain/sync.go:958-1013 | Which of two blocks is better, by their fields alone: greater difficulty; then the smaller proof digest, the hash standing in for an empty one; then the earlier time; then the smaller hash. |
| ForkChoice.UnbeatenLeads | antdc/chain/sync.go:958-1013 | A block that none of the candidates beats leads them by those fields. |
| InsertChain.CalculateChainWeightWithCandidates | antdc/chain/blockchain.go:1049-1079 | The backward loop over candidates and stored parents computes the weight of the walk, whatever heights the blocks claim. |
| InsertChain.WalkWeighsAll | antdc/chain/blockchain.go:1049-1079 | On consecutive heights the walk weighs the whole path. |
| InsertChain.Inserter.CheckSegment | antdc/chain/blockchain.go:852-866 | An accepted segment is linked, all its parents are stored, and so is every block but the last. |
| InsertChain.InnerHeights | antdc/chain/blockchain.go:852-866 | All blocks but the last stand at consecutive heights above the parent; only the last one's height is free. |
| InsertChain.Inserter.Conflicts | antdc/chain/blockchain.go:919-935 | Found exactly when, before any block above the tip, one differs from the canonical block of its height. |
| InsertChain.Inserter.WinsForkChoice | antdc/chain/blockchain.go:947-968 | Wins if and only if the segment has more weight above the ancestor, or as much at the tip's height and a better block. |
| InsertChain.RivalWinsIff | antdc/chain/blockchain.go:946-968 | A single block against the tip of the same height wins exactly by the greater difficulty field or, at equal ones, by proof digest, time and hash in that order. |
| InsertChain.Inserter.NeedsReorg | antdc/chain/blockchain.go:908-937 | Required exactly when the index does not name the parent or a block conflicts. |
| InsertChain.Inserter.Decide | antdc/chain/blockchain.go:908-968 | A required reorganisation is refused exactly when it is too deep or does not win, with the error for it. |
| InsertChain.Inserter.MakeRoom | antdc/chain/blockchain.go:979-988 | Leaves the prefix up to the ancestor, with the index unchanged up to there, or changes nothing. |
| InsertChain.Inserter.ApplyBlocks | antdc/chain/blockchain.go:991-1034 | Store, index and tip after writing all blocks above the ancestor's height; a last block at or under it is passed over. |
| InsertChain.WrittenIff | antdc/chain/blockchain.go:991-1034 | The written blocks make store and index a chain if and only if the index led to the parent and no height is skipped. |
| InsertChain.Inserter.Place | antdc/chain/blockchain.go:971-1039 | Making room and writing together. |
| InsertChain.Inserter.Insert | antdc/chain/blockchain.go:840-1040 | For segments of any heights: each result says what held before, a known or refused segment changes nothing, and only a segment that needs no reorganisation or wins one within the depth limit is written. An insertion leaves a linked chain if and only if nothing was written, or the index led without a break to the parent and the last height follows it (or is passed over). The chain is then the old one, or the one up to the parent plus the written blocks, and strictly outranks the old one. |
| InsertChain.ResultMeans | antdc/chain/blockchain.go:840-1040 | A written segment that needed a reorganisation took off at most the allowed number of blocks and won; one refused as too deep would have taken off more. |
| InsertChain.SkippedHeightLeavesGap | antdc/chain/blockchain.go:900-937 | A block on the tip numbered two above it is accepted without a reorganisation and leaves a gap in the index. |
| InsertChain.SiblingParentUnlinks | antdc/chain/blockchain.go:908-968 | A block on a stored sibling of the tip needs a reorganisation, wins it, and leaves an unlinked chain. |
| InsertChain.Inserter.InsertAll | antdc/chain/blockchain.go:840-1040 | Every segment of a run is inserted on what the one before it left; the run stops early only at an insertion that was not sound or before a segment with a block numbered zero or not named by its hash. Up to there no canonical chain once left comes back. |
| InsertChain.SoundRunProgresses | antdc/chain/blockchain.go:840-1040 | Over sound insertions the stores stay chains, and the canonical chain only stays or is outranked. |
| InsertChain.WonReorgOutranks | antdc/chain/blockchain.go:946-989 | A reorganisation that was won and appends gives a chain of higher rank, whatever the last block's height. |
| InsertChain.NoConflictExtends | antdc/chain/blockchain.go:914-937 | Without a required reorganisation the segment, re-sent canonical blocks included, strictly extends the chain. |
| InsertChain.BeatenBranchOutranked | antdc/chain/blockchain.go:946-989 | Replacing a beaten branch raises the pair of total weight and tip rank. |
| Difficulty.CalculateDarkGravityWave | difficulty/difficulty.go:81-131 | The loop computes the retarget of the normalised previous value by the mean of the last 23 intervals, in whole numbers `DifficultyLaws.WaveClosedForm`; a short window only clamps. |
| Difficulty.CalculateSimpleAverage | difficulty/difficulty.go:189-224 | The same with the mean of all intervals, in whole numbers `DifficultyLaws.MeanRetargetClosedForm`. |
| Difficulty.CalculateLWMA | difficulty/difficulty.go:135-186 | The same with the linearly weighted mean of 59 intervals, in whole numbers `DifficultyLaws.LowHeightClosedForm`. |
| Difficulty.CalculateDifficulty | difficulty/difficulty.go:65-77 | Which calculator is in force at which height and window. |
| Difficulty.ShieldIsIdle | difficulty/difficulty.go:232-251 | The last bound on the change never acts on a clamped ratio. |
| Difficulty.TimestampsFromDeltas | difficulty/difficulty.go:351-363 | Running sums of the deltas, from zero. |
| Difficulty.StampsKeepIntervals | difficulty/difficulty.go:351-372 | The rebuilt timestamps have the given intervals. |
| Difficulty.StampsGiveIntervals | difficulty/difficulty.go:351-363 | From zero on, each rebuilt timestamp is the one before plus the delta, zero counted as one. |
| DifficultyLaws.RetargetProportion | difficulty/difficulty.go:117-131 | How far one retarget moves, for total seconds T over n intervals: with p = cur*150*n, between the ratio limits the new value v satisfies v*T <= p < (v+1)*T wherever that is another value within the range, and is one up or down where it is not; at the limits it is the quadruple, or a quarter rounded down. |
| DifficultyLaws.RetargetClosedForm | difficulty/difficulty.go:375-412 | One retarget as a whole-number expression in value, total time and count. |
| DifficultyLaws.WaveClosedForm | difficulty/difficulty.go:81-131 | From height 24 on, the next difficulty in whole numbers from the last 24 times, each interval held between 1 and 900 seconds. |
| DifficultyLaws.LowHeightClosedForm | difficulty/difficulty.go:135-224 | Below that, from all times, or with 60 or more from the last 59 intervals weighted 1 to 59 over 1770. |
| DifficultyLaws.MeanRetargetClosedForm | difficulty/difficulty.go:189-224 | A retarget by the mean interval of any list of times, in whole numbers. |
| DifficultyLaws.ShortWindowKeeps | difficulty/difficulty.go:65-86 | Genesis starts at 131072, and with too few times the previous value stays, held inside the range. |
| DifficultyLaws.SuffixMeaning | difficulty/difficulty.go:289-318 | Quotient and remainder of a miner-specific difficulty by 2^160+1 are base and address plus one; what a stored value's base is in each range; the target is 2^256 over the base, rounded down. |
| DifficultyLaws.NextDifficultyLaws | difficulty/difficulty.go:65-224 | With a long enough window every calculator stays between the clamped quarter and four times the current value, and moves strictly up exactly when the average is at most 150. |
| DifficultyLaws.SlowerNeverHarder | difficulty/difficulty.go:65-224 | Pointwise slower intervals never give a higher result, for all three calculators. |
| DifficultyLaws.RetargetBounds | difficulty/difficulty.go:375-412 | Bounds of one retarget. |
| DifficultyLaws.RetargetDirection | difficulty/difficulty.go:393-412 | Direction of one retarget, both ways. |
| DifficultyLaws.RetargetIdleIff | difficulty/difficulty.go:375-412 | A retarget changes nothing if and only if the value is the least one and the average over 75, or the greatest one and the average at most 150. |
| DifficultyLaws.RetargetAtLimits | difficulty/difficulty.go:393-412 | At the least and the greatest difficulty only one direction is left. |
| DifficultyLaws.SuffixStrips | difficulty/difficulty.go:297-318 | Normalising a miner-specific difficulty gives the normalised base, for every base and miner. |
| DifficultyLaws.SuffixInjective | difficulty/difficulty.go:297-305 | Two miner-specific difficulties are equal if and only if normalised base and address are. |
| DifficultyLaws.SuffixIsTransparent | difficulty/difficulty.go:289-305 | The target ignores the miner and a new suffix replaces the old one. |
| DifficultyLaws.NormalizeIdempotent | difficulty/difficulty.go:308-318 | Normalising twice is normalising once if and only if the value lies under (2^160+1)^2, which holds for every value in range. |
| DifficultyLaws.NormalizeCollapses | difficulty/difficulty.go:308-318 | A base at the suffix domain is taken for a suffixed value and falls to the minimum. |
| DifficultyEngine.CollectDifficultyTimestamps | antdc/chain/validation.go:340-361 | The walk back from the parent lists the last sixty times oldest first, then the candidate's. |
| DifficultyEngine.PoW.AdjustDifficulty | antdc/pow/pow.go:172-203 | One engine step: the window keeps its last sixty deltas and the difficulty is recomputed from them. |
| DifficultyEngine.AverageGrows | antdc/pow/pow.go:172-203 | The average kept with an adjustment is the sum of the deltas over their number. |
| DifficultyEngine.PoW.CalculateExpectedDifficulty | antdc/pow/pow.go:121-132 | Predicts what the step would compute and changes nothing. |
| DifficultyEngine.PoW.ImportBlock | antdc/chain/validation.go:179-184 | Accepts exactly the blocks with the expected difficulty; only they move the engine. |
| DifficultyEngine.PoW.ImportAll | antdc/chain/validation.go:179-184 | A run from genesis adds exactly the blocks that carry what the chain so far prescribes; then the engine's difficulty is the normalised difficulty of the tip and its window holds the chain's last intervals. |
| DifficultyEngine.EngineTracksChain | antdc/chain/validation.go:322-361 | The incremental engine refines the recomputation from chain timestamps on every accepted chain. |
| DifficultyEngine.PredictionIsExpected | antdc/pow/pow.go:121-132 | The engine's prediction is the difficulty validation expects. |
| DifficultyEngine.ExpectedClosedForm | antdc/chain/validation.go:322-361 | What validation expects of a block, in whole numbers: from the last 23 times of the chain, or all of fewer, and the block's own. |
| DifficultyEngine.RestartedEngineAgreesIff | antdc/pow/pow.go:80-90 | From 24 blocks on an engine restarted with an empty window predicts no change, and agrees with validation if and only if the base is the least one and the average over 75, or the greatest one and the average at most 150. |
| DifficultyEngine.RestartedShortChain | antdc/pow/pow.go:121-132 | On a shorter chain it retargets by the last interval where validation uses the mean of all: they agree on the first block, and never between the limits when interval and mean lie on different sides of 150. |
| DifficultyEngine.PredictionAfterSwitch | antdc/chain/blockchain.go:1145-1235 | A revert leaves the engine as it was. As blocks are connected again it retargets its own difficulty by the intervals it remembers and theirs, where validation retargets the tip's base by the chain's intervals and theirs; from twenty-two blocks on only difficulty and base can differ. |
| DifficultyEngine.TracksAgainIff | antdc/chain/validation.go:179-184 | From there on the engine tracks the chain after a block if and only if its prediction for that block was right, as far as normalised difficulties tell. |
| DifficultyEngine.TrackingLasts | antdc/pow/pow.go:121-132 | An engine that tracks the chain again predicts what validation expects for every block from there on. |
| DifficultyEngine.ReconnectedTipMisleads | antdc/chain/prune_reorg_integration.go:94-105 | With every interval on target, taking the tip off and connecting it again makes the engine predict one more than validation expects. |
| DifficultyEngine.BaseStep | antdc/chain/validation.go:237-242 | On blocks that keep the 150-second minimum the base rises by at most one, and only if every used interval is exactly 150. |
| DifficultyEngine.ExactSpacingIsPaced | antdc/chain/validation.go:237-242 | A chain spaced by exactly 150 seconds keeps the minimum. |
| DifficultyEngine.BaseGrowthBound | antdc/chain/validation.go:322-361 | base(h) <= base(0) + h on every accepted chain that keeps the minimum spacing. |
| Execution.ApplyTransferOrCall | antdc/chain/execution.go:289-331 | Debit, nonce step, blank-recipient reset and credit as one step on the account store, for every coincidence of sender and recipient. |
| Execution.ApplyContractCreation | antdc/chain/execution.go:258-286 | The creation step, refused when the address holds code. |
| Execution.ApplyTransaction | antdc/chain/execution.go:210-255 | Which error is returned when, and the new account store otherwise. |
| Execution.ApplyErrors | antdc/chain/execution.go:210-286 | Which of the three errors is given when, from the fields; a creation on an occupied address fails with the sender debited. |
| Execution.TransferEffect | antdc/chain/execution.go:226-331 | Account by account: cost off the sender, value to the recipient, the sender's nonce up by one, and a recipient without balance and code back to nonce zero, the sender itself included. |
| Execution.CreationEffect | antdc/chain/execution.go:258-286 | Account by account: the new account holds exactly the value and the data as code. |
| Execution.CostMeaning | antdc/chain/execution.go:226-230 | Cost is value plus price times gas, with gas of 2^63 or more counted 2^64 lower. |
| Execution.ApplyBlockTransactions | antdc/chain/execution.go:199-207 | The batch stops at the first failure, with what came before applied. |
| Execution.ImmatureIncomingBalance | antdc/chain/maturity.go:36-73 | The nested loops sum the incoming value of the blocks in the maturity window plus the pending one. |
| Execution.HeldBackIffUnconfirmed | antdc/chain/maturity.go:44-55 | Value is held back exactly while it has too few confirmations; the genesis block one height longer. |
| Execution.ImmatureByAdditions | antdc/chain/maturity.go:36-73 | On an empty chain only the pending value is immature, and one more transaction in any block adds its value exactly if it is to the account from another one and its block lacks confirmations. |
| Execution.SpendableBalanceAtHeight | antdc/chain/maturity.go:22-34 | Balance less immature value, never negative. |
| BatchValidation.SortAndValidateTransactions | antdc/chain/execution.go:89-155 | Accepts if and only if no transaction is missing or repeated and every sender's nonces are contiguous and funded from the spendable balance; the output is a permutation grouped by ascending sender. |
| BatchValidation.GroupBySender | antdc/chain/execution.go:94-109 | Groups are exactly the senders' own transactions; fails at the first missing or repeated one, with the error for it. |
| BatchValidation.CheckSender | antdc/chain/execution.go:124-152 | The simulated walk accepts exactly the fundable groups, and otherwise names the first transaction that breaks the row of nonces or the budget. |
| BatchValidation.PresentAt | antdc/chain/execution.go:94-100 | A batch with nothing missing is checked as it stands. |
| BatchValidation.FundableIff | antdc/chain/execution.go:124-152 | That is: nonces in a row from the account's, and no initial part of the group costing more in sum than is spendable. |
| BatchValidation.ReadyNeverFails | antdc/chain/execution.go:289-331 | From an account store that funds every sender's own transactions in order, no interleaving of plain transfers of positive cost fails. |
| BatchValidation.ValidatedBatchNeverFails | antdc/chain/execution.go:89-155 | Simulation soundness: a validated batch of plain transfers of positive cost is applied without failure. |
| BatchValidation.ValidateAndApply | antdc/chain/execution.go:89-207 | The two passes together on one store: validated transfers fail exactly when a needed nonce is set back, and never at positive cost. |
| BatchValidation.ReadyFailsIff | antdc/chain/execution.go:289-331 | Applying transfers whose senders can pay fails if and only if, by the batch's own sums, one of them reaches an account without balance and code whose used nonce is still needed. |
| BatchValidation.ValidatedBatchFailsIff | antdc/chain/execution.go:89-207 | The same for every validated batch of transfers, costs of zero or less included. |
| BatchValidation.StaleNonceFails | antdc/chain/execution.go:210-223 | A sender whose next nonce lies above a reset one stops the batch. |
| BatchValidation.ZeroCostBatchFails | antdc/chain/execution.go:289-301 | A batch that passes validation and fails: a payment of everything to oneself resets the nonce, and a transaction with gas 2^64-1 and price equal to value costs nothing. |
| Accounts.State.AddBalance | antdc/state/state.go:59-66 | Adds to one account and leaves the others. |
| Accounts.State.SetBalance | antdc/state/state.go:69-74 | Sets one balance; negative amounts are refused. |
| Accounts.SupplyAfter | antdc/state/state.go:69-74 | Setting one balance moves the sum of all balances by the difference. |
| BlockExecution.VM.Execute | antdc/vm/vm.go:56-125 | One transaction of the machine; what it does to each account, and which error it gives when, is in `BlockAccounts.ExecutedEffect` and `BlockAccounts.ExecutedErrors`. |
| BlockExecution.VM.RunInstructions | antdc/vm/vm.go:128-316 | Push and payment of a fixed amount from the zero address, with the gas in 64-bit words. |
| BlockExecution.VM.Transfer | antdc/vm/vm.go:328-340 | Moves the value, also to oneself; nothing for zero. |
| BlockExecution.ValidateTransactionForExecution | antdc/chain/execution.go:162-196 | Signature, nonce, and the whole cost against the balance that is spendable at the parent's height. |
| BlockExecution.ExecuteBlockTransactions | antdc/chain/execution.go:24-79 | Check and execute in order, stopping at the first failure; which blocks get through and what they leave is in `BlockAccounts.ExecutedIff`. |
| BlockExecution.ValidateAndExecute | antdc/chain/validation.go:117-158 | Execution, the two gas checks with their errors, and the distribution of reward and fees, the empty-block shortcut included. |
| BlockExecution.ExecutedKeepsSupply | antdc/vm/vm.go:56-340 | The machine neither creates nor destroys money, whether it succeeds or fails. |
| BlockAccounts.ExecutedErrors | antdc/vm/vm.go:56-125 | Which error a transaction gives, from its fields, the gas left and two balances; it fails without touching an account. |
| BlockAccounts.ExecutedEffect | antdc/vm/vm.go:56-125 | What success does to every account: a transfer moves its value and sets its sender's nonce to one above its own; any data moves fifty units from the zero address and steps no nonce; gas goes down by 21000 or 42100 in 64-bit words and nobody pays it. |
| BlockAccounts.ExecutedIff | antdc/chain/execution.go:24-79 | A block's transactions are all executed if and only if each one meets its conditions, stated from the accounts before the block and sums over the transactions before it: signature, nonce, spendable cost, amounts, gas left, value at hand. Then every balance and nonce is the one before plus the block's own sums, and no code has changed. |
| BlockAccounts.RefusedAtFirst | antdc/chain/execution.go:24-79 | The first one that does not meet its conditions stops the block and leaves the accounts as the ones before it made them. |
| BlockAccounts.ValidatedIff | antdc/chain/validation.go:117-158 | A block passes if and only if all its transactions meet their conditions and its header names the sum of their gas modulo 2^64, within its limit. |
| BlockAccounts.ValidatedAccounts | antdc/chain/validation.go:117-158 | The accounts after a validated block, one by one: nonce plus own transfers, balance plus what the transactions move plus the shares, a quarter to the miner, a tenth to the main king, the rest to the named king if it held 100000 coins after the transactions and to the main king otherwise. |
| BlockAccounts.NoncesClimb | antdc/chain/execution.go:173-178 | In an executed block a transfer's nonce is below those of all later transactions of its sender. |
| BlockAccounts.RunAccounts | antdc/chain/validation.go:117-158 | Over any run of validated blocks: each nonce is the first one plus the transfers sent, no code changes, and an account that no block rewards has exactly what the transactions moved. |
| BlockExecution.HistoryHolds | antdc/chain/maturity.go:50-59 | What maturity reads below a block of a run is exactly the blocks of heights 1 to its parent's. |
| BlockAccounts.RunNonce | antdc/chain/execution.go:173-178 | Every transaction of a run carries the number of transfers its sender made before it. |
| BlockAccounts.NoTransferRunsTwice | antdc/chain/execution.go:173-178 | So no transfer runs twice, in one block or in any two blocks of a run. |
| BlockAccounts.CallRunsTwice | antdc/vm/vm.go:85-125 | A transaction with data steps no nonce: one and the same, twice in one block, validates. |
| BlockExecution.ValidatedBlockMints | antdc/chain/validation.go:132-158 | A validated block raises the sum of all balances by its reward and its fee total; by exactly the reward if and only if the fee total is not positive. |
| BlockExecution.OnlyEmptyBlocksConserve | antdc/chain/validation.go:117-158 | With gas below 2^63, exactly the empty blocks keep the sum on schedule. |
| BlockExecution.FeesOfOneTransferAreMinted | antdc/chain/execution.go:24-79 | One transfer with 21000 gas at price one: 21000 units appear. |
| Replay.ExecuteBlockOnState | antdc/chain/blockchain.go:1356-1392 | Replay: execution without the checks, and distribution of the reward, without fees, to whoever is king at the time of the replay. |
| Replay.RebuildState | antdc/chain/blockchain.go:1170-1200 | A revert starts from the genesis accounts and replays every block up to the first failure. |
| Replay.ReplayedBlockConserves | antdc/chain/blockchain.go:1374-1391 | A replayed block adds exactly its reward, whoever receives it. |
| Replay.ReplayAgreesIff | antdc/chain/blockchain.go:1356-1392 | A validated block can always be replayed on the same accounts, and gives the same result if and only if its fee total is not positive and, where there is a reward, the present king's payee is the one that the block paid. |
| Replay.KingChangeShows | antdc/chain/rewards.go:58-72 | An empty block that names one king with enough stake, replayed when another such king is present, gives different accounts. |
| Replay.RevertRestoresIff | antdc/chain/blockchain.go:1170-1200 | Over any accepted chain: a revert rebuilds the accounts the chain had if and only if every block on the way is replayed faithfully. No later block makes up for a difference. |
| Replay.RebuiltLeans | antdc/chain/blockchain.go:1170-1200 | Without fees the rebuilt accounts part from the chain's at the first unfaithful block, and no later block closes a gap. |
| Replay.ReconnectsIff | antdc/chain/validation.go:100-158 | A block of any branch that validated on the chain validates to the same accounts after a revert if and only if every block below is replayed faithfully. |
| Replay.NothingConnectsAboveTransactions | antdc/chain/validation.go:100-158 | With gas below 2^63, after a revert above a block with a transaction no block can be connected. |
| BlockExecution.SupplyOfRun | antdc/chain/validation.go:117-158 | After n validated blocks the sum of all balances is the start plus the rewards of 1 to n plus all positive fee totals. |
| BlockExecution.RunOnScheduleIff | antdc/reward/reward.go:175-217 | A run of validated blocks follows the reward schedule if and only if no block of it has a positive fee total. |
| Supply.RewardDistributor.DistributeRewards | antdc/reward/reward.go:369-514 | Credits the three shares of reward plus fees, with eligibility read before any credit. |
| Supply.RewardDistributor.ApplyMinerReward | antdc/chain/rewards.go:105-131 | Sums the fees and distributes; a block without a miner is refused unchanged. |
| Rewards.SplitReward | antdc/reward/reward.go:440-487 | The shares add up to the whole reward whatever the remainders. |
| Supply.DistributionPaysAll | antdc/reward/reward.go:448-496 | The sum of all balances rises by exactly reward plus fees, whichever accounts coincide. |
| Supply.DistributedAccounts | antdc/reward/reward.go:408-496 | What each account gets, whichever coincide: a quarter, a tenth, and the rest with every remainder, for a king with 100000 coins or else the main king; nonces and code stay. |
| Supply.FeesOfParts | antdc/chain/execution.go:46-57 | Fees are price times gas as a signed word, summed over the list. |
| Supply.ApplyAllBurnsFees | antdc/chain/execution.go:199-331 | A batch applied without failure by the apply functions lowers the sum of all balances by exactly its fees. |
| Supply.BlockAddsReward | antdc/chain/rewards.go:105-131 | By the apply functions, which nothing calls, a block changes the sum of all balances by exactly its block reward if and only if its fee total is not negative. |
| Supply.SmallGasFeesNotNegative | antdc/chain/execution.go:226-230 | Gas below 2^63 keeps the fee total from being negative. |
| Supply.HugeGasGivesNegativeFees | antdc/chain/execution.go:226-230 | Gas of 2^63 or more turns the fee negative in the signed conversion. |
| Supply.HugeGasIsApplied | antdc/chain/execution.go:210-255 | Such a transfer is applied on an account that holds no more than its value, and the sum of all balances overshoots. |
| Supply.SupplyAfterRun | antdc/chain/rewards.go:105-131 | After n blocks taken through the apply functions the balances sum to the premine plus the rewards of blocks 1 to n. |
| Supply.SupplyNeverPassesCap | antdc/reward/reward.go:142-217 | No run through the apply functions passes the total supply cap or the published circulation. |
| Supply.GenesisSupply | antdc/chain/genesis.go:22-58 | Genesis holds exactly the premine. |
| Rewards.CalculateBlockReward | antdc/reward/reward.go:40-63 | The halving loop computes the closed form: the initial reward shifted by the period, nothing under one coin. |
| Rewards.CutOff | antdc/reward/reward.go:40-63 | The reward is cut to zero exactly from the eighth period on. |
| Rewards.BlockRewardIs | antdc/reward/reward.go:40-63 | The reward of any block in base units: 200 coins, halved every 840960 blocks, nothing from the eighth halving on. |
| Rewards.SupplyCapIs | antdc/reward/reward.go:142-172 | The cap in base units. |
| Rewards.CalculateTotalSupplyCap | antdc/reward/reward.go:142-172 | The period loop computes premine plus all full periods. |
| Rewards.CalculateCirculatingSupply | antdc/reward/reward.go:175-217 | The period-jumping loop equals premine plus the sum of the rewards of blocks 0 to n-1. |
| Rewards.SupplyLaws | antdc/reward/reward.go:142-217 | Circulation never falls, never passes the cap, and meets it exactly from block 8*840960 on. |
| Rewards.CirculatingOverstates | antdc/reward/reward.go:175-217 | The formula counts block 0 instead of block n. |
| Rewards.CirculatingExact | antdc/reward/reward.go:175-217 | It equals the rewards paid by blocks 1 to n if and only if n < 840960, and never understates them. |
| RotatingKing.Manager.RotateToNextKing | antdc/rotatingking/rotatingking.go:1248-1398 | Rotates exactly when due and agreed, to the successor in the list whatever the balances; each refusal by its error with nothing changed; a failed save is reported after the rotation has happened. |
| RotatingKing.Manager.NextEligible | antdc/rotatingking/rotatingking.go:1275-1306 | The search finds a king with enough stake if any other position than the present king's has one; its answer is not used. |
| RotatingKing.Manager.SyncRotationsToHeight | antdc/rotatingking/rotatingking.go:1197-1245 | The loop visits the heights from the last rotation to the target, passes over missing blocks, and stops when its context is done. |
| RotatingKing.CatchUpHeights | antdc/rotatingking/rotatingking.go:1197-1225 | Which heights the loop looks at, as bounds on the height. |
| RotatingKing.Manager.Rotate | antdc/rotatingking/rotatingking.go:1454-1522 | Index, heights, counter and log of one rotation; the log keeps its last hundred entries. |
| RotatingKing.Manager.GetCurrentKing | antdc/rotatingking/rotatingking.go:215-222 | The king at the current index, or no address for an empty list. |
| RotatingKing.Manager.Follow | antdc/rotatingking/rotatingking.go:1197-1345 | Any interleaving of guarded rotations, validated blocks and catch-ups that skips no height and pays only scheduled kings ends in the state its highest covered height determines; without an alignment the log replays the schedule. |
| RotatingKing.RunFollowsAt | antdc/rotatingking/rotatingking.go:1197-1345 | Confluence in closed form: count + floor((T-R)/I), index advanced by as much, and the next rotation above T. |
| RotatingKing.CatchUpInPieces | antdc/rotatingking/rotatingking.go:1197-1245 | Catching up in pieces is catching up once. |
| RotatingKing.LateRotationPersists | antdc/rotatingking/rotatingking.go:1338-1343 | By its own rotations alone a node agrees later with one that rotated on time if and only if it rotated exactly at the due height. |
| RotatingKing.Manager.ForceRotateToAddress | antdc/rotatingking/rotatingking.go:933-970 | The first list position of the address becomes the index, at the chain's height, and the count goes up; an unlisted address changes nothing, and a failed save is reported after the change. The log is left alone. |
| RotatingKing.Manager.ProcessRotatingKingForBlock | antdc/chain/rotating_king.go:23-59 | After a validated block: alignment with the king it paid, then the rotation if due; an alignment that fails ends the step before the rotation. Every error with its state. |
| RotatingKing.ForcedAgreesIff | antdc/rotatingking/rotatingking.go:933-970 | An alignment restores agreement in all four numbers if and only if the height is a rotation height, the position is the scheduled one and the count becomes right. |
| RotatingKing.BlocksRealign | antdc/chain/rotating_king.go:23-59 | With two different kings or more, a node in any state that processes blocks naming the scheduled king agrees on king and heights for good after the block that follows the next rotation, so within interval + 1 blocks. |
| RotatingKing.MissedRotationHeals | antdc/chain/rotating_king.go:33-41 | A node that did not rotate at the due height agrees in all four numbers from the next block on. |
| RotatingKing.LateRotationHealsIff | antdc/chain/rotating_king.go:33-41 | A node that rotated late by less than an interval agrees in all four numbers exactly from the block after the schedule's next rotation on. |
| RotatingKing.OneKingStaysLate | antdc/chain/rotating_king.go:33-41 | With a single king no block names another and a late node never agrees again. |
| RotatingKing.OnTimeIsAt | antdc/rotatingking/rotatingking.go:1197-1345 | A node that looks at every height stands where the closed form says. |
| RotatingKing.ForcedLogReplaysIff | antdc/rotatingking/rotatingking.go:933-970 | After an alignment the log names the present king if and only if it was empty. |
| RotatingKing.EveryPositionServesEqually | antdc/rotatingking/rotatingking.go:1308-1345 | Over any (number of kings) * interval consecutive heights, wherever they start, each list position serves exactly one interval. |
| RotatingKing.RememberKeeps | antdc/rotatingking/rotatingking.go:1336-1339 | The log ends on the new entry and keeps the ninety-nine before it, or all of fewer. |
| RotatingKing.LogMeans | antdc/rotatingking/rotatingking.go:1336-1339 | What a log that replays says of any two neighbouring entries, and of its last one. |
| RotatingKing.RememberReplays | antdc/rotatingking/rotatingking.go:1336-1339 | Log entries hand over to one another at least an interval apart and the last one names the present king. |
| TxPool.Pool.AddTx | antdc/chain/txpool.go:251-444 | Adds to all five indexes exactly when no check refuses, each map then holding just the new entry more and the sender's list ending on it; else changes nothing and returns the first check's error. |
| TxPool.Pool.RefusedForFirst | antdc/chain/txpool.go:251-444 | The eleven checks as a list of conditions on the fields: a transaction is refused for the first that holds, and taken if and only if none does. |
| TxPool.Pool.Admit | antdc/chain/txpool.go:386-427 | The checks under the lock; the duplicate-nonce error is unreachable. |
| TxPool.Pool.ScanExpected | antdc/chain/txpool.go:404-417 | The scan of the pending list gives the nonce after its last entry, unless the state has moved past it. |
| TxPool.Pool.GetNextNonce | antdc/chain/txpool.go:223-235 | Announces the expected nonce, except 1 for an untouched account with nothing pending, where 0 is expected. |
| TxPool.NextNonceIsExpectedIff | antdc/chain/txpool.go:223-235 | Announced and expected nonce agree if and only if something is pending or the state nonce is not zero. |
| TxPool.Pool.RemoveLocked | antdc/chain/txpool.go:513-535 | Takes exactly one transaction out of the four maps and keeps the lists sorted and nonempty. |
| TxPool.Pool.Remove | antdc/chain/txpool.go:489-500 | A single removal leaves the pool coherent if and only if the hash was unknown. |
| TxPool.Pool.RemoveTxs | antdc/chain/txpool.go:502-511 | Takes out the listed transactions and is coherent again. |
| TxPool.Pool.RebuildNonceTracker | antdc/chain/txpool.go:585-592 | The tracker becomes the highest nonce of each sender. |
| TxPool.Pool.RebuildPendingHeap | antdc/chain/txpool.go:594-601 | The queue becomes a heap-ordered arrangement of exactly the pool. |
| TxPool.Pool.CleanupStale | antdc/chain/txpool.go:603-643 | Drops exactly the too old and the expired, in any walking order. |
| TxPool.Pool.CleanupInvalid | antdc/chain/txpool.go:645-697 | Drops exactly the used nonces, the too old by wrapped age, and the expired, and counts them. |
| TxPool.CleanupsKeep | antdc/chain/txpool.go:603-697 | An entry survives the cleanup by age exactly while it is at most the limit old and not expired, and the other one exactly while its nonce is not used, it is not expired, and its height is zero or its age modulo 2^64 within the limit. |
| TxPool.Pool.CleanupMinedTransactions | antdc/chain/txpool.go:838-878 | Drops exactly the mined ones and counts them. |
| TxPool.Pool.Clear | antdc/chain/txpool.go:540-554 | Empties every index. |
| TxPool.Pool.GetPending | antdc/chain/txpool.go:563-578 | Every pending transaction once, a best payer first. |
| TxPool.AgeRulesAgreeIff | antdc/chain/txpool.go:619-671 | When the two cleanups judge age alike, and when the unsigned subtraction makes them differ. |
| TxPool.FilingUnique | antdc/chain/txpool.go:513-535 | The set of transactions determines the per-sender lists, whatever the order of changes. |
| TxPool.TrackedIsLast | antdc/chain/txpool.go:585-592 | The tracked nonce is that of the sender's last list entry, or zero. |
| PriceHeap.Push | antdc/chain/txpool.go:100-117 | Keeps heap order and adds exactly the new entry. |
| PriceHeap.Init | antdc/chain/txpool.go:594-601 | Orders any slice and keeps its entries. |
| PriceHeap.HeapOrderedIff | antdc/chain/txpool.go:594-601 | Heap order says that no entry pays less than the two at twice its position plus one and two. |
| PriceHeap.RootPaysMost | antdc/chain/txpool.go:100-104 | The first entry pays at least as much as any. |
| PriceHeap.HeapSortedIffSmall | antdc/chain/txpool.go:562-575 | The price order that GetPending's comment promises is assured exactly for at most two entries. |
| HeaderPreimage.BuildPreimage | antdc/block/block.go:328-439 | The buffer filled field by field and staker by staker is the layout's encoding. |
| HeaderPreimage.DecodeInverts | antdc/block/block.go:328-439 | A decoder inverts the hashed bytes of every header, up to what hashing forgets. |
| HeaderPreimage.PreimagesAgreeIff | antdc/block/block.go:328-439 | Two headers share a preimage if and only if they agree up to the forgotten parts. |
| HeaderPreimage.HashBindsFieldsIff | antdc/block/block.go:328-439 | Field by field: two headers share a preimage exactly when every hashed field is equal, numbers up to sign and multiples of 2^256, bloom filters cut or zero-filled to 256 bytes, stakers one by one. |
| HeaderPreimage.PreimageLayout | antdc/block/block.go:328-439 | The hashed bytes written out: which field stands where, in how many bytes, big-endian, with the lengths that precede three of them. |
| HeaderPreimage.StakerLayout | antdc/block/block.go:413-436 | The same for one staker's record. |
| HeaderPreimage.BloomKept | antdc/block/block.go:345-354 | A bloom filter of 256 bytes is hashed as it is, a shorter one with zeros after it, a longer one cut. |
| Bytes.BigEndian | antdc/block/block.go:881-896 | Which byte of a fixed-width number stands where. |
| HeaderPreimage.Low256Meaning | antdc/block/block.go:881-896 | Hashing keeps a big integer's magnitude modulo 2^256 and no sign, and reads nil as zero. |
| HeaderPreimage.SafeBigIntToBytes | antdc/block/block.go:881-896 | The padded or cut byte string is the fixed-width encoding of the magnitude. |
| HeaderPreimage.FieldsRoundTrip | antdc/block/block.go:336-438 | A layout of fixed and length-prefixed fields is self-delimiting. |
| HeaderPreimage.StakerRoundTrip | antdc/block/block.go:413-436 | A staker record with its flag-dependent tail is self-delimiting. |
| HeaderPreimage.StakersRoundTrip | antdc/block/block.go:413-436 | So is the counted list of them. |
| Merkle.ComputeMerkleRoot | antdc/block/block.go:540-558 | The level-rewriting loop ends and computes the recursive tree root. |
| Merkle.FoldKeepsRoot | antdc/block/block.go:540-558 | Folding one level keeps the root of the tree. |
| Merkle.CalculateTxHash | antdc/block/block.go:517-538 | The tree root over the transaction hashes, an absent one counting as the zero hash; a single transaction gives its own hash, an empty list zero. |
| Merkle.TxRootBinds | antdc/block/block.go:517-558 | With a collision-free pair hash, two lists of one length whose present hashes are not zero have one transaction root if and only if they are one list. |
| Merkle.FreePairsDoNotCollide | antdc/block/block.go:540-558 | Collision-free pair hashes, which these results assume, exist. |
| Merkle.SmallTxRoots | antdc/block/block.go:517-538 | The roots of up to two transactions. |
| Merkle.RootsAgreeIff | antdc/block/block.go:540-558 | With a collision-free pair hash, any two lists share a root if and only if, folded to the depth of the shallower one, they expand to the same hashes. |
| Merkle.RootBindsLeaves | antdc/block/block.go:540-558 | Lists of one length with one root are one list. |
| Merkle.OddDuplicateSharesRoot | antdc/block/block.go:540-558 | The length is needed: repeating the last of an odd number of leaves keeps the root. |

## Left out

- Reorg.ReorgManager.ProcessNewBlock: the recursion into the children of an orphan's parent is reported as its own step and not followed, because it has no measure that decreases; `Reorg.OrphanRoundRecursIff` shows why.
- Reorg.ReorgManager.PerformReorg: that a failed switch is undone assumes that the undo calls succeed and that the fork lies above genesis.
- Reorg.ReorgManager.ProcessAll: the work argument covers runs in which every failed switch was undone and none was tried at genesis.
- Reorg.ReorgManager.Switch: validation outcomes are arbitrary, so it is not stated when a connection succeeds.
- InsertChain.Inserter.Insert: segments with a block numbered zero, whose checks the program cuts short, are outside its precondition; a hash names one block; after a block fails to execute nothing is stated, since the rollback does not restore the old branch.
- InsertChain.Inserter.CheckSegment: the parent check is made, as it is whenever a proof-of-work engine is set.
- InsertChain.Inserter.InsertAll: nothing is stated of a run after an insertion that was not sound, or after a segment outside the precondition of one insertion.
- ChainStore.Blockchain.ConnectBlock: same-height replacement and sync mode of block addition are not modelled; a block that is not a direct extension of the tip is refused.
- ChainStore.Blockchain.RevertToHeight: only the canonical index and the tip; the accounts a revert rebuilds are the subject of `Replay.RebuildState`, on chains without account data.
- Replay.ReconnectsIff: a state root is taken to determine the accounts; every block names the king it pays in its extra data, as all block templates do.
- BatchValidation.ValidatedBatchNeverFails: plain transfers of positive cost; contract creations and calls with code are outside it.
- Execution.ApplyTransferOrCall: code of a called contract is not executed.
- BlockExecution.VM.Execute: a missing recipient, which stops the program, is an error; the stack and the storage, which the two fixed instructions never read, are not modelled.
- BlockExecution.ExecuteBlockTransactions: the checks on keys and signatures are a predicate on transactions; absent transactions are not modelled.
- BlockExecution.ValidateAndExecute: the checks before execution and the comparisons of state roots are not part of it.
- DifficultyEngine.RestartedShortChain: between the limits and on the same side of 150 it gives the two retargets and no simpler condition for their equality.
- Supply.SupplyAfterRun: assumes blocks that the apply functions take without failure, with a miner and no negative fee total; the rotating king is any address per block. Validated blocks are the subject of `BlockExecution.SupplyOfRun`.
- DifficultyEngine.EngineTracksChain: runs without reorganisations, from a genesis difficulty within the maximum.
- RotatingKing.RunFollowsAt: the king list and the interval are fixed, and votes of peers agree.
- RotatingKing.BlocksRealign: alignments ordered by peers or by an operator are not modelled, and neither is a chain whose own blocks stray from the schedule.
- RotatingKing.Manager.ProcessRotatingKingForBlock: the record of rewards, the priority miner and the synchronised height are not modelled.
- DifficultyEngine.PredictionAfterSwitch: chains shorter than twenty-four blocks are outside it.
- RotatingKing.Manager.RotateToNextKing: timestamps and broadcasts are not modelled.
- TxPool.Pool.AddTx: time-outs of chain calls and of the lock are not modelled; the chain view is a parameter.
- TxPool.Pool.CleanupInvalid: the snapshot and the removal are one step; changes made by others in between are not modelled.
- HeaderPreimage.DecodeInverts: the hash function itself is not modelled, only the bytes it is given.
- Heights, nonces and timestamps are unbounded numbers; 64-bit overflow is modelled only where it decides a result (gas, transaction age).
- DifficultyLaws.RetargetProportion: averages and ratios are exact rationals; the rounding of the floating-point numbers the program uses is not modelled.
- Re-evaluation of recorded forks, orphan expiry and their background loops.
- Loading and saving of the pool, and the removal of nonce gaps, which nothing calls.
- The protocol reward schedule in `antdc/chain/protocol.go`, which halves at another height than the one modelled here.
- Unused calculators, checkpoints, pruning, staking, signatures, proof of work, networking, storage and monitoring.
