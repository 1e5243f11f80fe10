# Verification of the serving adapters

The adapters speed up an LLM serving engine, and almost every one of them claims to give the same result as
the slow thing it replaces. This project models the self-contained code behind those claims and proves them,
or proves exactly when they hold.

| files | what they model |
|---|---|
| `BlockVerify`, `BlockLaw`, `BlockCompare` | block verification of speculative decoding as a probability model over a tree of drafts: losslessness, survival, comparison with token verification |
| `BlockAccept`, `BlockFold` | `block_accept_probs` as code, and its three folded kernels, over uninterpreted float operations |
| `CertBound`, `CertRound`, `CertNorm`, `CertScreen`, `CertHead` | the certified LM head: the error bound, its floating-point computation, the norm, screen and refine kernels, the masked arg-max, the verify step |
| `RowPool`, `RowProgress`, `RowCache`, `RowStore` | the ticketed thread pool, its progress and the striped cache as interleaved transition systems, and the store's reads |
| `PrefillSp` | the sequence-parallel layer loop against the unsharded one |
| `Indexer`, `PreparedLaunch`, `FastLoad`, `EpRemap`, `ColumnSplit`, `ScaleLayout`, `HcFused` | fast paths and caches against the simple thing |
| `Autotune`, `DecodeYield` | protocols over whole histories |
| `RealSums`, `Lanes`, `SortedIds`, `Wrappers` | finite real sums; lane reductions; sorted insertion; optional values |

Conventions. Probabilities and error bounds are over exact reals. Where the claim is bit identity, float
operations are parameters, so equality means the same expression tree; the few laws used (adding zeros,
commutative addition, monotone rounding to nearest as in section 4.3.1 of IEEE 754-2019) are named predicates
in the `requires`. The only probabilistic primitives are that a uniform draw is at most h with probability h,
and that the exponential race picks in proportion to its weights. Kernel grids run in any program order; thread
interleavings are sequences of atomic events.

Findings, each stated by a lemma or an if-and-only-if:

- The 1e-30 floors of block verification can change the output law (`BlockCompare.FloorBites`); the law is the
  target's exactly when every drafted prefix balances (`BlockLaw.LosslessExactly`, in closed form
  `BlockLaw.BalancedExactly`).
- `row_store_range` guards pinned scales but not a packed shard: with unpinned scales a moved range makes packed
  reads wrong, exactly when the range no longer indexes the shard (`RowStore.PackedRangeExactly`,
  `RowStore.MovedRead`).
- A plan outlives a write to an `os.environ` object that was put in place without tracking
  (`PreparedLaunch.StaleAfterUntrackedWrite`); `PreparedLaunch.SecondLaunchExactly` says exactly when a change is
  harmless.
- For shards of very few rows the sequence-parallel gates can take another kernel than the engine
  (`SpGates.CombineExactly`, `SpGates.PostExactly`); the defaults exclude it (`SpGates.DefaultsSafe`).
- The expert remap kernel reads ids as 32 bits and its reference as 64 (`EpKernel.LanesAgreeExactly`).
- An autotune boot that stops between saving the cache and writing `.launch` leaves a cache that the previous
  launch would load, exactly when that was a different launch (`AutotuneKeep.SavedSafeExactly`,
  `AutotuneKeep.StoppedAfterHistory`).
- With a shrinking batch the 128-step cap of a decode yield bounds time, not rounds; the prose of the module says
  rounds. `DecodeYield.CapExactly` says exactly for which budgets it does bound them.

## Model

| member | source | states |
|---|---|---|
| `BlockLaw.Lossless` | adapter/block_verify.py:1-12 | What a verify step emits, continued by target sampling, has the target's law on every token sequence, for every vocabulary, block length, number of verified drafts and pair of models, whenever no 1e-30 floor bites. |
| `BlockLaw.LosslessExactly` | adapter/block_verify.py:31-82 | With the floors as written: the law is the target's on all sequences if and only if every drafted prefix is balanced (its accepted plus corrected mass is its own mass). |
| `BlockLaw.LosslessForces` | adapter/block_verify.py:31-82 | If the law is the target's on all sequences then no drafted prefix has a defect at any token. |
| `BlockLaw.NodeDefect` | adapter/block_verify.py:40-60 | Where no floor bites below a prefix, its defect at a token is the whole floor loss times where lost tokens reappear, less the token's own loss. |
| `BlockLaw.BalancedExactly` | adapter/block_verify.py:40-60 | So such a prefix is balanced if and only if the floor takes from each token exactly that part of the whole loss. |
| `BlockLaw.LawStep` | adapter/block_verify.py:31-82 | The exact law, floors included: one more emitted token departs from the target's conditional by the draft's probability of the prefix times the defect there. |
| `BlockLaw.LawExtends` | adapter/block_verify.py:31-82 | The same from the first token of the block, as a statement about the output law alone. |
| `BlockLaw.ClearDefect` | adapter/block_verify.py:40-60 | No defect at a drafted prefix where no floor bites, the S = 0, w = 1 case (divisor 0, h = 0) included. |
| `BlockLaw.StopPick` | adapter/block_verify.py:76-81 | Residual mass times the correction's choice is the residual; with no residual the correction is a plain target sample. The floor under the mass never matters. |
| `BlockLaw.LeafDefect` | adapter/block_verify.py:69-78 | After a fully accepted block the correction token is a plain target sample. |
| `BlockLaw.KeptPlusResidual` | adapter/block_verify.py:45-60 | Accepted mass plus residual mass never exceed w, and make it up exactly when no floor bites on a token. |
| `BlockLaw.StopMass` | adapter/block_verify.py:53-61 | Stopping exactly at a prefix has the probability of its residual mass: (1 - kept) h = S. |
| `BlockLaw.SurvivalIsW` | adapter/block_verify.py:5-12 | By backward induction through h: the chance to accept at least a drafted prefix, given the drafts up to it, is exactly w. |
| `BlockLaw.SurvivalLawIsSurvive` | adapter/block_verify.py:64-68 | The survival law of the sampled drafts and independent tests, tau being the largest success, is the tree recursion's. |
| `BlockLaw.SurvivalLawIsW` | adapter/block_verify.py:5-12 | P(tau >= i given x^i) = w_i on every drafted prefix. |
| `BlockLaw.StepMeanIsWalk` | adapter/block_verify.py:62-68 | Averaging over drafts and test bits with tau the last success equals walking the tree one token at a time. |
| `BlockLaw.AlongMean` | adapter/block_verify.py:64-81 | One token of the walk along a given output: the drafted branch that takes it plus the correction that takes it. |
| `BlockLaw.SettledMean` | adapter/block_verify.py:64-81 | Once the output is decided (matched or contradicted) its probability is the survival probability or zero. |
| `BlockLaw.DeadTail` | adapter/block_verify.py:33-34 | A block with a dead tail is the shorter block of its verified drafts: same mean of every statistic of the accepted prefix and same output law, floors included. |
| `BlockCompare.SurvivalBeatsToken` | adapter/block_verify.py:5-6 | On every drafted prefix block verification survives at least as often as token verification, whose survival is the product of min(1, p/q). |
| `BlockCompare.WalkLength` | adapter/block_verify.py:8-10 | The expected accepted length from a prefix on is its length times w plus the further survivals. |
| `BlockCompare.FurtherBeatsToken` | adapter/block_verify.py:5-6 | From every prefix on, the further survivals are at least the token rule's survival times its further expected length. |
| `BlockCompare.BlockBeatsToken` | adapter/block_verify.py:5-6 | The expected number of accepted drafts is never below that of token verification. |
| `BlockCompare.SurvivalExactly` | adapter/block_verify.py:40-60 | With the floors as written the survival law is w at every drafted prefix if and only if every verified inner prefix is clear of them. |
| `BlockCompare.FloorBites` | adapter/block_verify.py:40 | A concrete block where the floor under q bites: the token is emitted half as often as the target would. |
| `BlockCompare.FloorHarmless` | adapter/block_verify.py:40 | A concrete block where a floor bites and the law is still the target's. |
| `BlockVerify.TokenConserved` | adapter/block_verify.py:50-55 | At one token accepted draft mass plus residual is at most w p, with equality exactly when the position is dead or the token clear of the floor. |
| `BlockVerify.FloorExact` | adapter/block_verify.py:40-50 | q times the accepted fraction is at most min(w p, q), with equality exactly when the floor does not matter. |
| `BlockVerify.WRange` | adapter/block_verify.py:45-52 | w stays in [0, 1], and is 0 past the verified drafts. |
| `BlockVerify.SRange` | adapter/block_verify.py:55 | Every residual is non-negative and at most their mass S. |
| `BlockAccept.Ratios` | adapter/block_verify.py:38-44 | The ratio and the live cutoff: each entry of both tensors. |
| `BlockAccept.Weights` | adapter/block_verify.py:45-52 | The loop over w computes min(w_{i-1} r_i, 1) at every position. |
| `BlockAccept.Thresholds` | adapter/block_verify.py:53-61 | h at every inner position and at the last one. |
| `BlockAccept.TauIs` | adapter/block_verify.py:64-68 | Any position that passes its test and beats every later passing one is tau. |
| `BlockAccept.Draw` | adapter/block_verify.py:69-81 | The correction is drawn by the arg-max of the race keys, which are the correction weights divided by the exponential draws: the row at tau less the draft's (zero past the drafts), normalised, or the target row when nothing is left. |
| `BlockAccept.BlockAcceptProbs` | adapter/block_verify.py:31-82 | The whole method returns the specified tau and correction token, as expression trees over uninterpreted float operations; and for an arg-max that returns a greatest place, no token's weight over its draw is above the returned token's. |
| `BlockAccept.CorrectionWins` | adapter/block_verify.py:78-82 | An arg-max that returns a greatest place makes the correction token win the race of the correction weights against the exponential draws. |
| `BlockAcceptReal.AcceptIsModel` | adapter/block_verify.py:31-82 | Read over the reals, those are the last success and the correction weights of the probabilistic model that Lossless is about. |
| `BlockAcceptReal.AcceptIsTree` | adapter/block_verify.py:31-82 | And so for every tree block whose rows along the drafts are the request's: the code accepts up to that block's last success, and its correction weights are the block's. |
| `BlockAcceptReal.RaceWon` | adapter/block_verify.py:69-82 | A token that wins the code's race wins the block's own: its correction probability times any other token's draw is at least that token's correction probability times its draw. |
| `BlockAcceptReal.AcceptReal` | adapter/block_verify.py:31-82 | The method over the reals, on the rows of any tree block along the drafts: tau is the block's last success, and the returned token wins the race of the block's correction weights there. |
| `BlockFold.PickIs` | adapter/block_verify_fold.py:53-54 | In any reduction order, adding zeros picks the wanted lane and nothing else; no lane gives zero. |
| `BlockFold.Scalars` | adapter/block_verify_fold.py:57-80 | The padded lanes hold the reference's alive flags and w, zero beyond. |
| `BlockFold.TermsProgram` | adapter/block_verify_fold.py:83-102 | A program writes its chunk of every residual row right and spoils no cell that was right. |
| `BlockFold.Decide` | adapter/block_verify_fold.py:105-122 | tau, w_tau and alive[tau] from the reduced masses are the reference's. |
| `BlockFold.ResidualProgram` | adapter/block_verify_fold.py:125-143 | A program writes its chunk of the residual at tau; tau is stored by the first chunk's program. |
| `BlockFold.KeysProgram` | adapter/block_verify_fold.py:146-158 | A program writes its chunk of the race keys: residual over mass, or the target row, divided by the draws. |
| `BlockFold.LaunchSizes` | adapter/block_verify_fold.py:168-214 | The chunk is at most the configured one, and the lanes leave room for index g. |
| `BlockFold.ChunkOfColumn` | adapter/block_verify_fold.py:168-214 | Every vocabulary column lies in exactly one chunk of the grid. |
| `BlockFold.GridCovers` | adapter/block_verify_fold.py:168-214 | Once every program has run, in any order, every cell of the buffer is right. |
| `BlockFold.TermsLaunch` | adapter/block_verify_fold.py:83-102 | After the first launch every residual of every request is the reference's. |
| `BlockFold.ResidualLaunch` | adapter/block_verify_fold.py:125-143 | After the second launch every residual at tau and every tau is. |
| `BlockFold.KeysLaunch` | adapter/block_verify_fold.py:146-158 | After the third launch every key is. |
| `BlockFold.Fold` | adapter/block_verify_fold.py:168-214 | For any batch, block length, vocabulary, chunk size, lane order, program order, initial buffer and optional verify lengths: the tau and token of block_accept_probs, bit for bit; and the token wins the race of the correction weights. |
| `BlockFold.Folded` | adapter/block_verify.py:107-123 | The launches on the candidates after the first and the verify lengths give tau and token of block_accept_probs on one verified draft less; in check mode too. |
| `BlockFoldReal.FoldReal` | adapter/block_verify_fold.py:168-214 | The three launches over the reals, for every request whose rows are a tree block's along its drafts: tau is the block's last success and the token wins the race of the block's correction weights. |
| `CertBound.CauchySchwarz` | adapter/cert_head.py:6-12 | Cauchy-Schwarz for finite dot products. |
| `CertBound.DotBound` | adapter/cert_head.py:6-12 | |a . b| is at most the product of any two upper bounds of the norms. |
| `CertBound.SumGroups` | adapter/cert_head.py:6-12 | A dot product is the sum of its group dot products. |
| `CertBound.GroupedBound` | adapter/cert_head.py:6-12 | The residual's dot with x is at most sum_g R_g X_g in absolute value. |
| `CertBound.AccumulationError` | adapter/cert_head.py:124-126 | Under the accumulation model an accumulation is within C |w| |x| of the exact dot. |
| `CertBound.ScreenDistance` | adapter/cert_head.py:6-12 | |stock accumulation - screen accumulation| <= sum_g R_g X_g + 2 C N |x|, for every vector and grouping. |
| `CertRound.QbLower` | adapter/cert_head.py:355-359 | The rounded grouped sum loses at most one part in 2^24 per step of the exact one. |
| `CertRound.BoundCovers` | adapter/cert_head.py:355-363 | A finite computed bound is at least the exact bound less the slack of the group norms, up to a thousand half-subnormals. |
| `CertRound.SlopCovers` | adapter/cert_head.py:330-380 | The slop outweighs the rounding of the two additions and what the bound fell short by. |
| `CertRound.LowerEnd` | adapter/cert_head.py:330-380 | The computed lower end, overflow and NaN included, is never above the exact one. |
| `CertRound.UpperEnd` | adapter/cert_head.py:330-380 | The computed upper end is never below the exact one. |
| `CertRound.Interval` | adapter/cert_head.py:330-380 | The kernel's tail for one row and token: the interval, or everything when the token is a stop slot. |
| `CertRound.SlackScale` | adapter/cert_head.py:302-327 | Scaled down by the slack INFL_X leaves, a group norm is still at least the true norm. |
| `CertRound.Certificate` | adapter/cert_head.py:234-260 | lo <= stock logit <= hi after monotone bf16 rounding, for every row, token, rounding and grouping narrow enough for its reduction depth. |
| `CertNorm.SquareSumLower` | adapter/cert_head.py:302-327 | A tree sum of rounded squares is near the exact sum of squares, from below. |
| `CertNorm.TreeSquares` | adapter/cert_head.py:302-327 | Whatever the reduction tree, its exact value is the sum of squares of the row. |
| `CertNorm.GroupNormCovers` | adapter/cert_head.py:302-327 | A finite computed group norm exceeds the true norm by the slack its reduction depth leaves of INFL_X, is clear of underflow, and saw only finite entries. |
| `CertNorm.RowNormCovers` | adapter/cert_head.py:302-327 | A finite row norm is at least the norm of the group norms, all of which are then finite. |
| `CertNorm.XNorm` | adapter/cert_head.py:302-327 | The kernel: every group norm with its slack and the row norm bound the true norms; the row is flagged exactly when its norm is not finite, and otherwise all its entries are. |
| `CertNorm.AnyOrder` | adapter/cert_head.py:197-203 | At 5120 columns every accepted group width meets the conditions: any reduction order for 32 to 256 columns, tree orders of at most 480 levels for wider groups. |
| `CertScreen.RowHolds` | adapter/cert_head.py:330-380 | From the norm kernel's promises and the tables, the interval of every token holds its exact logit. |
| `CertScreen.ScreenHead` | adapter/cert_head.py:431-459 | Norm and screen kernels on every row of a shard: the intervals hold the exact logits in every row that is not flagged. |
| `CertNorm.RoundUpIsCeiling` | adapter/cert_head.py:150-161 | Rounding a table value up gives the least value of the format that is not below it. |
| `CertArgmax.AgreeArgmax` | adapter/cert_head.py:18-35 | Rows that agree wherever either is greatest have the same first arg-max and value. |
| `CertArgmax.LocalAgree` | adapter/cert_head.py:263-282 | One rank's refined row agrees with the exact one under any later mask inside its stop slots. |
| `CertArgmax.GatheredAgree` | adapter/cert_head.py:263-282 | Agreement survives gathering any number of shards. |
| `CertArgmax.MaskedArgmaxExact` | adapter/cert_head.py:18-35 | For any ranks, shards, rows, tile width: the first-index arg-max of the gathered masked logits is that of the exact logits, ties, non-finite rows and later -inf masks over any subset of the stop slots included. |
| `CertArgmax.SlotsNeeded` | adapter/cert_head.py:18-35 | An id that is masked later but absent from the slots can change the arg-max. |
| `CertKernels.Screen` | adapter/cert_head.py:330-380 | Tile by tile in any order, the screen leaves every upper end and the exact row thresholds. |
| `CertKernels.TileHit` | adapter/cert_head.py:383-413 | A tile is hit exactly when some row has a column at or above its threshold. |
| `CertKernels.Refine` | adapter/cert_head.py:383-413 | In any program order the output is exact where the tile is needed and -inf elsewhere. |
| `CertKernels.CertifiedLogits` | adapter/cert_head.py:431-459 | Whatever was in the buffers, the output is the refined matrix, and the exact one in full mode. |
| `CertBuffers.Buffers.SetFlag` | adapter/cert_head.py:635-643 | The device flag follows the host's. |
| `CertBuffers.Buffers.SetStop` | adapter/cert_head.py:691-700 | The stop slots hold the given ids. |
| `CertBuffers.Buffers.StepArmed` | adapter/cert_head.py:664-688 | Armed exactly when nothing but a greedy arg-max reads the logits (each field of the batch named) and at most 64 ids may be masked; then the sorted ids are those of every request's stop ids when a penalizer is required, and none otherwise. |
| `CertBuffers.Buffers.RunNonCompact` | adapter/cert_head.py:728-737 | After an armed step with a required penalizer the slots hold every stop id of every request of the batch, stale ones besides. |
| `CertBuffers.Buffers.RunCompact` | adapter/cert_head.py:739-741 | Compact runs leave the head unarmed. |
| `CertBuffers.Buffers.RunIdleParticipation` | adapter/cert_head.py:743-745 | Idle participation leaves the head unarmed. |
| `CertBuffers.ArgmaxStep` | adapter/cert_head.py:718-746 | From screened shards: every rank arms its buffers, screens and refines, and the token is the arg-max of the exact logits under the same mask. |
| `CertBuffers.VerifyStep` | adapter/cert_head.py:718-746 | A verify step end to end, from tables, rows and accumulations, from any earlier buffer contents, under a later mask of any of the batch's stop ids: no column of any rank, stock or masked, is above the token's, and every smaller id is below it. |
| `RowPool.StepInv` | adapter/row_store.cpp:186-256 | Every step of every thread (publish, notify, ticket fetch, serve, wake, leave) keeps the pool's invariant. |
| `RowPool.RunInv` | adapter/row_store.cpp:186-256 | So does every run, for any number of workers and jobs. |
| `RowPool.ExactlyOnce` | adapter/row_store.cpp:186-209 | When run is about to return, every ticket of its job and of every earlier one has been served exactly once, no other ticket ever was, and no worker is in drain. |
| `RowPool.NoForeignTicket` | adapter/row_store.cpp:222-234 | No ticket of one job is ever served with another job's Work, and none is out of range. |
| `RowPool.RowOfTicket` | adapter/row_store.cpp:222-234 | Every row of a job is in exactly one ticket. |
| `RowProgress.EveryStepCounts` | adapter/row_store.cpp:186-256 | Every event but the start of the next run lowers a rank; a wakeup nobody asked for may raise it by at most 15. |
| `RowProgress.RunBounded` | adapter/row_store.cpp:186-256 | On every schedule of a run the number of steps plus the rank left is at most the rank at the start plus 16 for each spurious wakeup. |
| `RowProgress.RunReturns` | adapter/row_store.cpp:186-209 | run terminates: every schedule, with any wakeups or none, is so bounded, and where the caller and the workers that are up have no step left run has returned. |
| `RowProgress.HelpfulStep` | adapter/row_store.cpp:200-209 | In the middle of a run a step of the caller or of a worker that is up is always enabled and lowers the rank. |
| `RowProgress.RunCanReturn` | adapter/row_store.cpp:200-209 | In particular the caller and the workers that are up can bring the run to its return from every state in it. |
| `RowPool.CheckSeesRun` | adapter/row_store.cpp:236-256 | A worker that sees a job under the lock sees the current one, with its run still going on. |
| `RowStore.ReadFrom` | adapter/row_store.cpp:95-109 | One page-aligned read returns exactly the bytes asked for or fails, and fails exactly on a short read. |
| `RowStore.PinScales` | adapter/row_store.cpp:342-385 | Whatever short reads come back, the pinned scales are exactly the owned scale rows, or failure is reported; a resident table, or reads that all bring something, never fail. |
| `RowStore.BudgetHolds` | adapter/row_store.cpp:453-467 | The cache of that many sets fits the budget, and one more set would not. |
| `RowStore.Store.constructor` | adapter/row_store.cpp:423-469 | The opened store reads exactly, owns the whole table, and its cache fits the budget. |
| `RowStore.Store.AttachPacked` | adapter/row_store.cpp:499-523 | The shard is accepted exactly when its header and size match the owned range, and then reads stay exact if it holds the rows it names. |
| `RowStore.Store.Range` | adapter/row_store.cpp:525-538 | The range is accepted exactly when it is in bounds and no pinned scales would move, whatever packed shard is attached. |
| `RowStore.Store.FetchMiss` | adapter/row_store.cpp:130-144 | A packed read returns the bytes the range points at; with the range in place, and on the pinned-scale and two-read paths, that is the row. It succeeds exactly when every read it needs brings its bytes. |
| `RowStore.Store.FetchRow` | adapter/row_store.cpp:116-154 | One fetch returns exactly the row, and does so exactly when the row is cached or its reads come back; a miss puts it in the way the set's cursor points at and moves that cursor, and nothing else of the cache changes. |
| `RowStore.Store.Serve` | adapter/row_store.cpp:156-171 | Through the cache every served id gets its row, or zeros when another rank owns it; nothing else is written. It answers whenever every id is in the table and every row to be read comes back, and only for ids in the table that are cached or can be read; on whole reads, exactly when every id is in the table. |
| `RowStore.PackedRangeExactly` | adapter/row_store.cpp:525-538 | In the bytes a packed read returns, for every table and shard: rows come out right under a range if and only if it is empty or starts with the shard and ends within it. |
| `RowStore.MovedRead` | adapter/row_store.cpp:131-135 | Under a moved range the shard answers for a row with the one as far from its own first. |
| `RowCache.StepInv` | adapter/row_store.cpp:116-154 | Every step of every concurrent fetch (probe, read, fill in separate copies of weight half, scale half and key) keeps the cache invariant. |
| `RowCache.RunInv` | adapter/row_store.cpp:116-154 | So does every interleaving of any number of fetches. |
| `RowCache.Coherent` | adapter/row_store.cpp:116-154 | In every reachable state finished fetches returned exactly their row, every tagged way not being filled holds its row in that row's set, and victim cursors stay below the ways. |
| `RowCache.NoDeadlock` | adapter/row_store.cpp:118-153 | A busy thread can step, or the holder of the stripe it waits for can. |
| `SpRows.Shards` | adapter/prefill_sp.py:380-388 | An eligible chunk splits into equal, smaller, non-empty row shards. |
| `SpRows.Gather` | adapter/prefill_sp.py:404-409 | Gathering every rank's rows is the full tensor. |
| `SpRows.OwnerOf` | adapter/prefill_sp.py:396-398 | Each row of the full tensor has one owner and one place there. |
| `SpRows.GatherTail` | adapter/prefill_sp.py:433-458 | Gathering everything and taking the tail, or gathering only owned rows, is the unsharded tail, contiguous or indexed, and then zero rows. |
| `SpRows.GatherOwners` | adapter/prefill_sp.py:433-451 | In the owners plan the kept row of each tail position is the owner's. |
| `SpGates.CombineExactly` | adapter/prefill_sp.py:1420-1468 | The sharded combine takes the engine's kernel if and only if a condition on the platform, rows and shard size holds. |
| `SpGates.PostExactly` | adapter/prefill_sp.py:1471-1517 | The sharded post takes the engine's kernel if and only if its condition holds. |
| `SpGates.DefaultsSafe` | adapter/prefill_sp.py:380-383 | With the shipped minimum of rows and at most 31 ranks both conditions hold on platforms where a post chain is wired. |
| `SpGates.MixExactly` | adapter/prefill_sp.py:362-370 | Asking for the logical rows makes a shard's mix statistics take the chunk's kernel and a gathered tensor's its own; keyed on its own rows a shard would take another exactly when the least count falls between shard and chunk. |
| `SpLoop.ReduceRows` | adapter/prefill_sp.py:412-430 | Every rank gets its own rows of the reduction, with all-reduce or reduce-scatter. |
| `SpLoop.SpAttend` | adapter/prefill_sp.py:1294-1344 | Gather, attend with one's own heads on all rows, keep one's own rows: the shards of the full attention and the same KV. |
| `SpLoop.SpExperts` | adapter/prefill_sp.py:1347-1396 | The same for the MoE. |
| `SpLoop.WkvShard` | adapter/prefill_sp.py:632-652 | A first verdict is that the shard products equal the product's shards; the result is the sharded product if and only if no verdict was trusted or it holds of these rows too; recorded verdicts are kept. |
| `SpLoop.SpSublayer` | adapter/prefill_sp.py:1486-1517 | A sublayer's update on the shards, with the post and mix kernels the adapter chooses, is the shards of the update on all rows. |
| `SpLoop.SpEngram` | adapter/prefill_sp.py:662-682 | The shards of the Engram layer on all rows, where a row whose token is an image token keeps its residual and every other row is gated with the product of its looked up row. |
| `SpLoop.SpLayer` | adapter/prefill_sp.py:688-793 | One layer on the shards simulates one layer on all rows, captured rows and verdict table included; that layer is row by row the combine, attention, post and expert chain of the engine. |
| `SpLoop.StockLayer` | adapter/prefill_sp.py:688-793 | A tail layer is the stock layer on every rank, row by row: Engram gate with image rows kept, combine, reduced attention, post, reduced experts, captured rows. |
| `SpLoop.EngramRowsAre` | adapter/prefill_sp.py:741-758 | The Engram rows, stated row by row: residual kept where vision is on and the token is the image token, gate of residual and product elsewhere. |
| `SpLoop.StepIsLayer` | adapter/prefill_sp.py:741-785 | The layer function on whole tensors is the layer stated row by row and rank by rank, for every layer, mode and tail. |
| `SpLoop.ForwardRuns` | adapter/prefill_sp.py:688-793 | The recursive forward is a run of such layers: all of them, or those before the tail, the entry with its KV write, and those of the tail. |
| `SpLoop.RunTail` | adapter/prefill_sp.py:433-458 | Entering the tail from the shards and finishing the layers is the unsharded end of the forward. |
| `SpLoop.SpForward` | adapter/prefill_sp.py:688-793 | For any world size dividing the rows, any layers, Engram layers and tail, the sharded loop returns on every rank what the unsharded run of layers does; with reduce-scatters, what the transport-only mode does. |
| `IndexerSlots.SlotIdsNosync` | adapter/indexer_chunked_v3.py:78-99 | Request r's j-th slot stands j places after its start and is its token slot at j times the ratio, divided by the ratio, empty requests included; None exactly when there is no slot. |
| `IndexerSelect.JunkIrrelevant` | adapter/indexer_chunked_v3.py:214-411 | Whatever a kernel leaves beyond a row's length, the row selects and publishes the same. |
| `IndexerSelect.ChunkedSelect` | adapter/indexer_chunked_v3.py:338-411 | For any logits budget every row selects from the kernel's logits with exactly the columns its consumer mask forbids at minus infinity, and every source request publishes the block masks of its last rows, each from its own scores. |
| `IndexerSelect.ForbiddenIgnored` | adapter/indexer_chunked_v3.py:389-390 | What a kernel leaves at the columns a consumer's mask forbids changes no selection, on either path. |
| `IndexerSelect.ExtentCovers` | adapter/spark_prefill_dense.py:15-20 | The ranks' slices cover every row. |
| `IndexerSelect.SplitLocal` | adapter/indexer_chunked_v3.py:102-159 | Each packed row of a rank's slice is its row's own selection. |
| `IndexerSelect.RebuildMask` | adapter/indexer_chunked_v3.py:162-196 | A source's mask rebuilt from gathered block ids is the one it publishes. |
| `IndexerSelect.SplitSelect` | adapter/indexer_chunked_v3.py:162-196 | For any number of ranks and any budget the gathered selection and the rebuilt masks are the same: from the kernel's logits with the forbidden columns at minus infinity, and the last rows' block masks. |
| `PreparedLaunch.Session.PtrOf` | adapter/moe_launch_prepared.py:382-389 | The cached pointer is the pointer of that address, type and alignment. |
| `PreparedLaunch.Session.Issue` | adapter/moe_launch_prepared.py:392-481 | A plan issues the barrier fill if asked, then the planner if external, then the kernel, each pointer slot with this call's tensor. |
| `PreparedLaunch.Session.FindKernel` | adapter/moe_launch_prepared.py:500-525 | Finds where the kernel cache holds the compiled object, nowhere when it was compiled for one call. |
| `PreparedLaunch.Session.LaunchPrepared` | adapter/moe_launch_prepared.py:500-525 | A launch that reuses a plan issues what it was built for; with every plan right, or on a miss, effects and kernel cache are the stock launch's. |
| `PreparedLaunch.Session.Build` | adapter/moe_launch_prepared.py:500-525 | A plan miss decides; an error is raised as it is; a kernel the cache holds is launched and compiled again never, any other is compiled and kept if it may be; the plan is remembered if its kernel is kept. |
| `PreparedLaunch.BuiltIsStock` | adapter/moe_launch_prepared.py:500-525 | A plan miss has the stock effects and kernel cache, and keeps right plans right. |
| `PreparedLaunch.Session.Happen` | adapter/moe_launch_prepared.py:119-144 | Any other event that the counters notice keeps every reusable plan right; nothing the adapter remembers changes. |
| `PreparedLaunch.Session.Run` | adapter/moe_launch_prepared.py:500-525 | Over any run the session does what the run function of the adapter says; when every environment installed is tracked, every launch has the stock effects and the kernel cache stays the stock one. |
| `PreparedLaunch.SecondLaunchExactly` | adapter/moe_launch_prepared.py:119-144 | Launch, any events, launch again: stock for every decision that reads only prefixed variables if and only if another environment, write count or setting is in force, the kernels were cleared, or no prefixed variable changed. |
| `PreparedLaunch.WriteExactly` | adapter/moe_launch_prepared.py:119-144 | For one write: if and only if it is to another environment, counted, to an unread variable, or writes the value that is there. |
| `PreparedLaunch.DeleteExactly` | adapter/moe_launch_prepared.py:119-144 | For one delete: if and only if it is to another environment, counted, of an unread variable, or of one that is not set. |
| `PreparedLaunch.HarmlessAgrees` | adapter/moe_launch_prepared.py:500-525 | A harmless change leaves the second launch stock for every such decision and kernel layout. |
| `PreparedLaunch.HarmfulStale` | adapter/moe_launch_prepared.py:500-525 | Otherwise there is a decision for which the second launch is not the stock one, for every layout. |
| `PreparedLaunch.StaleAfterUntrackedWrite` | adapter/moe_launch_prepared.py:119-144 | A concrete world: os.environ replaced by an untracked object, a write to it between two launches, and the run is not the stock run. |
| `LoadPacing.Pacer.TryCharge` | adapter/fast_load.py:1189-1227 | Admits a submission exactly when it joins a slab in flight, fits the budget or is alone, and charges it once, a joined one nothing. |
| `LoadPacing.Pacer.Release` | adapter/fast_load.py:1206-1217 | Releases one charge once; a slab's bytes go with its last copy. |
| `LoadPacing.Pacer.Submit` | adapter/fast_load.py:1189-1227 | The charge stays with a pending copy and ends at once on an exception or a missing or finished future. |
| `LoadPacing.Pacer.Drained` | adapter/fast_load.py:1189-1227 | Once every charge is released the total is 0 and a waiter is let in. |
| `LoadPacing.Pacer.ChargedOnce` | adapter/fast_load.py:1151-1176 | In-flight bytes are the charges of distinct live slabs plus loose copies, never above max(budget, largest charge). |
| `LoadSlabs.SlabLayout` | adapter/fast_load.py:356-380 | Every tensor that keeps bytes is one member of one slab and nothing else is, aligned and apart from all others; no slab is larger than asked unless one tensor is. |
| `LoadSlabs.Merge` | adapter/fast_load.py:248-259 | Merged ranges cover the same bytes and neither overlap nor touch. |
| `LoadSlices.ReadSlice` | adapter/fast_load.py:573-618 | The direct or bounce-buffer read of a slice is the narrow of the full tensor, for any shape and block. |
| `LoadSlices.SlicesReassemble` | adapter/fast_load.py:262-273 | Every row along the dimension is in exactly one rank's slice. |
| `LoadSlices.NarrowIsFull` | adapter/fast_load.py:419-434 | The stand-in permits exactly the narrows inside its slice along its dimension, and each is the full tensor's. |
| `EpKernel.RowLowIsLowest` | adapter/moe_b12x_next.py:357-368 | The row minimum is the lowest local id of the row, the sentinel exactly when there is none. |
| `EpKernel.BatchLowIsLowest` | adapter/moe_b12x_next.py:357-368 | The batch minimum likewise over rows. |
| `EpKernel.RemapSafe` | adapter/moe_b12x_next.py:357-368 | Every output id is a valid local expert; a slot that was not local points at an expert its row, else the batch, already reads, or at 0 when there is none. |
| `EpKernel.LanesAgreeExactly` | adapter/moe_b12x_next.py:312-334 | The kernel's wrapping 32-bit subtraction is the reference's test on every 32-bit id; on wider ids it agrees if and only if the low 32 bits name no local expert. |
| `EpKernel.WideIdMisread` | adapter/moe_b12x_next.py:322 | A concrete 64-bit id that the kernel would take for local expert 0 and the reference would not. |
| `EpKernel.Entry` | adapter/moe_b12x_next.py:312-334 | Entry (i, j) of a strided view is the memory's at the base plus i row strides and j column strides. |
| `EpKernel.BatchBest` | adapter/moe_b12x_next.py:316-324 | The first pass over blocks of 32 rows and padded columns is the batch minimum. |
| `EpKernel.EpRemap` | adapter/moe_b12x_next.py:312-354 | The blocked two-pass kernel writes exactly the reference for any number of rows and strides and nothing past them, or refuses mismatched shapes. |
| `EpSum.RemappedRow` | adapter/moe_b12x_next.py:687-706 | A rank's launch on remapped ids is the stock sum over its own experts; fillers, padding and other rows have no influence. |
| `EpSum.DirectRow` | adapter/moe_b12x_next.py:689-700 | On a single rank the router's own ids give the same sum. |
| `EpSum.RankOffsetIs` | adapter/moe_b12x_next.py:402 | Rank r's first expert is r times the experts per rank. |
| `EpSum.RanksSumToTopK` | adapter/moe_b12x_next.py:304-307 | Summed over the ranks every row is the global top-k sum, padding (-1) adding nothing. |
| `EpForward.SelectChunk` | adapter/moe_b12x_next.py:709-719 | Kept capacities are exactly those their plan runs in one launch, sorted; the chunk is the largest; refused exactly when nothing is kept. |
| `EpForward.Geometry.constructor` | adapter/moe_b12x_next.py:490-511 | The table answers for every row count what the lookup would. |
| `EpForward.Geometry.Lookup` | adapter/moe_b12x_next.py:551-553 | The smallest capacity that holds m rows, the largest when none does. |
| `EpForward.Geometry.CapFor` | adapter/moe_b12x_next.py:555-556 | The smallest prepared capacity that holds m rows, by table or by lookup. |
| `EpForward.Geometry.Forward` | adapter/moe_b12x_next.py:687-706 | Chunks cover every row once, each with a prepared capacity that holds it, and every output row is the rank's stock sum, on the remapped and the direct path. |
| `ColumnRanges.Ranges` | adapter/replicated_split.py:68-73 | Whole, non-empty tile ranges that partition the columns: an equal share of tiles each and one more for the first ranks of the remainder. |
| `ColumnRanges.OneOwner` | adapter/replicated_split.py:68-73 | In a partition every column has exactly one owner. |
| `ColumnRanges.WindowContains` | adapter/replicated_split.py:76-79 | Every window lies in [0, n), starts on a tile and contains its rank's range. |
| `ColumnRanges.PackLayout` | adapter/replicated_split.py:120-127 | None exactly when a width or offset is not whole 16-byte packs; otherwise packs times 16 are the byte positions. |
| `ColumnRanges.PackBytes` | adapter/replicated_split.py:120-127 | A byte lies in a rank's packs if and only if that rank owns its column. |
| `ColumnRanges.TilesArePacks` | adapter/replicated_split.py:120-127 | Tile ranges are whole packs for every element size. |
| `ColumnGather.OldPathIsStock` | adapter/replicated_split.py:100-112 | Padding, gathering along columns and reordering rebuilds the stock columns, for slices and windows, shortcut included. |
| `ColumnLayer.MinimalPathIsStock` | adapter/replicated_split.py:130-132 | Gathering along rows and cutting the views rebuilds the stock columns. |
| `ColumnLayer.ColumnsLawIsStock` | adapter/replicated_split.py:161-171 | A columns gather that meets its contract rebuilds the stock columns. |
| `ColumnLayer.Build` | adapter/replicated_split.py:258-310 | All ranks get the same sound split whose probes were exact on every rank: the windows if they are on and exact on every rank, else the slices if those are, else none. |
| `ColumnLayer.Probe` | adapter/replicated_split.py:258-285 | Windows win if and only if they are on and exact on every rank, slices if and only if exact on every rank. |
| `ColumnLayer.Layer.Check` | adapter/replicated_split.py:189-218 | The verdict is true if and only if every rank is prepared and every rank's result equals the old path's; the columns kernel is launched by all ranks or none. |
| `ColumnLayer.Layer.Gather` | adapter/replicated_split.py:221-237 | Every rank returns the stock output unless the kind passed its check at this row count earlier and now breaks its contract; verdicts never change and ranks agree. |
| `ScaleLayout.SwizzleHolds` | adapter/prefill_sp.py:823-831 | Every scale is at its place in the 128x4 layout, and zeros at the places of the padding rows. |
| `ScaleLayout.ViewPermute` | adapter/prefill_sp.py:823-831 | The padded matrix viewed as [tiles, 4, 32, h, 4], its axes taken in the order (0, 3, 2, 1, 4) and flattened: every index of the view and where it lands. |
| `ScaleLayout.PlaceRow` | adapter/prefill_sp.py:823-831 | The place of an element leads back to it. |
| `ScaleLayout.RowPlace` | adapter/prefill_sp.py:823-831 | Every position is the place of the element it names: with PlaceRow, a bijection of the padded matrix. |
| `ScaleLayout.TileSlice` | adapter/replicated_split.py:82-97 | Swizzling a tile-aligned slice of the rows is slicing the swizzled tensor, so a proxy's flat scales are the layer's own. |
| `AutotuneKeys.ArgvKey` | adapter/autotune_keep.py:73-85 | The loop drops the ignored options with their values; no ignored option is left. |
| `AutotuneKeys.OptionDropped` | adapter/autotune_keep.py:73-85 | An ignored option goes with its value whatever that is, option=value goes alone, a last option goes without one, and all other arguments stay in place. |
| `AutotuneKeys.KeyedEnv` | adapter/autotune_keep.py:92-102 | The recorded base overrides the environment or unsets a variable, volatile variables never count, and of the environment only the adapters' own do, A/B switches apart. |
| `AutotuneKeys.StrippedTwice` | adapter/autotune_keep.py:73-85 | Dropping them again changes nothing. |
| `AutotuneKeys.FingerprintIsLaunch` | adapter/autotune_keep.py:88-104 | With a collision-free digest two launches share a fingerprint if and only if they are equal up to volatile variables and the pool size. |
| `AutotuneKeys.RawIsLaunch` | adapter/autotune_keep.py:88-104 | A raw fingerprint that equals a launch's raw or stripped one is of the same launch. |
| `AutotuneKeep.Sidecars.Digest` | adapter/autotune_keep.py:143-164 | A cache is loadable exactly when it parses and `.launch` is this launch's stripped or raw fingerprint or `.launch-pool` binds this launch to it; any other is deleted with its pool sidecar. |
| `AutotuneKeep.Sidecars.Tune` | adapter/autotune_keep.py:169-188 | A completed boot leaves what the history says: a kept cache and `.launch` as they are and the pool sidecar bound to them, or the new cache under this launch's fingerprints, or no cache. |
| `AutotuneKeep.BoundAfter` | adapter/autotune_keep.py:16-22 | Every boot of either adapter keeps `.launch` the tuner's and `.launch-pool` bound to the same launch. |
| `AutotuneKeep.HistoryBound` | adapter/autotune_keep.py:16-22 | So it holds after every history of completed boots. |
| `AutotuneKeep.KeptMeansSame` | adapter/autotune_keep.py:115-127 | After any history, a cache that a boot of either adapter keeps was tuned by the same launch up to volatile variables and the pool size. |
| `AutotuneKeep.RetuneUnbinds` | adapter/autotune_keep.py:16-22 | After a re-tune no launch that differs from it would load the new cache through either sidecar. |
| `AutotuneKeep.LoadableExactly` | adapter/autotune_keep.py:115-127 | After a boot of this adapter a readable cache is loadable by a launch if and only if that launch is the tuner's up to those. |
| `AutotuneKeep.KeptLaunchUnchanged` | adapter/autotune_keep.py:176-184 | Through any number of keeping boots `.launch` is the text its tuner left. |
| `AutotuneKeep.OlderReusesItsCache` | adapter/autotune_keep.py:16-22 | An older adapter's cache is kept by its own next boot, whatever kept it in between. |
| `AutotuneKeep.SavedSafeExactly` | adapter/autotune_keep.py:169-188 | A boot that stops between saving the cache and writing `.launch` is safe if and only if the `.launch` on disk was written by the same launch. |
| `AutotuneKeep.StoppedAfterHistory` | adapter/autotune_keep.py:169-188 | The same after every history; without a `.launch` nothing loads the new cache. |
| `AutotuneKeep.StoppedBound` | adapter/autotune_keep.py:169-188 | A stop before the new cache is saved, or between `.launch` and `.launch-pool`, leaves every later load right. |
| `AutotuneKeep.InterruptedBootMisleads` | adapter/autotune_keep.py:169-188 | A concrete history where the stop is not safe: the previous launch would load the other launch's cache. |
| `DecodeYield.BudgetCovers` | adapter/decode_yield.py:120-128 | The budget is positive, at most 128 steps, at least the interval within that, worth the share of the chunk unless capped, and the least such where the interval does not decide. |
| `DecodeYield.Costs` | adapter/decode_yield.py:112-117 | The cost model: a chunk's time is pro rata of 8192 tokens' at its prefix, rounded down, and a round's grows by 15.2 ms a stream. |
| `DecodeYield.Scheduler.ArmAfter` | adapter/decode_yield.py:168-198 | Arms with the budget exactly for a non-final chunk of the same request, in an extend batch beside decode rows, with a share to give; changes nothing otherwise. |
| `DecodeYield.Scheduler.DeferStep` | adapter/decode_yield.py:201-215 | Leaves the round to the stock rule with no time left, defers and charges beside decode rows while the chunk waits, and cancels otherwise. |
| `DecodeYield.Scheduler.Run` | adapter/decode_yield.py:168-215 | Any sequence of calls leaves the state the ledger says. |
| `DecodeYield.RunBooks` | adapter/decode_yield.py:168-215 | In every run the time left is the budget less what was charged, and no round started once a budget was spent. |
| `DecodeYield.NeverReplaced` | adapter/decode_yield.py:201-215 | When chunks are scheduled only in rounds not deferred, no yield is cut short by the next. |
| `DecodeYield.YieldShare` | adapter/decode_yield.py:120-128 | A yield that ran its course reached its budget and overshot it by less than its last round; uncapped, decode (100 - pct) >= pct chunk. |
| `DecodeYield.DecodeShare` | adapter/decode_yield.py:120-128 | The same in total over any run. |
| `DecodeYield.RoundsBounded` | adapter/decode_yield.py:120-128 | With an unchanged batch size a yield takes between min(interval, 128) and 128 rounds. |
| `DecodeYield.CapExactly` | adapter/decode_yield.py:120-128 | Whatever becomes of the batch, no run lets a yield exceed 128 rounds if and only if its budget is at most 128 steps of a single stream, known when it is armed. |
| `DecodeYield.LonelyRun` | adapter/decode_yield.py:201-215 | The run beside one stream defers and charges every round while the budget lasts. |
| `DecodeYield.ShrinkingBatchOutlastsCap` | adapter/decode_yield.py:201-215 | The condition can fail: a run whose yield, armed beside 8 streams that shrink to one, is still open after 256 rounds. |
| `HcFused.Walk` | adapter/hc_fused.py:80-119 | A running slice total with a reset after each slice is the slice partials followed by the ordered reduce, addition not being associative. |
| `HcFused.MixValue` | adapter/hc_fused.py:80-119 | With exact bf16 operands the two-dot chunks, walked once, give the engine's three-dot bits. |
| `HcFused.ReducedTotal` | adapter/hc_fused.py:80-119 | The tree both sides compute adds every chunk once: over the reals it is the sum of all of them. |
| `HcFused.DotExact` | adapter/hc_fused.py:80-119 | Over the reals the three dots of an exact activation and a split weight add up to the product. |
| `HcFused.EveryLaneOnce` | adapter/hc_fused.py:68-76 | The halving tree counts every lane exactly once. |
| `HcFused.ButterflyIsTree` | adapter/hc_fused.py:68-76 | Every lane of the xor butterfly ends with the value of the halving tree. |
| `HcFused.SquaresMatch` | adapter/hc_fused.py:68-76 | The square sum of a chunk is the engine's, on every lane. |
| `HcFused.SquareTotal` | adapter/hc_fused.py:80-119 | A row's square total, walked once over the chunks' tree sums, is the engine's butterflies reduced slice by slice. |
| `HcFused.Switch.Call` | adapter/hc_fused.py:190-221 | The result is the engine's unless an earlier call compared equal; one mismatch turns the fused path off for good. |

## Left out

- BlockLaw.Lossless: stated for blocks where no 1e-30 floor bites; BlockLaw.LosslessExactly is the statement without that condition.
- BlockCompare.BlockBeatsToken: needs the floors clear, because below them the survival of the block rule itself departs from w (BlockCompare.SurvivalExactly says exactly when).
- BlockLaw.SurvivalIsW: needs the floors clear; BlockCompare.SurvivalExactly is the if-and-only-if.
- BlockAccept.BlockAcceptProbs: one request at a time; the library's row sum and arg-max are parameters, and the gathered random draws are inputs.
- BlockFold.Fold: buffers are three-dimensional arrays instead of flat addresses; negative zeros among the probabilities are excluded, and the compiler's own reassociation is not modelled.
- CertRound.Certificate: where twice the number of groups plus the levels a group is added in is at most 600 (CertRound.Narrow), C is at most 0.5 and the table norms are given upper bounds; CertNorm.AnyOrder shows every accepted group width at 5120 columns within it. The double-precision computation of the tables is modelled only by its final rounding up (CertNorm.RoundUpIsCeiling).
- CertNorm.XNorm: reductions of at most 480 levels, groups of at most 2048 columns and at most 512 padded groups.
- CertBuffers.VerifyStep: the accumulation model of the two products on finite rows and the table entries are conditions (CertScreen.Models); the self-check mode, CUDA-graph capture and statistics are not modelled.
- RowProgress.RunReturns: a schedule that never runs a thread with an enabled step is the operating system's, not bounded here; atomics are sequentially consistent, and the destructor with its stop flag is not modelled.
- RowStore.Store.Serve: pread returns a prefix of the file's bytes or fails; O_DIRECT, mlock, DRM memory, keepalive reads and statistics are not modelled, a read repeated within a lookup answers alike, and aborts are a false result.
- RowCache.Coherent: the cache is modelled with rows as weight and scale halves that are copied in separate steps, not byte by byte.
- RowStore.Store.FetchRow: one fetch at a time; concurrent fetches are RowCache's transition system.
- SpGates.CombineExactly: the engine's own row gates are those the adapter's code mirrors; the engine's kernels are not part of this model.
- SpLoop.SpForward: attention, MoE, Engram and hyper-connection operations are abstract (full-row with per-rank partials, or row-local), and the wkv verdict is assumed to depend on the layer and the row count only, as the adapter's own table does (SpLoop.WkvShard says what happens otherwise); the FP8 input paths, the debug comparison and the transport are not modelled.
- IndexerSelect.SplitSelect: top-k and the block mask are abstract kernels with stated laws; the final sort and the page and raw index arithmetic are the same code on both sides and are left out.
- PreparedLaunch.Session.Build: the stock decision (`adapter/moe_launch_prepared.py:179-379`) is an abstract function of the key and the prefixed variables, not its own branches; CUDA stream semantics are left out.
- PreparedLaunch.SecondLaunchExactly: about two launches of one call from a cold start; longer runs are PreparedLaunch.Session.Run.
- LoadPacing.Pacer.Submit: a release callback sits on the future of its own copy; the thread executor and the condition variable's timing are left out.
- LoadSlices.ReadSlice: the file is a function from offsets to bytes; pinned memory and read errors are left out.
- EpKernel.EpRemap: the outputs are two-dimensional arrays instead of flat contiguous addresses, and ids are 32-bit as the engine's router writes them (EpKernel.LanesAgreeExactly covers the rest).
- EpSum.RemappedRow: over the reals, so a filler's weight 0 times its expert's output is 0 (an expert that returned inf or NaN is not modelled).
- ColumnLayer.Layer.Gather: that a probed slice equals the stock columns on inputs other than the probed ones is what the layer assumes and is an input here (ColumnGather.Shards).
- AutotuneKeep.KeptMeansSame: for completed boots by the two adapters (AutotuneKeep.StoppedAfterHistory is about one that stops); a boot with the feature off, which rewrites no sidecar, is outside the history, and a kept cache that the same launch extends counts as its tuner's.
- DecodeYield.DecodeShare: in the cost model's microseconds, for yields the cap did not cut; the request id that selects a test share is an input, and the stock interval rule of the engine is not part of this model.
- HcFused.MixValue: one row and column; masks, strides and the sinkhorn kernel, which is the engine's own, are left out.
- The heap-trim rate limiter (`adapter/heap_trim2.py`) and the in-boot variant switch (`adapter/ab_variant.py`): their results are timing and test plumbing.
- Install hooks, source pins, receipts, logging, telemetry and prefetch hints: no result to be right about.
- The earlier copies of the indexer loop, the RoCE transports and the prefill bypass: superseded, or the code they patch is not part of this repository.
