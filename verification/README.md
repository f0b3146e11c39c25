# HASH miner: a verified model

This project models the parts of the HASH token miner and its coordinator in which a mistake costs
money or work, and proves what they promise.

**The search.** The OpenCL kernel hashes with a hand-unrolled Keccak permutation, on a block it builds
from little-endian words and a byte-swapped counter, and compares word by word with early returns.
`Fips202` states the standard (FIPS 202, sections 3.2 to 3.4, 4, 5 and B.1) on bits; the rotation offsets
come from the rho walk and the round constants from the LFSR, not from tables. `KeccakTables`,
`KeccakWords` and `GpuKernel` prove that the unrolled text computes that permutation for every state.
`GpuSearch` carries this to the whole work-item: it reaches its compare-and-swap exactly when
keccak256(challenge || nonce) is below the target. `Dispatch` interleaves the work-items of one dispatch
over the two shared cells, and `GpuMiner` is the host loop with its self-tuning batch size.
`LegacyKernel` is the older kernel with a 64-bit nonce, `Worker` the CPU loop.

**The coordination.** `NonceSpace` and `WorkRanges` hand out nonce ranges; `Dedup` is the suppression of
duplicate solutions; `StateWatcher` is the protocol by which a change of state stops the miners.
`TxMachine` is the life of a transaction as a step machine: every await and every SQL statement is a step,
RPC answers and I/O failures are arbitrary, a crash loses memory and keeps what was committed. `TxSafety`,
`TxCalls`, `TxFinality` and `TxOverwrites` prove what all its runs have in common. `Submitter`,
`TxNonceManager` and `Db` hold the code in the order it is written, as methods on mutable objects, and
the class `Submitter` carries as a ghost the run of the machine that it has been: each of its public calls
continues that run, so that what holds of all runs holds of it. `Gas`, `Text` and `Contract` are the fees,
the text forms and the proof-of-work rule they share. `RpcPool` is the choice of endpoint.

Numbers are unbounded unless a type says otherwise; wrap-around at 2^64 and saturation at 2^128 are
written out where the program has them. A 64-bit word is a sequence of 64 bits, lowest first.

## What turned out false

Some claims one would like to make do not hold of the code. Each has a run or an input that shows it, and
the exact condition under which it does hold.

- A solution is forwarded at most once per epoch: `Dedup.ForwardedTwiceInOneEpoch` shows otherwise, because
  the seen set is cleared before the latest state moves on. `Dedup.AdmittedAgainExactly` says when.
- A confirmed transaction stays 'success': `TxOverwrites.ReplacedSuccess` and `TxOverwrites.RefusedSuccess`
  show otherwise. `TxOverwrites.SuccessLostExactly` says which steps lose it.
- Each account nonce is counted once: `TxOverwrites.CountedTwice` shows otherwise. A counted nonce is listed
  again exactly if no status write of it succeeded (`TxFinality.ListedAgainExactly`); then it can be counted
  again (`TxOverwrites.CountedAgain`), and otherwise never (`TxFinality.NeverCountedAgain`).
- Ranges handed out never overlap: `WorkRanges.OldSnapshotRepeats` shows otherwise, for two /work handlers
  with different state snapshots. `WorkRanges.DisjointExactly` is the exact condition.
- The cap bounds the fee: `Gas.LateFeeDropped` and `Gas.SecondReplacementPassesCap` show otherwise.
  `Gas.FirstReplacementDrops` says when the first plan passes it, `Gas.CapPassed` when a replacement does.
- Replacements never lower the fee: `Gas.LateFeeDropped` shows otherwise; `Gas.MaxFeeDrops` says when.
- The GPU stays in the range it was handed: `Worker.Overrun` shows otherwise; `Worker.GpuStaysExactly` and
  `Worker.OneDispatchFits` say when it does.
- Miners never work on a state older than their token: `StateWatcher.StaleRound` shows otherwise;
  `StateWatcher.MatchedExactly` says when a round is matched.
- What is signed for is for the challenge and epoch published then: `StateWatcher.SignedStale` shows otherwise,
  because both guards come before the fee data, the nonce and the signature. `StateWatcher.SignedExactly` says
  when it is.

The repository's own documentation promises disjoint nonce ranges (README.md:115) without these
conditions; the model follows the code.

## Model

| member | source | states |
|---|---|---|
| KeccakTables.OffsetAt | src/gpu/kernel.cl:27 | the rotation amount written for each of the 25 lanes is the one that the rho walk of FIPS 202 section 3.2.2 gives that lane, lane 0 included |
| KeccakWords.WrittenConstant | src/gpu/kernel.cl:13-20 | every bit of the 24 numbers written in the table is the one that the rc(t) register of FIPS 202 section 3.2.5 gives that round and position |
| KeccakWords.ThetaHolds | src/gpu/kernel.cl:24-26 | the column sums and the 25 exclusive-ors are theta, bit for bit |
| KeccakWords.RhoPiHolds | src/gpu/kernel.cl:27 | the 25 destinations and rotations of the B variables are rho followed by pi |
| KeccakWords.ChiHolds | src/gpu/kernel.cl:28-32 | the 25 row updates are chi |
| KeccakWords.IotaHolds | src/gpu/kernel.cl:33 | the exclusive-or with the table entry is iota for that round |
| KeccakWords.PermuteHolds | src/gpu/kernel.cl:22-35 | for every state, the unrolled rounds give the state of the standard's rounds; 24 of them are KECCAK-p[1600, 24] |
| GpuKernel.KeccakF1600 | src/gpu/kernel.cl:22-35 | the statements on s[25], executed in place over the 24-iteration loop, leave the words whose meaning PermuteHolds states |
| Bits.BSwapBytes | src/gpu/kernel.cl:6-11 | the masks and shifts of bswap64 turn the little-endian word of eight bytes into their big-endian word |
| GpuSearch.EarlyExit | src/gpu/kernel.cl:51-52 | the nested comparison with its early returns decides the strict order of the two 256-bit numbers, for every state and every four target words |
| GpuSearch.RunItem | src/gpu/kernel.cl:44-53 | the work-item, on its array: the wrapped counter, and whether it reaches the compare-and-swap |
| GpuSearch.MessageWordsAre | src/gpu/mod.rs:307-324 | the challenge and prefix lanes, and the swapped counter, are the eight little-endian words of challenge, prefix and big-endian counter |
| GpuSearch.BlockHolds | src/gpu/kernel.cl:46-49 | eight message words and the two padding constants are the one block that pad10*1 makes of a 64-byte message at rate 1088, with the capacity zero |
| GpuSearch.TargetVals | src/gpu/mod.rs:326-334 | the four big-endian words of a target, weighted by powers of 2^64, are the target |
| GpuSearch.DigestVals | src/gpu/kernel.cl:50-52 | the first four output words, byte-swapped and weighted, are the digest read as a big-endian number |
| GpuSearch.HitIsProof | src/gpu/kernel.cl:37-54 | for every challenge, prefix, target and counter, the work-item's decision is proof_is_valid of the assembled nonce |
| LegacyKernel.KeccakF1600 | src/keccak_kernel.cl:38-119 | the older permutation, one statement after the other on s[25], with its own table, leaves the words that KeccakWords.PermuteHolds is about |
| LegacyKernel.Fill | src/keccak_kernel.cl:137-164 | its 25 assignments make the same padded block as the 256-bit kernel under zero prefix lanes |
| LegacyKernel.Compare | src/keccak_kernel.cl:168-185 | its pre-filter and nested comparison decide the strict order of the two 256-bit numbers |
| LegacyKernel.RunLegacyItem | src/keccak_kernel.cl:128-191 | its work-item decides as the 256-bit kernel does under zero prefix lanes, and reports the same counter |
| LegacyKernel.KernelsAgree | src/keccak_kernel.cl:128-191 | for every challenge, target and nonce, that decision is the contract's rule for the nonce as a uint256 |
| LegacyKernel.BothKernels | src/keccak_kernel.cl:128-191 | the two kernels run side by side give the same counter and the same decision, which is the contract's |
| Dispatch.WorkItem | src/gpu/kernel.cl:44-53 | item i of a dispatch goes for the flag exactly if its counter, wrapped at 2^64, is a proof, and would store that counter |
| Dispatch.RunInv | src/gpu/kernel.cl:53 | the invariant of every interleaving: the flag is set by exactly one item, which is a hit and is the only one that stores; without the flag no hit has returned |
| Dispatch.OneStore | src/gpu/kernel.cl:53 | under every interleaving of the work-items, at most one ever stores a counter |
| Dispatch.Outcome | src/gpu/kernel.cl:53 | once all items have returned, the flag is set exactly if some counter of the dispatch is a proof, and then the stored counter is one |
| GpuMiner.GpuMiner.AdjustBatch | src/gpu/mod.rs:149-160 | the update of the batch size in place |
| GpuMiner.NextBatchBounds | src/gpu/mod.rs:149-160 | whatever the measured ratio, the new batch is a positive multiple of the local size, in (2^16 - local size, 2^30] for local sizes up to 2^16, and at most half again the old one unless the lower clamp or the local size lifts it |
| GpuMiner.ScaledFollows | src/gpu/mod.rs:150-153 | a dispatch faster than its target never shrinks the scaled batch and a slower one never enlarges it; it is one half at ratios up to 0.5, one and a half from 1.5, and the exact product in between |
| GpuMiner.NextBatchIs | src/gpu/mod.rs:154-159 | the new batch is the largest multiple of the local size up to the scaled batch, clamped to 2^16 and 2^30; or one local size if that is larger |
| GpuMiner.NextBatchFollows | src/gpu/mod.rs:149-160 | from a batch that the tuning left, a faster dispatch leads to no smaller one, and, above the lower clamp, a slower one to no larger one |
| GpuMiner.GpuMiner.DispatchOnce | src/gpu/mod.rs:162-229 | with the stop flag unset, a nonce is returned exactly if the dispatched interval holds a proof, and it is one of them: the CPU re-check never discards a report |
| GpuMiner.GpuMiner.MineUntil | src/gpu/mod.rs:104-147 | the dispatches cover consecutive intervals of the tuned lengths from the start counter, wrapped at 2^64; attempts grows by their sum; each begins only after both checks; a found nonce is a proof in the last interval, and earlier ones held none unless the stop flag was seen after them |
| GpuMiner.CleanIsClear | src/gpu/mod.rs:114-146 | if the stop flag never rose, everything swept so far is one stretch of counters without a proof |
| Worker.SearchBatch | src/worker.rs:502-514 | the CPU loop returns the first proof of the range it was handed with its hash, after exactly that many attempts, or none after as many as the least of hint, own batch and 2,000,000; it never goes beyond the range |
| Worker.GpuStaysExactly | src/worker.rs:390-399 | all nonces of a search lie in the handed range if and only if it is no longer than the range; the first one past it never does |
| Worker.OneDispatchFits | src/gpu/mod.rs:114-146 | with a batch size that starts at the handed length, as by default, that is if and only if there was at most one dispatch |
| Worker.Overrun | src/gpu/mod.rs:104-147 | it happens: two quiet turns on a target that nothing meets leave the range |
| Worker.GpuLeavesRange | src/worker.rs:390-399 | what is tried beyond the range is, nonce by nonce, the range that the same binding is handed next |
| NonceSpace.PrefixFields | src/nonce_space.rs:48-57 | version, miner hash, boot random, worker number and epoch hash can each be read back from the 24-byte prefix |
| NonceSpace.PowNonceShift | src/nonce_space.rs:103-108 | the nonce is prefix * 2^64 + counter |
| NonceSpace.PowNonceInjective | src/nonce_space.rs:103-108 | different prefixes or counters give different nonces |
| NonceSpace.PowNonceLayout | README.md:131-146 | the five fields and the counter stand at the documented bit positions |
| NonceSpace.EpochHashOf | src/nonce_space.rs:110-116 | the epoch hash is the first eight bytes of the digest of epoch and challenge, encoded so that no two pairs coincide |
| NonceSpace.PrefixHexRoundTrip | src/nonce_space.rs:118-131 | parse_prefix_hex reads back what prefix_hex wrote, for every prefix, although it strips the marker repeatedly |
| NonceSpace.NonceAllocator.WithParts | src/nonce_space.rs:29-46 | a new allocator keeps its parts, the boot random cut to 48 bits, bound to the hash of epoch and challenge, at counter zero |
| NonceSpace.NonceAllocator.NextBatch | src/nonce_space.rs:59-67 | the batch answered has the prefix, the old counter and the size, and the counter advances to its end, wrapping at 2^64 |
| NonceSpace.NonceAllocator.RebindEpoch | src/nonce_space.rs:73-79 | a new epoch hash restarts the counter; the same one changes nothing |
| NonceSpace.NonceAllocator.EpochChanged | src/nonce_space.rs:69-71 | says yes exactly if a rebind to that epoch and challenge would change the allocator at all |
| WorkRanges.WorkerTable.GiveWork | src/coordinator.rs:400-419 | the /work handler under the write lock, with the allocator's own epoch_changed, rebind_epoch and next_batch, is one step of the allocation machine; the nonces of its answer, one by one, are those of the range it recorded |
| WorkRanges.WorkerTable.InsertWorker | src/coordinator.rs:359-379 | registration makes a fresh allocator for its own sequence number |
| WorkRanges.WorkerTable.DrawSeq | src/coordinator.rs:359 | sequence numbers are drawn before, and apart from, the insertion |
| WorkRanges.WorkerTable.CollectStale | src/coordinator.rs:199-204 | removes entries, and neither sequence numbers nor ranges handed out |
| WorkRanges.FreshRunInv | src/coordinator.rs:359-409 | the invariant of guarded runs: each range stands at its place in its binding, below 2^64, under its own worker number |
| WorkRanges.DisjointExactly | src/coordinator.rs:396-409 | below 2^32 registrations, all ranges handed out in a run are pairwise disjoint, across workers, collection and re-registration, if and only if no request rebinds an allocator back to an epoch hash it handed out under and no binding passes 2^64 counters (or batches are empty) |
| WorkRanges.AnswersDisjointExactly | src/coordinator.rs:409-419 | the same of the answers themselves: no nonce is in two answers of a run if and only if every request met the guard, or batches are empty |
| WorkRanges.StaleOverlaps | src/coordinator.rs:406-409 | a request that misses this guard is handed a range that meets an earlier one |
| WorkRanges.OldSnapshotRepeats | src/coordinator.rs:396-409 | after any run, three requests by handlers with an old, a new and an old snapshot give two ranges in common |
| Dedup.KeyInjective | src/coordinator.rs:446-451 | the key string determines challenge, nonce and miner address, whose EIP-55 form is decoded without regard to case |
| Dedup.AddressCase | src/coordinator.rs:446-451 | the letters of the address are upper case exactly where the hash of its lower-case text has a hexadecimal digit of 8 or more |
| Dedup.SeenSet.MoveTo | src/coordinator.rs:146-152 | a new epoch clears the set; the same epoch leaves it |
| Dedup.SeenSet.Insert | src/coordinator.rs:452-464 | the answer says whether the key was new, and the key is in the set afterwards |
| Dedup.DuplicateExactly | src/coordinator.rs:446-464 | in every run, a solution is turned away as a duplicate exactly if one with the same challenge, nonce and miner was admitted since the last clear |
| Dedup.RunKeeps | src/coordinator.rs:143-155 | the invariant of all runs: the set holds exactly the keys admitted since the last clear, none of them twice, and each admission is forwarded at most once |
| Dedup.ForwardedOncePerClear | src/coordinator.rs:433-475 | of the solutions passed on to the submitter, two that agree were admitted on different sides of a clear, and each matched the state its handler had read |
| Dedup.ForwardedTwiceInOneEpoch | src/coordinator.rs:143-155 | for all pairs of states of different epochs, a run that passes the same solution of the first on twice |
| Dedup.ForwardedOncePerEpoch | src/coordinator.rs:143-155 | once per epoch does hold in runs that admit only under the seen set's epoch and never see the epoch go back |
| Dedup.AdmittedAgainExactly | src/coordinator.rs:143-155 | after such a run, a solution already admitted is admitted again exactly if its handler's epoch is no longer the seen set's |
| StateWatcher.StateWatcher.Run | src/state_watcher.rs:64-90 | between polls the channel's state is the one the token was last bumped for |
| StateWatcher.LastPollPublished | src/state_watcher.rs:68-88 | the channel holds all of what the last successful poll found, also if only the block or the blocks left changed |
| StateWatcher.TokenCountsChanges | src/state_watcher.rs:71-75 | a poll raises the token by one exactly if its challenge or epoch is not that of the last successful one; a failed poll changes nothing |
| StateWatcher.PollThenSend | src/state_watcher.rs:69-85 | at any point of a run, a poll and its send publish that poll's state, all of it |
| StateWatcher.RunInv | src/state_watcher.rs:64-90 | the invariant of watcher and rounds: consecutive versions have different keys, every state in use has the key of its version, and no round is ahead of the token |
| StateWatcher.TokenLeadsByOne | src/state_watcher.rs:71-84 | in every interleaving, published version <= token <= published version + 1, and ahead only between bump and send |
| StateWatcher.MatchedRoundIsCurrent | src/gpu/mod.rs:115-123 | no round has a state newer than its token; one whose state has the token's version dispatches only where the check before found the watcher's last challenge and epoch to be its own |
| StateWatcher.OneLateDispatch | src/gpu/mod.rs:115-135 | in every continuation of every run in which the token has moved away from a round, and until the device reads a state again, it begins at most the one dispatch it had already checked for, and none if it had not |
| StateWatcher.LateCount | src/gpu/mod.rs:115-135 | the number of dispatches that a round has begun since its token moved never exceeds one |
| StateWatcher.NoDispatchAfterChange | src/gpu/mod.rs:119-123 | a search loop that reads its tokens from a run: if the watcher saw another challenge or epoch at any moment up to the check of turn k, even one that has changed back, dispatch k is not begun |
| StateWatcher.StaleRound | src/main.rs:364-397 | for all pairs of different states and every n, a run in which a round begins n dispatches on the first, under the second's token and with the second published |
| StateWatcher.MatchedExactly | src/main.rs:364-379 | a round's state is as new as its token exactly if, when it reads the token, the channel still holds the version it read and no later one waits to be sent |
| StateWatcher.StaleSolutionStopped | src/submitter.rs:84-101 | validation, against any state that was ever published: it calls a solution stale exactly if the version it was found on and that state's version have different keys, as consecutive ones always have; and accepts it exactly if the keys agree and it is a proof under that state's targets |
| StateWatcher.AnswerStops | src/submitter.rs:110-118 | the challenge asked again: an answer that is some version's challenge lets a validated submission go on exactly if its own is the same, so a change of the epoch alone passes |
| StateWatcher.SignedExactly | src/submitter.rs:109-193 | in every run, what is signed for is a proof for the key and targets of the version it was validated against, which was published, and its challenge was confirmed no earlier; it is for the challenge and epoch published at the signing exactly if that version and the one published then have the same key |
| StateWatcher.SignedStale | src/main.rs:278-286 | for all pairs of different states and every nonce that proves the first, a run that passes both guards in time and signs for the first while the second is published |
| Contract.MineCalldataIs | src/contract.rs:67-69 | 36 bytes: the first four select mine(uint256), whose text is given byte by byte, and the other 32 are the nonce as a big-endian number |
| Contract.MineCalldataInjective | src/contract.rs:67-69 | so the calldata names its nonce |
| Contract.AcceptedExactly | src/submitter.rs:84-101 | a solution is accepted exactly if epoch, challenge and hash are right and it is a proof for the effective target; it then is one for the target, so the last check never decides |
| Contract.VerdictExactly | src/submitter.rs:84-101 | which check speaks is the first that fails, in the order epoch, challenge, hash, effective target, target |
| Contract.GuardExactly | src/submitter.rs:109-118 | what gets past both guards: the right epoch, challenge and hash, a proof for both targets, and an answer that is the challenge; and it is counted as stale exactly if only another answer stopped it |
| Gas.PriorityBounds | src/gas.rs:31-40 | after k replacements without saturation, 100^k p_k <= m^k p_0 and 100^k (b p_k - 99) >= m^k (b p_0 - 99), with m = 100 + b |
| Gas.PriorityRises | src/gas.rs:33 | a replacement raises the priority exactly if b p >= 100, and leaves it exactly if b p < 100 |
| Gas.BumpToTheWei | src/gas.rs:31-40 | a replacement to the wei: the priority is raised by the percentage and rounded down; so is the fee limit while that stays below the cap, and from there on it is the cap, or the priority if that is more |
| Gas.BumpExample | src/gas.rs:67-76 | the figures of the repository's own test |
| Gas.PlannedMaxFee | src/gas.rs:21-28 | the planned fee limit is the cap, whatever the base fee; a late bump only raises it |
| Gas.ReplacedMaxFee | src/gas.rs:31-40 | from the first replacement on, the fee limit is exactly the larger of cap and priority |
| Gas.MaxFeeDrops | src/gas.rs:31-40 | a replacement lowers the fee limit exactly if it stands above the cap and 100 times it above (100 + b) times the old priority |
| Gas.CapPassed | src/gas.rs:31-40 | a replacement offers more than the cap exactly if (100 + b) times the old priority is at least 100 (cap + 1) |
| Gas.FirstReplacementDrops | src/submitter.rs:165-181 | in terms of settings and base fee: the first plan exceeds the cap exactly if the late bump fires and late priority + 2 base > cap, and its first replacement lowers it exactly if, besides, b times the late priority < 200 base |
| Gas.LateFeeDropped | src/submitter.rs:165-181 | settings and base fee for which the first plan offers 45 gwei under a cap of 10, and its replacement 10 |
| Gas.CapOutgrown | src/submitter.rs:306-318 | a transaction whose priority moves at all offers more than the cap after enough replacements |
| Gas.SecondReplacementPassesCap | src/gas.rs:16-40 | settings for which the second replacement offers 10.58 gwei under a cap of 10 |
| Gas.ReplacementSkipped | src/submitter.rs:312-318 | the loop skips a transaction exactly if its priority is stuck and its fee limit already is the larger of cap and priority |
| Gas.GasLimitKept | src/gas.rs:16-40 | the gas limit is the override or the scaled estimate, moved to the nearer of 200,000 and the cap, or to the cap for an override; no late bump and no replacement changes it |
| Gas.ReplacementSignable | src/gas.rs:38 | every replacement has priority <= fee limit, as EIP-1559 demands, saturated or not |
| Gas.FirstPlanSignable | src/submitter.rs:165-181 | the first plan has priority <= fee limit exactly if the configured priority is within the cap or the late bump fires |
| Gas.FeeColumn | src/db.rs:185-186 | a fee written as decimal text is read back, for every u128 |
| Db.RowReadsBack | src/db.rs:97-126 | the fees, the calldata and the block that were inserted are what list_pending returns |
| Db.FeeReadsBack | src/db.rs:145-158 | and after update_fee, the new fees |
| Db.NextNonceReadsBack | src/db.rs:76-95 | the stored next nonce survives its text form |
| Db.HighestListed | src/db.rs:160-175 | the pending rows are listed downwards, and one is missing only below all of 500 that are there |
| Db.Connection.SetStatus | src/db.rs:137-143 | changes the status of one row and nothing else, or nothing |
| Db.Connection.Store | src/db.rs:88-95 | replaces the stored next nonce and nothing else, or nothing |
| Db.Connection.Insert | src/db.rs:97-126 | puts one row, replacing one of the same key, and nothing else, or nothing |
| Db.Connection.SetTxHash | src/db.rs:128-135 | changes the hash of one row and nothing else, or nothing |
| Db.Connection.SetFee | src/db.rs:145-158 | changes the fee columns of one row and nothing else, or nothing |
| TxNonceManager.TxNonceManager.Allocate | src/tx_nonce_manager.rs:30-46 | the nonce is spent in memory first and returned only once its successor and its row are stored |
| TxNonceManager.FirstNonceIs | src/tx_nonce_manager.rs:19-22 | the first nonce is at least each count the node answered with and the stored one, and no more than needed for that |
| TxNonceManager.Open | src/tx_nonce_manager.rs:18-28 | a fresh process starts at no less than both chain counts and the stored nonce, and stores where it starts |
| TxSafety.RunNonces | src/tx_nonce_manager.rs:18-46 | the invariant of all runs: the stored next nonce is above every returned nonce and every row key, never above the one in memory, and the mutex holder's nonce is new |
| TxSafety.NoncesSpentOnce | src/db.rs:97-126 | with concurrent allocators, failing writes, crashes and any chain counts, no account nonce is returned twice and INSERT OR REPLACE never replaces |
| TxSafety.NoncesAboveChain | src/tx_nonce_manager.rs:18-46 | from the start of a process until it crashes, every nonce returned is at least the counts of transactions that the node answered with at the start |
| TxCalls.EveryBroadcastIsAProof | src/submitter.rs:135-200 | every transaction ever broadcast calls mine(uint256), byte by byte, with the solution p that its account nonce was spent on; p was accepted, so it is a proof for effective_target = target / max(1, divisor) and for the target |
| TxCalls.OneCallPerNonce | src/submitter.rs:301-340 | first send and all replacements under one account nonce carry the same calldata, also across restarts |
| TxCalls.WrittenAhead | src/tx_nonce_manager.rs:39-45 | whatever was broadcast has its row, with its calldata still in it, and lies below the stored next nonce |
| TxCalls.EveryRowRecords | src/db.rs:97-126 | every row, however often updated, records the solution its nonce was spent on, and the block, epoch and challenge of the state it was validated against; its calldata decodes to the call |
| TxCalls.EveryBroadcastFee | src/submitter.rs:160-181 | every broadcast pays, after some number k of replacements and through the database, a first plan that is plan_gas of some base fee and estimate with the late bump at its state's blocks left; it is signable if the priority is within the cap or k >= 1; for k >= 1 unsaturated its fee limit is the larger of cap and priority |
| TxCalls.ReplacementOk | src/submitter.rs:306-336 | what the loop signs from a stored row is the row's own call at the bumped plan: decoding the stored calldata never fails |
| TxCalls.RunCalls | src/submitter.rs:135-340 | the invariant of all runs: every row, task, snapshot entry and broadcast carries the call its nonce was spent on, at a plan that follows the first one |
| TxFinality.PendingIsLeftForGood | src/submitter.rs:194-203 | across all interleavings over stale snapshots, a row that has left 'pending' never returns to it, and no row disappears |
| TxFinality.RunCounts | src/submitter.rs:245-275 | the invariant of all runs: what was counted with its status written is no longer pending, nor in the queue of the receipt loop, nor counted twice |
| TxFinality.CountedOnce | src/submitter.rs:245-275 | an account nonce whose status writes succeeded adds at most one to confirmations plus failures, over all restarts, and its row is then no longer pending |
| TxFinality.RunWritten | src/db.rs:137-143 | in every run a row is pending exactly as long as no status write has touched it |
| TxFinality.ListedAgainExactly | src/submitter.rs:238-257 | a nonce already counted is listed for counting again exactly if no status write of it has succeeded, by whichever loop; beyond the 500 highest it waits its turn |
| TxFinality.NeverCountedAgain | src/submitter.rs:238-275 | once one has, and the present snapshot is past it, it is never counted again in any continuation, over all restarts |
| TxOverwrites.CountedAgain | src/submitter.rs:238-275 | and as long as none has, a run between two passes, its row with a hash, has a continuation that counts it once more |
| TxOverwrites.SuccessLostExactly | src/submitter.rs:337-357 | in every run a 'success' is lost exactly at the step that records the refusal of a replacement as too late, or of the first send; never by the receipt loop |
| TxOverwrites.ReplacedSuccess | src/submitter.rs:351-355 | for every acceptable solution whose fee can be bumped, a run in which a stale replacement pass turns its 'success' into 'replaced' |
| TxOverwrites.RefusedSuccess | src/submitter.rs:194-199 | and a run in which the answer to the first send turns its 'success' into 'failed' |
| TxOverwrites.CountedTwice | src/submitter.rs:256-275 | for every acceptable solution, a run in which a failing status write makes its nonce count twice |
| Submitter.Submitter.DoSubmit | src/submitter.rs:135-229 | the tables, the next nonce, the success flag, the counter and the answer after each way through do_submit |
| Submitter.SubmittedRow | src/submitter.rs:160-203 | the row that a do_submit leaves once it has sent, column by column, with the hash if the nodes took it and 'failed' if not, and no other row changed |
| Submitter.SubmitRuns | src/submitter.rs:135-229 | an uninterrupted do_submit is a run of the machine: same tables, one nonce spent, and one broadcast exactly if both writes and the signature succeed |
| Submitter.SubmitReached | src/submitter.rs:135-229 | at any point of any run: the run goes on with these events, the nonce is one that no row has and nothing was broadcast under, and the solution sent is a proof for the target |
| Submitter.Submitter.SubmitSolution | src/submitter.rs:104-133 | it goes on exactly if both guards pass and the simulation passed or is skipped, and then answers with the nonce exactly if all went well; a moved challenge is counted as stale; success flag, counters and next nonce follow; the submitter stays the run of the machine that its ghost trace says |
| Submitter.Submitter.Submit | src/submitter.rs:127-132 | do_submit of an accepted solution, with the run that it continues |
| Submitter.Launch | src/tx_nonce_manager.rs:18-28 | a process started on the tables that any run has left, after a crash too, is linked to that run continued by its start |
| Submitter.Submitter.ReceiptPass | src/submitter.rs:245-280 | the tables and both counters after one pass over a snapshot |
| Submitter.ReceiptPassRuns | src/submitter.rs:245-280 | a pass is a run of the machine, which counts as many nonces as the two counters grow |
| Submitter.ReceiptRows | src/submitter.rs:245-258 | row by row: exactly the listed rows with a receipt and a successful write get its outcome, and nothing else changes |
| Submitter.CountedExactly | src/submitter.rs:245-274 | a listed nonce counts once as a confirmation if it has a hash and a receipt of success, once as a failure if of failure, and else not |
| Submitter.ReceiptPassReached | src/submitter.rs:236-281 | at any point of any run: the run goes on with these events, and the nonces counted and written have their outcome and are never counted again, whatever follows |
| Submitter.Submitter.ReceiptTurn | src/submitter.rs:236-281 | one turn of the loop, list and pass, keeps tables and counters linked to the run: confirmations + failures is the number of nonces the process has counted in it |
| Submitter.Submitter.ReplacementPass | src/submitter.rs:301-359 | the tables and the counter after one pass over a snapshot |
| Submitter.ReplacePassRuns | src/submitter.rs:301-359 | a pass is a run of the machine that broadcasts exactly the due transactions that could be signed |
| Submitter.ReplacementRows | src/submitter.rs:301-358 | row by row: a due row that was sent gets the bumped fee and the new hash, a due one that came too late is 'replaced', each where its write works; nothing else changes |
| Submitter.DueExactly | src/submitter.rs:302-322 | a row is sent again only if it is replaceAfterBlocks old, its plan moves and its calldata can be read, and is then due |
| Submitter.SentAreDue | src/submitter.rs:301-337 | whatever a pass sends is a due row of its list, with its own calldata, at the bumped plan |
| Submitter.TakenExactly | src/submitter.rs:337-342 | a nonce counts once as a replacement if its row was due and the nodes took it, and else not |
| Submitter.ReplacePassReached | src/submitter.rs:291-360 | at any point of any run: the run goes on with these events, and each transaction sent carries the solution its nonce was spent on, which is a proof for the target |
| Submitter.Submitter.ReplacementTurn | src/submitter.rs:291-360 | one turn of the loop keeps tables and counters linked to the run |
| Text.MarkedRoundTrip | src/submitter.rs:319-322 | hexadecimal text with its marker decodes to the bytes it was written from |
| Text.DecodesExactly | src/submitter.rs:319-322 | which texts decode: those of even length whose characters are all digits, in either case |
| Text.TrimsAll | src/nonce_space.rs:123 | all markers at the front are stripped, and nothing else |
| Text.DecimalRoundTrip | src/db.rs:82-92 | decimal text is read back if it is within the type's range, and is an error otherwise |
| RpcPool.RpcPool.RefreshRead | src/rpc_pool.rs:103-137 | the vector after the updates, the lag rule and the sort, all in place |
| RpcPool.RefreshOrders | src/rpc_pool.rs:109-136 | the refresh permutes the endpoints into the order of the sort; those whose answer has the expected chain and is within the allowed lag of every answer, and only those, form a prefix, sorted by the latency just measured, with ties in their old order |
| RpcPool.RenewStores | src/rpc_pool.rs:115-135 | an answer is stored as measured, latency, block and chain; an error only clears the health and is counted; silence changes nothing |
| RpcPool.RpcPool.BestReadUrl | src/rpc_pool.rs:168-176 | of an ordered pool, a healthy endpoint of least latency; without a healthy one the first; none only of an empty pool |
| RpcPool.RpcPool.RefreshAndPick | src/rpc_pool.rs:103-176 | the endpoint chosen after a refresh is fit by the answers just collected if any is, and none that is fit was measured at less latency |
| RpcPool.RpcPool.BroadcastRawTx | src/rpc_pool.rs:224-275 | accepted + already known + errors = URLs tried; it succeeds exactly if the first two are not both zero, with the first such reply as its hash |
| RpcPool.RepliesAddUp | src/rpc_pool.rs:242-265 | every reply is counted in exactly one of the three |
| RpcPool.CountsAre | src/rpc_pool.rs:242-258 | accepted is the number of replies that took the transaction, already known the number that knew it |
| RpcPool.ReasonAt | src/rpc_pool.rs:260-262 | the errors are the reasons of the refusals, in order |
| RpcPool.TriedCount | src/rpc_pool.rs:225-237 | all healthy endpoints are tried, or all endpoints if none is healthy |
| RpcPool.TriedAt | src/rpc_pool.rs:225-237 | the k-th URL tried is that of the k-th healthy endpoint, or of the k-th endpoint if none is healthy |

## Left out

- HTTP, JSON-RPC, axum, SQLite, the OpenCL runtime, the command line, tracing, metrics rendering, the
  dashboard, the Telegram bot and the scripts. An RPC answer is any value; an SQL statement is one atomic
  update of a table, or fails and changes nothing; a committed write survives a crash.
- Signing and the RLP and EIP-2718 encodings: a signed transaction is its nonce, fees and calldata.
- That Keccak has no collisions, and that random numbers and truncated hashes differ: nothing here needs
  it, except that distinctness of epoch hashes is part of the guard in WorkRanges.DisjointExactly, and
  disjointness across restarts of the coordinator is not claimed.
- Floating point: gwei amounts are given in wei, the gas estimate arrives scaled, and the ratio in
  GpuMiner.AdjustBatch is a real number; f64 rounding is not modelled.
- Real time: sleeping and the five-minute and one-minute limits are steps that may happen at any moment.
  Nothing is claimed about inclusion of a transaction in a block.
- Relaxed memory order on the atomic flag and token: steps are interleaved on one memory.
- TxSafety.NoncesSpentOnce: stops where the next nonce would pass 2^64 - 1; SQLite's limit of 2^63 - 1 on
  an integer key is taken as a failing write.
- StateWatcher.TokenLeadsByOne: the token is a number without the wrap at 2^64, and the counters of
  Submitter likewise.
- RpcPool.RefreshOrders: assumes, as the code arranges, that every endpoint of the vector was asked; error
  texts and the redacted URL are not kept. The recognition of an error text is a parameter.
- LegacyKernel.RunLegacyItem: bswap64 is written once for both kernels, whose expressions for it are the same.
- Db.Connection: created_at_time and last_broadcast_at are not kept, and list_pending is a relation
  between tables and list, because its order and limit are SQLite's work.
- The methods of the submitter run one call or one turn of a loop at a time; that they interleave is in
  TxMachine, on values. There, eth_call, the challenge asked again and the lock around do_submit only prevent
  submissions; a manager or signer that is not configured is not modelled.
- The worker's own poll of /work, which bumps a local token, registration retries, heartbeats and the
  posting of solutions; the worker table's statistics.
- The allocator's current_counter and set_counter (src/nonce_space.rs:81-87), which nothing calls.
- Parsing of settings; the divisor's lower bound of one is kept in Contract.EffectiveTarget.
