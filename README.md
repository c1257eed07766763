# MEV bundle pool, AuRa multi-validator, fee-history checks and journal book

This project is a Dafny model of four parts of the Nethermind Ethereum client, with proofs about each.

- **The MEV bundle pool** (`BundlePool.cs`). Searchers submit bundles: a target block, a timestamp window and a list of transaction hashes. The pool does five things:
  - it admits or rejects each bundle against the finalized chain and the clock;
  - it stores accepted bundles in buckets by target block;
  - its window query answers with the bundles of one bucket that are valid at a given time;
  - it keeps a two-level cache of simulations (parent hash, then bundle, then simulation context), filled get-or-create;
  - it prunes stale bundles, and their contexts, when blocks are finalized.

  The file also holds `MevBundleComparer`, a total order on bundles.
- **The AuRa multi-validator** (`MultiValidator.cs`). This state machine chooses which chainspec validator set is current for each block. It switches immediately or after finalization.
- **The argument checks of `eth_feeHistory`** (`EthRpcModule.FeeHistoryManager.cs`). These cover:
  - clamping the block count;
  - checking the reward percentiles' order and range;
  - the early returns of `GetFeeHistory`;
  - the range of blocks the lookup walks.
- **The journal book of trie pruning** (`JournalBook.cs`). An append-only record of journal entries with two flags.

## Files

- `common.dfy`, module `Common`: shared vocabulary.
  - `Option` (the C# null);
  - `UInt256`, and `Hash` (a Keccak hash as the number its 32 bytes spell big-endian);
  - `CompareTo`, plus small sequence helpers.
- `mev_bundle.dfy`, module `MevBundles`: the bundle and `MevBundleComparer.Compare`. The comparer is proved to agree with an independent key order (`Precedes`) and to be a total order.
- `bundle_index.dfy`, module `BundleIndex`: the bucketed bundle store `BundleSortedPool`. It is modelled abstractly as a class over a map from block number to the sequence of bundles in that bucket.
- `bundle_pool.dfy`, module `BundlePool`: the pool.
  - The class `Pool` holds the index, the simulation cache, a log of simulator calls and the pivot block number.
  - Its methods are proved against pure functions: `ValidateBundle`, `InWindow`, `SimulateStep`/`SimulateAll`, `RemoveAll`/`DropAll` and `StaleSet`.
  - The lemmas state what the source promises about those functions.
- `multi_validator.dfy`, module `MultiValidatorModel`: the class `MultiValidator`.
  - Its fields are the current sub-validator, the current validator info, the last processed block, the producing flag and whether a finalization manager is set.
  - Each method is tied to a pure selection function: `LastQualifying`, `SwitchTo`, `EnsureSelection`, `ProcessingSelection` or `ApplyFinalized`.
- `fee_history.dfy`, module `FeeHistory`: `InitialChecksPassed`, `GetFeeHistory` up to the lookup call, and the loop of `FeeHistoryLookup`. Each is a method proved against its postconditions. The two scans of `InitialChecksPassed` and the lookup are loops; `GetFeeHistory` is a sequence of early returns.
- `journal_book.dfy`, module `Journal`: the class `JournalBook`.

## Inputs

Everything the source asks of other components becomes an input.

- **The block tree** is the `Chain` value, with these parts:
  - `head`;
  - `findLevel`, a block number to the hashes on that level;
  - `findHeader`;
  - `isFinalized`, which is the finalization manager, and is always false when there is none.
- **The clock** is the `now` argument.
- **The simulator** is a log of `SimulationRequest`s; a context owns the call at its position in the log.
- **Task completion** is `settled: nat -> TaskState`: the state each task is in when the simulated query stops waiting.
- **Cancellation of the plain query** is `cancelAt: Option<nat>`: the element before which the token is first seen cancelled.
- **In `MultiValidator`**, four inputs:
  - the head number (`_blockTree.Head?.Number ?? 0`);
  - `GetFinalizedLevel`;
  - the type-level `CanChangeImmediately` extension;
  - what the current sub-validator answers to `IsValidSealer`.
- **In the fee history code**, two inputs:
  - the block range manager (`ResolveBlockRange`);
  - the pending block number.

## Behaviour of the code worth knowing

The model follows the code in each case.

- **Admission has no zero guard on `MaxTimestamp < MinTimestamp`.** The code rejects any bundle with `Max < Min`, at `BundlePool.cs:158-162`, so it also rejects an unbounded maximum (0) with a non-zero minimum. The expiry check right after it does guard against 0. See `BundlePool.MaxBelowMinRejected`.
- **An unbounded maximum sorts last in the comparer.** `MevBundleComparer` orders the maximum descending by numeric value, so 0 sorts last among bundles that are otherwise equal, although elsewhere 0 means the bundle never expires. See `MevBundles.UnboundedMaxSortsLast`.
- **Contexts are removed on pruning, not cancelled.** `OnBlocksFinalized` only removes the context from each inner map. Its task and cancellation source are left alone, and inner maps that become empty are kept.
- **`AddBundle` picks its parent from a chain level, not the head.** The code looks up the level of block `BlockNumber - 1` and simulates against the first header found on it, at most once.

### The range the fee history lookup walks

`FeeHistoryLookup` stops before the last block. Its loop visits `[max(last + 1 - count, 0), last)`, so it visits `count - 1` blocks when the range does not reach below block 0. The `eth_feeHistory` RPC reports `blockCount` blocks ending at the newest one. See `FeeHistory.LookupStopsBeforeLastBlock`.

## Model

| member | source | states |
|---|---|---|
| MevBundles.CompareHashes | src/Nethermind/Nethermind.Mev/Source/BundlePool.cs:341-353 | the transaction loop of the comparer only answers -1, 0 or 1 |
| MevBundles.CompareHashesZeroIff | src/Nethermind/Nethermind.Mev/Source/BundlePool.cs:341-353 | two hash sequences compare equal exactly when they are the same sequence |
| MevBundles.CompareHashesNegativeIff | src/Nethermind/Nethermind.Mev/Source/BundlePool.cs:341-353 | the loop answers "less" exactly when the first sequence precedes the second lexicographically, a strict prefix first |
| MevBundles.CompareHashesAntisymmetric | src/Nethermind/Nethermind.Mev/Source/BundlePool.cs:341-353 | swapping the sequences negates the answer |
| MevBundles.CompareHashesTransitive | src/Nethermind/Nethermind.Mev/Source/BundlePool.cs:341-353 | "less" on hash sequences is transitive |
| MevBundles.StrictPrefixSortsFirst | src/Nethermind/Nethermind.Mev/Source/BundlePool.cs:341-347 | a strict prefix of a transaction list sorts before the list |
| MevBundles.CompareBundles | src/Nethermind/Nethermind.Mev/Source/BundlePool.cs:329-353 | the comparer's answer on two bundles is -1, 0 or 1 |
| MevBundles.Compare | src/Nethermind/Nethermind.Mev/Source/BundlePool.cs:322-354 | two nulls compare equal, null sorts before every bundle and every bundle after null; the answer is -1, 0 or 1 |
| MevBundles.CompareZeroIffEqual | src/Nethermind/Nethermind.Mev/Source/BundlePool.cs:323-354 | `Compare(x, y) == 0` exactly when both are null, or both are bundles equal in every field and every hash |
| MevBundles.CompareAntisymmetric | src/Nethermind/Nethermind.Mev/Source/BundlePool.cs:323-354 | `Compare(x, y) == -Compare(y, x)`, null sorting before every bundle |
| MevBundles.CompareTransitive | src/Nethermind/Nethermind.Mev/Source/BundlePool.cs:323-354 | "less" is transitive, null included |
| MevBundles.CompareNegativeIffPrecedes | src/Nethermind/Nethermind.Mev/Source/BundlePool.cs:329-353 | on bundles the comparer says "less" exactly when the key order does: block ascending, minimum timestamp ascending, maximum timestamp descending, then hashes |
| MevBundles.UnboundedMaxSortsLast | src/Nethermind/Nethermind.Mev/Source/BundlePool.cs:337-339 | with equal block and minimum, a bundle with maximum 0 sorts after one with a non-zero maximum |
| MevBundles.CompareTrichotomy | src/Nethermind/Nethermind.Mev/Source/BundlePool.cs:323-354 | for any two bundles exactly one of "before", "equal" and "after" holds |
| BundleIndex.Insert | src/Nethermind/Nethermind.Mev/Source/BundlePool.cs:133 | inserting stores the bundle, keeps every other stored bundle and stores nothing else |
| BundleIndex.RemoveAll | src/Nethermind/Nethermind.Mev/Source/BundlePool.cs:278 | a bundle is stored afterwards exactly when it was stored before and is not removed; no bucket disappears |
| BundleIndex.RemoveOne | src/Nethermind/Nethermind.Mev/Source/BundlePool.cs:278 | removing one bundle changes only the bucket of its own block |
| BundleIndex.BundleSortedPool.constructor | src/Nethermind/Nethermind.Mev/Source/BundlePool.cs:73-76 | a new index is empty |
| BundleIndex.BundleSortedPool.TryInsert | src/Nethermind/Nethermind.Mev/Source/BundlePool.cs:133 | inserts exactly when the bundle is not yet stored, reports whether it did, and keeps every bucket duplicate-free |
| BundleIndex.BundleSortedPool.TryRemove | src/Nethermind/Nethermind.Mev/Source/BundlePool.cs:278 | reports whether the bundle was stored and takes out that bundle and no other |
| BundleIndex.BundleSortedPool.TryGetBucket | src/Nethermind/Nethermind.Mev/Source/BundlePool.cs:109 | finds a bucket exactly when one exists for the block; every bundle in it targets that block and is stored |
| BundleIndex.BundleSortedPool.GetSnapshot | src/Nethermind/Nethermind.Mev/Source/BundlePool.cs:264 | the snapshot holds every stored bundle, nothing else, each once |
| BundlePool.ValidateBundle | src/Nethermind/Nethermind.Mev/Source/BundlePool.cs:149-175 | accepts exactly when all four admission conditions hold; the verdict is `TargetFinalized` exactly for a finalized target; otherwise a maximum below the minimum gives `MaxBeforeMin`; each later verdict implies every earlier check passed |
| BundlePool.MaxBelowMinRejected | src/Nethermind/Nethermind.Mev/Source/BundlePool.cs:158-162 | a maximum below the minimum is rejected even when the maximum is 0 (unbounded) |
| BundlePool.ExpiredRejected | src/Nethermind/Nethermind.Mev/Source/BundlePool.cs:163-167 | a bundle whose non-zero maximum has passed is always rejected |
| BundlePool.InWindow | src/Nethermind/Nethermind.Mev/Source/BundlePool.cs:118-123 | the result is no longer than the input; with `InWindowMembers` (which bundles are kept) and `InWindowConcat` (the filter distributes over concatenation) it pins the kept bundles in bucket order |
| BundlePool.InWindowMembers | src/Nethermind/Nethermind.Mev/Source/BundlePool.cs:118-123 | a bundle is in the result exactly when it is in the input and neither in the future nor too old |
| BundlePool.InWindowConcat | src/Nethermind/Nethermind.Mev/Source/BundlePool.cs:111-124 | filtering a bucket is filtering its first part and then its rest, so the kept bundles keep their bucket order |
| BundlePool.AllEligibleKept | src/Nethermind/Nethermind.Mev/Source/BundlePool.cs:118-123 | when every bundle is in the window, the filter returns the input unchanged, in order |
| BundlePool.Examined | src/Nethermind/Nethermind.Mev/Source/BundlePool.cs:111-116 | the part of the bucket looked at before cancellation is a prefix of it, and is all of it without cancellation |
| BundlePool.CancelledQueryIsPrefix | src/Nethermind/Nethermind.Mev/Source/BundlePool.cs:111-116 | a query cut short by cancellation returns a prefix of the full query's result |
| BundlePool.WholeBucket | src/Nethermind/Nethermind.Mev/Source/BundlePool.cs:235 | the window `(UInt256.MaxValue, 0)` lets every bundle of the bucket through, in order |
| BundlePool.SimulateStep | src/Nethermind/Nethermind.Mev/Source/BundlePool.cs:196-224 | afterwards a context exists for the pair; an existing one is kept unchanged; otherwise exactly one simulator call is logged and the new context owns it; no other entry changes; the ownership invariant is preserved |
| BundlePool.SimulateAll | src/Nethermind/Nethermind.Mev/Source/BundlePool.cs:235-239 | the simulator log only grows, its earlier calls untouched; every new call is a request for one of the bundles against this parent; only the parent's inner map can be added |
| BundlePool.SimulateAllCovers | src/Nethermind/Nethermind.Mev/Source/BundlePool.cs:235-239 | simulating a bucket against a block gives every bundle of it a context for that block, keeps earlier contexts, adds nothing else and calls the simulator at most once per bundle |
| BundlePool.SimulateAllConsistent | src/Nethermind/Nethermind.Mev/Source/BundlePool.cs:235-239 | every context still owns the simulator call made for its own bundle and parent |
| BundlePool.RepeatedRequestsSimulateOnce | src/Nethermind/Nethermind.Mev/Source/BundlePool.cs:208-210 | asking N times for the same pair calls the simulator at most once |
| BundlePool.DropAll | src/Nethermind/Nethermind.Mev/Source/BundlePool.cs:272-277 | a context remains exactly when it existed and its bundle is not dropped; remaining contexts are unchanged; no parent entry is removed |
| BundlePool.DropOneConsistent | src/Nethermind/Nethermind.Mev/Source/BundlePool.cs:272-277 | removing one bundle's context from one inner map keeps every remaining context owning its simulator call |
| BundlePool.MaxNumber | src/Nethermind/Nethermind.Mev/Source/BundlePool.cs:262 | the result is the number of one finalized block and no finalized block has a greater number |
| BundlePool.MaxTimestamp | src/Nethermind/Nethermind.Mev/Source/BundlePool.cs:263 | the result is the timestamp of one finalized block and no finalized block has a later one |
| BundlePool.IsStale | src/Nethermind/Nethermind.Mev/Source/BundlePool.cs:265-269 | a bundle for a block below the highest finalized one is stale; so is one whose non-zero maximum is below the highest finalized timestamp; one with an unbounded maximum (0) is stale only by its block number; one neither below that block nor expired is not stale |
| BundlePool.PruningRemovesExactlyStale | src/Nethermind/Nethermind.Mev/Source/BundlePool.cs:265-279 | after pruning, a bundle stays stored exactly when it was stored and is not stale, and keeps its contexts exactly then |
| BundlePool.SnapshotStale | src/Nethermind/Nethermind.Mev/Source/BundlePool.cs:264-269 | the stale bundles of the snapshot are exactly the stale stored bundles |
| BundlePool.Range | src/Nethermind/Nethermind.Mev/Source/BundlePool.cs:246-252 | `Range(start, count)` yields `start, start + 1, …`, `count` numbers |
| BundlePool.RegroupedBetweenPivots | src/Nethermind/Nethermind.Mev/Source/BundlePool.cs:254-257 | the regrouped numbers are exactly those from the smaller pivot, included, to the larger, excluded |
| BundlePool.FirstHeader | src/Nethermind/Nethermind.Mev/Source/BundlePool.cs:182-190 | no header is found exactly when every hash of the level misses; a found header belongs to one of the hashes |
| BundlePool.FirstHeaderAt | src/Nethermind/Nethermind.Mev/Source/BundlePool.cs:182-190 | when every earlier hash missed, the header found at position `i` is the first one |
| BundlePool.ParentFor | src/Nethermind/Nethermind.Mev/Source/BundlePool.cs:179-190 | no parent without a level below the block; with one, no parent exactly when every hash of the level misses, and a parent found is the header of one of its hashes |
| BundlePool.Pool.constructor | src/Nethermind/Nethermind.Mev/Source/BundlePool.cs:70-98 | a new pool is empty and its pivot is the head, or the best suggested header, by the simulation mode (0 when absent) |
| BundlePool.InitialPivot | src/Nethermind/Nethermind.Mev/Source/BundlePool.cs:84-98 | the pivot is the number of the header the simulation mode follows (the head, or the best suggested header), 0 when that header is absent |
| BundlePool.Pool.GetBundlesInWindow | src/Nethermind/Nethermind.Mev/Source/BundlePool.cs:107-127 | the result is the window filter over the part of the bucket examined before cancellation; a missing bucket gives nothing |
| BundlePool.Pool.GetBundlesAt | src/Nethermind/Nethermind.Mev/Source/BundlePool.cs:104-105 | one timestamp for both bounds: each bundle returned targets the block, is stored and has `Min <= t <= Max` where those are set |
| BundlePool.Pool.GetBundlesForParent | src/Nethermind/Nethermind.Mev/Source/BundlePool.cs:101-102 | the query for a parent is the query for the block after it |
| BundlePool.Pool.GetSimulatedBundles | src/Nethermind/Nethermind.Mev/Source/BundlePool.cs:282-306 | an outcome is returned exactly when it is the completed, successful, gas-bounded result of the context of a bundle in the plain query's result; nothing is returned without an inner map for the parent |
| BundlePool.Pool.SimulateBundle | src/Nethermind/Nethermind.Mev/Source/BundlePool.cs:196-224 | the cache moves by `SimulateStep`; the context is returned only when this call created it, null otherwise |
| BundlePool.Pool.TrySimulateBundle | src/Nethermind/Nethermind.Mev/Source/BundlePool.cs:177-194 | simulates once against the first header found on the level below the target block, and reports whether one was found |
| BundlePool.Pool.AddBundle | src/Nethermind/Nethermind.Mev/Source/BundlePool.cs:129-147 | adds exactly when the bundle is admissible and not yet stored; a rejected bundle changes nothing; a simulation runs only for an added bundle that targets the block after the head |
| BundlePool.Pool.ResortBundlesByBlock | src/Nethermind/Nethermind.Mev/Source/BundlePool.cs:244-258 | regroups exactly the `\|new - old\|` block numbers between the pivots and moves the pivot to the new block |
| BundlePool.Pool.OnNewBlock | src/Nethermind/Nethermind.Mev/Source/BundlePool.cs:226-242 | moves the pivot; unless the block is finalized, simulates every bundle of the next block's bucket against it |
| BundlePool.Pool.RemoveContexts | src/Nethermind/Nethermind.Mev/Source/BundlePool.cs:272-277 | the bundle's contexts are removed from every inner map and nothing else changes |
| BundlePool.Pool.RemoveBundle | src/Nethermind/Nethermind.Mev/Source/BundlePool.cs:270-279 | one stale bundle leaves both the cache and the index |
| BundlePool.Pool.OnBlocksFinalized | src/Nethermind/Nethermind.Mev/Source/BundlePool.cs:260-280 | exactly the stale bundles leave the index, their contexts leave every inner map, and all else is untouched |
| MultiValidatorModel.ConstructionCheck | src/Nethermind/Nethermind.AuRa/Validators/MultiValidator.cs:42-51 | rejects a null validator, then a non-`Multi` type, then null parameters, then an empty or null `Validators`, each with its own error; passes exactly when none applies |
| MultiValidatorModel.LastQualifying | src/Nethermind/Nethermind.AuRa/Validators/MultiValidator.cs:60-77 | no entry is found exactly when none qualifies; a found entry qualifies and no later entry does |
| MultiValidatorModel.ValidatorAt | src/Nethermind/Nethermind.AuRa/Validators/MultiValidator.cs:163 | the lookup misses exactly when no entry has the key; a hit is an entry with that key |
| MultiValidatorModel.ValidatorAtFinds | src/Nethermind/Nethermind.AuRa/Validators/MultiValidator.cs:163 | with one entry per key, the lookup of an entry's key gives that entry's validator |
| MultiValidatorModel.CreateValidator | src/Nethermind/Nethermind.AuRa/Validators/MultiValidator.cs:212-215 | the new sub-validator is built for the given validator; it starts at the finalization block with immediate transitions and exactly one block later without them |
| MultiValidatorModel.SwitchTo | src/Nethermind/Nethermind.AuRa/Validators/MultiValidator.cs:201-210 | afterwards the info is the new validator; an equal current info changes nothing; otherwise a new sub-validator replaces the current one |
| MultiValidatorModel.SwitchToKeepsCoherent | src/Nethermind/Nethermind.AuRa/Validators/MultiValidator.cs:201-210 | the current sub-validator is always the one built for the current info |
| MultiValidatorModel.SwitchToIdempotent | src/Nethermind/Nethermind.AuRa/Validators/MultiValidator.cs:203 | switching twice to the same validator is switching once |
| MultiValidatorModel.EnsureSelection | src/Nethermind/Nethermind.AuRa/Validators/MultiValidator.cs:143-159 | returns true exactly when nothing qualifies, or the last qualifying entry can change immediately, or the change is forced; on true with a qualifying entry the selection switches to that entry at its block; when nothing qualifies, or on false, the selection is unchanged |
| MultiValidatorModel.ForcedSelectionIsLastQualifying | src/Nethermind/Nethermind.AuRa/Validators/MultiValidator.cs:54-58 | a forced selection always succeeds and makes the last qualifying entry current |
| MultiValidatorModel.CanChangeImmediately | src/Nethermind/Nethermind.AuRa/Validators/MultiValidator.cs:161 | with immediate transitions every validator may change immediately; otherwise its type alone decides |
| MultiValidatorModel.DeferredSelection | src/Nethermind/Nethermind.AuRa/Validators/MultiValidator.cs:110-124 | keeps the selection coherent; the deferred change becomes current when nothing qualifies before it or its level is finalized; otherwise the configured entry before it becomes current |
| MultiValidatorModel.ProcessingSelection | src/Nethermind/Nethermind.AuRa/Validators/MultiValidator.cs:104-136 | keeps the selection coherent; the current info either stays or becomes the validator of a configured entry; the five lemmas below pin each branch |
| MultiValidatorModel.ConsecutiveSwitchOnlyAtImmediateEntry | src/Nethermind/Nethermind.AuRa/Validators/MultiValidator.cs:127-135 | on a consecutive block the selection changes only for an entry at exactly this block that can change immediately, which then becomes current |
| MultiValidatorModel.ConsecutiveImmediateEntrySwitches | src/Nethermind/Nethermind.AuRa/Validators/MultiValidator.cs:127-135 | on a consecutive block, an entry at exactly this block that can change immediately becomes current |
| MultiValidatorModel.JumpWithNothingQualifyingKeeps | src/Nethermind/Nethermind.AuRa/Validators/MultiValidator.cs:106-108 | after a jump with no entry qualifying for the previous block, the selection is unchanged |
| MultiValidatorModel.JumpToImmediateEntry | src/Nethermind/Nethermind.AuRa/Validators/MultiValidator.cs:106-111 | after a jump, an immediate last qualifying entry becomes current |
| MultiValidatorModel.JumpToDeferredEntry | src/Nethermind/Nethermind.AuRa/Validators/MultiValidator.cs:110-124 | after a jump to a deferred change, the change becomes current when nothing qualifies before it or its level is finalized; otherwise the entry before it does |
| MultiValidatorModel.LastDeferred | src/Nethermind/Nethermind.AuRa/Validators/MultiValidator.cs:81-85 | none exactly when no finalized number carries a change that cannot apply immediately; otherwise the validator of one that does, with no later finalized number carrying one |
| MultiValidatorModel.FinalizationSwitchesToLastDeferred | src/Nethermind/Nethermind.AuRa/Validators/MultiValidator.cs:79-90 | after finalization the current info is the last deferred change among the finalized blocks; with none, nothing changes |
| MultiValidatorModel.FinalizedChangeStartsAfterFinalizingBlock | src/Nethermind/Nethermind.AuRa/Validators/MultiValidator.cs:86 | a sub-validator created on finalization starts one block after the finalizing block |
| MultiValidatorModel.ImmediateTransitionsIgnoreFinalization | src/Nethermind/Nethermind.AuRa/Validators/MultiValidator.cs:84 | with immediate transitions, finalization switches nothing |
| MultiValidatorModel.ApplyFinalized | src/Nethermind/Nethermind.AuRa/Validators/MultiValidator.cs:79-90 | keeps the selection coherent; the current info either stays or becomes a configured validator that cannot change immediately |
| MultiValidatorModel.MultiValidator.constructor | src/Nethermind/Nethermind.AuRa/Validators/MultiValidator.cs:40-52 | for arguments that pass the checks: the configured entries, no current validator, last processed block 0 |
| MultiValidatorModel.MultiValidator.TryGetLastValidator | src/Nethermind/Nethermind.AuRa/Validators/MultiValidator.cs:60-77 | returns the last qualifying entry in enumeration order; `found` is false exactly when no entry qualifies |
| MultiValidatorModel.MultiValidator.SetCurrentValidator | src/Nethermind/Nethermind.AuRa/Validators/MultiValidator.cs:196-210 | the selection moves by `SwitchTo`; the other fields are unchanged |
| MultiValidatorModel.MultiValidator.EnsureCorrectValidatorsForBlock | src/Nethermind/Nethermind.AuRa/Validators/MultiValidator.cs:143-159 | returns the last qualifying entry, and the result and new selection that `EnsureSelection` gives |
| MultiValidatorModel.MultiValidator.EnsureCorrectValidatorsForBlockWhenProcessing | src/Nethermind/Nethermind.AuRa/Validators/MultiValidator.cs:104-136 | the selection moves by `ProcessingSelection` from the last processed block |
| MultiValidatorModel.MultiValidator.ApplyDeferredChange | src/Nethermind/Nethermind.AuRa/Validators/MultiValidator.cs:110-124 | for a change that cannot apply immediately, the selection moves by `DeferredSelection`: the change when nothing qualifies before it or its level is finalized, otherwise the entry before it |
| MultiValidatorModel.MultiValidator.PreProcess | src/Nethermind/Nethermind.AuRa/Validators/MultiValidator.cs:93-102 | when producing, the selection is unchanged; otherwise it moves by `ProcessingSelection` |
| MultiValidatorModel.MultiValidator.PostProcess | src/Nethermind/Nethermind.AuRa/Validators/MultiValidator.cs:165-169 | the last processed block becomes the block's number; the selection is unchanged |
| MultiValidatorModel.MultiValidator.OnBlocksFinalized | src/Nethermind/Nethermind.AuRa/Validators/MultiValidator.cs:79-90 | the selection moves by `ApplyFinalized` over the finalized numbers in order |
| MultiValidatorModel.MultiValidator.SetFinalizationManager | src/Nethermind/Nethermind.AuRa/Validators/MultiValidator.cs:177-194 | records the manager and the producing flag; with a manager, forces the selection for its last finalized level and records that level as last processed |
| MultiValidatorModel.MultiValidator.IsValidSealer | src/Nethermind/Nethermind.AuRa/Validators/MultiValidator.cs:171 | false without a current validator, otherwise the current sub-validator's answer |
| FeeHistory.OutOfRange | src/Nethermind/Nethermind.JsonRpc/Modules/Eth/EthRpcModule.FeeHistoryManager.cs:116-117 | a value is reported exactly when it is a percentile below 0 or above 100 |
| FeeHistory.OutOfRangeEmpty | src/Nethermind/Nethermind.JsonRpc/Modules/Eth/EthRpcModule.FeeHistoryManager.cs:116-119 | nothing is reported exactly when every percentile is in `[0, 100]` |
| FeeHistory.FirstDescentAtOrBefore | src/Nethermind/Nethermind.JsonRpc/Modules/Eth/EthRpcModule.FeeHistoryManager.cs:108-110 | any descent has a first descent at or before it |
| FeeHistory.FirstDescentExists | src/Nethermind/Nethermind.JsonRpc/Modules/Eth/EthRpcModule.FeeHistoryManager.cs:108-110 | percentiles that are not non-decreasing have a first descent |
| FeeHistory.FirstDescentUnique | src/Nethermind/Nethermind.JsonRpc/Modules/Eth/EthRpcModule.FeeHistoryManager.cs:110 | the first descent is unique |
| FeeHistory.DescentsAreDescents | src/Nethermind/Nethermind.JsonRpc/Modules/Eth/EthRpcModule.FeeHistoryManager.cs:100-107 | every index the scan lists is a position where a percentile is smaller than the one before it |
| FeeHistory.DescentsEmptyIff | src/Nethermind/Nethermind.JsonRpc/Modules/Eth/EthRpcModule.FeeHistoryManager.cs:100-110 | the scan lists nothing exactly when the percentiles are non-decreasing |
| FeeHistory.DescentsFirst | src/Nethermind/Nethermind.JsonRpc/Modules/Eth/EthRpcModule.FeeHistoryManager.cs:108-110 | the first index listed is the first descent |
| FeeHistory.IncorrectlySortedIndexes | src/Nethermind/Nethermind.JsonRpc/Modules/Eth/EthRpcModule.FeeHistoryManager.cs:100-107 | every index found is a descent; none is found exactly when the percentiles are non-decreasing; the first one found is the first descent |
| FeeHistory.InvalidValues | src/Nethermind/Nethermind.JsonRpc/Modules/Eth/EthRpcModule.FeeHistoryManager.cs:116-117 | the values outside `[0, 100]`, in order; empty exactly when all are inside |
| FeeHistory.InitialChecksPassed | src/Nethermind/Nethermind.JsonRpc/Modules/Eth/EthRpcModule.FeeHistoryManager.cs:86-126 | fails for a count below 1; otherwise clamps the count to 1024; an ordering failure happens exactly for unsorted percentiles and names the first descent; a range failure lists the out-of-range values and happens only for sorted percentiles; success with an empty result exactly for null or sorted, in-range percentiles |
| FeeHistory.GetFeeHistory | src/Nethermind/Nethermind.JsonRpc/Modules/Eth/EthRpcModule.FeeHistoryManager.cs:46-73 | a count below 1 fails with that count, and only then; any other initial-check failure is returned as it is, with the clamped count; a first descent is reported with its value and the one before it; for arguments that pass the checks, the count written back is the resolver's, a failed resolution gives `RangeFailed` with its message, a resolution with a null element names the null elements, and a full resolution reaches the lookup with the resolved count and last block |
| FeeHistory.FeeHistoryLookup | src/Nethermind/Nethermind.JsonRpc/Modules/Eth/EthRpcModule.FeeHistoryManager.cs:130-166 | one entry per block from `max(last + 1 - count, 0)` up to, not including, `last`; the pending block stands in for numbers above it; full blocks are fetched only when percentiles are asked for |
| FeeHistory.LookupStopsBeforeLastBlock | src/Nethermind/Nethermind.JsonRpc/Modules/Eth/EthRpcModule.FeeHistoryManager.cs:131-133 | without clamping at 0, the lookup visits `count - 1` blocks and stops just before the last block |
| FeeHistory.LookupClampedAtGenesis | src/Nethermind/Nethermind.JsonRpc/Modules/Eth/EthRpcModule.FeeHistoryManager.cs:131-133 | a range reaching below block 0 starts at 0 |
| Journal.JournalBook.constructor | src/Nethermind/Nethermind.Trie/Pruning/JournalBook.cs:8-14 | a new book has the given hash, no entries, and is neither sealed nor unwound |
| Journal.JournalBook.Entries | src/Nethermind/Nethermind.Trie/Pruning/JournalBook.cs:18 | exposes the recorded list itself, entry for entry; the order promise is stated by `RecordEntry`, `RecordAll` and `NewBookRecording` |
| Journal.JournalBook.RecordEntry | src/Nethermind/Nethermind.Trie/Pruning/JournalBook.cs:32-35 | appends exactly one entry at the end, keeps the earlier entries and leaves both flags unchanged |
| Journal.JournalBook.RecordAll | src/Nethermind/Nethermind.Trie/Pruning/JournalBook.cs:32-35 | recording a sequence of entries one by one lists them after the earlier entries, in recording order, and leaves both flags unchanged |
| Journal.NewBookRecording | src/Nethermind/Nethermind.Trie/Pruning/JournalBook.cs:8-18 | a new book that records a sequence of entries lists exactly that sequence, in order, and is neither sealed nor unwound |
| Journal.JournalBook.SetSealed | src/Nethermind/Nethermind.Trie/Pruning/JournalBook.cs:28 | sets `IsSealed`, and nothing else changes |
| Journal.JournalBook.SetUnwound | src/Nethermind/Nethermind.Trie/Pruning/JournalBook.cs:30 | sets `IsUnwound`, and nothing else changes |
| Journal.RecordIntoSealedBook | src/Nethermind/Nethermind.Trie/Pruning/JournalBook.cs:25-35 | recording into a sealed book still appends the entry, and the book stays sealed |

## Left out

- Concurrency in the pool is not modelled, for two reasons: the model runs sequentially, and atomicity and scheduling are outside what a sequential proof can state. This covers `ConcurrentDictionary` atomicity, `Task.Run`, `Task.WhenAny`/`WhenAll` and the propagation of cancellation tokens. Task states and cancellation are inputs.
- `BundleSortedPool` is modelled as a class over a map of buckets, but its internals are not modelled. Its capacity, eviction, bucket order and `UpdateGroups` regrouping are left out. Inserting appends to the bucket and rejects a bundle already stored. `ResortBundlesByBlock` therefore returns the block numbers it would regroup and sets the pivot.
- `CompareMevBundleByBlock` and `CompareMevBundleByMinTimestamp` are not part of this model. They order the real buckets. `MevBundleComparer` is modelled instead, as the source defines it.
- MevBundles.CompareHashes: a transaction with a null hash is not modelled; each transaction in a bundle has a hash.
- MevBundles.CompareHashes: `Keccak.CompareTo` is not part of this model. A hash comparison is modelled by its sign only, as the comparison of the numbers the hashes spell, so each answer is exactly -1, 0 or 1.
- BundlePool.ValidateBundle: `currentTimestamp + BundleHorizon` is computed without the 256-bit wrap-around.
- BundlePool.Pool.OnBlocksFinalized: requires a non-empty list of finalized blocks. On an empty list, `Max` throws in the source.
- BundlePool.Pool.GetSimulatedBundles: states which outcomes are returned, not their order or multiplicity. The source returns them in the inner map's enumeration order.
- The unknown-simulation-mode exception is left out; the mode is a two-valued type. Event subscription, `Dispose`, logging and `SimulatedMevBundleContext` disposal are also left out.
- The simulator's behaviour and the sub-validators' behaviour are not modelled. The model records which validator each sub-validator was built for and its start block. It omits the `PreProcess`/`PostProcess`/`SetFinalizationManager` calls forwarded to it.
- MultiValidatorModel.MultiValidator.EnsureCorrectValidatorsForBlockWhenProcessing: `GetFinalizedLevel` is an input. The null reference when no finalization manager is set is not modelled.
- MultiValidatorModel.SwitchTo: `_currentValidatorInfo != validator` is reference inequality in the source and value inequality here. Two entries with equal content at different block numbers are distinct objects in the source, so switching from one to the other builds a new sub-validator there; the model keeps the current one.
- The null checks of the constructor's collaborators (`validatorFactory`, `blockTree`, `logManager`) are left out, because they are collaborators rather than data. So are `MinSealersForFinalization` and `CurrentSealersCount`, which only forward to the sub-validator.
- MultiValidatorModel.MultiValidator.constructor: requires the entries to have distinct block numbers, as any dictionary's keys are.
- The fee history lookup is modelled only as the record of which blocks it visits, and how. The block and header lookups, `ProcessBlock`, `BlockRangeManager` and the lookup's result are left out; `FeeHistoryLookup` has no return statement in the source (`EthRpcModule.FeeHistoryManager.cs:128-167`).
- Percentiles are exact reals; NaN is not modelled.
- Error message texts are left out; errors are datatype values carrying the values the messages print. So is the default text used when the range resolution gives no message.
- `JournalEntry` is a type parameter, and `ToString` is left out.
- `UserOperationAbi.cs` and `FileDbTests.cs` are not part of this model. The first wraps an encoder whose logic is not visible; the second tests a file-backed log against the file system.
