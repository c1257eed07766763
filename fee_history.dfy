/** The argument handling of `eth_feeHistory`: the initial checks on the block count and the
    reward percentiles, the early returns of `GetFeeHistory`, and the block range the
    lookup walks. Percentiles are exact reals; the block finder and the block range
    manager are inputs. */
module FeeHistory {
  import opened Common

  /** The most blocks one request may ask for. */
  const MAX_BLOCK_COUNT: int := 1024

  /** `FeeHistoryResult(oldestBlock, reward, baseFeePerGas, gasUsedRatio)` */
  datatype FeeHistoryResult = FeeHistoryResult(
    oldestBlock: int,
    reward: seq<seq<UInt256>>,
    baseFeePerGas: seq<UInt256>,
    gasUsedRatio: seq<UInt256>)

  /** The result the initial checks return when they pass. */
  const EMPTY_RESULT := FeeHistoryResult(0, [], [], [])

  /** Why a request fails; the source reports these as message strings. */
  datatype FeeHistoryError =
    | BlockCountBelowOne(blockCount: int)
    | PercentileOutOfOrder(index: nat, value: real, previous: real)
    | PercentilesOutOfRange(values: seq<real>)
    | RangeFailed(message: Option<string>)
    | NullRangeElements(lastBlockNumberIsNull: bool, blockCountIsNull: bool)

  datatype Outcome<T> = Success(value: T) | Failure(error: FeeHistoryError)

  predicate NonDecreasing(p: seq<real>) {
    forall i :: 0 < i < |p| ==> p[i - 1] <= p[i]
  }

  predicate InRange(v: real) {
    0.0 <= v <= 100.0
  }

  /** `i` is the first index whose value is below the one before it. */
  predicate IsFirstDescent(p: seq<real>, i: nat) {
    0 < i < |p| && p[i] < p[i - 1] && forall j :: 0 < j < i ==> p[j - 1] <= p[j]
  }

  /** The values of `p` below 0 or above 100, in order. */
  function OutOfRange(p: seq<real>): (r: seq<real>)
    ensures forall v :: v in r <==> v in p && !InRange(v)
    ensures |r| <= |p|
  {
    if p == [] then []
    else OutOfRange(p[..|p| - 1]) + (if InRange(p[|p| - 1]) then [] else [p[|p| - 1]])
  }

  /** No value is reported out of range exactly when all are in range. */
  lemma OutOfRangeEmpty(p: seq<real>)
    ensures OutOfRange(p) == [] <==> forall v :: v in p ==> InRange(v)
  {
    var r := OutOfRange(p);
    if r != [] {
      assert r[0] in r;
    }
  }

  /** A descent at `k` means there is a first descent, at `k` or before it. */
  lemma {:induction false} FirstDescentAtOrBefore(p: seq<real>, k: nat)
    requires 0 < k < |p| && p[k] < p[k - 1]
    ensures exists i: nat :: i <= k && IsFirstDescent(p, i)
    decreases k
  {
    if j :| 0 < j < k && p[j] < p[j - 1] {
      FirstDescentAtOrBefore(p, j);
    } else {
      assert IsFirstDescent(p, k);
    }
  }

  /** A sequence that is not non-decreasing has exactly one first descent. */
  lemma FirstDescentExists(p: seq<real>)
    requires !NonDecreasing(p)
    ensures exists i: nat :: IsFirstDescent(p, i)
  {
    var k :| 0 < k < |p| && p[k - 1] > p[k];
    FirstDescentAtOrBefore(p, k);
  }

  lemma FirstDescentUnique(p: seq<real>, i: nat, j: nat)
    requires IsFirstDescent(p, i) && IsFirstDescent(p, j)
    ensures i == j
  {
  }

  /** The indexes `0 < i < n` with `p[i] < p[i - 1]`, in order. */
  function Descents(p: seq<real>, n: nat): seq<nat>
    requires n <= |p|
  {
    if n <= 1 then []
    else Descents(p, n - 1) + (if p[n - 1] < p[n - 2] then [n - 1] else [])
  }

  /** Every index listed is a descent below `n`. */
  lemma {:induction false} DescentsAreDescents(p: seq<real>, n: nat)
    requires n <= |p|
    ensures forall k :: 0 <= k < |Descents(p, n)| ==>
      0 < Descents(p, n)[k] < n && p[Descents(p, n)[k]] < p[Descents(p, n)[k] - 1]
  {
    if n > 1 {
      DescentsAreDescents(p, n - 1);
      var before := Descents(p, n - 1);
      forall k | 0 <= k < |Descents(p, n)|
        ensures 0 < Descents(p, n)[k] < n && p[Descents(p, n)[k]] < p[Descents(p, n)[k] - 1]
      {
        if k < |before| {
          assert Descents(p, n)[k] == before[k];
        }
      }
    }
  }

  /** No index is listed exactly when there is no descent below `n`. */
  lemma {:induction false} DescentsEmptyIff(p: seq<real>, n: nat)
    requires n <= |p|
    ensures Descents(p, n) == [] <==> forall j :: 0 < j < n ==> p[j - 1] <= p[j]
  {
    if n > 1 {
      DescentsEmptyIff(p, n - 1);
      if Descents(p, n - 1) != [] {
        assert |Descents(p, n)| > 0;
      }
    }
  }

  /** The first index listed is the first descent. */
  lemma {:induction false} DescentsFirst(p: seq<real>, n: nat)
    requires n <= |p|
    ensures Descents(p, n) != [] ==> IsFirstDescent(p, Descents(p, n)[0])
  {
    if n > 1 {
      var before := Descents(p, n - 1);
      if before != [] {
        DescentsFirst(p, n - 1);
        assert Descents(p, n)[0] == before[0];
      } else if p[n - 1] < p[n - 2] {
        DescentsEmptyIff(p, n - 1);
        assert Descents(p, n) == [n - 1];
        assert IsFirstDescent(p, n - 1);
      }
    }
  }

  /** The first LINQ pipeline of `InitialChecksPassed`: the indexes `i > 0` with
      `p[i] < p[i - 1]`, in order, found by a counter the selector increments. */
  method IncorrectlySortedIndexes(p: seq<real>) returns (indexes: seq<nat>)
    ensures forall k :: 0 <= k < |indexes| ==> 0 < indexes[k] < |p| && p[indexes[k]] < p[indexes[k] - 1]
    ensures indexes == [] <==> NonDecreasing(p)
    ensures indexes != [] ==> IsFirstDescent(p, indexes[0])
  {
    indexes := [];
    var index := -1;
    var count := |p|;
    while index + 1 < count
      invariant -1 <= index < count
      invariant indexes == Descents(p, index + 1)
    {
      index := index + 1;
      if index > 0 && index < count && p[index] < p[index - 1] {
        indexes := indexes + [index];
      }
    }
    DescentsAreDescents(p, |p|);
    DescentsEmptyIff(p, |p|);
    DescentsFirst(p, |p|);
  }

  /** The second LINQ pipeline of `InitialChecksPassed`: the values outside `[0, 100]`. */
  method InvalidValues(p: seq<real>) returns (values: seq<real>)
    ensures values == OutOfRange(p)
    ensures values == [] <==> forall v :: v in p ==> InRange(v)
  {
    values := [];
    var i := 0;
    while i < |p|
      invariant 0 <= i <= |p|
      invariant values == OutOfRange(p[..i])
    {
      assert p[..i + 1][..i] == p[..i];
      if p[i] < 0.0 || p[i] > 100.0 {
        values := values + [p[i]];
      }
      i := i + 1;
    }
    assert p[..i] == p;
    OutOfRangeEmpty(p);
  }

  /** The errors the initial checks can report. */
  predicate IsInitialError(e: FeeHistoryError) {
    e.BlockCountBelowOne? || e.PercentileOutOfOrder? || e.PercentilesOutOfRange?
  }

  /** `InitialChecksPassed`: the block count is checked and clamped (the `ref` parameter's
      new value is `newBlockCount`), then the percentiles' order, then their range. */
  method InitialChecksPassed(blockCount: int, rewardPercentiles: Option<seq<real>>)
    returns (result: Outcome<FeeHistoryResult>, newBlockCount: int)
    ensures blockCount < 1 ==> result == Failure(BlockCountBelowOne(blockCount)) && newBlockCount == blockCount
    ensures blockCount >= 1 ==> newBlockCount == Min(blockCount, MAX_BLOCK_COUNT)
    ensures result.Failure? ==> IsInitialError(result.error)
    ensures result.Success? <==>
      blockCount >= 1 && (rewardPercentiles.None? || (NonDecreasing(rewardPercentiles.value)
                                                      && forall v :: v in rewardPercentiles.value ==> InRange(v)))
    ensures result.Success? ==> result.value == EMPTY_RESULT
    ensures (result.Failure? && result.error.PercentileOutOfOrder?) <==>
      blockCount >= 1 && rewardPercentiles.Some? && !NonDecreasing(rewardPercentiles.value)
    ensures result.Failure? && result.error.PercentileOutOfOrder? ==>
      var p, i := rewardPercentiles.value, result.error.index;
      IsFirstDescent(p, i) && result.error.value == p[i] && result.error.previous == p[i - 1]
    ensures blockCount >= 1 && rewardPercentiles.Some? && NonDecreasing(rewardPercentiles.value)
            && OutOfRange(rewardPercentiles.value) != [] ==>
      result == Failure(PercentilesOutOfRange(OutOfRange(rewardPercentiles.value)))
  {
    if blockCount < 1 {
      return Failure(BlockCountBelowOne(blockCount)), blockCount;
    }
    newBlockCount := blockCount;
    if newBlockCount > MAX_BLOCK_COUNT {
      newBlockCount := MAX_BLOCK_COUNT;
    }
    if rewardPercentiles.Some? {
      var p := rewardPercentiles.value;
      var incorrectlySortedIndexes := IncorrectlySortedIndexes(p);
      if incorrectlySortedIndexes != [] {
        var firstIndex := incorrectlySortedIndexes[0];
        return Failure(PercentileOutOfOrder(firstIndex, p[firstIndex], p[firstIndex - 1])), newBlockCount;
      }
      var invalidValues := InvalidValues(p);
      if invalidValues != [] {
        return Failure(PercentilesOutOfRange(invalidValues)), newBlockCount;
      }
    }
    return Success(EMPTY_RESULT), newBlockCount;
  }

  /** The arguments pass every initial check. */
  predicate ChecksPass(blockCount: int, rewardPercentiles: Option<seq<real>>) {
    && blockCount >= 1
    && (rewardPercentiles.None? || (NonDecreasing(rewardPercentiles.value)
                                    && forall v :: v in rewardPercentiles.value ==> InRange(v)))
  }

  /** `BlockRangeInfo`: both parts are nullable. */
  datatype BlockRangeInfo = BlockRangeInfo(lastBlockNumber: Option<int>, blockCount: Option<int>)

  /** What `ResolveBlockRange` reports: a failure with its (possibly missing) message, or the
      range info; either way with the values it wrote back to its `ref` parameters. */
  datatype RangeResolution =
    | ResolutionFailed(message: Option<string>, lastBlockNumber: int, blockCount: int)
    | Resolved(info: BlockRangeInfo, lastBlockNumber: int, blockCount: int)

  /** The arguments `GetFeeHistory` hands to `FeeHistoryLookup`. */
  datatype LookupRequest = LookupRequest(blockCount: int, lastBlockNumber: int, rewardPercentiles: Option<seq<real>>)

  /** `GetFeeHistory` up to the call of the lookup: `resolve` stands for the block range
      manager, given the (clamped) block count and the last block number. */
  method GetFeeHistory(blockCount: int, lastBlockNumber: int, rewardPercentiles: Option<seq<real>>,
                       resolve: (int, int) -> RangeResolution)
    returns (result: Outcome<LookupRequest>, newBlockCount: int)
    ensures blockCount < 1 ==> result == Failure(BlockCountBelowOne(blockCount)) && newBlockCount == blockCount
    ensures result.Failure? && result.error.BlockCountBelowOne? ==> blockCount < 1
    ensures blockCount >= 1 && !ChecksPass(blockCount, rewardPercentiles) ==>
      result.Failure? && IsInitialError(result.error) && newBlockCount == Min(blockCount, MAX_BLOCK_COUNT)
    ensures result.Failure? && result.error.PercentileOutOfOrder? ==>
      && rewardPercentiles.Some?
      && var p, i := rewardPercentiles.value, result.error.index;
      && IsFirstDescent(p, i) && result.error.value == p[i] && result.error.previous == p[i - 1]
    ensures ChecksPass(blockCount, rewardPercentiles) ==>
      var resolution := resolve(Min(blockCount, MAX_BLOCK_COUNT), lastBlockNumber);
      && (resolution.ResolutionFailed? ==>
            result == Failure(RangeFailed(resolution.message)))
      && newBlockCount == resolution.blockCount
      && (resolution.Resolved? && resolution.info.lastBlockNumber.Some? && resolution.info.blockCount.Some? ==>
            result == Success(LookupRequest(resolution.blockCount, resolution.lastBlockNumber, rewardPercentiles)))
      && (resolution.Resolved? && (resolution.info.lastBlockNumber.None? || resolution.info.blockCount.None?) ==>
            result == Failure(NullRangeElements(resolution.info.lastBlockNumber.None?, resolution.info.blockCount.None?)))
    ensures blockCount >= 1 && rewardPercentiles.Some? && !NonDecreasing(rewardPercentiles.value) ==>
      result.Failure? && result.error.PercentileOutOfOrder?
    ensures result.Success? ==>
      && blockCount >= 1
      && (rewardPercentiles.None? || (NonDecreasing(rewardPercentiles.value)
                                      && forall v :: v in rewardPercentiles.value ==> InRange(v)))
      && var resolution := resolve(Min(blockCount, MAX_BLOCK_COUNT), lastBlockNumber);
      && resolution.Resolved? && resolution.info.lastBlockNumber.Some? && resolution.info.blockCount.Some?
      && result.value == LookupRequest(resolution.blockCount, resolution.lastBlockNumber, rewardPercentiles)
      && newBlockCount == resolution.blockCount
    ensures blockCount >= 1 && rewardPercentiles.Some? && NonDecreasing(rewardPercentiles.value)
            && OutOfRange(rewardPercentiles.value) != [] ==>
      result == Failure(PercentilesOutOfRange(OutOfRange(rewardPercentiles.value)))
    ensures result.Failure? && result.error.RangeFailed? ==>
      var resolution := resolve(Min(blockCount, MAX_BLOCK_COUNT), lastBlockNumber);
      resolution.ResolutionFailed? && resolution.message == result.error.message
    ensures result.Failure? && result.error.NullRangeElements? ==>
      var resolution := resolve(Min(blockCount, MAX_BLOCK_COUNT), lastBlockNumber);
      && resolution.Resolved?
      && var info := resolution.info;
      && result.error.lastBlockNumberIsNull == info.lastBlockNumber.None?
      && result.error.blockCountIsNull == info.blockCount.None?
      && (info.lastBlockNumber.None? || info.blockCount.None?)
  {
    var initialCheckResult;
    initialCheckResult, newBlockCount := InitialChecksPassed(blockCount, rewardPercentiles);
    if initialCheckResult.Failure? {
      return Failure(initialCheckResult.error), newBlockCount;
    }
    var blockRangeResult := resolve(newBlockCount, lastBlockNumber);
    newBlockCount := blockRangeResult.blockCount;
    if blockRangeResult.ResolutionFailed? {
      return Failure(RangeFailed(blockRangeResult.message)), newBlockCount;
    }
    var info := blockRangeResult.info;
    if info.lastBlockNumber.None? || info.blockCount.None? {
      return Failure(NullRangeElements(info.lastBlockNumber.None?, info.blockCount.None?)), newBlockCount;
    }
    return Success(LookupRequest(newBlockCount, blockRangeResult.lastBlockNumber, rewardPercentiles)), newBlockCount;
  }

  /** Which block one step of the lookup looks at, and how: the pending block, or the block
      at that number fetched whole (when percentiles are asked for) or as a header only. */
  datatype BlockFeeInfo = BlockFeeInfo(blockNumber: int, fromPending: bool, fullBlock: bool)

  /** The first block number the lookup visits. */
  function FirstBlockNumber(blockCount: int, lastBlockNumber: int): int {
    Max(lastBlockNumber + 1 - blockCount, 0)
  }

  /** The step of the lookup for block number `n`. */
  predicate VisitsAs(info: BlockFeeInfo, n: int, pendingNumber: Option<int>, wantsRewards: bool) {
    if pendingNumber.Some? && n > pendingNumber.value then info == BlockFeeInfo(pendingNumber.value, true, true)
    else info == BlockFeeInfo(n, false, wantsRewards)
  }

  /** The loop of `FeeHistoryLookup`: one entry per block number from the first block up to,
      but not including, `lastBlockNumber`. `pendingNumber` is the number of the pending
      block, if the block finder has one. */
  method FeeHistoryLookup(blockCount: int, lastBlockNumber: int, rewardPercentiles: Option<seq<real>>, pendingNumber: Option<int>)
    returns (blockFeeInfos: seq<BlockFeeInfo>)
    ensures |blockFeeInfos| == Max(lastBlockNumber - FirstBlockNumber(blockCount, lastBlockNumber), 0)
    ensures forall k :: 0 <= k < |blockFeeInfos| ==>
      VisitsAs(blockFeeInfos[k], FirstBlockNumber(blockCount, lastBlockNumber) + k, pendingNumber,
               rewardPercentiles.Some? && |rewardPercentiles.value| != 0)
  {
    var wantsRewards := rewardPercentiles.Some? && |rewardPercentiles.value| != 0;
    var first := FirstBlockNumber(blockCount, lastBlockNumber);
    var firstBlockNumber := first;
    blockFeeInfos := [];
    while firstBlockNumber < lastBlockNumber
      invariant first <= firstBlockNumber <= Max(first, lastBlockNumber)
      invariant |blockFeeInfos| == firstBlockNumber - first
      invariant forall k :: 0 <= k < |blockFeeInfos| ==> VisitsAs(blockFeeInfos[k], first + k, pendingNumber, wantsRewards)
      decreases lastBlockNumber - firstBlockNumber
    {
      var blockFeeInfo;
      if pendingNumber.Some? && firstBlockNumber > pendingNumber.value {
        blockFeeInfo := BlockFeeInfo(pendingNumber.value, true, true);
      } else {
        blockFeeInfo := BlockFeeInfo(firstBlockNumber, false, wantsRewards);
      }
      blockFeeInfos := blockFeeInfos + [blockFeeInfo];
      firstBlockNumber := firstBlockNumber + 1;
    }
  }

  /** When the range does not reach below block 0, the lookup visits one block fewer than
      asked for: the last block itself is not visited. */
  lemma LookupStopsBeforeLastBlock(blockCount: int, lastBlockNumber: int)
    requires blockCount >= 1 && lastBlockNumber + 1 - blockCount >= 0
    ensures Max(lastBlockNumber - FirstBlockNumber(blockCount, lastBlockNumber), 0) == blockCount - 1
    ensures FirstBlockNumber(blockCount, lastBlockNumber) + blockCount - 1 == lastBlockNumber
  {
  }

  /** When it does reach below block 0, the lookup starts at block 0 and visits the blocks
      before the last one. */
  lemma LookupClampedAtGenesis(blockCount: int, lastBlockNumber: int)
    requires lastBlockNumber + 1 - blockCount < 0
    ensures FirstBlockNumber(blockCount, lastBlockNumber) == 0
    ensures Max(lastBlockNumber - FirstBlockNumber(blockCount, lastBlockNumber), 0) == Max(lastBlockNumber, 0)
  {
  }
}
