/** The MEV bundle pool: admission of bundles, the time-window query over one bucket, the
    two-level simulation cache (parent hash, then bundle, then context), reaction to a new
    block and pruning on finalization. Everything runs sequentially here; the block tree,
    the finalization manager, the clock and the simulator are inputs. */
module BundlePool {
  import opened Common
  import opened MevBundles
  import opened BundleIndex

  /** The part of a block header the pool reads. */
  datatype Header = Header(number: int, hash: Hash, timestamp: UInt256)

  /** What the simulator reports for one bundle. */
  datatype SimulatedBundle = SimulatedBundle(bundle: Bundle, success: bool, gasUsed: int)

  /** The state a simulation task is in at the moment the query stops waiting for it. */
  datatype TaskState = Running | RanToCompletion(result: SimulatedBundle) | Faulted | Canceled

  /** One invocation of the external simulator. */
  datatype SimulationRequest = SimulationRequest(bundle: Bundle, parent: Header)

  /** `SimulatedMevBundleContext`: it owns the task of one simulator invocation, named by
      that invocation's position in the pool's log of simulator calls. */
  datatype SimulationContext = SimulationContext(task: nat)

  /** `_simulatedBundles`: parent hash, then bundle, then context. */
  type Cache = map<Hash, map<Bundle, SimulationContext>>

  /** The cache together with the log of simulator invocations its contexts point into. */
  datatype CacheState = CacheState(cache: Cache, calls: seq<SimulationRequest>)

  datatype SimulationMode = NewHead | NewBestSuggested

  /** The block tree and finalization manager as the pool sees them at one moment. A pool
      without a finalization manager is one whose `isFinalized` is always false. */
  datatype Chain = Chain(
    head: Option<Header>,
    isFinalized: int -> bool,
    findLevel: int -> Option<seq<Hash>>,
    findHeader: Hash -> Option<Header>)

  /** `_blockTree.Head?.Number ?? 0` */
  function HeadNumber(chain: Chain): int {
    if chain.head.Some? then chain.head.value.number else 0
  }

  /** `RegisterNewBlockTracking`: the pivot the pool starts from. */
  function InitialPivot(mode: SimulationMode, head: Option<Header>, bestSuggested: Option<Header>): (r: int)
    ensures var followed := if mode.NewHead? then head else bestSuggested;
      r == if followed.Some? then followed.value.number else 0
  {
    match mode
    case NewHead => if head.Some? then head.value.number else 0
    case NewBestSuggested => if bestSuggested.Some? then bestSuggested.value.number else 0
  }

  // ---------------------------------------------------------------------------
  // Admission.

  /** Why `ValidateBundle` accepts or rejects a bundle; the source logs the reason and
      returns only whether it accepted. */
  datatype Verdict = Accepted | TargetFinalized | MaxBeforeMin | Expired | BeyondHorizon

  /** All four admission conditions hold. */
  predicate Admissible(bundle: Bundle, targetFinalized: bool, now: UInt256, horizon: nat) {
    && !targetFinalized
    && bundle.minTimestamp <= bundle.maxTimestamp
    && (bundle.maxTimestamp == 0 || now <= bundle.maxTimestamp)
    && (bundle.minTimestamp == 0 || bundle.minTimestamp <= now + horizon)
  }

  /** `ValidateBundle`: the checks run in order and the first one that fails decides. */
  function ValidateBundle(bundle: Bundle, targetFinalized: bool, now: UInt256, horizon: nat): (r: Verdict)
    ensures r.Accepted? <==> Admissible(bundle, targetFinalized, now, horizon)
    ensures targetFinalized <==> r == TargetFinalized
    ensures !targetFinalized && bundle.maxTimestamp < bundle.minTimestamp ==> r == MaxBeforeMin
    ensures r == MaxBeforeMin ==> !targetFinalized
    ensures r == Expired ==> !targetFinalized && bundle.minTimestamp <= bundle.maxTimestamp
    ensures r == BeyondHorizon ==>
      !targetFinalized && bundle.minTimestamp <= bundle.maxTimestamp
      && (bundle.maxTimestamp == 0 || now <= bundle.maxTimestamp)
  {
    if targetFinalized then TargetFinalized
    else if bundle.maxTimestamp < bundle.minTimestamp then MaxBeforeMin
    else if bundle.maxTimestamp != 0 && bundle.maxTimestamp < now then Expired
    else if bundle.minTimestamp != 0 && bundle.minTimestamp > now + horizon then BeyondHorizon
    else Accepted
  }

  /** A maximum below the minimum is rejected, and the check has no zero guard: an
      unbounded maximum (0) with a non-zero minimum is rejected too. */
  lemma MaxBelowMinRejected(bundle: Bundle, targetFinalized: bool, now: UInt256, horizon: nat)
    requires bundle.maxTimestamp < bundle.minTimestamp
    ensures !ValidateBundle(bundle, targetFinalized, now, horizon).Accepted?
    ensures !targetFinalized ==> ValidateBundle(bundle, targetFinalized, now, horizon) == MaxBeforeMin
  {
  }

  /** A bundle whose maximum timestamp has passed is always rejected. */
  lemma ExpiredRejected(bundle: Bundle, targetFinalized: bool, now: UInt256, horizon: nat)
    requires bundle.maxTimestamp != 0 && bundle.maxTimestamp < now
    ensures !ValidateBundle(bundle, targetFinalized, now, horizon).Accepted?
  {
  }

  // ---------------------------------------------------------------------------
  // The window query.

  /** `bundleIsInFuture` */
  predicate InFuture(b: Bundle, minTimestamp: UInt256) {
    b.minTimestamp != 0 && minTimestamp < b.minTimestamp
  }

  /** `bundleIsTooOld` */
  predicate TooOld(b: Bundle, maxTimestamp: UInt256) {
    b.maxTimestamp != 0 && maxTimestamp > b.maxTimestamp
  }

  predicate Eligible(b: Bundle, minTimestamp: UInt256, maxTimestamp: UInt256) {
    !InFuture(b, minTimestamp) && !TooOld(b, maxTimestamp)
  }

  /** The bundles of `bundles` that are neither in the future nor too old, in order. */
  function InWindow(bundles: seq<Bundle>, minTimestamp: UInt256, maxTimestamp: UInt256): (r: seq<Bundle>)
    ensures |r| <= |bundles|
  {
    if bundles == [] then []
    else
      var last := bundles[|bundles| - 1];
      InWindow(bundles[..|bundles| - 1], minTimestamp, maxTimestamp)
        + (if Eligible(last, minTimestamp, maxTimestamp) then [last] else [])
  }

  /** A bundle is in the window query's result exactly when it is in the bucket and neither
      in the future nor too old. */
  lemma {:induction false} InWindowMembers(bundles: seq<Bundle>, minTimestamp: UInt256, maxTimestamp: UInt256)
    ensures forall b :: b in InWindow(bundles, minTimestamp, maxTimestamp) <==> b in bundles && Eligible(b, minTimestamp, maxTimestamp)
  {
    if bundles != [] {
      var init, last := bundles[..|bundles| - 1], bundles[|bundles| - 1];
      InWindowMembers(init, minTimestamp, maxTimestamp);
      assert bundles == init + [last];
    }
  }

  /** The token is seen cancelled by the check made before element `i`. */
  predicate CancellationSeen(cancelAt: Option<nat>, i: nat) {
    cancelAt.Some? && cancelAt.value <= i
  }

  /** The elements of the bucket the query looks at before it sees the cancellation. */
  function Examined(bucket: seq<Bundle>, cancelAt: Option<nat>): (r: seq<Bundle>)
    ensures r <= bucket
    ensures cancelAt.None? ==> r == bucket
  {
    if cancelAt.Some? && cancelAt.value < |bucket| then bucket[..cancelAt.value] else bucket
  }

  lemma {:induction false} InWindowConcat(a: seq<Bundle>, b: seq<Bundle>, minTimestamp: UInt256, maxTimestamp: UInt256)
    ensures InWindow(a + b, minTimestamp, maxTimestamp)
         == InWindow(a, minTimestamp, maxTimestamp) + InWindow(b, minTimestamp, maxTimestamp)
    decreases |b|
  {
    if b == [] {
      assert a + b == a;
    } else {
      var b' := b[..|b| - 1];
      assert (a + b)[..|a + b| - 1] == a + b';
      assert (a + b)[|a + b| - 1] == b[|b| - 1];
      InWindowConcat(a, b', minTimestamp, maxTimestamp);
    }
  }

  /** A query cut short by cancellation returns a prefix of what the full query returns. */
  lemma CancelledQueryIsPrefix(bucket: seq<Bundle>, cancelAt: Option<nat>, minTimestamp: UInt256, maxTimestamp: UInt256)
    ensures InWindow(Examined(bucket, cancelAt), minTimestamp, maxTimestamp)
         <= InWindow(bucket, minTimestamp, maxTimestamp)
  {
    var examined := Examined(bucket, cancelAt);
    assert bucket == examined + bucket[|examined|..];
    InWindowConcat(examined, bucket[|examined|..], minTimestamp, maxTimestamp);
  }

  /** A filter every bundle passes keeps the whole sequence. */
  lemma {:induction false} AllEligibleKept(bundles: seq<Bundle>, minTimestamp: UInt256, maxTimestamp: UInt256)
    requires forall i :: 0 <= i < |bundles| ==> Eligible(bundles[i], minTimestamp, maxTimestamp)
    ensures InWindow(bundles, minTimestamp, maxTimestamp) == bundles
  {
    if bundles != [] {
      var init := bundles[..|bundles| - 1];
      AllEligibleKept(init, minTimestamp, maxTimestamp);
      assert bundles == init + [bundles[|bundles| - 1]];
    }
  }

  /** The window `(UInt256.MaxValue, 0)` used when a new block arrives lets every bundle through. */
  lemma WholeBucket(bucket: seq<Bundle>)
    ensures InWindow(bucket, UINT256_MAX, 0) == bucket
  {
    AllEligibleKept(bucket, UINT256_MAX, 0);
  }

  // ---------------------------------------------------------------------------
  // The simulation cache.

  predicate HasContext(cache: Cache, parentHash: Hash, bundle: Bundle) {
    parentHash in cache && bundle in cache[parentHash]
  }

  /** The context stored for `(parentHash, bundle)` owns a simulator call made for exactly
      that bundle against a parent with exactly that hash. */
  predicate OwnsCall(context: SimulationContext, calls: seq<SimulationRequest>, parentHash: Hash, bundle: Bundle) {
    context.task < |calls| && calls[context.task].bundle == bundle && calls[context.task].parent.hash == parentHash
  }

  ghost predicate Consistent(s: CacheState) {
    forall h, b :: HasContext(s.cache, h, b) ==> OwnsCall(s.cache[h][b], s.calls, h, b)
  }

  /** The get-or-create of `SimulateBundle`: an existing context is kept as it is; otherwise
      the simulator is invoked once and a new context owning that invocation is stored. */
  function SimulateStep(s: CacheState, bundle: Bundle, parent: Header): (r: CacheState)
    ensures HasContext(r.cache, parent.hash, bundle)
    ensures HasContext(s.cache, parent.hash, bundle) ==> r == s
    ensures !HasContext(s.cache, parent.hash, bundle) ==>
      && r.calls == s.calls + [SimulationRequest(bundle, parent)]
      && r.cache[parent.hash][bundle] == SimulationContext(|s.calls|)
    ensures forall h, b :: HasContext(s.cache, h, b) ==> HasContext(r.cache, h, b) && r.cache[h][b] == s.cache[h][b]
    ensures forall h, b :: HasContext(r.cache, h, b) ==> HasContext(s.cache, h, b) || (h == parent.hash && b == bundle)
    ensures r.cache.Keys == s.cache.Keys + {parent.hash}
    ensures Consistent(s) ==> Consistent(r)
  {
    if HasContext(s.cache, parent.hash, bundle) then s
    else
      var inner := if parent.hash in s.cache then s.cache[parent.hash] else map[];
      CacheState(
        s.cache[parent.hash := inner[bundle := SimulationContext(|s.calls|)]],
        s.calls + [SimulationRequest(bundle, parent)])
  }

  /** `SimulateStep` for each bundle of `bundles` in turn, all against `parent`. */
  function SimulateAll(s: CacheState, bundles: seq<Bundle>, parent: Header): (r: CacheState)
    ensures |s.calls| <= |r.calls| && r.calls[..|s.calls|] == s.calls
    ensures forall k :: |s.calls| <= k < |r.calls| ==> r.calls[k].parent == parent && r.calls[k].bundle in bundles
    ensures r.cache.Keys == s.cache.Keys + (if bundles == [] then {} else {parent.hash})
    decreases |bundles|
  {
    if bundles == [] then s
    else SimulateAll(SimulateStep(s, bundles[0], parent), bundles[1..], parent)
  }

  /** After simulating a list of bundles against `parent`, each of them has a context for
      it, every earlier context is kept as it was, nothing else was added, and the simulator
      was invoked at most once per bundle. */
  lemma {:induction false} SimulateAllCovers(s: CacheState, bundles: seq<Bundle>, parent: Header)
    ensures var r := SimulateAll(s, bundles, parent);
      && (forall b :: b in bundles ==> HasContext(r.cache, parent.hash, b))
      && (forall h, b :: HasContext(s.cache, h, b) ==> HasContext(r.cache, h, b) && r.cache[h][b] == s.cache[h][b])
      && (forall h, b :: HasContext(r.cache, h, b) ==> HasContext(s.cache, h, b) || (h == parent.hash && b in bundles))
      && |s.calls| <= |r.calls| <= |s.calls| + |bundles|
      && r.calls[..|s.calls|] == s.calls
    decreases |bundles|
  {
    if bundles != [] {
      var s' := SimulateStep(s, bundles[0], parent);
      SimulateAllCovers(s', bundles[1..], parent);
      var r := SimulateAll(s, bundles, parent);
      assert r == SimulateAll(s', bundles[1..], parent);
      forall b | b in bundles ensures HasContext(r.cache, parent.hash, b) {
        if b != bundles[0] {
          assert b in bundles[1..];
        }
      }
      assert r.calls[..|s.calls|] == r.calls[..|s'.calls|][..|s.calls|];
    }
  }

  /** Simulating a list of bundles keeps every context tied to its own simulator call. */
  lemma {:induction false} SimulateAllConsistent(s: CacheState, bundles: seq<Bundle>, parent: Header)
    requires Consistent(s)
    ensures Consistent(SimulateAll(s, bundles, parent))
    decreases |bundles|
  {
    if bundles != [] {
      SimulateAllConsistent(SimulateStep(s, bundles[0], parent), bundles[1..], parent);
    }
  }

  /** Asking N times for the same (bundle, parent) pair invokes the simulator at most once. */
  lemma {:induction false} RepeatedRequestsSimulateOnce(s: CacheState, bundle: Bundle, parent: Header, n: nat)
    ensures |SimulateAll(s, seq(n, _ => bundle), parent).calls|
         == |s.calls| + (if n > 0 && !HasContext(s.cache, parent.hash, bundle) then 1 else 0)
    decreases n
  {
    if n > 0 {
      var requests := seq(n, _ => bundle);
      var s' := SimulateStep(s, bundle, parent);
      assert requests[1..] == seq(n - 1, _ => bundle);
      RepeatedRequestsSimulateOnce(s', bundle, parent, n - 1);
    }
  }

  /** The cache with every context of the bundles in `drop` taken out; inner maps that end
      up empty are kept. */
  function DropAll(cache: Cache, drop: set<Bundle>): (r: Cache)
    ensures r.Keys == cache.Keys
    ensures forall h, b :: HasContext(r, h, b) <==> HasContext(cache, h, b) && b !in drop
    ensures forall h, b :: HasContext(r, h, b) ==> HasContext(cache, h, b) && r[h][b] == cache[h][b]
  {
    map h | h in cache :: cache[h] - drop
  }

  lemma DropAllTwice(cache: Cache, first: set<Bundle>, second: set<Bundle>)
    ensures DropAll(DropAll(cache, first), second) == DropAll(cache, first + second)
  {
    forall h | h in cache ensures DropAll(DropAll(cache, first), second)[h] == DropAll(cache, first + second)[h] {
      assert (cache[h] - first) - second == cache[h] - (first + second);
    }
  }

  // ---------------------------------------------------------------------------
  // Finalization.

  /** `e.FinalizedBlocks.Max(b => b.Number)` */
  function MaxNumber(blocks: seq<Header>): (r: int)
    requires |blocks| > 0
    ensures exists i :: 0 <= i < |blocks| && blocks[i].number == r
    ensures forall i :: 0 <= i < |blocks| ==> blocks[i].number <= r
  {
    if |blocks| == 1 then blocks[0].number else Max(blocks[0].number, MaxNumber(blocks[1..]))
  }

  /** `e.FinalizedBlocks.Select(b => b.Timestamp).Max()` */
  function MaxTimestamp(blocks: seq<Header>): (r: UInt256)
    requires |blocks| > 0
    ensures exists i :: 0 <= i < |blocks| && blocks[i].timestamp == r
    ensures forall i :: 0 <= i < |blocks| ==> blocks[i].timestamp <= r
  {
    if |blocks| == 1 then blocks[0].timestamp
    else
      var rest := MaxTimestamp(blocks[1..]);
      if blocks[0].timestamp <= rest then rest else blocks[0].timestamp
  }

  /** The removal predicate: the target block is behind the finalized frontier, or the
      window closed before the latest finalized timestamp. */
  predicate IsStale(b: Bundle, maxFinalizedNumber: int, maxFinalizedTimestamp: UInt256): (r: bool)
    ensures b.blockNumber < maxFinalizedNumber ==> r
    ensures b.maxTimestamp != 0 && b.maxTimestamp < maxFinalizedTimestamp ==> r
    ensures b.maxTimestamp == 0 ==> (r <==> b.blockNumber < maxFinalizedNumber)
    ensures b.blockNumber >= maxFinalizedNumber && b.maxTimestamp >= maxFinalizedTimestamp ==> !r
  {
    b.blockNumber < maxFinalizedNumber || (b.maxTimestamp < maxFinalizedTimestamp && b.maxTimestamp != 0)
  }

  ghost function StaleSet(buckets: Buckets, maxFinalizedNumber: int, maxFinalizedTimestamp: UInt256): set<Bundle> {
    set n, b | n in buckets && b in buckets[n] && Stored(buckets, b) && IsStale(b, maxFinalizedNumber, maxFinalizedTimestamp) :: b
  }

  /** After pruning, a stale bundle is neither stored nor simulated; every other bundle
      and every context of it are where they were. */
  lemma PruningRemovesExactlyStale(buckets: Buckets, cache: Cache, maxFinalizedNumber: int, maxFinalizedTimestamp: UInt256, b: Bundle)
    ensures var stale := StaleSet(buckets, maxFinalizedNumber, maxFinalizedTimestamp);
      && (Stored(RemoveAll(buckets, stale), b) <==> Stored(buckets, b) && !IsStale(b, maxFinalizedNumber, maxFinalizedTimestamp))
      && (forall h :: HasContext(DropAll(cache, stale), h, b) <==>
            HasContext(cache, h, b) && !(Stored(buckets, b) && IsStale(b, maxFinalizedNumber, maxFinalizedTimestamp)))
  {
    var stale := StaleSet(buckets, maxFinalizedNumber, maxFinalizedTimestamp);
    if Stored(buckets, b) {
      assert b.blockNumber in buckets && b in buckets[b.blockNumber];
      assert IsStale(b, maxFinalizedNumber, maxFinalizedTimestamp) ==> b in stale;
    }
  }

  // ---------------------------------------------------------------------------
  // The simulated query.

  /** The simulated query delivers `r` for bundle `b`: `b` is in the window query's result,
      has a context for the parent, and that context's task completed successfully with a
      successful outcome within the gas limit. */
  predicate Delivers(cache: Cache, parentHash: Hash, eligible: seq<Bundle>, settled: nat -> TaskState,
                     gasLimit: int, b: Bundle, r: SimulatedBundle)
  {
    && b in eligible
    && HasContext(cache, parentHash, b)
    && settled(cache[parentHash][b].task) == RanToCompletion(r)
    && r.success
    && r.gasUsed <= gasLimit
  }

  /** `Range(start, count)` inside `ResortBundlesByBlock`. */
  method Range(start: int, count: nat) returns (r: seq<int>)
    ensures |r| == count
    ensures forall i :: 0 <= i < count ==> r[i] == start + i
  {
    r := [];
    var n := start;
    while n < start + count
      invariant start <= n <= start + count
      invariant |r| == n - start
      invariant forall i :: 0 <= i < |r| ==> r[i] == start + i
    {
      r := r + [n];
      n := n + 1;
    }
  }

  /** The regrouped range is the block numbers between the old and the new pivot, the
      smaller one included and the larger one excluded. */
  lemma RegroupedBetweenPivots(previous: int, next: int, r: seq<int>)
    requires |r| == Abs(next - previous)
    requires forall i :: 0 <= i < |r| ==> r[i] == Min(next, previous) + i
    ensures forall k :: k in r <==> Min(next, previous) <= k < Max(next, previous)
  {
    forall k | Min(next, previous) <= k < Max(next, previous) ensures k in r {
      assert r[k - Min(next, previous)] == k;
    }
  }

  class Pool {
    /** `_mevConfig.BundleHorizon` */
    const bundleHorizon: nat
    /** `_bundles` */
    const bundles: BundleSortedPool
    /** `_simulatedBundles` */
    var simulatedBundles: Cache
    /** Every simulator invocation so far, in order; contexts name theirs by position. */
    var simulatorCalls: seq<SimulationRequest>
    /** `_compareMevBundleByBlock.BestBlockNumber`, the pivot of the bucket order. */
    var bestBlockNumber: int

    ghost predicate Valid()
      reads this, bundles
    {
      bundles.Valid() && Consistent(CacheView())
    }

    function CacheView(): CacheState
      reads this
    {
      CacheState(simulatedBundles, simulatorCalls)
    }

    constructor (mode: SimulationMode, head: Option<Header>, bestSuggested: Option<Header>, horizon: nat)
      ensures Valid() && fresh(bundles)
      ensures bundleHorizon == horizon
      ensures bundles.buckets == map[] && simulatedBundles == map[] && simulatorCalls == []
      ensures bestBlockNumber == InitialPivot(mode, head, bestSuggested)
    {
      bundleHorizon := horizon;
      bundles := new BundleSortedPool();
      simulatedBundles := map[];
      simulatorCalls := [];
      bestBlockNumber := InitialPivot(mode, head, bestSuggested);
    }

    /** The private `GetBundles(blockNumber, minTimestamp, maxTimestamp, token)`. */
    method GetBundlesInWindow(blockNumber: int, minTimestamp: UInt256, maxTimestamp: UInt256, cancelAt: Option<nat>)
      returns (result: seq<Bundle>)
      requires Valid()
      ensures result == InWindow(Examined(BucketOf(bundles.buckets, blockNumber), cancelAt), minTimestamp, maxTimestamp)
    {
      var found, bucket := bundles.TryGetBucket(blockNumber);
      result := [];
      if found {
        var i := 0;
        while i < |bucket|
          invariant 0 <= i <= |bucket|
          invariant cancelAt.Some? ==> i <= cancelAt.value
          invariant result == InWindow(bucket[..i], minTimestamp, maxTimestamp)
        {
          if CancellationSeen(cancelAt, i) {
            break;
          }
          var b := bucket[i];
          assert bucket[..i + 1][..i] == bucket[..i];
          if Eligible(b, minTimestamp, maxTimestamp) {
            result := result + [b];
          }
          i := i + 1;
        }
        assert bucket[..i] == Examined(bucket, cancelAt);
      }
    }

    /** The public `GetBundles(blockNumber, timestamp, token)`: one timestamp for both bounds,
        so every bundle returned has `minTimestamp <= timestamp <= maxTimestamp` where those
        bounds are set. */
    method GetBundlesAt(blockNumber: int, timestamp: UInt256, cancelAt: Option<nat>) returns (result: seq<Bundle>)
      requires Valid()
      ensures result == InWindow(Examined(BucketOf(bundles.buckets, blockNumber), cancelAt), timestamp, timestamp)
      ensures forall b :: b in result ==>
        && b.blockNumber == blockNumber && bundles.Contains(b)
        && (b.minTimestamp == 0 || b.minTimestamp <= timestamp)
        && (b.maxTimestamp == 0 || timestamp <= b.maxTimestamp)
    {
      result := GetBundlesInWindow(blockNumber, timestamp, timestamp, cancelAt);
      InWindowMembers(Examined(BucketOf(bundles.buckets, blockNumber), cancelAt), timestamp, timestamp);
    }

    /** `GetBundles(parent, timestamp, gasLimit, token)`: the bundles for the block after `parent`. */
    method GetBundlesForParent(parent: Header, timestamp: UInt256, gasLimit: int, cancelAt: Option<nat>)
      returns (result: seq<Bundle>)
      requires Valid()
      ensures result == InWindow(Examined(BucketOf(bundles.buckets, parent.number + 1), cancelAt), timestamp, timestamp)
    {
      result := GetBundlesAt(parent.number + 1, timestamp, cancelAt);
    }

    /** `ISimulatedBundleSource.GetBundles`: the successful, gas-bounded outcomes of the
        simulations against `parent` of the bundles the window query returns. `settled`
        gives each task's state when the wait ended (all done, or the token fired). */
    method GetSimulatedBundles(parent: Header, timestamp: UInt256, gasLimit: int, cancelAt: Option<nat>,
                               settled: nat -> TaskState)
      returns (results: seq<SimulatedBundle>)
      requires Valid()
      ensures var eligible := InWindow(Examined(BucketOf(bundles.buckets, parent.number + 1), cancelAt), timestamp, timestamp);
        forall r :: r in results <==>
          exists b :: Delivers(simulatedBundles, parent.hash, eligible, settled, gasLimit, b, r)
      ensures parent.hash !in simulatedBundles ==> results == []
    {
      var eligible := GetBundlesForParent(parent, timestamp, gasLimit, cancelAt);
      results := [];
      if parent.hash in simulatedBundles {
        var inner := simulatedBundles[parent.hash];
        var pending := inner.Keys;
        while pending != {}
          invariant pending <= inner.Keys
          invariant forall r :: r in results <==>
            exists b :: b !in pending && Delivers(simulatedBundles, parent.hash, eligible, settled, gasLimit, b, r)
          decreases pending
        {
          var b := Pick(pending);
          if b in eligible {
            var state := settled(inner[b].task);
            if state.RanToCompletion? && state.result.success && state.result.gasUsed <= gasLimit {
              assert Delivers(simulatedBundles, parent.hash, eligible, settled, gasLimit, b, state.result);
              results := results + [state.result];
            }
          }
          pending := pending - {b};
        }
      }
    }

    /** `SimulateBundle`: get-or-create of the context for `(parent.Hash, bundle)`; the new
        context is returned only when this call created it. */
    method SimulateBundle(bundle: Bundle, parent: Header) returns (created: Option<SimulationContext>)
      requires Valid()
      modifies this
      ensures Valid()
      ensures CacheView() == SimulateStep(old(CacheView()), bundle, parent)
      ensures created == if HasContext(old(simulatedBundles), parent.hash, bundle) then None
                         else Some(SimulationContext(|old(simulatorCalls)|))
      ensures bestBlockNumber == old(bestBlockNumber)
    {
      if HasContext(simulatedBundles, parent.hash, bundle) {
        created := None;
      } else {
        var context := SimulationContext(|simulatorCalls|);
        simulatorCalls := simulatorCalls + [SimulationRequest(bundle, parent)];
        var inner := if parent.hash in simulatedBundles then simulatedBundles[parent.hash] else map[];
        simulatedBundles := simulatedBundles[parent.hash := inner[bundle := context]];
        created := Some(context);
      }
    }

    /** `TrySimulateBundle`: simulate against the first header found on the level below the
        bundle's target block, and against no other. */
    method TrySimulateBundle(bundle: Bundle, chain: Chain) returns (simulated: bool)
      requires Valid()
      modifies this
      ensures Valid()
      ensures simulated == ParentFor(chain, bundle.blockNumber).Some?
      ensures CacheView() == if simulated then SimulateStep(old(CacheView()), bundle, ParentFor(chain, bundle.blockNumber).value)
                             else old(CacheView())
      ensures bestBlockNumber == old(bestBlockNumber)
    {
      var level := chain.findLevel(bundle.blockNumber - 1);
      if level.Some? {
        var hashes := level.value;
        for i := 0 to |hashes|
          invariant forall j :: 0 <= j < i ==> chain.findHeader(hashes[j]).None?
        {
          var header := chain.findHeader(hashes[i]);
          if header.Some? {
            FirstHeaderAt(hashes, chain.findHeader, i);
            var _ := SimulateBundle(bundle, header.value);
            return true;
          }
        }
        FirstHeaderAt(hashes, chain.findHeader, |hashes|);
      }
      return false;
    }

    /** `AddBundle`: validate, insert, and for a bundle that targets the block after the
        head, try one simulation straight away. */
    method AddBundle(bundle: Bundle, chain: Chain, now: UInt256) returns (added: bool)
      requires Valid()
      modifies this, bundles
      ensures Valid()
      ensures added == (ValidateBundle(bundle, chain.isFinalized(bundle.blockNumber), now, bundleHorizon).Accepted?
                        && !old(bundles.Contains(bundle)))
      ensures bundles.buckets == if added then Insert(old(bundles.buckets), bundle) else old(bundles.buckets)
      ensures CacheView() ==
        if added && bundle.blockNumber == HeadNumber(chain) + 1 && ParentFor(chain, bundle.blockNumber).Some?
        then SimulateStep(old(CacheView()), bundle, ParentFor(chain, bundle.blockNumber).value)
        else old(CacheView())
      ensures bestBlockNumber == old(bestBlockNumber)
    {
      if ValidateBundle(bundle, chain.isFinalized(bundle.blockNumber), now, bundleHorizon).Accepted? {
        var result := bundles.TryInsert(bundle);
        if result {
          if bundle.blockNumber == HeadNumber(chain) + 1 {
            var _ := TrySimulateBundle(bundle, chain);
          }
        }
        return result;
      }
      return false;
    }

    /** `ResortBundlesByBlock`: the block numbers whose buckets are regrouped, and the new pivot. */
    method ResortBundlesByBlock(newBlockNumber: int) returns (regrouped: seq<int>)
      requires Valid()
      modifies this
      ensures Valid()
      ensures bestBlockNumber == newBlockNumber
      ensures |regrouped| == Abs(newBlockNumber - old(bestBlockNumber))
      ensures forall i :: 0 <= i < |regrouped| ==> regrouped[i] == Min(newBlockNumber, old(bestBlockNumber)) + i
      ensures forall k :: k in regrouped <==>
        Min(newBlockNumber, old(bestBlockNumber)) <= k < Max(newBlockNumber, old(bestBlockNumber))
      ensures CacheView() == old(CacheView())
    {
      var previous := bestBlockNumber;
      var from := Min(newBlockNumber, previous);
      var delta := Abs(newBlockNumber - previous);
      regrouped := Range(from, delta);
      RegroupedBetweenPivots(previous, newBlockNumber, regrouped);
      bestBlockNumber := newBlockNumber;
    }

    /** `OnNewBlock`: move the pivot and, unless the block is finalized, simulate every bundle
        of the next block against it. */
    method OnNewBlock(block: Header, chain: Chain)
      requires Valid()
      modifies this
      ensures Valid()
      ensures bestBlockNumber == block.number
      ensures CacheView() == if chain.isFinalized(block.number) then old(CacheView())
                             else SimulateAll(old(CacheView()), BucketOf(bundles.buckets, block.number + 1), block)
    {
      var _ := ResortBundlesByBlock(block.number);
      if !chain.isFinalized(block.number) {
        var next := GetBundlesInWindow(block.number + 1, UINT256_MAX, 0, None);
        WholeBucket(BucketOf(bundles.buckets, block.number + 1));
        ghost var start := CacheView();
        for i := 0 to |next|
          invariant Valid()
          invariant bestBlockNumber == block.number
          invariant SimulateAll(CacheView(), next[i..], block) == SimulateAll(start, next, block)
        {
          assert next[i..][1..] == next[i + 1..];
          var _ := SimulateBundle(next[i], block);
        }
      }
    }

    /** Take the contexts of `bundle` out of every inner map that holds one. */
    method RemoveContexts(bundle: Bundle)
      requires Valid()
      modifies this
      ensures Valid()
      ensures simulatedBundles == DropAll(old(simulatedBundles), {bundle})
      ensures simulatorCalls == old(simulatorCalls) && bestBlockNumber == old(bestBlockNumber)
    {
      ghost var start := simulatedBundles;
      var related := simulatedBundles.Keys;
      DroppingBounds(start, bundle);
      while related != {}
        invariant related <= start.Keys
        invariant simulatedBundles == Dropping(start, related, bundle)
        invariant Valid()
        invariant simulatorCalls == old(simulatorCalls) && bestBlockNumber == old(bestBlockNumber)
        decreases related
      {
        var h := Pick(related);
        DroppingStep(start, related, bundle, h);
        if bundle in simulatedBundles[h] {
          DropOneConsistent(CacheView(), h, bundle);
          simulatedBundles := simulatedBundles[h := simulatedBundles[h] - {bundle}];
        } else {
          assert start[h] - {bundle} == start[h];
        }
        related := related - {h};
      }
    }

    /** `OnBlocksFinalized`: remove every stale bundle from the cache and from the index. */
    method OnBlocksFinalized(finalizedBlocks: seq<Header>)
      requires Valid()
      requires |finalizedBlocks| > 0
      modifies this, bundles
      ensures Valid()
      ensures var stale := StaleSet(old(bundles.buckets), MaxNumber(finalizedBlocks), MaxTimestamp(finalizedBlocks));
        && bundles.buckets == RemoveAll(old(bundles.buckets), stale)
        && simulatedBundles == DropAll(old(simulatedBundles), stale)
      ensures simulatorCalls == old(simulatorCalls) && bestBlockNumber == old(bestBlockNumber)
    {
      var maxNumber := MaxNumber(finalizedBlocks);
      var maxTimestamp := MaxTimestamp(finalizedBlocks);
      var snapshot := bundles.GetSnapshot();
      ghost var buckets0 := bundles.buckets;
      ghost var cache0 := simulatedBundles;
      RemoveNothing(buckets0, cache0);
      assert StaleIn(snapshot[..0], maxNumber, maxTimestamp) == {};
      for i := 0 to |snapshot|
        invariant Valid()
        invariant bundles.buckets == RemoveAll(buckets0, StaleIn(snapshot[..i], maxNumber, maxTimestamp))
        invariant simulatedBundles == DropAll(cache0, StaleIn(snapshot[..i], maxNumber, maxTimestamp))
        invariant simulatorCalls == old(simulatorCalls) && bestBlockNumber == old(bestBlockNumber)
      {
        ghost var removed := StaleIn(snapshot[..i], maxNumber, maxTimestamp);
        assert snapshot[..i + 1] == snapshot[..i] + [snapshot[i]];
        var bundle := snapshot[i];
        if IsStale(bundle, maxNumber, maxTimestamp) {
          assert StaleIn(snapshot[..i + 1], maxNumber, maxTimestamp) == removed + {bundle};
          RemoveBundle(bundle);
          DropAllTwice(cache0, removed, {bundle});
          RemoveAllTwice(buckets0, removed, {bundle});
        } else {
          assert StaleIn(snapshot[..i + 1], maxNumber, maxTimestamp) == removed;
        }
      }
      assert snapshot[..|snapshot|] == snapshot;
      SnapshotStale(snapshot, buckets0, maxNumber, maxTimestamp);
    }

    /** One pass of the removal loop: the bundle's contexts, then the bundle itself. */
    method RemoveBundle(bundle: Bundle)
      requires Valid()
      modifies this, bundles
      ensures Valid()
      ensures bundles.buckets == RemoveAll(old(bundles.buckets), {bundle})
      ensures simulatedBundles == DropAll(old(simulatedBundles), {bundle})
      ensures simulatorCalls == old(simulatorCalls) && bestBlockNumber == old(bestBlockNumber)
    {
      RemoveContexts(bundle);
      var _ := bundles.TryRemove(bundle);
    }
  }

  /** The stale bundles among `bundles`. */
  ghost function StaleIn(bundles: seq<Bundle>, maxFinalizedNumber: int, maxFinalizedTimestamp: UInt256): set<Bundle> {
    set b | b in bundles && IsStale(b, maxFinalizedNumber, maxFinalizedTimestamp)
  }

  lemma SnapshotStale(snapshot: seq<Bundle>, buckets: Buckets, maxFinalizedNumber: int, maxFinalizedTimestamp: UInt256)
    requires forall b :: b in snapshot <==> Stored(buckets, b)
    ensures StaleIn(snapshot, maxFinalizedNumber, maxFinalizedTimestamp)
         == StaleSet(buckets, maxFinalizedNumber, maxFinalizedTimestamp)
  {
    forall b | b in StaleIn(snapshot, maxFinalizedNumber, maxFinalizedTimestamp)
      ensures b in StaleSet(buckets, maxFinalizedNumber, maxFinalizedTimestamp)
    {
      assert Stored(buckets, b);
      assert b.blockNumber in buckets && b in buckets[b.blockNumber];
    }
  }

  lemma RemoveNothing(buckets: Buckets, cache: Cache)
    ensures RemoveAll(buckets, {}) == buckets
    ensures DropAll(cache, {}) == cache
  {
    forall n | n in buckets ensures Except(buckets[n], {}) == buckets[n] {
      ExceptNothing(buckets[n], {});
    }
    forall h | h in cache ensures cache[h] - {} == cache[h] { }
  }

  /** The cache part-way through `RemoveContexts`: the parent hashes still `pending` keep
      their inner maps, the others have lost the context of `bundle`. */
  ghost function Dropping(start: Cache, pending: set<Hash>, bundle: Bundle): Cache {
    map h | h in start :: if h in pending then start[h] else start[h] - {bundle}
  }

  lemma DroppingBounds(start: Cache, bundle: Bundle)
    ensures Dropping(start, start.Keys, bundle) == start
    ensures Dropping(start, {}, bundle) == DropAll(start, {bundle})
  {
  }

  lemma DroppingStep(start: Cache, pending: set<Hash>, bundle: Bundle, h: Hash)
    requires h in pending && pending <= start.Keys
    ensures Dropping(start, pending - {h}, bundle) == Dropping(start, pending, bundle)[h := start[h] - {bundle}]
  {
  }

  lemma DropOneConsistent(s: CacheState, h: Hash, bundle: Bundle)
    requires Consistent(s) && h in s.cache
    ensures Consistent(CacheState(s.cache[h := s.cache[h] - {bundle}], s.calls))
  {
    var c := s.cache[h := s.cache[h] - {bundle}];
    forall h', b | HasContext(c, h', b) ensures OwnsCall(c[h'][b], s.calls, h', b) {
      assert HasContext(s.cache, h', b);
    }
  }

  /** The first header found for the hashes of a level, in level order. */
  function FirstHeader(hashes: seq<Hash>, findHeader: Hash -> Option<Header>): (r: Option<Header>)
    ensures r.None? <==> forall i :: 0 <= i < |hashes| ==> findHeader(hashes[i]).None?
    ensures r.Some? ==> exists i :: 0 <= i < |hashes| && findHeader(hashes[i]) == r
  {
    if hashes == [] then None
    else if findHeader(hashes[0]).Some? then findHeader(hashes[0])
    else FirstHeader(hashes[1..], findHeader)
  }

  lemma {:induction false} FirstHeaderAt(hashes: seq<Hash>, findHeader: Hash -> Option<Header>, i: nat)
    requires i <= |hashes|
    requires forall j :: 0 <= j < i ==> findHeader(hashes[j]).None?
    ensures i < |hashes| && findHeader(hashes[i]).Some? ==> FirstHeader(hashes, findHeader) == findHeader(hashes[i])
    ensures i == |hashes| ==> FirstHeader(hashes, findHeader).None?
  {
    if i > 0 {
      FirstHeaderAt(hashes[1..], findHeader, i - 1);
    }
  }

  /** The parent `TrySimulateBundle` simulates against: the first header found on the
      level of the block before `blockNumber`. */
  function ParentFor(chain: Chain, blockNumber: int): (r: Option<Header>)
    ensures chain.findLevel(blockNumber - 1).None? ==> r.None?
    ensures chain.findLevel(blockNumber - 1).Some? ==>
      var level := chain.findLevel(blockNumber - 1).value;
      && (r.Some? ==> exists i :: 0 <= i < |level| && chain.findHeader(level[i]) == r)
      && (r.None? <==> forall i :: 0 <= i < |level| ==> chain.findHeader(level[i]).None?)
  {
    match chain.findLevel(blockNumber - 1)
    case None => None
    case Some(hashes) => FirstHeader(hashes, chain.findHeader)
  }
}
