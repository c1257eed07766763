/** An MEV bundle and the total order `MevBundleComparer` defines over bundles. */
module MevBundles {
  import opened Common

  /** A bundle: the block it targets, a timestamp window (0 meaning "no bound" on that side)
      and the hashes of its transactions, in order. Two bundles are the same bundle iff
      all four parts are equal. */
  datatype Bundle = Bundle(
    blockNumber: int,
    minTimestamp: UInt256,
    maxTimestamp: UInt256,
    txHashes: seq<Hash>)

  /** The loop over transaction positions in `MevBundleComparer.Compare`: the first position
      where the hashes differ decides; a sequence that runs out first sorts first. */
  function CompareHashes(xs: seq<Hash>, ys: seq<Hash>): (r: int)
    ensures -1 <= r <= 1
  {
    if |xs| == 0 && |ys| == 0 then 0
    else if |xs| == 0 then -1
    else if |ys| == 0 then 1
    else if xs[0] != ys[0] then CompareTo(xs[0], ys[0])
    else CompareHashes(xs[1..], ys[1..])
  }

  /** `MevBundleComparer.Compare` on two bundles: block number ascending, then minimum
      timestamp ascending, then maximum timestamp descending, then transaction hashes. */
  function CompareBundles(x: Bundle, y: Bundle): (r: int)
    ensures -1 <= r <= 1
  {
    var byBlock := CompareTo(x.blockNumber, y.blockNumber);
    if byBlock != 0 then byBlock
    else
      var byMin := CompareTo(x.minTimestamp, y.minTimestamp);
      if byMin != 0 then byMin
      else
        var byMax := CompareTo(y.maxTimestamp, x.maxTimestamp);
        if byMax != 0 then byMax
        else CompareHashes(x.txHashes, y.txHashes)
  }

  /** `MevBundleComparer.Compare` with its null handling: equal references compare equal,
      null sorts before everything else. */
  function Compare(x: Option<Bundle>, y: Option<Bundle>): (r: int)
    ensures -1 <= r <= 1
    ensures x.None? && y.None? ==> r == 0
    ensures x.None? && y.Some? ==> r == -1
    ensures x.Some? && y.None? ==> r == 1
  {
    match (x, y)
    case (None, None) => 0
    case (_, None) => 1
    case (None, _) => -1
    case (Some(a), Some(b)) => CompareBundles(a, b)
  }

  // ---------------------------------------------------------------------------
  // An independent description of the order, to compare the comparer against.

  /** `xs` and `ys` agree on their first `k` hashes and `xs` is smaller at position `k`,
      either because it ends there while `ys` goes on, or because its hash there is smaller. */
  predicate DivergesBelow(xs: seq<Hash>, ys: seq<Hash>, k: nat) {
    && k <= |xs| && k <= |ys|
    && xs[..k] == ys[..k]
    && ((k == |xs| && k < |ys|) || (k < |xs| && k < |ys| && xs[k] < ys[k]))
  }

  /** Lexicographic order on hash sequences, a strict prefix first. */
  ghost predicate HashesPrecede(xs: seq<Hash>, ys: seq<Hash>) {
    exists k: nat :: DivergesBelow(xs, ys, k)
  }

  /** The intended key order on bundles. */
  ghost predicate Precedes(x: Bundle, y: Bundle) {
    || x.blockNumber < y.blockNumber
    || (x.blockNumber == y.blockNumber && x.minTimestamp < y.minTimestamp)
    || (x.blockNumber == y.blockNumber && x.minTimestamp == y.minTimestamp
        && x.maxTimestamp > y.maxTimestamp)
    || (x.blockNumber == y.blockNumber && x.minTimestamp == y.minTimestamp
        && x.maxTimestamp == y.maxTimestamp && HashesPrecede(x.txHashes, y.txHashes))
  }

  // ---------------------------------------------------------------------------
  // Hash sequences.

  lemma {:induction false} CompareHashesZeroIff(xs: seq<Hash>, ys: seq<Hash>)
    ensures CompareHashes(xs, ys) == 0 <==> xs == ys
  {
    if |xs| > 0 && |ys| > 0 && xs[0] == ys[0] {
      CompareHashesZeroIff(xs[1..], ys[1..]);
      assert xs == [xs[0]] + xs[1..];
      assert ys == [ys[0]] + ys[1..];
    }
  }

  lemma {:induction false} CompareHashesAntisymmetric(xs: seq<Hash>, ys: seq<Hash>)
    ensures CompareHashes(xs, ys) == -CompareHashes(ys, xs)
  {
    if |xs| > 0 && |ys| > 0 && xs[0] == ys[0] {
      CompareHashesAntisymmetric(xs[1..], ys[1..]);
    }
  }

  lemma {:induction false} CompareHashesTransitive(xs: seq<Hash>, ys: seq<Hash>, zs: seq<Hash>)
    requires CompareHashes(xs, ys) < 0 && CompareHashes(ys, zs) < 0
    ensures CompareHashes(xs, zs) < 0
  {
    if |xs| > 0 && |ys| > 0 && |zs| > 0 && xs[0] == ys[0] && ys[0] == zs[0] {
      CompareHashesTransitive(xs[1..], ys[1..], zs[1..]);
    }
  }

  /** The comparer's loop decides exactly the lexicographic order. */
  lemma {:induction false} CompareHashesNegativeIff(xs: seq<Hash>, ys: seq<Hash>)
    ensures CompareHashes(xs, ys) < 0 <==> HashesPrecede(xs, ys)
  {
    if |xs| == 0 {
      if |ys| > 0 {
        assert DivergesBelow(xs, ys, 0);
      } else {
        forall k: nat ensures !DivergesBelow(xs, ys, k) { }
      }
    } else if |ys| == 0 {
      forall k: nat ensures !DivergesBelow(xs, ys, k) { }
    } else if xs[0] != ys[0] {
      if xs[0] < ys[0] {
        assert DivergesBelow(xs, ys, 0);
      } else {
        forall k: nat | DivergesBelow(xs, ys, k) ensures false { }
      }
    } else {
      CompareHashesNegativeIff(xs[1..], ys[1..]);
      if HashesPrecede(xs[1..], ys[1..]) {
        var k: nat :| DivergesBelow(xs[1..], ys[1..], k);
        assert xs[..k + 1] == [xs[0]] + xs[1..][..k];
        assert ys[..k + 1] == [ys[0]] + ys[1..][..k];
        assert DivergesBelow(xs, ys, k + 1);
      }
      if HashesPrecede(xs, ys) {
        var k: nat :| DivergesBelow(xs, ys, k);
        assert k > 0;
        assert xs[1..][..k - 1] == xs[..k][1..];
        assert ys[1..][..k - 1] == ys[..k][1..];
        assert DivergesBelow(xs[1..], ys[1..], k - 1);
      }
    }
  }

  // ---------------------------------------------------------------------------
  // Bundles.

  /** `Compare(x, y) == 0` iff the bundles agree on every field and on every hash. */
  lemma CompareZeroIffEqual(x: Option<Bundle>, y: Option<Bundle>)
    ensures Compare(x, y) == 0 <==> x == y
  {
    if x.Some? && y.Some? {
      CompareHashesZeroIff(x.value.txHashes, y.value.txHashes);
    }
  }

  /** `sign(Compare(x, y)) == -sign(Compare(y, x))`; the comparer only returns -1, 0 or 1. */
  lemma CompareAntisymmetric(x: Option<Bundle>, y: Option<Bundle>)
    ensures -1 <= Compare(x, y) <= 1
    ensures Compare(x, y) == -Compare(y, x)
  {
    if x.Some? && y.Some? {
      CompareHashesAntisymmetric(x.value.txHashes, y.value.txHashes);
    }
  }

  lemma CompareTransitive(x: Option<Bundle>, y: Option<Bundle>, z: Option<Bundle>)
    requires Compare(x, y) < 0 && Compare(y, z) < 0
    ensures Compare(x, z) < 0
  {
    if x.Some? && y.Some? && z.Some? {
      var a, b, c := x.value, y.value, z.value;
      if a.blockNumber == b.blockNumber == c.blockNumber
        && a.minTimestamp == b.minTimestamp == c.minTimestamp
        && a.maxTimestamp == b.maxTimestamp == c.maxTimestamp
      {
        CompareHashesTransitive(a.txHashes, b.txHashes, c.txHashes);
      }
    }
  }

  /** On two bundles the comparer says "less" exactly when the key order does. */
  lemma CompareNegativeIffPrecedes(x: Bundle, y: Bundle)
    ensures Compare(Some(x), Some(y)) < 0 <==> Precedes(x, y)
  {
    CompareHashesNegativeIff(x.txHashes, y.txHashes);
  }

  /** A bundle with no upper time bound (0) sorts after an otherwise equal bundle that has one. */
  lemma UnboundedMaxSortsLast(x: Bundle, y: Bundle)
    requires x.blockNumber == y.blockNumber && x.minTimestamp == y.minTimestamp
    requires x.maxTimestamp == 0 && y.maxTimestamp != 0
    ensures Compare(Some(x), Some(y)) > 0
  {
  }

  /** A strict prefix of a transaction list sorts first. */
  lemma {:induction false} StrictPrefixSortsFirst(xs: seq<Hash>, ys: seq<Hash>)
    requires |xs| < |ys| && xs == ys[..|xs|]
    ensures CompareHashes(xs, ys) < 0
  {
    if |xs| > 0 {
      assert xs[0] == ys[0];
      assert xs[1..] == ys[1..][..|xs| - 1];
      StrictPrefixSortsFirst(xs[1..], ys[1..]);
    }
  }

  /** Exactly one of `x` before `y`, `x == y`, `y` before `x`: the comparer is a total order. */
  lemma CompareTrichotomy(x: Bundle, y: Bundle)
    ensures (Precedes(x, y) && x != y && !Precedes(y, x))
         || (!Precedes(x, y) && x == y && !Precedes(y, x))
         || (!Precedes(x, y) && x != y && Precedes(y, x))
  {
    CompareNegativeIffPrecedes(x, y);
    CompareNegativeIffPrecedes(y, x);
    CompareZeroIffEqual(Some(x), Some(y));
    CompareAntisymmetric(Some(x), Some(y));
  }
}
