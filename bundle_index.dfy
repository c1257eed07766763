/** The bucketed bundle store the pool keeps its bundles in (`BundleSortedPool`), modelled
    abstractly: one bucket of bundles per target block number. */
module BundleIndex {
  import opened Common
  import opened MevBundles

  type Buckets = map<int, seq<Bundle>>

  /** The bucket for block `n`; a missing bucket reads as empty. */
  function BucketOf(buckets: Buckets, n: int): seq<Bundle> {
    if n in buckets then buckets[n] else []
  }

  /** `b` is stored, in the bucket of its own target block. */
  predicate Stored(buckets: Buckets, b: Bundle) {
    b in BucketOf(buckets, b.blockNumber)
  }

  /** Every bucket holds distinct bundles that all target that bucket's block. */
  ghost predicate WellFormed(buckets: Buckets) {
    forall n :: n in buckets ==>
      NoDuplicates(buckets[n]) && forall b :: b in buckets[n] ==> b.blockNumber == n
  }

  /** `s` without the bundles of `drop`, order kept. */
  function Except(s: seq<Bundle>, drop: set<Bundle>): (r: seq<Bundle>)
    ensures forall b :: b in r <==> b in s && b !in drop
    ensures |r| <= |s|
    ensures NoDuplicates(s) ==> NoDuplicates(r)
  {
    if s == [] then []
    else (if s[0] in drop then [] else [s[0]]) + Except(s[1..], drop)
  }

  lemma {:induction false} ExceptNothing(s: seq<Bundle>, drop: set<Bundle>)
    requires forall b :: b in s ==> b !in drop
    ensures Except(s, drop) == s
  {
    if s != [] {
      ExceptNothing(s[1..], drop);
      assert s == [s[0]] + s[1..];
    }
  }

  lemma {:induction false} ExceptTwice(s: seq<Bundle>, first: set<Bundle>, second: set<Bundle>)
    ensures Except(Except(s, first), second) == Except(s, first + second)
  {
    if s != [] {
      ExceptTwice(s[1..], first, second);
      if s[0] in first {
        assert Except(s, first) == Except(s[1..], first);
      } else {
        assert Except(s, first) == [s[0]] + Except(s[1..], first);
        assert Except(s, first)[1..] == Except(s[1..], first);
      }
    }
  }

  /** The buckets with `b` appended to the bucket of its block. */
  function Insert(buckets: Buckets, b: Bundle): (r: Buckets)
    ensures Stored(r, b)
    ensures forall x :: Stored(r, x) <==> Stored(buckets, x) || x == b
    ensures r.Keys == buckets.Keys + {b.blockNumber}
  {
    buckets[b.blockNumber := BucketOf(buckets, b.blockNumber) + [b]]
  }

  /** The buckets with every bundle of `drop` taken out; no bucket is dropped. */
  function RemoveAll(buckets: Buckets, drop: set<Bundle>): (r: Buckets)
    ensures r.Keys == buckets.Keys
    ensures forall x :: Stored(r, x) <==> Stored(buckets, x) && x !in drop
  {
    map n | n in buckets :: Except(buckets[n], drop)
  }

  lemma RemoveAllTwice(buckets: Buckets, first: set<Bundle>, second: set<Bundle>)
    ensures RemoveAll(RemoveAll(buckets, first), second) == RemoveAll(buckets, first + second)
  {
    forall n | n in buckets
      ensures RemoveAll(RemoveAll(buckets, first), second)[n] == RemoveAll(buckets, first + second)[n]
    {
      ExceptTwice(buckets[n], first, second);
    }
  }

  /** Taking out one bundle changes only the bucket of its block. */
  lemma RemoveOne(buckets: Buckets, b: Bundle)
    requires WellFormed(buckets)
    ensures RemoveAll(buckets, {b})
         == if b.blockNumber in buckets
            then buckets[b.blockNumber := Except(buckets[b.blockNumber], {b})]
            else buckets
  {
    forall n | n in buckets && n != b.blockNumber ensures Except(buckets[n], {b}) == buckets[n] {
      ExceptNothing(buckets[n], {b});
    }
  }

  /** `BundleSortedPool`: bundles grouped into buckets by target block. */
  class BundleSortedPool {
    var buckets: Buckets

    ghost predicate Valid()
      reads this
    {
      WellFormed(buckets)
    }

    predicate Contains(b: Bundle)
      reads this
    {
      Stored(buckets, b)
    }

    constructor ()
      ensures Valid() && buckets == map[]
    {
      buckets := map[];
    }

    /** `TryInsert`: a bundle already stored is not inserted again. */
    method TryInsert(b: Bundle) returns (inserted: bool)
      requires Valid()
      modifies this
      ensures Valid()
      ensures inserted == !old(Contains(b))
      ensures buckets == if inserted then Insert(old(buckets), b) else old(buckets)
    {
      inserted := !Contains(b);
      if inserted {
        var bucket := BucketOf(buckets, b.blockNumber);
        buckets := Insert(buckets, b);
        assert buckets[b.blockNumber] == bucket + [b];
      }
    }

    /** `TryRemove`: takes the bundle out of its bucket, reporting whether it was there. */
    method TryRemove(b: Bundle) returns (removed: bool)
      requires Valid()
      modifies this
      ensures Valid()
      ensures removed == old(Contains(b))
      ensures buckets == RemoveAll(old(buckets), {b})
    {
      RemoveOne(buckets, b);
      removed := Contains(b);
      if b.blockNumber in buckets {
        buckets := buckets[b.blockNumber := Except(buckets[b.blockNumber], {b})];
      }
    }

    /** `TryGetBucket`: the bucket for block `n`, if there is one. */
    method TryGetBucket(n: int) returns (found: bool, bucket: seq<Bundle>)
      requires Valid()
      ensures found <==> n in buckets
      ensures found ==> bucket == buckets[n]
      ensures forall b :: b in bucket ==> b.blockNumber == n && Contains(b)
    {
      found := n in buckets;
      bucket := BucketOf(buckets, n);
    }

    /** `GetSnapshot`: every stored bundle, each once. */
    method GetSnapshot() returns (snapshot: seq<Bundle>)
      requires Valid()
      ensures forall b :: b in snapshot <==> Contains(b)
      ensures NoDuplicates(snapshot)
    {
      snapshot := [];
      var pending := buckets.Keys;
      while pending != {}
        invariant pending <= buckets.Keys
        invariant forall b :: b in snapshot <==> Stored(buckets, b) && b.blockNumber !in pending
        invariant NoDuplicates(snapshot)
        decreases pending
      {
        var n := Pick(pending);
        var bucket := buckets[n];
        NoDuplicatesConcat(snapshot, bucket);
        snapshot := snapshot + bucket;
        pending := pending - {n};
      }
    }
  }
}
