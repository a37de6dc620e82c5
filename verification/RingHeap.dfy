/** A heap of scalars whose live tokens form an interval: what both ring programs
    keep between collections. */
module RingHeap {
  import opened Wrappers
  import opened Lcg
  import opened ObjectStore

  function Range(lo: nat, hi: nat): (s: set<nat>)
    ensures forall t :: t in s <==> lo <= t < hi
    decreases hi
  {
    if lo >= hi then {} else Range(lo, hi - 1) + {hi - 1}
  }

  lemma {:induction false} RangeUnfolds(lo: nat, hi: nat)
    ensures Range(lo, hi) == if lo >= hi then {} else Range(lo, hi - 1) + {hi - 1}
  {
  }

  lemma {:induction false} RangeSize(lo: nat, hi: nat)
    requires lo <= hi
    ensures |Range(lo, hi)| == hi - lo
    decreases hi - lo
  {
    RangeUnfolds(lo, hi);
    hide Range;
    if lo < hi {
      RangeSize(lo, hi - 1);
    }
  }

  /** Object `t` is the `t`-th made and holds the state of its step. */
  ghost predicate Contents(objects: map<nat, Object>, lo: nat, hi: nat)
  {
    objects.Keys == Range(lo, hi) && forall t :: lo <= t < hi ==> objects[t] == Scalar(Iterate(SEED, t + 1))
  }

  lemma {:induction false} ContentsNew(objects: map<nat, Object>, lo: nat, hi: nat)
    requires lo <= hi && Contents(objects, lo, hi)
    ensures Contents(objects[hi := Scalar(Iterate(SEED, hi + 1))], lo, hi + 1)
  {
    hide Range; hide Iterate;
  }

  /** The roots are exactly the tokens of an interval. */
  ghost predicate Cover(roots: seq<Reference>, lo: nat, hi: nat)
  {
    && (forall i :: 0 <= i < |roots| && roots[i].Ref? ==> lo <= roots[i].token < hi)
    && forall t :: lo <= t < hi ==> Ref(t) in roots
  }

  /** Collecting an interval of scalars under roots that cover its upper part. */
  lemma {:induction false} IntervalReachable(objects: map<nat, Object>, roots: seq<Reference>, lo: nat, mid: nat,
                                             hi: nat)
    requires objects.Keys == Range(lo, hi) && (forall t :: t in objects ==> objects[t].Scalar?)
    requires lo <= mid <= hi && Cover(roots, mid, hi)
    ensures Resolvable(objects, roots) && Reachable(objects, roots) == Range(mid, hi)
    ensures |objects| == hi - lo && |Range(mid, hi)| == hi - mid
  {
    hide Range;
    hide Reachable; hide Reached;
    RangeSize(lo, hi);
    RangeSize(mid, hi);
    assert |objects| == |objects.Keys|;
    forall t | t in Range(mid, hi) ensures t in objects && Reached(objects, roots, t) {
      var i :| 0 <= i < |roots| && roots[i] == Ref(t);
      RootReached(objects, roots, i);
    }
    ReachableIs(objects, roots, Range(mid, hi));
  }

  /** A collection that keeps exactly the covered interval. */
  method CollectTo(store: Store, roots: seq<Reference>, ghost lo: nat, ghost mid: nat, ghost hi: nat)
    returns (r: Result<nat>)
    requires store.Valid() && Contents(store.objects, lo, hi) && lo <= mid <= hi && Cover(roots, mid, hi)
    modifies store
    ensures store.Valid() && store.issued == old(store.issued) && store.peak == old(store.peak)
    ensures Contents(store.objects, mid, hi)
    ensures r == Success(mid - lo)
  {
    hide Range;
    hide Reachable; hide Cover;
    IntervalReachable(store.objects, roots, lo, mid, hi);
    r := store.Collect(roots);
    assert store.objects.Keys == Range(mid, hi);
    assert |store.objects| == |store.objects.Keys|;
  }
}
