/** An object store seen only through what its clients can check: opaque tokens,
    scalar and edge fields, and an explicit collection over given roots. */
module ObjectStore {
  import opened Wrappers
  import opened Lcg

  /** A reference names a token; it grants no access by itself. */
  datatype Reference = Null | Ref(token: nat)

  /** The store that made an object, and the index of its type there. */
  datatype Home = Home(owner: nat, index: nat)

  datatype Object = Scalar(bits: u32, home: Home := Home(0, 0)) | Holder(edge: Reference, home: Home := Home(0, 0))

  function Edge(o: Object): (r: Reference) { if o.Holder? then o.edge else Null }

  // ----- Reachability -----

  /** The object `k` edges away from `r`. */
  function Follow(objects: map<nat, Object>, r: Reference, k: nat): (r': Reference)
    decreases k
  {
    if r.Null? || r.token !in objects then Null
    else if k == 0 then r
    else Follow(objects, Edge(objects[r.token]), k - 1)
  }

  ghost predicate ReachedFrom(objects: map<nat, Object>, r: Reference, t: nat)
  {
    exists k: nat :: Follow(objects, r, k) == Ref(t)
  }

  /** Tokens reachable from some root. */
  ghost predicate Reached(objects: map<nat, Object>, roots: seq<Reference>, t: nat)
  {
    exists i :: 0 <= i < |roots| && ReachedFrom(objects, roots[i], t)
  }

  ghost function Reachable(objects: map<nat, Object>, roots: seq<Reference>): (s: set<nat>)
    ensures s <= objects.Keys
  {
    set t | t in objects && Reached(objects, roots, t)
  }

  /** Every root names a live object. */
  predicate Resolvable(objects: map<nat, Object>, roots: seq<Reference>)
  {
    forall i :: 0 <= i < |roots| && roots[i].Ref? ==> roots[i].token in objects
  }

  ghost predicate ClosedSet(objects: map<nat, Object>, s: set<nat>)
  {
    forall t :: t in s && t in objects && Edge(objects[t]).Ref? ==> Edge(objects[t]).token in s
  }

  ghost predicate HasRoots(roots: seq<Reference>, s: set<nat>)
  {
    forall i :: 0 <= i < |roots| && roots[i].Ref? ==> roots[i].token in s
  }

  lemma {:induction false} FollowStays(objects: map<nat, Object>, r: Reference, k: nat, s: set<nat>)
    requires ClosedSet(objects, s) && (r.Ref? ==> r.token in s)
    ensures Follow(objects, r, k).Ref? ==> Follow(objects, r, k).token in s
    decreases k
  {
    if r.Ref? && r.token in objects && k > 0 {
      FollowStays(objects, Edge(objects[r.token]), k - 1, s);
    }
  }

  /** Reachability is the least set that has the roots and is closed under edges. */
  lemma {:induction false} ReachableIsLeast(objects: map<nat, Object>, roots: seq<Reference>, s: set<nat>)
    requires ClosedSet(objects, s) && HasRoots(roots, s)
    ensures Reachable(objects, roots) <= s
  {
    forall t | t in Reachable(objects, roots) ensures t in s {
      var i :| 0 <= i < |roots| && ReachedFrom(objects, roots[i], t);
      var k: nat :| Follow(objects, roots[i], k) == Ref(t);
      FollowStays(objects, roots[i], k, s);
    }
  }

  lemma {:induction false} RootReached(objects: map<nat, Object>, roots: seq<Reference>, i: nat)
    requires i < |roots| && roots[i].Ref? && roots[i].token in objects
    ensures Reached(objects, roots, roots[i].token)
  {
    assert Follow(objects, roots[i], 0) == Ref(roots[i].token);
    assert ReachedFrom(objects, roots[i], roots[i].token);
  }

  lemma {:induction false} FollowNext(objects: map<nat, Object>, r: Reference, k: nat)
    ensures var o := Follow(objects, r, k);
            o.Ref? ==> o.token in objects && Follow(objects, r, k + 1) == Follow(objects, Edge(objects[o.token]), 0)
    decreases k
  {
    if r.Ref? && r.token in objects && k > 0 {
      FollowNext(objects, Edge(objects[r.token]), k - 1);
    }
  }

  lemma {:induction false} EdgeReached(objects: map<nat, Object>, roots: seq<Reference>, t: nat)
    requires Reached(objects, roots, t) && t in objects
    ensures var e := Edge(objects[t]); e.Ref? && e.token in objects ==> Reached(objects, roots, e.token)
  {
    var i :| 0 <= i < |roots| && ReachedFrom(objects, roots[i], t);
    var k: nat :| Follow(objects, roots[i], k) == Ref(t);
    FollowNext(objects, roots[i], k);
    var e := Edge(objects[t]);
    if e.Ref? && e.token in objects {
      assert Follow(objects, roots[i], k + 1) == Ref(e.token);
      assert ReachedFrom(objects, roots[i], e.token);
    }
  }

  /** A closed set with the roots and nothing unreached is the reachable set. */
  lemma {:induction false} ReachableIs(objects: map<nat, Object>, roots: seq<Reference>, s: set<nat>)
    requires ClosedSet(objects, s) && HasRoots(roots, s)
    requires forall t :: t in s ==> t in objects && Reached(objects, roots, t)
    ensures Reachable(objects, roots) == s
  {
    ReachableIsLeast(objects, roots, s);
  }

  // ----- The store -----

  class Store {
    var objects: map<nat, Object>
    var issued: nat

    /** The most objects the store has held at any time. */
    ghost var peak: nat

    constructor ()
      ensures Valid() && objects == map[] && issued == 0 && peak == 0
    {
      objects, issued := map[], 0;
      peak := 0;
    }

    /** Live tokens have been issued and edges lead to live objects. */
    ghost predicate Valid()
      reads this
    {
      && (forall t :: t in objects ==> t < issued)
      && ClosedSet(objects, objects.Keys) && |objects| <= peak
    }

    /** A fresh object; its token was never issued before. */
    method New(o: Object) returns (r: Result<Reference>)
      requires Valid()
      modifies this
      ensures Valid() && peak == if |objects| > old(peak) then |objects| else old(peak)
      ensures if Edge(o).Ref? && Edge(o).token !in old(objects)
        then r.Failure? && objects == old(objects) && issued == old(issued)
        else r == Success(Ref(old(issued))) && issued == old(issued) + 1 && objects == old(objects)[old(issued) := o]
    {
      var e := Edge(o);
      if e.Ref? && e.token !in objects {
        return Failure("invalid_reference");
      }
      objects := objects[issued := o];
      peak := if |objects| > peak then |objects| else peak;
      r := Success(Ref(issued));
      issued := issued + 1;
    }

    /** A retired or foreign token is rejected, never dereferenced. */
    method Get(r: Reference) returns (o: Result<Object>)
      ensures o == if r.Ref? && r.token in objects then Success(objects[r.token]) else Failure("invalid_reference")
    {
      if r.Null? || r.token !in objects {
        return Failure("invalid_reference");
      }
      o := Success(objects[r.token]);
    }

    method Set(r: Reference, o: Object) returns (ok: bool)
      requires Valid()
      modifies this
      ensures Valid() && issued == old(issued) && peak == old(peak)
      ensures ok == (r.Ref? && r.token in old(objects) && (Edge(o).Ref? ==> Edge(o).token in old(objects)))
      ensures objects == if ok then old(objects)[r.token := o] else old(objects)
    {
      var e := Edge(o);
      if r.Null? || r.token !in objects || (e.Ref? && e.token !in objects) {
        return false;
      }
      objects := objects[r.token := o];
      ok := true;
    }

    /** Marks everything reachable from the roots, following one edge at a time. */
    method Mark(roots: seq<Reference>) returns (marked: set<nat>)
      requires Valid() && Resolvable(objects, roots)
      ensures marked == Reachable(objects, roots) && ClosedSet(objects, marked)
    {
      hide Reached;
      marked := {};
      for i := 0 to |roots|
        invariant ClosedSet(objects, marked) && HasRoots(roots[..i], marked)
        invariant forall t :: t in marked ==> t in objects && Reached(objects, roots, t)
      {
        if roots[i].Ref? {
          RootReached(objects, roots, i);
          marked := MarkFrom(roots, roots[i], marked);
        }
      }
      assert roots[..|roots|] == roots;
      ReachableIs(objects, roots, marked);
    }

    method MarkFrom(ghost roots: seq<Reference>, start: Reference, marked: set<nat>) returns (marked': set<nat>)
      requires Valid() && start.Ref? && start.token in objects && Reached(objects, roots, start.token)
      requires ClosedSet(objects, marked) && forall t :: t in marked ==> t in objects && Reached(objects, roots, t)
      ensures ClosedSet(objects, marked') && marked <= marked' && start.token in marked'
      ensures forall t :: t in marked' ==> t in objects && Reached(objects, roots, t)
    {
      hide Reached;
      marked' := marked;
      var cursor := start;
      while cursor.Ref? && cursor.token !in marked'
        invariant cursor.Ref? ==> cursor.token in objects && Reached(objects, roots, cursor.token)
        invariant marked <= marked' && (start.token in marked' || cursor == start)
        invariant forall t :: t in marked' ==> t in objects && Reached(objects, roots, t)
        invariant forall t :: t in marked' && Edge(objects[t]).Ref? ==>
          Edge(objects[t]).token in marked' || Edge(objects[t]) == cursor
        decreases objects.Keys - marked'
      {
        EdgeReached(objects, roots, cursor.token);
        marked' := marked' + {cursor.token};
        cursor := Edge(objects[cursor.token]);
      }
    }

    /** Removes exactly the unreachable objects; a root that does not resolve leaves
        everything as it was. */
    method Collect(roots: seq<Reference>) returns (r: Result<nat>)
      requires Valid()
      modifies this
      ensures Valid() && issued == old(issued) && peak == old(peak)
      ensures if Resolvable(old(objects), roots)
        then objects == (map t | t in Reachable(old(objects), roots) :: old(objects)[t])
             && r == Success(|old(objects)| - |objects|)
        else r.Failure? && objects == old(objects)
    {
      hide Reachable;
      if i :| 0 <= i < |roots| && roots[i].Ref? && roots[i].token !in objects {
        return Failure("invalid_reference");
      }
      var before := objects;
      var marked := Mark(roots);
      objects := map t | t in marked :: before[t];
      MapSizes(before, objects);
      r := Success(|before| - |objects|);
    }
  }

  lemma {:induction false} MapSizes(m: map<nat, Object>, n: map<nat, Object>)
    requires n.Keys <= m.Keys
    ensures |n| <= |m|
  {
    SubsetSize(n.Keys, m.Keys);
  }

  lemma {:induction false} SubsetSize(s: set<nat>, t: set<nat>)
    requires s <= t
    ensures |s| <= |t|
    decreases |s|
  {
    if s != {} {
      var x :| x in s;
      SubsetSize(s - {x}, t - {x});
    }
  }
}
