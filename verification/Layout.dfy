/** How the machine store holds a history of groups: the objects of group `k`
    occupy consecutive addresses, and the tables hold the newest group of each
    slot. */
module Layout {
  import opened Lcg
  import opened Machine
  import opened Families
  import opened Fragments

  /** First address of group `k`. */
  function Base(family: Family, k: nat): (a: nat)
  {
    match family
    case MutableStruct => k
    case ReferenceCycle => 2 * k
    case NumericArray => k
    case ReferenceArray => 3 * k
  }

  function NodeObject(value: u32, next: nat): (o: Object) { Struct(0, [I32(value), Addr(next)]) }

  function CellValues(cells: seq<u32>): (r: seq<Val>)
    ensures |r| == |cells|
  {
    seq(|cells|, k requires 0 <= k < |cells| => I32(cells[k]))
  }

  function EdgeValues(base: nat, edges: seq<bool>): (r: seq<Val>)
    ensures |r| == |edges|
  {
    seq(|edges|, k requires 0 <= k < |edges| => Addr(if edges[k] then base + 1 else base))
  }

  /** The objects of one group placed at `base`: A and B point at each other and
      every array element is one of the two. */
  ghost predicate GroupAt(heap: seq<Object>, base: nat, g: Group)
  {
    match g
    case One(a) => base < |heap| && heap[base] == Struct(0, [I32(a)])
    case Pair(a, b) =>
      base + 1 < |heap| && heap[base] == NodeObject(a, base + 1) && heap[base + 1] == NodeObject(b, base)
    case Numbers(cells) => base < |heap| && heap[base] == Array(0, CellValues(cells))
    case Linked(a, b, edges) =>
      && base + 2 < |heap|
      && heap[base] == NodeObject(a, base + 1) && heap[base + 1] == NodeObject(b, base)
      && heap[base + 2] == Array(1, EdgeValues(base, edges))
  }

  ghost predicate HeapHolds(family: Family, heap: seq<Object>, groups: seq<Group>)
  {
    && |heap| == Base(family, |groups|)
    && forall k :: 0 <= k < |groups| ==> GroupAt(heap, Base(family, k), groups[k])
  }

  /** The reference table 0 holds for group `k`: the array if there is one, else node A. */
  function RootAddress(family: Family, k: nat): (a: nat)
  {
    if family.ReferenceArray? then 3 * k + 2 else Base(family, k)
  }

  ghost predicate TablesHold(family: Family, tables: seq<seq<Val>>, count: nat)
  {
    && |tables| == TableCount(family)
    && (forall t :: 0 <= t < |tables| ==> |tables[t]| == ROOTS)
    && (forall j :: 0 <= j < ROOTS && j < count ==> tables[0][j] == Addr(RootAddress(family, Owner(count, j))))
    && (family.ReferenceArray? ==>
          forall j :: 0 <= j < ROOTS && j < count ==> tables[1][j] == Addr(Base(family, Owner(count, j))))
  }

  ghost predicate StoreHolds(family: Family, store: Store, groups: seq<Group>)
  {
    HeapHolds(family, store.heap, groups) && TablesHold(family, store.tables, |groups|)
  }

  /** Appending a group extends the heap. */
  lemma {:induction false} HeapAppend(family: Family, heap: seq<Object>, heap': seq<Object>, groups: seq<Group>,
                                      g: Group)
    requires HeapHolds(family, heap, groups) && heap <= heap' && |heap'| == |heap| + PerCreated(family)
    requires GroupAt(heap', |heap|, g) && Shaped(family, g)
    requires forall k :: 0 <= k < |groups| ==> Shaped(family, groups[k])
    ensures HeapHolds(family, heap', groups + [g])
  {
    var groups' := groups + [g];
    forall k | 0 <= k < |groups'| ensures GroupAt(heap', Base(family, k), groups'[k]) {
      if k < |groups| {
        assert GroupAt(heap, Base(family, k), groups[k]);
      }
    }
  }

  /** Rewriting the objects of one group leaves the others as they were. */
  lemma {:induction false} HeapUpdate(family: Family, heap: seq<Object>, heap': seq<Object>, groups: seq<Group>, k: nat,
                                      g: Group)
    requires HeapHolds(family, heap, groups) && |heap'| == |heap| && k < |groups|
    requires forall k :: 0 <= k < |groups| ==> Shaped(family, groups[k])
    requires Shaped(family, g) && GroupAt(heap', Base(family, k), g)
    requires forall a :: 0 <= a < |heap| && !(Base(family, k) <= a < Base(family, k) + PerCreated(family)) ==>
      heap'[a] == heap[a]
    ensures HeapHolds(family, heap', groups[k := g])
  {
    var groups' := groups[k := g];
    forall j | 0 <= j < |groups'| ensures GroupAt(heap', Base(family, j), groups'[j]) {
      if j != k {
        assert GroupAt(heap, Base(family, j), groups[j]);
      }
    }
  }

  lemma {:induction false} TablesAppend(family: Family, tables: seq<seq<Val>>, tables': seq<seq<Val>>, count: nat)
    requires TablesHold(family, tables, count) && |tables'| == |tables|
    requires tables'[0] == tables[0][count % ROOTS := Addr(RootAddress(family, count))]
    requires family.ReferenceArray? ==> tables'[1] == tables[1][count % ROOTS := Addr(Base(family, count))]
    ensures TablesHold(family, tables', count + 1)
  {
    forall j | 0 <= j < ROOTS && j < count + 1
      ensures tables'[0][j] == Addr(RootAddress(family, Owner(count + 1, j)))
      ensures family.ReferenceArray? ==> tables'[1][j] == Addr(Base(family, Owner(count + 1, j)))
    {
      OwnerStep(count, j);
    }
  }
}
