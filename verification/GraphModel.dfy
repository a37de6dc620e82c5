/** The pointer-graph model: real nodes with mutable `next` references, arrays of
    references, and a check that B leads back to A whenever a group is read. */
module GraphModel {
  import opened Wrappers
  import opened Lcg
  import opened Families
  import opened Oracle

  class Node {
    var value: u32
    var next: Node?

    constructor (value: u32, next: Node?)
      ensures this.value == value && this.next == next
    {
      this.value := value;
      this.next := next;
    }
  }

  /** Two new nodes that point at each other. */
  method NewPair(value: u32) returns (a: Node, b: Node)
    ensures fresh(a) && fresh(b) && Cycle(a, b, value, Partner(value), {a, b})
  {
    a := new Node(value, null);
    b := new Node(Partner(value), a);
    a.next := b;
  }

  /** What a root slot holds. */
  datatype Root = Unset | OneNode(node: Node) | IntCells(ints: array<u32>) | NodeCells(nodes: array<Node>)

  /** A and B form a two-node cycle within `repr`. */
  ghost predicate Cycle(a: Node, b: Node?, x: u32, y: u32, repr: set<object>)
    reads repr
  {
    && a in repr && b != null && b in repr && a != b
    && a.next == b && b.next == a && a.value == x && b.value == y
  }

  /** The slot holds the group `g`, and all of its objects belong to `repr`. */
  ghost predicate GroupIs(root: Root, node: Node?, repr: set<object>, g: Group)
    reads repr
  {
    match g
    case One(a) => root.OneNode? && root.node in repr && root.node.value == a
    case Pair(a, b) => root.OneNode? && root.node in repr && Cycle(root.node, root.node.next, a, b, repr)
    case Numbers(cells) => root.IntCells? && root.ints in repr && root.ints[..] == cells
    case Linked(a, b, edges) =>
      && root.NodeCells? && root.nodes in repr && node != null && node in repr && Cycle(node, node.next, a, b, repr)
      && root.nodes.Length == |edges|
      && forall k :: 0 <= k < |edges| ==> root.nodes[k] == if edges[k] then node.next else node
  }

  lemma {:induction false} HeldIsSet(root: Root, node: Node?, repr: set<object>, g: Group)
    requires GroupIs(root, node, repr, g)
    ensures !root.Unset?
  {
  }

  // ----- Reading and writing one group -----

  /** The check every readback makes; it holds of the nodes of any held group. */
  predicate LeadsBack(a: Node, b: Node?)
    reads b
  {
    b != null && b.next == a
  }

  method SumInts(cells: array<u32>) returns (sum: nat)
    ensures sum == Sum(cells[..])
  {
    sum := 0;
    for k := 0 to cells.Length
      invariant sum == Sum(cells[..k])
    {
      assert cells[..k + 1][..k] == cells[..k];
      sum := sum + cells[k];
    }
    assert cells[..cells.Length] == cells[..];
  }

  method SumNodes(cells: array<Node>) returns (sum: nat, ghost values: seq<u32>)
    ensures |values| == cells.Length && forall k :: 0 <= k < cells.Length ==> values[k] == cells[k].value
    ensures sum == Sum(values)
  {
    sum, values := 0, [];
    for k := 0 to cells.Length
      invariant |values| == k && forall j :: 0 <= j < k ==> values[j] == cells[j].value
      invariant sum == Sum(values)
    {
      sum := sum + cells[k].value;
      values := values + [cells[k].value];
      assert values[..k] + [cells[k].value] == values;
    }
  }

  /** A is redirected to itself, read through, and restored. It fails exactly if the node A led
      to does not lead back. */
  method TouchCycle(a: Node, value: u32, ghost b: u32, ghost repr: set<object>) returns (r: Result<nat>)
    requires a in repr
    modifies a
    ensures a.next == old(a.next) && a.value == value
    ensures r.Success? <==> old(a.next != null && a.next.next == a)
    ensures old(Cycle(a, a.next, a.value, b, repr)) ==> Cycle(a, a.next, value, b, repr) && r == Success(2 * value + b)
  {
    var other := a.next;
    a.value := value;
    a.next := a;
    var observed: nat := a.value + a.next.value;
    a.next := other;
    if a.next == null {
      return Failure("no B");
    }
    observed := observed + a.next.value;
    if !LeadsBack(a, other) {
      return Failure("broken B.next=A");
    }
    return Success(observed);
  }

  method TouchInts(cells: array<u32>, state: u32, i: nat) returns (observed: nat)
    requires cells.Length == WIDTH
    modifies cells
    ensures Numbers(cells[..]) == Written(Numbers(old(cells[..])), state, i)
    ensures Wrap(observed) == Observed(Numbers(cells[..]), i)
  {
    hide Xor32;
    var selected := i % WIDTH;
    var following := (selected + 1) % WIDTH;
    cells[selected] := Xor32(state, SALT);
    cells[following] := Wrap(state + i);
    observed := cells[selected] + cells[following] + cells.Length;
  }

  /** The selected cells are redirected and read through. It fails exactly if the node A leads
      to does not lead back. */
  method TouchNodes(cells: array<Node>, a: Node, value: u32, i: nat, ghost b: u32, ghost repr: set<object>)
    returns (r: Result<nat>)
    requires cells.Length == WIDTH && {a, cells} <= repr
    modifies a, cells
    ensures a.next == old(a.next) && a.value == value
    ensures r.Success? <==> old(a.next != null && a.next.next == a)
    ensures r.Success? ==> cells[..] == old(cells[..])[i % WIDTH := a.next][(i + 1) % WIDTH := a]
    ensures old(Cycle(a, a.next, a.value, b, repr)) ==>
      Cycle(a, a.next, value, b, repr) && r == Success(b + value + WIDTH)
  {
    var other := a.next;
    a.value := value;
    if other == null {
      return Failure("no B");
    }
    var selected := i % WIDTH;
    var following := (selected + 1) % WIDTH;
    cells[selected] := other;
    cells[following] := a;
    var observed: nat := cells[selected].value + cells[following].value + cells.Length;
    if !LeadsBack(a, other) {
      return Failure("broken B.next=A");
    }
    return Success(observed);
  }

  class Graph {
    const roots: array<Root>
    const nodeRoots: array<Node?>
    var created: nat
    ghost var repr: seq<set<object>>

    constructor ()
      ensures Valid() && Holds([]) && created == 0 && fresh(roots) && fresh(nodeRoots) && Owned() == {}
    {
      roots := new Root[ROOTS](_ => Unset);
      nodeRoots := new Node?[ROOTS](_ => null);
      created := 0;
      repr := seq(ROOTS, _ => {});
    }

    /** Slots own disjoint sets of objects. */
    ghost predicate Valid()
      reads this
    {
      && roots.Length == nodeRoots.Length == |repr| == ROOTS
      && (forall i :: 0 <= i < ROOTS ==> this !in repr[i] && roots !in repr[i] && nodeRoots !in repr[i])
      && forall i, j :: 0 <= i < j < ROOTS ==> repr[i] !! repr[j]
    }

    /** All objects of all slots. */
    ghost function Owned(): (r: set<object>)
      reads this
    {
      set i, o | 0 <= i < |repr| && o in repr[i] :: o
    }

    /** Every slot holds the newest group with its index: the cycles are whole and
        every cell refers to A or B. */
    ghost predicate Holds(groups: seq<Group>)
      requires Valid()
      reads this, roots, nodeRoots, Owned()
    {
      && (forall j :: 0 <= j < ROOTS && j < |groups| ==>
          GroupIs(roots[j], nodeRoots[j], repr[j], groups[Owner(|groups|, j)]))
      && forall j :: |groups| <= j < ROOTS ==> roots[j].Unset?
    }

    /** A root stored in slot `j` with the objects it owns. */
    method Put(j: nat, root: Root, count: nat, ghost objects: set<object>)
      requires Valid() && j < ROOTS && objects !! {this, roots, nodeRoots} && objects !! Owned()
      modifies this, roots
      ensures Valid() && created == old(created) + count && repr == old(repr)[j := objects] && roots[j] == root
      ensures forall i :: 0 <= i < ROOTS && i != j ==> roots[i] == old(roots[i])
    {
      assert forall i :: 0 <= i < ROOTS ==> repr[i] <= Owned();
      roots[j] := root;
      repr := repr[j := objects];
      created := created + count;
    }

    /** A new group in slot `j`; its objects are new. */
    method Create(family: Family, j: nat, value: u32)
      requires Valid() && j < ROOTS
      modifies this, roots, nodeRoots
      ensures Valid() && created == old(created) + PerCreated(family)
      ensures fresh(repr[j]) && GroupIs(roots[j], nodeRoots[j], repr[j], Fresh(family, value))
      ensures repr == old(repr)[j := repr[j]]
      ensures forall i :: 0 <= i < ROOTS && i != j ==> roots[i] == old(roots[i]) && nodeRoots[i] == old(nodeRoots[i])
    {
      match family
      case MutableStruct =>
        var a := new Node(value, null);
        Put(j, OneNode(a), 1, {a});
      case NumericArray =>
        var cells := new u32[WIDTH](_ => value);
        Put(j, IntCells(cells), 1, {cells});
      case ReferenceCycle =>
        var a, b := NewPair(value);
        Put(j, OneNode(a), 2, {a, b});
      case ReferenceArray =>
        var a, b := NewPair(value);
        var cells := new Node[WIDTH](_ => a);
        Put(j, NodeCells(cells), 3, {a, b, cells});
        nodeRoots[j] := a;
    }

    /** The nodes of a slot check out: it is filled, an array has eight cells, and a linked A leads
        to a node that leads back. */
    ghost predicate Sound(family: Family, j: nat)
      requires j < roots.Length == nodeRoots.Length
      reads *
    {
      match roots[j]
      case Unset => false
      case OneNode(a) => family.MutableStruct? || (a.next != null && a.next.next == a)
      case IntCells(cells) => cells.Length == 8
      case NodeCells(cells) =>
        cells.Length == 8 && nodeRoots[j] != null && nodeRoots[j].next != null && nodeRoots[j].next.next == nodeRoots[j]
    }

    /** The retained checksum of slot `j`, read through the references. It fails exactly if the slot
        does not check out. */
    method RetainedAt(family: Family, j: nat, ghost g: Group) returns (r: Result<u32>)
      requires Valid() && j < ROOTS
      ensures r.Success? <==> Sound(family, j)
      ensures roots[j].Unset? ==> r == Failure("empty slot")
      ensures Shaped(family, g) && GroupIs(roots[j], nodeRoots[j], repr[j], g) ==> r == Success(Retained(g))
    {
      match roots[j]
      case Unset =>
        return Failure("empty slot");
      case OneNode(a) =>
        if family.MutableStruct? {
          return Success(Wrap(a.value));
        }
        if !LeadsBack(a, a.next) {
          return Failure("broken B.next=A");
        }
        return Success(Wrap(a.value + a.next.value));
      case IntCells(cells) =>
        if cells.Length != WIDTH {
          return Failure("length");
        }
        var sum := SumInts(cells);
        return Success(Wrap(sum));
      case NodeCells(cells) =>
        var a := nodeRoots[j];
        if cells.Length != WIDTH {
          return Failure("length");
        }
        if a == null || !LeadsBack(a, a.next) {
          return Failure("broken B.next=A");
        }
        var sum, values := SumNodes(cells);
        assert g.Linked? && GroupIs(roots[j], nodeRoots[j], repr[j], g) ==> values == Targets(g);
        return Success(Wrap(sum));
    }

    /** The writes of one step and the unreduced value observed. */
    method Touch(family: Family, j: nat, state: u32, i: nat, ghost g: Group) returns (r: Result<nat>)
      requires Valid() && j < ROOTS && Shaped(family, g) && GroupIs(roots[j], nodeRoots[j], repr[j], g)
      modifies repr[j]
      ensures GroupIs(roots[j], nodeRoots[j], repr[j], Written(g, state, i))
      ensures r.Success? && Wrap(r.value) == Observed(Written(g, state, i), i)
    {
      hide Xor32; hide Wrap;
      var value := Wrap(state + i);
      match roots[j]
      case Unset =>
        return Failure("empty slot");
      case OneNode(a) =>
        if family.MutableStruct? {
          a.value := value;
          WrapIsIdentity(value);
          return Success(a.value);
        }
        r := TouchCycle(a, value, g.b, repr[j]);
      case IntCells(cells) =>
        var observed := TouchInts(cells, state, i);
        return Success(observed);
      case NodeCells(cells) =>
        r := TouchNodes(cells, nodeRoots[j], value, i, g.b, repr[j]);
    }

    /** A group created in the next slot of the ring. */
    method Push(family: Family, j: nat, value: u32, ghost groups: seq<Group>)
      requires Valid() && Holds(groups) && j == |groups| % ROOTS
      modifies this, roots, nodeRoots
      ensures Valid() && Holds(groups + [Fresh(family, value)])
      ensures created == old(created) + PerCreated(family) && fresh(Owned() - old(Owned()))
    {
      hide GroupIs; hide Fresh;
      Create(family, j, value);
      ghost var after := groups + [Fresh(family, value)];
      forall i | 0 <= i < ROOTS && i < |after|
        ensures GroupIs(roots[i], nodeRoots[i], repr[i], after[Owner(|after|, i)])
      {
        OwnerStep(|groups|, i);
        assert i < |groups| ==> old(GroupIs(roots[i], nodeRoots[i], repr[i], groups[Owner(|groups|, i)]));
      }
    }

    /** The group of slot `j` written and observed. */
    method Update(family: Family, j: nat, state: u32, step: nat, ghost groups: seq<Group>) returns (r: Result<nat>)
      requires Valid() && Holds(groups) && j < ROOTS && j < |groups| && Shaped(family, groups[Owner(|groups|, j)])
      modifies Owned()
      ensures Valid() && repr == old(repr) && created == old(created)
      ensures var k := Owner(|groups|, j); var written := Written(groups[k], state, step);
              Holds(groups[k := written]) && r.Success? && Wrap(r.value) == Observed(written, step)
    {
      hide GroupIs; hide Written; hide Observed;
      ghost var k := Owner(|groups|, j);
      r := Touch(family, j, state, step, groups[k]);
      ghost var after := groups[k := Written(groups[k], state, step)];
      forall i | 0 <= i < ROOTS && i < |after|
        ensures GroupIs(roots[i], nodeRoots[i], repr[i], after[Owner(|after|, i)])
      {
        assert Owner(|groups|, i) % ROOTS == i;
        assert old(GroupIs(roots[i], nodeRoots[i], repr[i], groups[Owner(|groups|, i)]));
      }
    }

    /** The mutate phase creates every slot first. */
    method SetUpAll(family: Family, phase: Phase) returns (state: u32)
      requires Valid() && Holds([]) && created == 0
      modifies this, roots, nodeRoots
      ensures Valid() && state == After(family, phase, 0).state && Holds(After(family, phase, 0).groups)
      ensures After(family, phase, 0).total == 0
      ensures created == PerCreated(family) * (if phase == Mutate then ROOTS else 0) && fresh(Owned() - old(Owned()))
    {
      hide GroupIs; hide Fresh; hide SetUp; hide PerCreated; hide Next; hide Owner;
      EmptyRing(family);
      state := SEED;
      if phase == Mutate {
        for slot := 0 to ROOTS
          invariant Valid() && state == SetUp(family, slot).state && Holds(SetUp(family, slot).groups)
          invariant created == PerCreated(family) * slot && fresh(Owned() - old(Owned()))
        {
          SetUpNext(family, slot);
          OneGroupMore(PerCreated(family), slot);
          state := Next(state);
          Push(family, slot, state, SetUp(family, slot).groups);
        }
      }
    }

    /** In the allocate phase the displaced slot is read and recreated. */
    method Acquire(family: Family, phase: Phase, i: nat, state: u32, total: u32, ghost h: History)
      returns (r: Result<u32>)
      requires Ready(family, phase, i, h) && state == Next(h.state) && total == h.total && Valid() && Holds(h.groups)
      modifies this, roots, nodeRoots
      ensures Valid() && Holds(Acquired(family, phase, h)) && r == Success(Carried(phase, i, h))
      ensures created == old(created) + PerCreated(family) * (if phase == Allocate then 1 else 0)
      ensures fresh(Owned() - old(Owned()))
    {
      hide Fresh; hide GroupIs; hide Retained; hide Next; hide Wrap; hide Owner;
      r := Success(total);
      if phase == Allocate {
        var slot := i % ROOTS;
        if i >= ROOTS {
          DisplacedOwner(i);
          HeldIsSet(roots[slot], nodeRoots[slot], repr[slot], h.groups[i - ROOTS]);
          var retained := RetainedAt(family, slot, h.groups[i - ROOTS]);
          if retained.Failure? {
            return Failure("assertion failed");
          }
          r := Success(Wrap(total + retained.value));
        }
        Push(family, slot, state, h.groups);
      }
    }

    method Step(family: Family, phase: Phase, i: nat, state: u32, total: u32, ghost h: History)
      returns (r: Result<(u32, u32)>)
      requires Ready(family, phase, i, h) && state == h.state && total == h.total && Valid() && Holds(h.groups)
      modifies this, roots, nodeRoots, Owned()
      ensures var h' := Iteration(family, phase, i, h);
              Valid() && Holds(h'.groups) && r == Success((h'.state, h'.total))
      ensures created == old(created) + PerCreated(family) * (if phase == Allocate then 1 else 0)
      ensures fresh(Owned() - old(Owned()))
    {
      hide Fresh; hide GroupIs; hide Written; hide Observed; hide Retained; hide Next; hide Wrap; hide Holds;
      hide Owner; hide Carried;
      var state' := Next(state);
      var carried := Acquire(family, phase, i, state', total, h);
      if carried.Failure? {
        return Failure("assertion failed");
      }
      ghost var groups := Acquired(family, phase, h);
      CurrentOwner(phase, i, |groups|);
      var observed := Update(family, i % ROOTS, state', i, groups);
      if observed.Failure? {
        return Failure("assertion failed");
      }
      WrapAdd(carried.value, observed.value);
      r := Success((state', Wrap(carried.value + observed.value)));
    }

    /** The sum over all slots, reduced once. */
    method RootsSum(family: Family, ghost groups: seq<Group>) returns (r: Result<u32>)
      requires Valid() && Holds(groups)
      requires forall k :: 0 <= k < |groups| ==> Shaped(family, groups[k])
      ensures r == if |groups| >= ROOTS then Success(RootSum(groups, ROOTS)) else Failure("empty slot")
    {
      hide Retained; hide Wrap;
      var sum: nat := 0;
      RootSumStart(groups);
      for slot := 0 to ROOTS
        invariant slot <= |groups| && Wrap(sum) == RootSum(groups, slot)
      {
        var retained := RetainedAt(family, slot, if slot < |groups| then groups[Owner(|groups|, slot)] else One(0));
        if retained.Failure? {
          return retained;
        }
        WrapAdd(sum, retained.value);
        sum := sum + retained.value;
      }
      r := Success(Wrap(sum));
    }
  }

  lemma {:induction false} OneGroupMore(per: nat, groups: nat)
    ensures per * (groups + 1) == per * groups + per && per * 0 == 0
  {
  }

  /** The pointer graph never breaks a cycle, returns the specified checksums and
      counts every object of every group; only a ring that was never filled has no root sum. */
  method GraphRun(family: Family, phase: Phase, n: nat) returns (r: Result<(Checksums, nat)>)
    ensures r == if phase == Mutate || n >= ROOTS
      then Success((Expected(family, phase, n), PerCreated(family) * (if phase == Mutate then ROOTS else n)))
      else Failure("empty slot")
  {
    hide After; hide GroupIs; hide RootSum; hide Xor32; hide Iteration; hide Graph.Holds; hide PerCreated;
    var graph := new Graph();
    var state := graph.SetUpAll(family, phase);
    var total: u32 := 0;
    for i := 0 to n
      invariant graph.Valid() && fresh(graph.Owned()) && graph.Holds(After(family, phase, i).groups)
      invariant state == After(family, phase, i).state && total == After(family, phase, i).total
      invariant graph.created == PerCreated(family) * (if phase == Mutate then ROOTS else i)
    {
      AfterNext(family, phase, i);
      var next := graph.Step(family, phase, i, state, total, After(family, phase, i));
      if next.Failure? {
        return Failure("assertion failed");
      }
      state, total := next.value.0, next.value.1;
    }
    var roots := graph.RootsSum(family, After(family, phase, n).groups);
    if roots.Failure? {
      return Failure(roots.reason);
    }
    r := Success((Checksums(total, roots.value, Xor32(total, roots.value), state), graph.created));
  }
}
