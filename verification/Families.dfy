/** The general object families: what one allocation group holds, what one
    iteration does to it, and the state after any number of iterations.

    The history keeps every group ever allocated, in allocation order. Slot
    `j` of the root ring belongs to the newest group whose index is `j` modulo
    the ring size; older groups of that slot are unreachable but remembered. */
module Families {
  import opened Bits
  import opened Lcg

  datatype Family = MutableStruct | ReferenceCycle | NumericArray | ReferenceArray
  datatype Phase = Allocate | Mutate

  const ROOTS: nat := 1024
  const WIDTH: nat := 8
  const SALT: u32 := 0xA5C31F27

  /** One allocation group; `edges[k]` tells whether element `k` refers to B (else to A). */
  datatype Group =
    | One(a: u32)
    | Pair(a: u32, b: u32)
    | Numbers(cells: seq<u32>)
    | Linked(a: u32, b: u32, edges: seq<bool>)

  predicate Shaped(family: Family, g: Group)
  {
    match family
    case MutableStruct => g.One?
    case ReferenceCycle => g.Pair?
    case NumericArray => g.Numbers? && |g.cells| == WIDTH
    case ReferenceArray => g.Linked? && |g.edges| == WIDTH
  }

  function Partner(v: u32): (r: u32) { Wrap(v * 3 + 17) }

  function Fresh(family: Family, v: u32): (g: Group)
    ensures Shaped(family, g)
  {
    match family
    case MutableStruct => One(v)
    case ReferenceCycle => Pair(v, Partner(v))
    case NumericArray => Numbers(seq(WIDTH, _ => v))
    case ReferenceArray => Linked(v, Partner(v), seq(WIDTH, _ => false))
  }

  function Sum(s: seq<u32>): (r: nat)
  {
    if s == [] then 0 else Sum(s[..|s| - 1]) + s[|s| - 1]
  }

  /** Values read through the elements of a linked group. */
  function Targets(g: Group): (r: seq<u32>)
    requires g.Linked?
    ensures |r| == |g.edges|
  {
    seq(|g.edges|, k requires 0 <= k < |g.edges| => if g.edges[k] then g.b else g.a)
  }

  /** The checksum contribution of a whole group. */
  function Retained(g: Group): (r: u32)
  {
    match g
    case One(a) => a
    case Pair(a, b) => Wrap(a + b)
    case Numbers(cells) => Wrap(Sum(cells))
    case Linked(_, _, _) => Wrap(Sum(Targets(g)))
  }

  /** The group after iteration `i` wrote it. */
  function Written(g: Group, state: u32, i: nat): (r: Group)
    requires g.Numbers? ==> |g.cells| == WIDTH
    requires g.Linked? ==> |g.edges| == WIDTH
  {
    var value := Wrap(state + i);
    var selected, following := i % WIDTH, (i + 1) % WIDTH;
    match g
    case One(_) => One(value)
    case Pair(_, b) => Pair(value, b)
    case Numbers(cells) => Numbers(cells[selected := Xor32(state, SALT)][following := value])
    case Linked(_, b, edges) => Linked(value, b, edges[selected := true][following := false])
  }

  /** What iteration `i` observes in the group it has written. */
  function Observed(g: Group, i: nat): (r: u32)
    requires g.Numbers? ==> |g.cells| == WIDTH
  {
    match g
    case One(a) => a
    case Pair(a, b) => Wrap(2 * a + b)
    case Numbers(cells) => Wrap(cells[i % WIDTH] + cells[(i + 1) % WIDTH] + WIDTH)
    case Linked(a, b, _) => Wrap(b + a + WIDTH)
  }

  datatype History = History(state: u32, total: u32, groups: seq<Group>)

  ghost predicate Valid(family: Family, h: History)
  {
    forall k :: 0 <= k < |h.groups| ==> Shaped(family, h.groups[k])
  }

  /** The groups the mutate phase sets up before its main loop. */
  function SetUp(family: Family, n: nat): (h: History)
    ensures |h.groups| == n && Valid(family, h)
    ensures h.state == Iterate(SEED, n) && h.total == 0
  {
    if n == 0 then History(SEED, 0, [])
    else
      var before := SetUp(family, n - 1);
      var state := Next(before.state);
      History(state, 0, before.groups + [Fresh(family, state)])
  }

  /** Index of the group that iteration `i` works on. */
  function Current(phase: Phase, i: nat): (k: nat) { if phase == Allocate then i else i % ROOTS }

  ghost predicate Ready(family: Family, phase: Phase, i: nat, h: History)
  {
    Valid(family, h) && |h.groups| == (if phase == Allocate then i else ROOTS)
  }

  /** The groups once iteration `i` has its own: the allocate phase adds a fresh one. */
  function Acquired(family: Family, phase: Phase, h: History): (groups: seq<Group>)
  {
    if phase == Allocate then h.groups + [Fresh(family, Next(h.state))] else h.groups
  }

  /** The total once the allocate phase has read back the group it displaces. */
  function Carried(phase: Phase, i: nat, h: History): (total: u32)
    requires phase == Allocate ==> |h.groups| == i
  {
    if phase == Allocate && i >= ROOTS then Wrap(h.total + Retained(h.groups[i - ROOTS])) else h.total
  }

  function Iteration(family: Family, phase: Phase, i: nat, h: History): (r: History)
    requires Ready(family, phase, i, h)
    ensures Ready(family, phase, i + 1, r)
  {
    var state, groups, k := Next(h.state), Acquired(family, phase, h), Current(phase, i);
    var written := Written(groups[k], state, i);
    History(state, Wrap(Carried(phase, i, h) + Observed(written, i)), groups[k := written])
  }

  function Start(family: Family, phase: Phase): (h: History)
  {
    if phase == Allocate then SetUp(family, 0) else SetUp(family, ROOTS)
  }

  /** The state after `n` iterations of the main loop. */
  function After(family: Family, phase: Phase, n: nat): (h: History)
    ensures Ready(family, phase, n, h)
  {
    if n == 0 then Start(family, phase) else Iteration(family, phase, n - 1, After(family, phase, n - 1))
  }

  lemma {:induction false} AfterNext(family: Family, phase: Phase, i: nat)
    ensures After(family, phase, i + 1) == Iteration(family, phase, i, After(family, phase, i))
  {
    hide Iteration;
  }

  lemma {:induction false} SetUpNext(family: Family, i: nat)
    ensures var before, after := SetUp(family, i), SetUp(family, i + 1);
            after.state == Next(before.state) && after.groups == before.groups + [Fresh(family, after.state)]
  {
    hide Fresh;
  }

  /** Objects in one group. */
  function PerCreated(family: Family): (n: nat)
  {
    match family
    case MutableStruct => 1
    case ReferenceCycle => 2
    case NumericArray => 1
    case ReferenceArray => 3
  }

  /** Index of the newest of `count` groups that sits in slot `j`. */
  function Owner(count: nat, j: nat): (k: nat)
    requires j < ROOTS && j < count
    ensures k < count && k % ROOTS == j && count <= k + ROOTS
  {
    count - 1 - (count - 1 - j) % ROOTS
  }

  /** The group that joins as number `count` takes over its slot; the others keep theirs. */
  lemma {:induction false} OwnerStep(count: nat, j: nat)
    requires j < ROOTS && (j < count || j == count % ROOTS)
    ensures j < count + 1 && Owner(count + 1, j) == if j == count % ROOTS then count else Owner(count, j)
  {
    var x := count - j;
    var q, r := x / ROOTS, x % ROOTS;
    if r == 0 {
      DivModUnique(count, ROOTS, q, j);
    } else {
      DivModUnique(x - 1, ROOTS, q, r - 1);
      assert j != count % ROOTS by {
        if j == count % ROOTS {
          DivModUnique(x, ROOTS, count / ROOTS, 0);
        }
      }
    }
  }

  /** Sum over the first `j` slots of the ring. */
  function RootSum(groups: seq<Group>, j: nat): (r: u32)
    requires j <= ROOTS && j <= |groups|
  {
    if j == 0 then 0 else Wrap(RootSum(groups, j - 1) + Retained(groups[Owner(|groups|, j - 1)]))
  }

  lemma {:induction false} RootSumStart(groups: seq<Group>)
    ensures Wrap(0) == RootSum(groups, 0) == 0
  {
  }

  datatype Checksums = Checksums(step: u32, root: u32, result: u32, lastLcg: u32)

  /** What a run of `n` iterations has to report. */
  function Expected(family: Family, phase: Phase, n: nat): (r: Checksums)
    requires phase == Mutate || n >= ROOTS
  {
    var h := After(family, phase, n);
    var root := RootSum(h.groups, ROOTS);
    Checksums(h.total, root, Xor32(h.total, root), h.state)
  }

  /** The combined checksum is, bit by bit, the exclusive or of the other two. */
  lemma {:induction false} ResultBits(family: Family, phase: Phase, n: nat)
    requires phase == Mutate || n >= ROOTS
    ensures var e := Expected(family, phase, n); IsXor(e.result, e.step, e.root)
  {
    hide After; hide RootSum; hide Xor32; hide IsXor;
    var h := After(family, phase, n);
    Xor32Bits(h.total, RootSum(h.groups, ROOTS), 0);
  }

  /** The selected cell of an array is, bit by bit, the state xor the salt; the one after it is
      the state plus the step, and no other cell changes. */
  lemma {:induction false} SaltedCell(cells: seq<u32>, state: u32, i: nat)
    requires |cells| == WIDTH
    ensures var r := Written(Numbers(cells), state, i);
            && r.Numbers? && |r.cells| == 8 && IsXor(r.cells[i % 8], state, 2781028135)
            && r.cells[(i + 1) % 8] == Wrap(state + i)
            && forall k :: 0 <= k < 8 && k != i % 8 && k != (i + 1) % 8 ==> r.cells[k] == cells[k]
  {
    hide Xor32; hide IsXor;
    Xor32Bits(state, SALT, 0);
    assert i % 8 != (i + 1) % 8;
  }
}
