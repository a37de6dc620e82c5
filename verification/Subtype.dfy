/** Two modules whose types are interned in one canonical list, and the
    owner-local subtype test against the canonical parent chain. */
module Subtype {
  import opened Wrappers
  import opened JumpPointers

  datatype Key = Key(kind: nat, parent: Option<nat>, shape: nat)
  datatype Canonical = Canonical(kind: nat, parent: Option<nat>)

  /** What the random generator picked for one type: an earlier parent or none,
      the kind of a type without parent, and its shape. */
  datatype Choice = Choice(parent: Option<nat>, kind: nat, shape: nat)

  ghost predicate Earlier(choices: seq<Choice>)
  {
    forall i :: 0 <= i < |choices| && choices[i].parent.Some? ==> choices[i].parent.value < i
  }

  ghost predicate Injective(interned: map<Key, nat>)
  {
    forall k, l :: k in interned && l in interned && interned[k] == interned[l] ==> k == l
  }

  ghost predicate Within(m: map<Key, nat>, n: map<Key, nat>)
  {
    forall k :: k in m ==> k in n && n[k] == m[k]
  }

  // ----- The canonical list -----

  predicate GroundedAt(types: seq<Canonical>, c: nat)
    requires c < |types|
  {
    types[c].parent.Some? ==> types[c].parent.value < c && types[types[c].parent.value].kind == types[c].kind
  }

  /** Parents come earlier and have the same kind. */
  ghost predicate Grounded(types: seq<Canonical>)
  {
    forall c :: 0 <= c < |types| ==> GroundedAt(types, c)
  }

  function Depth(types: seq<Canonical>, c: nat): (d: nat)
    requires Grounded(types) && c < |types|
  {
    assert GroundedAt(types, c);
    if types[c].parent.None? then 0 else 1 + Depth(types, types[c].parent.value)
  }

  /** `target` lies on the parent chain of `c`. */
  predicate OnChain(types: seq<Canonical>, c: nat, target: nat)
    requires Grounded(types) && c < |types|
  {
    assert GroundedAt(types, c);
    c == target || (types[c].parent.Some? && OnChain(types, types[c].parent.value, target))
  }

  /** The walk over canonical parents. */
  method ParentWalk(types: seq<Canonical>, c: nat, target: nat) returns (found: bool)
    requires Grounded(types) && c < |types|
    ensures found == OnChain(types, c, target)
  {
    hide Grounded;
    var cursor: Option<nat> := Some(c);
    found := false;
    while cursor.Some?
      invariant !found && (cursor.Some? ==> cursor.value < |types|)
      invariant OnChain(types, c, target) == (cursor.Some? && OnChain(types, cursor.value, target))
      decreases if cursor.Some? then cursor.value + 1 else 0
    {
      if cursor.value == target {
        return true;
      }
      ChainStep(types, cursor.value, target);
      cursor := types[cursor.value].parent;
    }
  }

  lemma {:induction false} ChainStep(types: seq<Canonical>, c: nat, target: nat)
    requires Grounded(types) && c < |types| && c != target
    ensures GroundedAt(types, c)
    ensures OnChain(types, c, target) == (types[c].parent.Some? && OnChain(types, types[c].parent.value, target))
  {
    assert GroundedAt(types, c);
  }

  // ----- Nodes over the canonical list -----

  predicate ConformsAt(types: seq<Canonical>, nodes: seq<Record>, i: nat)
    requires i < |nodes|
  {
    && nodes[i].id < |types| && types[nodes[i].id].kind == nodes[i].kind
    && types[nodes[i].id].parent ==
       (match nodes[i].parent
        case None => None
        case Some(p) => if p < |nodes| then Some(nodes[p].id) else None)
  }

  /** Every node is an instance of its canonical type. */
  ghost predicate Conforms(types: seq<Canonical>, nodes: seq<Record>)
  {
    forall i :: 0 <= i < |nodes| ==> ConformsAt(types, nodes, i)
  }

  lemma {:induction false} DepthAgrees(types: seq<Canonical>, nodes: seq<Record>, i: nat)
    requires Grounded(types) && Linked(nodes) && Conforms(types, nodes) && i < |nodes|
    ensures ConformsAt(types, nodes, i) && Depth(types, nodes[i].id) == nodes[i].depth
    decreases nodes[i].depth
  {
    assert ConformsAt(types, nodes, i) && LinkedAt(nodes, i) && GroundedAt(types, nodes[i].id);
    if nodes[i].parent.Some? {
      DepthAgrees(types, nodes, nodes[i].parent.value);
    }
  }

  /** Along a chain depths fall and kinds stay. */
  lemma {:induction false} ChainFacts(types: seq<Canonical>, c: nat, target: nat)
    requires Grounded(types) && c < |types| && target < |types| && OnChain(types, c, target)
    ensures Depth(types, target) <= Depth(types, c) && types[target].kind == types[c].kind
    ensures c != target ==> Depth(types, target) < Depth(types, c)
  {
    assert GroundedAt(types, c);
    if c != target {
      ChainFacts(types, types[c].parent.value, target);
    }
  }

  /** On nodes deep enough, the chain passes through `target` exactly if the ancestor
      at the target's depth has its identity. */
  lemma {:induction false} AncestorDecides(types: seq<Canonical>, nodes: seq<Record>, i: nat, target: nat)
    requires Grounded(types) && Linked(nodes) && Conforms(types, nodes) && i < |nodes| && target < |types|
    requires Depth(types, target) <= nodes[i].depth
    ensures ConformsAt(types, nodes, i)
    ensures OnChain(types, nodes[i].id, target) <==> nodes[Up(nodes, i, Depth(types, target))].id == target
    decreases nodes[i].depth
  {
    assert ConformsAt(types, nodes, i) && LinkedAt(nodes, i) && GroundedAt(types, nodes[i].id);
    DepthAgrees(types, nodes, i);
    if Depth(types, target) == nodes[i].depth {
      if OnChain(types, nodes[i].id, target) {
        ChainFacts(types, nodes[i].id, target);
      }
    } else {
      AncestorDecides(types, nodes, nodes[i].parent.value, target);
    }
  }

  /** The owner-local test of `source[i]` against a node of another module. */
  ghost predicate Candidate(source: seq<Record>, i: nat, target: Record)
    requires Linked(source) && i < |source|
  {
    && source[i].kind == target.kind && source[i].depth >= target.depth
    && source[Up(source, i, target.depth)].id == target.id
  }

  /** The owner-local test is the canonical subtype relation. */
  lemma {:induction false} CandidateIsSubtype(types: seq<Canonical>, source: seq<Record>, i: nat, expected: seq<Record>,
                                              j: nat)
    requires Grounded(types) && Linked(source) && Linked(expected) && i < |source| && j < |expected|
    requires Conforms(types, source) && Conforms(types, expected)
    ensures source[i].id < |types| && expected[j].id < |types|
    ensures OnChain(types, source[i].id, expected[j].id) <==> Candidate(source, i, expected[j])
  {
    DepthAgrees(types, source, i);
    DepthAgrees(types, expected, j);
    if OnChain(types, source[i].id, expected[j].id) {
      ChainFacts(types, source[i].id, expected[j].id);
    }
    if expected[j].depth <= source[i].depth {
      AncestorDecides(types, source, i, expected[j].id);
    }
  }

  // ----- Building the modules -----

  class Registry {
    var interned: map<Key, nat>
    var types: seq<Canonical>

    constructor ()
      ensures Valid() && types == [] && interned == map[]
    {
      interned, types := map[], [];
    }

    /** Identities are the positions of the list, and no two keys share one. */
    ghost predicate Valid()
      reads this
    {
      && Grounded(types)
      && (forall k :: k in interned ==> interned[k] < |types| && types[interned[k]] == Canonical(k.kind, k.parent))
      && Injective(interned)
    }

    method Intern(key: Key) returns (id: nat)
      requires Valid()
      requires key.parent.Some? ==> key.parent.value < |types| && types[key.parent.value].kind == key.kind
      modifies this
      ensures Valid() && key in interned && id == interned[key] && id < |types|
      ensures types[id] == Canonical(key.kind, key.parent)
      ensures old(types) <= types && Within(old(interned), interned)
    {
      if key !in interned {
        GroundedAppend(types, Canonical(key.kind, key.parent));
        interned := interned[key := |types|];
        types := types + [Canonical(key.kind, key.parent)];
      }
      id := interned[key];
    }

    /** A module: every node linked, every jump right, every identity canonical. */
    method BuildModule(choices: seq<Choice>) returns (nodes: seq<Record>)
      requires Valid() && Earlier(choices)
      modifies this
      ensures Valid() && old(types) <= types && Within(old(interned), interned)
      ensures Linked(nodes) && Jumps(nodes) && Conforms(types, nodes) && Keyed(interned, choices, nodes)
    {
      hide Linked; hide Jumps; hide Conforms; hide ClearLow; hide Within;
      nodes := [];
      EmptyModule(types, interned);
      for index := 0 to |choices|
        invariant Valid() && old(types) <= types && Within(old(interned), interned)
        invariant Linked(nodes) && Jumps(nodes) && Conforms(types, nodes)
        invariant |nodes| == index && Keyed(interned, choices[..index], nodes)
      {
        ghost var before := interned;
        var node := BuildNode(nodes, choices[index]);
        WithinTrans(old(interned), before, interned);
        KeyedAppend(before, interned, choices[..index], choices[index], nodes, node);
        AppendNode(types, nodes, node);
        nodes := nodes + [node];
        assert choices[..index + 1] == choices[..index] + [choices[index]];
      }
      assert choices[..|choices|] == choices;
    }

    method BuildNode(nodes: seq<Record>, choice: Choice) returns (node: Record)
      requires Valid() && Linked(nodes) && Jumps(nodes) && Conforms(types, nodes)
      requires choice.parent.Some? ==> choice.parent.value < |nodes|
      modifies this
      ensures Valid() && old(types) <= types && Within(old(interned), interned)
      ensures Conforms(types, nodes) && Extends(types, nodes, node)
      ensures node.parent == choice.parent && node.kind == KindOf(choice, nodes)
      ensures KeyOf(choice, nodes) in interned && interned[KeyOf(choice, nodes)] == node.id
    {
      hide Linked; hide Jumps; hide ClearLow; hide Within;
      var parent := choice.parent;
      if parent.Some? {
        assert ConformsAt(types, nodes, parent.value);
      }
      var id := Intern(KeyOf(choice, nodes));
      Grown(old(types), types, nodes);
      if parent.Some? {
        var depth := nodes[parent.value].depth + 1;
        var jump, _ := Ancestor(nodes, parent.value, ClearLow(depth));
        node := Record(id, KindOf(choice, nodes), parent, depth, jump);
      } else {
        node := Record(id, KindOf(choice, nodes), parent, 0, |nodes|);
      }
    }
  }

  /** A type has the kind of its parent. */
  function KindOf(choice: Choice, nodes: seq<Record>): (kind: nat)
    requires choice.parent.Some? ==> choice.parent.value < |nodes|
  {
    if choice.parent.Some? then nodes[choice.parent.value].kind else choice.kind
  }

  function KeyOf(choice: Choice, nodes: seq<Record>): (key: Key)
    requires choice.parent.Some? ==> choice.parent.value < |nodes|
  {
    Key(KindOf(choice, nodes), if choice.parent.Some? then Some(nodes[choice.parent.value].id) else None, choice.shape)
  }

  // ----- Identity is structure -----

  /** Node `i` was interned under the key its choice gives. */
  ghost predicate KeyedAt(interned: map<Key, nat>, choices: seq<Choice>, nodes: seq<Record>, i: nat)
    requires |nodes| == |choices| && i < |nodes|
  {
    && nodes[i].parent == choices[i].parent && (choices[i].parent.Some? ==> choices[i].parent.value < i)
    && nodes[i].kind == KindOf(choices[i], nodes)
    && KeyOf(choices[i], nodes) in interned && interned[KeyOf(choices[i], nodes)] == nodes[i].id
  }

  ghost predicate Keyed(interned: map<Key, nat>, choices: seq<Choice>, nodes: seq<Record>)
  {
    |nodes| == |choices| && forall i :: 0 <= i < |nodes| ==> KeyedAt(interned, choices, nodes, i)
  }

  lemma {:induction false} WithinTrans(l: map<Key, nat>, m: map<Key, nat>, n: map<Key, nat>)
    requires Within(l, m) && Within(m, n)
    ensures Within(l, n)
  {
  }

  lemma {:induction false} KeyedAppend(before: map<Key, nat>, after: map<Key, nat>, choices: seq<Choice>,
                                       choice: Choice,
                                       nodes: seq<Record>, node: Record)
    requires Keyed(before, choices, nodes) && Within(before, after)
    requires choice.parent.Some? ==> choice.parent.value < |nodes|
    requires node.parent == choice.parent && node.kind == KindOf(choice, nodes)
    requires KeyOf(choice, nodes) in after && after[KeyOf(choice, nodes)] == node.id
    ensures Keyed(after, choices + [choice], nodes + [node])
  {
    forall i | 0 <= i < |nodes + [node]| ensures KeyedAt(after, choices + [choice], nodes + [node], i) {
      if i < |nodes| {
        assert KeyedAt(before, choices, nodes, i);
        assert KeyOf(choices[i], nodes + [node]) == KeyOf(choices[i], nodes);
      } else {
        assert KeyOf(choice, nodes + [node]) == KeyOf(choice, nodes);
      }
    }
  }

  lemma {:induction false} KeyedKeeps(before: map<Key, nat>, after: map<Key, nat>, choices: seq<Choice>,
                                      nodes: seq<Record>)
    requires Keyed(before, choices, nodes) && Within(before, after)
    ensures Keyed(after, choices, nodes)
  {
    forall i | 0 <= i < |nodes| ensures KeyedAt(after, choices, nodes, i) {
      assert KeyedAt(before, choices, nodes, i);
    }
  }

  /** The kind and the shapes on the way from the root to choice `i`. */
  function Structure(choices: seq<Choice>, i: nat): (r: (nat, seq<nat>))
    requires Earlier(choices) && i < |choices|
    ensures |r.1| > 0
  {
    if choices[i].parent.None? then (choices[i].kind, [choices[i].shape])
    else
      var above := Structure(choices, choices[i].parent.value);
      (above.0, above.1 + [choices[i].shape])
  }

  lemma {:induction false} KindIsRoot(interned: map<Key, nat>, choices: seq<Choice>, nodes: seq<Record>, i: nat)
    requires Earlier(choices) && Keyed(interned, choices, nodes) && i < |nodes|
    ensures nodes[i].kind == Structure(choices, i).0
  {
    assert KeyedAt(interned, choices, nodes, i);
    if choices[i].parent.Some? {
      KindIsRoot(interned, choices, nodes, choices[i].parent.value);
    }
  }

  /** Two types, of one module or of two, share an identity exactly if they have the
      same kind and the same shapes all the way up. */
  lemma {:induction false} IdentityIsStructure(interned: map<Key, nat>, c: seq<Choice>, n: seq<Record>, i: nat,
                                               d: seq<Choice>, m: seq<Record>, j: nat)
    requires Injective(interned) && Earlier(c) && Earlier(d) && i < |n| && j < |m|
    requires Keyed(interned, c, n) && Keyed(interned, d, m)
    ensures n[i].id == m[j].id <==> Structure(c, i) == Structure(d, j)
  {
    hide Keyed; hide Injective;
    var k, l := KeyAt(interned, c, n, i), KeyAt(interned, d, m, j);
    KindIsRoot(interned, c, n, i);
    KindIsRoot(interned, d, m, j);
    SameKeys(interned, k, l);
    if c[i].parent.Some? && d[j].parent.Some? {
      IdentityIsStructure(interned, c, n, c[i].parent.value, d, m, d[j].parent.value);
      var p, q := Structure(c, c[i].parent.value).1, Structure(d, d[j].parent.value).1;
      assert (p + [c[i].shape])[..|p|] == p && (q + [d[j].shape])[..|q|] == q;
      assert (p + [c[i].shape])[|p|] == c[i].shape && (q + [d[j].shape])[|q|] == d[j].shape;
    } else if c[i].parent.Some? || d[j].parent.Some? {
      assert |Structure(c, i).1| != |Structure(d, j).1|;
    } else {
      assert [c[i].shape][0] == c[i].shape && [d[j].shape][0] == d[j].shape;
    }
  }

  ghost function KeyAt(interned: map<Key, nat>, choices: seq<Choice>, nodes: seq<Record>, i: nat): (k: Key)
    requires Keyed(interned, choices, nodes) && i < |nodes|
    ensures |nodes| == |choices| && KeyedAt(interned, choices, nodes, i) && k == KeyOf(choices[i], nodes)
  {
    assert KeyedAt(interned, choices, nodes, i);
    KeyOf(choices[i], nodes)
  }

  lemma {:induction false} SameKeys(interned: map<Key, nat>, k: Key, l: Key)
    requires Injective(interned) && k in interned && l in interned
    ensures interned[k] == interned[l] <==> k == l
  {
  }

  // ----- Growing the list and the modules -----

  lemma {:induction false} GroundedAppend(types: seq<Canonical>, c: Canonical)
    requires Grounded(types)
    requires c.parent.Some? ==> c.parent.value < |types| && types[c.parent.value].kind == c.kind
    ensures Grounded(types + [c])
  {
    forall i | 0 <= i < |types + [c]| ensures GroundedAt(types + [c], i) {
      assert i < |types| ==> GroundedAt(types, i);
    }
  }

  lemma {:induction false} Grown(types: seq<Canonical>, types': seq<Canonical>, nodes: seq<Record>)
    requires types <= types' && Conforms(types, nodes)
    ensures Conforms(types', nodes)
  {
    forall i | 0 <= i < |nodes| ensures ConformsAt(types', nodes, i) {
      assert ConformsAt(types, nodes, i);
    }
  }

  lemma {:induction false} EmptyModule(types: seq<Canonical>, interned: map<Key, nat>)
    ensures Linked([]) && Jumps([]) && Conforms(types, []) && Keyed(interned, [], []) && Within(interned, interned)
  {
  }

  /** `node` may follow `nodes`. */
  ghost predicate Extends(types: seq<Canonical>, nodes: seq<Record>, node: Record)
    requires Linked(nodes)
  {
    && node.id < |types| && types[node.id].kind == node.kind
    && match node.parent
       case None => types[node.id].parent.None? && node.depth == 0 && node.jump == |nodes|
       case Some(p) =>
         && p < |nodes| && types[node.id].parent == Some(nodes[p].id)
         && node.depth == nodes[p].depth + 1 && node.jump == Up(nodes, p, ClearLow(node.depth))
  }

  lemma {:induction false} LinkedAppend(types: seq<Canonical>, nodes: seq<Record>, node: Record)
    requires Linked(nodes) && Extends(types, nodes, node)
    ensures Linked(nodes + [node])
  {
    forall i | 0 <= i < |nodes + [node]| ensures LinkedAt(nodes + [node], i) {
      assert i < |nodes| ==> LinkedAt(nodes, i);
    }
  }

  lemma {:induction false} WalkAppend(nodes: seq<Record>, node: Record, i: nat, k: nat)
    requires Linked(nodes) && Linked(nodes + [node]) && i < |nodes| && k <= nodes[i].depth
    ensures Walk(nodes + [node], i, k) == Walk(nodes, i, k)
    decreases k
  {
    assert LinkedAt(nodes, i);
    if k > 0 {
      WalkAppend(nodes, node, nodes[i].parent.value, k - 1);
    }
  }

  lemma {:induction false} AppendNode(types: seq<Canonical>, nodes: seq<Record>, node: Record)
    requires Linked(nodes) && Jumps(nodes) && Conforms(types, nodes) && Extends(types, nodes, node)
    ensures var nodes' := nodes + [node]; Linked(nodes') && Jumps(nodes') && Conforms(types, nodes')
  {
    hide ClearLow; hide Linked; hide Jumps;
    var nodes' := nodes + [node];
    LinkedAppend(types, nodes, node);
    forall i | 0 <= i < |nodes'| ensures ConformsAt(types, nodes', i) {
      assert i < |nodes| ==> ConformsAt(types, nodes, i);
      if i < |nodes| {
        ParentInside(nodes, i);
      }
    }
    JumpsAppend(types, nodes, node);
  }

  lemma {:induction false} JumpsAppend(types: seq<Canonical>, nodes: seq<Record>, node: Record)
    requires Linked(nodes) && Linked(nodes + [node]) && Jumps(nodes) && Extends(types, nodes, node)
    ensures Jumps(nodes + [node])
  {
    hide ClearLow; hide Linked; hide Up;
    var nodes' := nodes + [node];
    forall i | 0 <= i < |nodes'| ensures JumpAt(nodes', i) {
      if i < |nodes| {
        assert JumpAt(nodes, i);
        if nodes[i].depth > 0 {
          UpAppend(nodes, node, i, ClearLow(nodes[i].depth));
        }
      } else if node.parent.Some? {
        UpAppend(nodes, node, node.parent.value, ClearLow(node.depth));
        UpLast(nodes', ClearLow(node.depth));
      }
    }
  }

  lemma {:induction false} UpAppend(nodes: seq<Record>, node: Record, i: nat, t: nat)
    requires Linked(nodes) && Linked(nodes + [node]) && i < |nodes| && t <= nodes[i].depth
    ensures Up(nodes + [node], i, t) == Up(nodes, i, t)
  {
    WalkAppend(nodes, node, i, nodes[i].depth - t);
  }

  lemma {:induction false} UpLast(nodes: seq<Record>, t: nat)
    requires Linked(nodes) && nodes != [] && nodes[|nodes| - 1].parent.Some? && t < nodes[|nodes| - 1].depth
    ensures LinkedAt(nodes, |nodes| - 1) && Up(nodes, |nodes| - 1, t) == Up(nodes, nodes[|nodes| - 1].parent.value, t)
  {
    assert LinkedAt(nodes, |nodes| - 1);
  }

  lemma {:induction false} ParentInside(nodes: seq<Record>, i: nat)
    requires Linked(nodes) && i < |nodes|
    ensures nodes[i].parent.Some? ==> nodes[i].parent.value < |nodes|
  {
    assert LinkedAt(nodes, i);
  }

  // ----- The comparison of every pair -----

  /** The owner-local test: kinds, depths, then one jump to the expected depth. */
  method OwnerLocal(source: seq<Record>, i: nat, expected: Record) returns (candidate: bool)
    requires Linked(source) && Jumps(source) && i < |source|
    ensures candidate == Candidate(source, i, expected)
  {
    hide Linked; hide Jumps;
    candidate := source[i].kind == expected.kind && source[i].depth >= expected.depth;
    if candidate {
      var a, _ := Ancestor(source, i, expected.depth);
      candidate := source[a].id == expected.id;
    }
  }

  method Compare(types: seq<Canonical>, source: seq<Record>, expected: seq<Record>) returns (r: Result<nat>)
    requires Grounded(types) && Linked(source) && Jumps(source) && Linked(expected)
    requires Conforms(types, source) && Conforms(types, expected)
    ensures r == Success(|source| * |expected|)
  {
    hide Grounded; hide Linked; hide Jumps; hide Conforms; hide OnChain;
    var comparisons := 0;
    for i := 0 to |source|
      invariant comparisons == i * |expected|
    {
      for j := 0 to |expected|
        invariant comparisons == i * |expected| + j
      {
        CandidateIsSubtype(types, source, i, expected, j);
        var original := ParentWalk(types, source[i].id, expected[j].id);
        var candidate := OwnerLocal(source, i, expected[j]);
        if original != candidate {
          return Failure("Owner-local model disagrees with canonical parent relation");
        }
        comparisons := comparisons + 1;
      }
    }
    r := Success(comparisons);
  }

  lemma {:induction false} KeyedParents(interned: map<Key, nat>, choices: seq<Choice>, nodes: seq<Record>)
    requires Keyed(interned, choices, nodes)
    ensures forall i :: 0 <= i < |nodes| ==> nodes[i].parent == choices[i].parent
  {
    forall i | 0 <= i < |nodes| ensures nodes[i].parent == choices[i].parent {
      assert KeyedAt(interned, choices, nodes, i);
    }
  }

  /** Both modules over one canonical list: across them, too, types share an identity exactly
      if they have the same structure. */
  method BuildModules(first: seq<Choice>, second: seq<Choice>)
    returns (a: seq<Record>, b: seq<Record>, types: seq<Canonical>)
    requires Earlier(first) && Earlier(second)
    ensures |a| == |first| && |b| == |second| && Grounded(types)
    ensures Linked(a) && Jumps(a) && Conforms(types, a) && Linked(b) && Jumps(b) && Conforms(types, b)
    ensures forall i :: 0 <= i < |first| ==> a[i].parent == first[i].parent
    ensures forall j :: 0 <= j < |second| ==> b[j].parent == second[j].parent
    ensures forall i, j :: 0 <= i < |first| && 0 <= j < |second| ==>
      (a[i].id == b[j].id <==> Structure(first, i) == Structure(second, j))
  {
    hide Earlier; hide Grounded; hide Linked; hide Jumps; hide Conforms; hide Within; hide Structure; hide Injective;
    var registry := new Registry();
    a := registry.BuildModule(first);
    ghost var before, keys := registry.types, registry.interned;
    b := registry.BuildModule(second);
    types := registry.types;
    Grown(before, types, a);
    KeyedKeeps(keys, registry.interned, first, a);
    KeyedParents(registry.interned, first, a);
    KeyedParents(registry.interned, second, b);
    forall i, j | 0 <= i < |first| && 0 <= j < |second|
      ensures a[i].id == b[j].id <==> Structure(first, i) == Structure(second, j)
    {
      IdentityIsStructure(registry.interned, first, a, i, second, b, j);
    }
  }

  /** Whatever the generator chose, no comparison of the four module pairs ever disagrees. */
  method LocalDepthJumpModel(first: seq<Choice>, second: seq<Choice>) returns (r: Result<nat>)
    requires Earlier(first) && Earlier(second)
    ensures r == Success((|first| + |second|) * (|first| + |second|))
  {
    hide Earlier; hide Grounded; hide Linked; hide Jumps; hide Conforms;
    var a, b, types := BuildModules(first, second);
    var modules, comparisons := [a, b], 0;
    for s := 0 to 2
      invariant comparisons == (if s == 0 then 0 else if s == 1 then |a| * |a| + |a| * |b|
                                else |a| * |a| + |a| * |b| + |b| * |a| + |b| * |b|)
    {
      var row := 0;
      for e := 0 to 2
        invariant row == (if e == 0 then 0 else if e == 1 then |modules[s]| * |a|
                          else |modules[s]| * |a| + |modules[s]| * |b|)
      {
        var compared := Compare(types, modules[s], modules[e]);
        if compared.Failure? {
          return compared;
        }
        row := row + compared.value;
      }
      comparisons := comparisons + row;
    }
    r := Success(comparisons);
  }
}
