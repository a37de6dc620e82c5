/** The two stores of the reference-cost run declare the same types at different local
    indices; an object matches an expected type of another store exactly if that type lies
    on its canonical parent chain. */
module TypeRelation {
  import opened Wrappers
  import opened JumpPointers
  import opened Subtype

  /** How the objects of the first store relate to the type they are matched against. */
  datatype Relation = Local | ForeignEqual | ForeignSubtype

  const FUNCTION: nat := 0
  const STRUCT: nat := 1

  /** A base struct, a struct derived from it, and a holder of a reference to the base. */
  const SOURCE: seq<Choice> := [Choice(None, STRUCT, 0), Choice(Some(0), STRUCT, 1), Choice(None, STRUCT, 2)]

  /** The same after one unrelated function type. */
  const RECIPIENT: seq<Choice> :=
    [Choice(None, FUNCTION, 3), Choice(None, STRUCT, 0), Choice(Some(1), STRUCT, 1), Choice(None, STRUCT, 2)]

  datatype Schemas = Schemas(stores: seq<seq<Record>>, types: seq<Canonical>)

  function Recipient(relation: Relation): (k: nat) { if relation == Local then 0 else 1 }

  /** The base type as the recipient numbers it. */
  function ExpectedIndex(relation: Relation): (k: nat) { Recipient(relation) }

  function HolderIndex(relation: Relation): (k: nat) { Recipient(relation) + 2 }

  function ActualIndex(relation: Relation): (k: nat) { if relation == ForeignSubtype then 1 else 0 }

  /** Both schemas hang together over one canonical list. */
  ghost predicate Formed(s: Schemas)
  {
    && |s.stores| == 2 && |s.stores[0]| == 3 && |s.stores[1]| == 4 && Grounded(s.types)
    && forall k :: 0 <= k < 2 ==> Linked(s.stores[k]) && Jumps(s.stores[k]) && Conforms(s.types, s.stores[k])
  }

  /** Types are shared across the stores, the derived type has the base as its parent, and
      base, derived and holder are three types. */
  ghost predicate Declared(s: Schemas)
  {
    && Formed(s)
    && var a, b := s.stores[0], s.stores[1];
    && a[0].id == b[1].id && a[1].id == b[2].id && a[2].id == b[3].id
    && a[0].id != a[1].id && a[0].id != a[2].id && a[1].id != a[2].id
    && a[0].parent == None && a[1].parent == Some(0)
  }

  lemma {:induction false} Structures()
    ensures Earlier(SOURCE) && Earlier(RECIPIENT)
    ensures Structure(SOURCE, 0) == (STRUCT, [0]) && Structure(SOURCE, 1) == (STRUCT, [0, 1])
    ensures Structure(SOURCE, 2) == (STRUCT, [2])
    ensures Structure(RECIPIENT, 1) == (STRUCT, [0]) && Structure(RECIPIENT, 2) == (STRUCT, [0, 1])
    ensures Structure(RECIPIENT, 3) == (STRUCT, [2])
  {
    assert [0] + [1] == [0, 1];
  }

  /** The canonical identities of the declarations are as the run checks them. */
  method Declare() returns (r: Result<Schemas>)
    ensures r.Success? && Declared(r.value)
  {
    hide Structure; hide Linked; hide Jumps; hide Conforms; hide Grounded; hide Earlier;
    Structures();
    var a, b, types := BuildModules(SOURCE, RECIPIENT);
    if a[0].id != b[1].id || a[1].id != b[2].id {
      return Failure("canonical equality");
    }
    if a[0].id == a[1].id {
      return Failure("proper subtype");
    }
    r := Success(Schemas([a, b], types));
  }

  /** A type of one store matches an expected type of another. */
  ghost predicate MatchesType(s: Schemas, owner: nat, i: nat, expecting: nat, j: nat)
    requires Formed(s) && owner < 2 && expecting < 2 && i < |s.stores[owner]| && j < |s.stores[expecting]|
  {
    && s.stores[owner][i].id < |s.types|
    && OnChain(s.types, s.stores[owner][i].id, s.stores[expecting][j].id)
  }

  method TypeMatches(s: Schemas, owner: nat, i: nat, expecting: nat, j: nat) returns (matched: bool)
    requires Formed(s) && owner < 2 && expecting < 2 && i < |s.stores[owner]| && j < |s.stores[expecting]|
    ensures matched == MatchesType(s, owner, i, expecting, j)
  {
    hide Linked; hide Jumps; hide Conforms; hide Grounded; hide OnChain; hide Candidate;
    CandidateIsSubtype(s.types, s.stores[owner], i, s.stores[expecting], j);
    matched := OwnerLocal(s.stores[owner], i, s.stores[expecting][j]);
  }

  /** Under each relation the allocated type matches the expected base type and does not
      match the holder type. */
  lemma {:induction false} RelationHolds(s: Schemas, relation: Relation)
    requires Declared(s)
    ensures MatchesType(s, 0, ActualIndex(relation), Recipient(relation), ExpectedIndex(relation))
    ensures !MatchesType(s, 0, ActualIndex(relation), Recipient(relation), HolderIndex(relation))
    ensures relation == Local <==> Recipient(relation) == 0
    ensures relation == ForeignSubtype <==>
      s.stores[0][ActualIndex(relation)].id != s.stores[Recipient(relation)][ExpectedIndex(relation)].id
  {
    hide Linked; hide Jumps;
    var a := s.stores[0];
    assert ConformsAt(s.types, a, 0) && ConformsAt(s.types, a, 1);
    Chain(s.types, a[0].id, a[1].id, a[2].id);
  }

  /** A root type lies on its own chain only, a type under it on both. */
  lemma {:induction false} Chain(types: seq<Canonical>, base: nat, derived: nat, other: nat)
    requires Grounded(types) && base < |types| && derived < |types| && other != base && other != derived
    requires types[base].parent == None && types[derived].parent == Some(base)
    ensures OnChain(types, base, base) && OnChain(types, derived, base)
    ensures !OnChain(types, base, other) && !OnChain(types, derived, other)
  {
    assert GroundedAt(types, base) && GroundedAt(types, derived);
    assert OnChain(types, base, base) && !OnChain(types, base, other);
  }
}
