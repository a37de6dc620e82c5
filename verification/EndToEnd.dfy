/** From bytes to behaviour: a built module, loaded from its bytes and invoked through its
    exports, runs to a halt and leaves the specified checksums in its exported globals. */
module EndToEnd {
  import opened Wrappers
  import opened Lcg
  import opened Machine
  import opened Families
  import opened Fragments
  import opened Layout
  import opened Codec
  import opened ModuleBuild
  import opened Loader
  import opened RunProofs

  const FUNCTION: byte := 0
  const TABLE: byte := 1
  const GLOBAL_VARIABLE: byte := 3

  const RUN := Ascii("run")
  const START := Ascii("_start")
  const STEP_CHECKSUM := Ascii("checksum")
  const ROOT_CHECKSUM := Ascii("root_checksum")
  const ROOT_TABLE := Ascii("roots")
  const NODE_TABLE := Ascii("node_roots")

  /** The index exported under a name. */
  function Find(exports: seq<Export>, name: seq<byte>, kind: byte): (r: Option<nat>)
  {
    if exports == [] then None
    else if exports[0].name == name && exports[0].kind == kind then Some(exports[0].index)
    else Find(exports[1..], name, kind)
  }

  /** The value of an exported global. */
  function Published(exports: seq<Export>, store: Store, name: seq<byte>): (r: Option<Val>)
  {
    match Find(exports, name, GLOBAL_VARIABLE)
    case None => None
    case Some(g) => if g < |store.globals| then Some(store.globals[g]) else None
  }

  /** Entry `j` of an exported table. */
  function Listed(exports: seq<Export>, store: Store, name: seq<byte>, j: nat): (r: Option<Val>)
  {
    match Find(exports, name, TABLE)
    case None => None
    case Some(t) => if t < |store.tables| && j < |store.tables[t]| then Some(store.tables[t][j]) else None
  }

  /** An exported function without parameters, called by the host on a fresh instance. */
  function Invoked(i: Instance, name: seq<byte>): (r: Option<Config>)
  {
    match Find(i.exports, name, FUNCTION)
    case None => None
    case Some(f) =>
      if f < |i.code.funcs| && i.code.funcs[f].params == 0
      then Some(Running(f, 0, Nil, Data(Empty, i.code.funcs[f].locals, i.store), Nil)) else None
  }

  lemma {:induction false} FindStep(e: Export, rest: seq<Export>, name: seq<byte>, kind: byte)
    ensures Find([e] + rest, name, kind)
            == if e.name == name && e.kind == kind then Some(e.index) else Find(rest, name, kind)
  {
    assert ([e] + rest)[1..] == rest;
  }

  /** The names have different lengths, so each export is found under its own. */
  lemma {:induction false} ExportsFound(family: Family)
    ensures Find(Exports(family), RUN, FUNCTION) == Some(0)
    ensures Find(Exports(family), START, FUNCTION) == Some(1)
    ensures Find(Exports(family), STEP_CHECKSUM, GLOBAL_VARIABLE) == Some(0)
    ensures Find(Exports(family), ROOT_CHECKSUM, GLOBAL_VARIABLE) == Some(1)
    ensures Find(Exports(family), ROOT_TABLE, TABLE) == Some(0)
    ensures family.ReferenceArray? ==> Find(Exports(family), NODE_TABLE, TABLE) == Some(1)
  {
    hide Find;
    var es := Exports(family);
    assert es == [es[0]] + es[1..] && es[1..] == [es[1]] + es[2..] && es[2..] == [es[2]] + es[3..];
    assert es[3..] == [es[3]] + es[4..] && es[4..] == [es[4]] + es[5..];
    FindStep(es[0], es[1..], RUN, FUNCTION);
    FindStep(es[0], es[1..], START, FUNCTION);
    FindStep(es[1], es[2..], START, FUNCTION);
    FindFourth(es[0], es[1], es[2], es[3], es[4..], STEP_CHECKSUM);
    FindFourth(es[0], es[1], es[2], es[3], es[4..], ROOT_CHECKSUM);
    FindStep(es[4], es[5..], ROOT_CHECKSUM, GLOBAL_VARIABLE);
    FindTables(es[0], es[1], es[2], es[3..], ROOT_TABLE);
    if family.ReferenceArray? {
      assert es[5..] == [es[5]] + [];
      FindTables(es[0], es[1], es[2], es[3..], NODE_TABLE);
      FindStep(es[3], es[4..], NODE_TABLE, TABLE);
      FindStep(es[4], es[5..], NODE_TABLE, TABLE);
      FindStep(es[5], [], NODE_TABLE, TABLE);
    }
  }

  /** The first two exports are functions. */
  lemma {:induction false} FindTables(a: Export, b: Export, c: Export, rest: seq<Export>, name: seq<byte>)
    requires a.kind == b.kind == FUNCTION
    ensures Find([a] + ([b] + ([c] + rest)), name, TABLE)
            == if c.name == name && c.kind == TABLE then Some(c.index) else Find(rest, name, TABLE)
  {
    hide Find;
    FindStep(a, [b] + ([c] + rest), name, TABLE);
    FindStep(b, [c] + rest, name, TABLE);
    FindStep(c, rest, name, TABLE);
  }

  /** The first three exports are not globals. */
  lemma {:induction false} FindFourth(a: Export, b: Export, c: Export, d: Export, rest: seq<Export>, name: seq<byte>)
    requires a.kind != GLOBAL_VARIABLE && b.kind != GLOBAL_VARIABLE && c.kind != GLOBAL_VARIABLE
    ensures Find([a] + ([b] + ([c] + ([d] + rest))), name, GLOBAL_VARIABLE)
            == if d.name == name && d.kind == GLOBAL_VARIABLE then Some(d.index) else Find(rest, name, GLOBAL_VARIABLE)
  {
    hide Find;
    FindStep(a, [b] + ([c] + ([d] + rest)), name, GLOBAL_VARIABLE);
    FindStep(b, [c] + ([d] + rest), name, GLOBAL_VARIABLE);
    FindStep(c, [d] + rest, name, GLOBAL_VARIABLE);
    FindStep(d, rest, name, GLOBAL_VARIABLE);
  }

  /** The loaded program, invoked at its two exports. */
  lemma {:induction false} Entries(family: Family, phase: Phase, n: nat, e: Checksums)
    ensures var i := Instance(Program(family, phase, n, e), InitialStore(family), Exports(family));
            Invoked(i, START) == Some(Boot(family)) && Invoked(i, RUN) == Some(Entry(family, Nil))
  {
    hide Find; hide RunCode; hide StartCode; hide Types; hide InitialStore; hide Exports; hide Ascii;
    ExportsFound(family);
  }

  /** Loaded from its bytes and invoked at an export, the module ends in `final` and executes
      `w` exactly `hits` times on the way. */
  ghost predicate Ends(binary: seq<byte>, name: seq<byte>, final: Config, w: Watch, hits: nat)
  {
    match Load(binary)
    case None => false
    case Some(i) => Invoked(i, name).Some? && Reaches(i.code, Invoked(i, name).value, final, w, hits)
  }

  /** The loaded module exports the globals of the store under these names and values. */
  ghost predicate Publishes(binary: seq<byte>, store: Store, step: u32, root: u32)
  {
    match Load(binary)
    case None => false
    case Some(i) =>
      && Published(i.exports, store, STEP_CHECKSUM) == Some(I32(step))
      && Published(i.exports, store, ROOT_CHECKSUM) == Some(I32(root))
  }

  /** Entry `j` of the table exported as `roots` is the address of the newest group of slot `j`: its
      array if it has one, else its node A. With links, `node_roots` has node A. */
  ghost predicate Rooted(binary: seq<byte>, family: Family, store: Store, groups: seq<Group>, j: nat)
    requires j < ROOTS <= |groups|
  {
    match Load(binary)
    case None => false
    case Some(i) =>
      var k := Owner(|groups|, j);
      var base := Base(family, k);
      && GroupAt(store.heap, base, groups[k])
      && Listed(i.exports, store, ROOT_TABLE, j) == Some(Addr(if family.ReferenceArray? then base + 2 else base))
      && (family.ReferenceArray? ==> Listed(i.exports, store, NODE_TABLE, j) == Some(Addr(base)))
  }

  ghost predicate AllRooted(binary: seq<byte>, family: Family, phase: Phase, n: nat, store: Store)
    requires n >= ROOTS
  {
    var groups := After(family, phase, n).groups;
    |groups| >= ROOTS && forall j :: 0 <= j < ROOTS ==> Rooted(binary, family, store, groups, j)
  }

  lemma {:induction false} Publish(binary: seq<byte>, family: Family, phase: Phase, n: nat, store: Store)
    requires n >= ROOTS && Built(binary, family, phase, n) && Finished(family, phase, n, store)
    ensures var e := Expected(family, phase, n); Publishes(binary, store, e.step, e.root)
    ensures AllRooted(binary, family, phase, n, store)
  {
    hide Built; hide Load; hide Program; hide Expected; hide InitialStore; hide Exports; hide Ascii; hide Find;
    hide After; hide GroupAt;
    LoadBuilt(binary, family, phase, n);
    ExportsFound(family);
    var groups := After(family, phase, n).groups;
    forall j | 0 <= j < ROOTS ensures Rooted(binary, family, store, groups, j) {
      assert GroupAt(store.heap, Base(family, Owner(|groups|, j)), groups[Owner(|groups|, j)]);
    }
  }

  /** A built module, loaded from its bytes and started at its exported `_start`, halts without
      a trap and with an empty operand stack; its exported globals hold the step and the root
      checksum, and its exported tables the newest group of every slot. */
  lemma {:induction false} BuiltModuleRuns(binary: seq<byte>, family: Family, phase: Phase, n: u32, w: Watch)
    returns (store: Store)
    requires n >= ROOTS && Built(binary, family, phase, n)
    ensures var e := Expected(family, phase, n);
            && Ends(binary, START, Halted(Empty, store), w, ProgramHits(family, phase, n, e, w))
            && Publishes(binary, store, e.step, e.root) && AllRooted(binary, family, phase, n, store)
  {
    hide Built; hide Load; hide Program; hide Reaches; hide Expected; hide Boot; hide ProgramHits; hide Invoked;
    hide InitialStore; hide Exports; hide Ascii; hide Publishes; hide AllRooted; hide Finished; hide Entry;
    var e := Expected(family, phase, n);
    LoadBuilt(binary, family, phase, n);
    Entries(family, phase, n, e);
    store := ProgramHalts(family, phase, n, w);
    Publish(binary, family, phase, n, store);
  }

  /** Called by the host, the exported `run` returns the combined checksum. */
  lemma {:induction false} BuiltRunReturns(binary: seq<byte>, family: Family, phase: Phase, n: u32, w: Watch)
    returns (store: Store)
    requires n >= ROOTS && Built(binary, family, phase, n)
    ensures var e := Expected(family, phase, n);
            && Ends(binary, RUN, Halted(Push(Empty, I32(e.result)), store), w, RunHits(family, phase, n, e, w))
            && Publishes(binary, store, e.step, e.root) && AllRooted(binary, family, phase, n, store)
            && IsXor(e.result, e.step, e.root)
  {
    hide Built; hide Load; hide Program; hide Reaches; hide Expected; hide Entry; hide RunHits; hide Invoked;
    hide InitialStore; hide Exports; hide Ascii; hide IsXor; hide Publishes; hide AllRooted; hide Finished; hide Boot;
    var e := Expected(family, phase, n);
    LoadBuilt(binary, family, phase, n);
    Entries(family, phase, n, e);
    store := RunReturns(family, phase, n, w);
    Publish(binary, family, phase, n, store);
  }
}
