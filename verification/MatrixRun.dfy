/** A whole run of the backend matrix: the command line, the selection of fixtures, and the
    exit code, stated in terms of what the tools and engines reported. */
module MatrixRun {
  import opened Wrappers
  import opened ReleaseGate

  // ----- Arguments -----

  datatype Arguments = Arguments(
    settings: Settings,
    timeout: real,
    maxCases: int,
    featureSwitches: nat,
    engine: bool,
    interpreter: bool,
    compiler: bool,
    rootExists: bool,
    including: bool)

  /** Settings the command line accepts. */
  predicate Accepted(settings: Settings)
  {
    && (settings.selected.Some? ==> settings.selected.value >= 1)
    && (settings.minimum.Some? ==> settings.minimum.value >= 1)
    && (settings.strict ==> settings.minimum.Some? && !settings.allowReference)
    && (settings.onlyDelta ==> settings.profile != Mvp)
    && forall i :: 0 <= i < |settings.allow| ==> SkipStatus(settings.allow[i]) && settings.allow[i] != WatCompileSkipped
  }

  /** A positive time limit, a sensible case limit, at most one feature switch, an engine of
      each kind and an existing source root. */
  predicate Sensible(args: Arguments)
  {
    && args.timeout > 0.0 && args.maxCases >= 0 && args.featureSwitches <= 1
    && (args.engine || args.interpreter) && (args.engine || args.compiler)
    && args.rootExists && Accepted(args.settings)
  }

  // ----- Selection -----

  /** A fixture: whether its path matches an include or an exclude pattern, whether its text
      has an entry point, and what the tools would report for it. */
  datatype Fixture = Fixture(included: bool, excluded: bool, entry: bool, input: Input)

  predicate Selectable(args: Arguments, f: Fixture)
  {
    (args.including ==> f.included) && !f.excluded && (args.settings.mode == Execute ==> f.entry)
  }

  function Chosen(args: Arguments, fixtures: seq<Fixture>): (r: seq<Input>)
    ensures |r| == Count(fixtures, f => Selectable(args, f))
  {
    if fixtures == [] then []
    else
      var last := fixtures[|fixtures| - 1];
      Chosen(args, fixtures[..|fixtures| - 1]) + if Selectable(args, last) then [last.input] else []
  }

  lemma {:induction false} ChosenNext(args: Arguments, fixtures: seq<Fixture>, i: nat)
    requires i < |fixtures|
    ensures Chosen(args, fixtures[..i + 1])
            == Chosen(args, fixtures[..i]) + if Selectable(args, fixtures[i]) then [fixtures[i].input] else []
  {
    hide Count;
    assert fixtures[..i + 1][..i] == fixtures[..i];
  }

  lemma {:induction false} NoneYet(args: Arguments, fixtures: seq<Fixture>)
    ensures Chosen(args, fixtures[..0]) == []
  {
  }

  /** Left out by the include patterns. */
  predicate Filtered(args: Arguments, f: Fixture) { args.including && !f.included }

  /** Left out for want of an entry point. */
  predicate Entryless(args: Arguments, f: Fixture) { args.settings.mode == Execute && !f.entry }

  /** The first `maxCases` chosen inputs, or all of them if there is no limit. */
  function Limited(args: Arguments, inputs: seq<Input>): (r: seq<Input>)
    requires args.maxCases >= 0
  {
    if 0 < args.maxCases < |inputs| then inputs[..args.maxCases] else inputs
  }

  datatype Selection = Selection(total: nat, filtered: nat, excluded: nat, noEntry: nat, before: nat, truncated: nat)

  /** The chosen inputs in order, cut off at the limit; every fixture is counted once. */
  method Select(args: Arguments, fixtures: seq<Fixture>) returns (inputs: seq<Input>, counts: Selection)
    requires args.maxCases >= 0
    ensures inputs == Limited(args, Chosen(args, fixtures))
    ensures counts.total == |fixtures| == counts.filtered + counts.excluded + counts.noEntry + counts.before
    ensures counts.before == |Chosen(args, fixtures)| == |inputs| + counts.truncated
    ensures counts.filtered == Count(fixtures, f => Filtered(args, f))
    ensures counts.excluded == Count(fixtures, f => !Filtered(args, f) && f.excluded)
    ensures counts.noEntry == Count(fixtures, f => !Filtered(args, f) && !f.excluded && Entryless(args, f))
  {
    hide Chosen;
    NoneYet(args, fixtures);
    inputs := [];
    var total, filtered, excluded, noEntry := 0, 0, 0, 0;
    for i := 0 to |fixtures|
      invariant inputs == Chosen(args, fixtures[..i])
      invariant total == i == filtered + excluded + noEntry + |inputs|
      invariant filtered == Count(fixtures[..i], f => Filtered(args, f))
      invariant excluded == Count(fixtures[..i], f => !Filtered(args, f) && f.excluded)
      invariant noEntry == Count(fixtures[..i], f => !Filtered(args, f) && !f.excluded && Entryless(args, f))
    {
      ChosenNext(args, fixtures, i);
      assert fixtures[..i + 1][..i] == fixtures[..i];
      var f := fixtures[i];
      total := total + 1;
      if args.including && !f.included {
        filtered := filtered + 1;
      } else if f.excluded {
        excluded := excluded + 1;
      } else if args.settings.mode == Execute && !f.entry {
        noEntry := noEntry + 1;
      } else {
        inputs := inputs + [f.input];
      }
    }
    assert fixtures[..|fixtures|] == fixtures;
    var before := |inputs|;
    if args.maxCases > 0 && args.maxCases < |inputs| {
      inputs := inputs[..args.maxCases];
    }
    counts := Selection(total, filtered, excluded, noEntry, before, before - |inputs|);
  }

  /** The chosen inputs are those of the selectable fixtures, each once and in their order. */
  lemma {:induction false} ChosenInOrder(args: Arguments, fixtures: seq<Fixture>) returns (at: seq<nat>)
    ensures |at| == |Chosen(args, fixtures)|
    ensures forall j :: 0 <= j < |at| ==> at[j] < |fixtures| && Chosen(args, fixtures)[j] == fixtures[at[j]].input
    ensures forall i, j :: 0 <= i < j < |at| ==> at[i] < at[j]
    ensures forall k :: 0 <= k < |fixtures| ==>
      (k in at <==> (!args.including || fixtures[k].included) && !fixtures[k].excluded
                    && (args.settings.mode == Validate || fixtures[k].entry))
  {
    hide Count;
    if fixtures == [] {
      at := [];
    } else {
      var n := |fixtures| - 1;
      at := ChosenInOrder(args, fixtures[..n]);
      if Selectable(args, fixtures[n]) {
        at := at + [n];
      }
    }
  }

  lemma {:induction false} NoneChosen(args: Arguments, fixtures: seq<Fixture>)
    ensures Chosen(args, fixtures) == [] <==> forall i :: 0 <= i < |fixtures| ==> !Selectable(args, fixtures[i])
  {
    hide Count;
    if fixtures != [] {
      NoneChosen(args, fixtures[..|fixtures| - 1]);
    }
  }

  // ----- What the reports say -----

  /** The process ran to its end and reported success. */
  predicate Succeeded(p: Process) { !p.timedOut && p.returncode == 0 }

  /** The process ran to its end and returned 1, with no trap recognised. */
  predicate Refused(p: Process) { !p.timedOut && p.returncode == 1 && p.trap == None }

  /** It ran too long, was killed by a signal, or failed with a code that means nothing. */
  predicate Broken(p: Process)
  {
    p.timedOut || (p.trap == None && (p.returncode < 0 || p.returncode >= 128))
  }

  /** Both ended in the same way with the same output: both timed out, both succeeded, both hit
      the same trap, or both returned the same code without one. */
  predicate Alike(p: Process, q: Process)
  {
    && p.stdout == q.stdout && p.timedOut == q.timedOut
    && (p.timedOut || (p.returncode == 0 && q.returncode == 0)
        || (p.returncode != 0 && q.returncode != 0 && p.trap == q.trap
            && (p.trap.None? ==> p.returncode == q.returncode)))
  }

  /** The module was compiled, fits the profile, is new in it if that is asked for, and has
      something to run. */
  predicate Reached(settings: Settings, x: Input)
  {
    && Succeeded(x.compile) && x.output == Regular && Succeeded(x.validator)
    && (settings.onlyDelta ==> Refused(x.preceding))
    && (settings.mode == Execute ==> Succeeded(x.objdump) && x.entry == Callable)
  }

  /** The engines agree: when only validating, on acceptance; when executing, on how they ended
      and what they printed, the reference engine too unless its differences are tolerated. */
  predicate Agreed(settings: Settings, x: Input)
  {
    if settings.mode == Validate then
      Succeeded(x.interpreter) && Succeeded(x.compiler) && x.interpreter.stdout == x.compiler.stdout
    else
      && Alike(x.interpreter, x.compiler) && !Broken(x.interpreter) && !Broken(x.reference)
      && (settings.allowReference || Alike(x.interpreter, x.reference))
  }

  /** A working tool gave a deterministic reason to skip, and the allow list has it: the module
      does not fit a proper profile, already fits the one before, or has no entry. */
  predicate Excusable(settings: Settings, x: Input)
  {
    && Succeeded(x.compile) && x.output == Regular
    && if !Succeeded(x.validator) then
         Refused(x.validator) && settings.profile != All && ProfileValidationSkipped in settings.allow
       else if settings.onlyDelta && !Refused(x.preceding) then
         Succeeded(x.preceding) && PrecedingProfileSkipped in settings.allow
       else
         && settings.mode == Execute && Succeeded(x.objdump) && x.entry == ConfirmedNone
         && NoBinaryEntrySkipped in settings.allow
  }

  /** No failing status; a reference difference fails unless it is tolerated. */
  predicate Clean(settings: Settings, c: Case)
  {
    && c.status != BackendMismatch && c.status != ValidationRejected && c.status != OperationallyFailed
    && (settings.allowReference || c.status != ReferenceMismatch)
  }

  /** The classification of a case says exactly this of the reports. */
  lemma {:induction false} ByReports(settings: Settings, x: Input)
    ensures var c := ClassifyCase(settings, x);
            && (Done(c) <==> Reached(settings, x)) && (Left(c) <==> !Reached(settings, x))
            && (Excused(settings.allow, c) <==> Excusable(settings, x))
            && (Clean(settings, c) <==> (Reached(settings, x) ==> Agreed(settings, x)))
  {
  }

  lemma {:induction false} SoundByReports(settings: Settings, x: Input)
    requires Accepted(settings) && settings.strict
    ensures Sound(settings, ClassifyCase(settings, x)) <==>
            if Reached(settings, x) then Agreed(settings, x) else Excusable(settings, x)
  {
    ByReports(settings, x);
    Classified(settings, x);
    hide ClassifyCase; hide Reached; hide Agreed; hide Excusable; hide Excused;
  }

  lemma {:induction false} ReachedCount(settings: Settings, inputs: seq<Input>)
    ensures Count(CasesOf(settings, inputs), Done) == Count(inputs, x => Reached(settings, x))
  {
    hide ClassifyCase; hide Reached;
    if inputs != [] {
      var init := inputs[..|inputs| - 1];
      ReachedCount(settings, init);
      assert CasesOf(settings, inputs)[..|inputs| - 1] == CasesOf(settings, init);
      ByReports(settings, inputs[|inputs| - 1]);
    }
  }

  /** What a strict release has to show: as many cases as expected, enough of them run, every
      run agreed on by all engines and every other case excused. */
  ghost predicate Deserved(settings: Settings, inputs: seq<Input>)
  {
    && (settings.selected.Some? ==> |inputs| == settings.selected.value)
    && settings.minimum.Some? && Count(inputs, x => Reached(settings, x)) >= settings.minimum.value
    && forall i :: 0 <= i < |inputs| ==>
         if Reached(settings, inputs[i]) then Agreed(settings, inputs[i]) else Excusable(settings, inputs[i])
  }

  lemma {:induction false} QualifiesByReports(settings: Settings, inputs: seq<Input>)
    requires Accepted(settings) && settings.strict
    ensures Qualifies(settings, CasesOf(settings, inputs)) <==> Deserved(settings, inputs)
  {
    hide ClassifyCase; hide Reached; hide Agreed; hide Excusable; hide Sound; hide Count;
    ReachedCount(settings, inputs);
    forall i | 0 <= i < |inputs|
      ensures Sound(settings, CasesOf(settings, inputs)[i]) <==>
              if Reached(settings, inputs[i]) then Agreed(settings, inputs[i]) else Excusable(settings, inputs[i])
    {
      SoundByReports(settings, inputs[i]);
    }
  }

  /** An input that reached the engines and on which their output, or a time-out, a signal or an
      unknown code, speaks against them fails the run, strict or not. */
  lemma {:induction false} Unforgiven(settings: Settings, inputs: seq<Input>, i: nat)
    requires i < |inputs| && Reached(settings, inputs[i])
    requires var x := inputs[i];
      || x.interpreter.stdout != x.compiler.stdout || Broken(x.interpreter)
      || (settings.mode == Execute && (Broken(x.reference)
          || (!settings.allowReference && x.interpreter.stdout != x.reference.stdout)))
      || (x.interpreter.trap == None && x.compiler.trap == None && x.interpreter.returncode != x.compiler.returncode)
    ensures !Deserved(settings, inputs) && !Agreed(settings, inputs[i])
  {
    hide Count;
  }

  // ----- The exit code -----

  /** In strict mode the exit code is 0 exactly if the reports deserve it; otherwise exactly if
      no engine run failed. It is 2 exactly if the arguments are refused or select nothing. */
  method ExitCode(args: Arguments, fixtures: seq<Fixture>) returns (exit: int)
    ensures exit == 2 <==> !Sensible(args) || forall i :: 0 <= i < |fixtures| ==> !Selectable(args, fixtures[i])
    ensures exit != 2 ==> exit == 0 || exit == 1
    ensures exit != 2 ==> var settings, inputs := args.settings, Limited(args, Chosen(args, fixtures));
      exit == 0 <==>
        if settings.strict then Deserved(settings, inputs)
        else forall i :: 0 <= i < |inputs| ==> (Reached(settings, inputs[i]) ==> Agreed(settings, inputs[i]))
  {
    hide ClassifyCase; hide Exact; hide Count; hide Tallies; hide Deserved; hide Agreed; hide Reached; hide Qualifies;
    hide Chosen; hide Selectable;
    var settings := args.settings;
    if args.timeout <= 0.0 || args.maxCases < 0 || args.featureSwitches > 1 || !args.rootExists
       || !(args.engine || args.interpreter) || !(args.engine || args.compiler) {
      return 2;
    }
    var accepted := CheckSettings(settings);
    if !accepted {
      return 2;
    }
    var inputs, counts := Select(args, fixtures);
    NoneChosen(args, fixtures);
    if inputs == [] {
      return 2;
    }
    exit := Verdict(settings, inputs);
  }

  /** The checks the command line makes on its settings. */
  method CheckSettings(settings: Settings) returns (ok: bool)
    ensures ok == Accepted(settings)
  {
    if settings.selected.Some? && settings.selected.value < 1 {
      return false;
    }
    if settings.minimum.Some? && settings.minimum.value < 1 {
      return false;
    }
    if settings.strict && settings.minimum.None? {
      return false;
    }
    if settings.strict && settings.allowReference {
      return false;
    }
    if settings.onlyDelta && settings.profile == Mvp {
      return false;
    }
    for i := 0 to |settings.allow|
      invariant forall j :: 0 <= j < i ==> SkipStatus(settings.allow[j]) && settings.allow[j] != WatCompileSkipped
    {
      var s := settings.allow[i];
      if s != ProfileValidationSkipped && s != PrecedingProfileSkipped && s != NoBinaryEntrySkipped {
        return false;
      }
    }
    ok := true;
  }

  method Verdict(settings: Settings, inputs: seq<Input>) returns (exit: int)
    requires Accepted(settings)
    ensures exit == 0 || exit == 1
    ensures settings.strict ==> (exit == 0 <==> Deserved(settings, inputs))
    ensures !settings.strict ==>
      (exit == 0 <==> forall i :: 0 <= i < |inputs| ==> (Reached(settings, inputs[i]) ==> Agreed(settings, inputs[i])))
  {
    hide ClassifyCase; hide Exact; hide Count; hide Tallies; hide Deserved; hide Agreed; hide Reached; hide Qualifies;
    var cases, counters := CaseLoop(settings, inputs);
    AllRecognised(settings, inputs);
    var list := new Case[|cases|](i requires 0 <= i < |cases| => cases[i]);
    assert list[..] == cases;
    var gate := Summarize(list, settings);
    if gate.Failure? {
      return 1;
    }
    CountersDecide(settings, inputs, counters);
    if settings.strict {
      QualifiesByReports(settings, inputs);
    }
    if counters[BackendMismatch] > 0 || counters[ValidationRejected] > 0 || counters[OperationallyFailed] > 0 {
      return 1;
    }
    if counters[ReferenceMismatch] > 0 && !settings.allowReference {
      return 1;
    }
    if settings.strict && !Qualified(gate.value) {
      return 1;
    }
    return 0;
  }

  lemma {:induction false} AllRecognised(settings: Settings, inputs: seq<Input>)
    ensures forall i :: 0 <= i < |inputs| ==> Recognised(CasesOf(settings, inputs)[i])
  {
    hide ClassifyCase;
    forall i | 0 <= i < |inputs| ensures Recognised(CasesOf(settings, inputs)[i]) {
      Classified(settings, inputs[i]);
    }
  }

  ghost predicate NoFailures(counters: Tally, settings: Settings)
    requires counters.Keys == EXECUTED + SKIPPED
  {
    && counters[BackendMismatch] == 0 && counters[ValidationRejected] == 0 && counters[OperationallyFailed] == 0
    && (settings.allowReference || counters[ReferenceMismatch] == 0)
  }

  lemma {:induction false} NoFailuresIff(settings: Settings, cases: seq<Case>, counters: Tally)
    requires Tallies(counters, EXECUTED + SKIPPED, cases, Having)
    ensures counters.Keys == EXECUTED + SKIPPED
    ensures NoFailures(counters, settings) <==> forall i :: 0 <= i < |cases| ==> Clean(settings, cases[i])
  {
    hide Count;
    CountAll(cases, Having(BackendMismatch));
    CountAll(cases, Having(ValidationRejected));
    CountAll(cases, Having(OperationallyFailed));
    CountAll(cases, Having(ReferenceMismatch));
  }

  /** The loop's counters fail the run exactly if some engine run failed. */
  lemma {:induction false} CountersDecide(settings: Settings, inputs: seq<Input>, counters: Tally)
    requires Tallies(counters, EXECUTED + SKIPPED, CasesOf(settings, inputs), Having)
    ensures counters.Keys == EXECUTED + SKIPPED
    ensures NoFailures(counters, settings) <==>
      forall i :: 0 <= i < |inputs| ==> (Reached(settings, inputs[i]) ==> Agreed(settings, inputs[i]))
    ensures Deserved(settings, inputs) ==> NoFailures(counters, settings)
  {
    hide ClassifyCase; hide Count; hide Tallies; hide NoFailures; hide Clean; hide Reached; hide Agreed; hide Excusable;
    var cases := CasesOf(settings, inputs);
    NoFailuresIff(settings, cases, counters);
    forall i | 0 <= i < |inputs|
      ensures Clean(settings, cases[i]) <==> (Reached(settings, inputs[i]) ==> Agreed(settings, inputs[i]))
    {
      ByReports(settings, inputs[i]);
    }
  }
}
