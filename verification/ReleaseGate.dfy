/** The backend matrix: how one case is classified from what the tools reported, the
    loop that counts the classifications, and the gate that tallies the cases once more. */
module ReleaseGate {
  import opened Wrappers

  // ----- Processes -----

  datatype Outcome = Good | TimedOut | Trapping(name: string) | Exit(code: int) | Signal(number: int) | Error(code: int)

  /** A finished process; `trap` is what its diagnostics were recognised as. */
  datatype Process = Process(returncode: int, timedOut: bool, trap: Option<string>, stdout: seq<nat>)

  function OutcomeOf(p: Process): (o: Outcome)
  {
    if p.timedOut then TimedOut
    else if p.returncode == 0 then Good
    else if p.trap.Some? then Trapping(p.trap.value)
    else if 0 < p.returncode < 128 then Exit(p.returncode)
    else if p.returncode < 0 then Signal(-p.returncode)
    else Error(p.returncode)
  }

  predicate SameResult(p: Process, q: Process) { OutcomeOf(p) == OutcomeOf(q) && p.stdout == q.stdout }

  predicate OperationalFailure(p: Process) { p.timedOut || OutcomeOf(p).Signal? || OutcomeOf(p).Error? }

  // ----- One case -----

  datatype Status =
    | Passed | BackendMismatch | ReferenceMismatch | ValidationRejected | OperationallyFailed
    | WatCompileSkipped | ProfileValidationSkipped | PrecedingProfileSkipped | NoBinaryEntrySkipped
    | Unrecognised

  datatype Classification = Executed | Skipped | Unclassified

  datatype Case = Case(classification: Classification, status: Status, eligible: bool, expected: Option<bool>)

  predicate ExecutedStatus(s: Status)
  {
    s.Passed? || s.BackendMismatch? || s.ReferenceMismatch? || s.ValidationRejected? || s.OperationallyFailed?
  }

  predicate SkipStatus(s: Status)
  {
    s.WatCompileSkipped? || s.ProfileValidationSkipped? || s.PrecedingProfileSkipped? || s.NoBinaryEntrySkipped?
  }

  datatype Mode = Execute | Validate
  datatype Profile = Mvp | Wasm2 | All
  datatype Output = Regular | Missing | Irregular | EmptyFile
  datatype Entry = Callable | ConfirmedNone | Unparseable

  datatype Settings = Settings(mode: Mode, profile: Profile, onlyDelta: bool, strict: bool, minimum: Option<int>,
                               allow: seq<Status>, selected: Option<int>, allowReference: bool)

  /** What the tools and engines would report for one case. */
  datatype Input = Input(compile: Process, output: Output, validator: Process, preceding: Process, objdump: Process,
                         entry: Entry, interpreter: Process, compiler: Process, reference: Process)

  function Ran(status: Status): (c: Case) { Case(Executed, status, false, None) }
  function Skip(status: Status, eligible: bool): (c: Case) { Case(Skipped, status, eligible, None) }

  /** The classification of a case that reaches the engines. */
  function RunCase(settings: Settings, x: Input): (c: Case)
  {
    if settings.mode == Validate then
      if OperationalFailure(x.interpreter) || OperationalFailure(x.compiler) then Ran(OperationallyFailed)
      else if !SameResult(x.interpreter, x.compiler) then Ran(BackendMismatch)
      else if OutcomeOf(x.interpreter) != Good then Ran(ValidationRejected)
      else Ran(Passed)
    else
      var entry := if OutcomeOf(x.objdump) != Good then Unparseable else x.entry;
      if entry != Callable then Skip(NoBinaryEntrySkipped, entry == ConfirmedNone)
      else if OperationalFailure(x.reference) || OperationalFailure(x.interpreter) || OperationalFailure(x.compiler)
      then Ran(OperationallyFailed)
      else if !SameResult(x.interpreter, x.compiler) then Ran(BackendMismatch)
      else if !SameResult(x.interpreter, x.reference) then Ran(ReferenceMismatch)
      else Ran(Passed)
  }

  function ClassifyCase(settings: Settings, x: Input): (c: Case)
  {
    if OutcomeOf(x.compile) != Good || x.output != Regular then Skip(WatCompileSkipped, false)
    else if OutcomeOf(x.validator) != Good then
      Skip(ProfileValidationSkipped, OutcomeOf(x.validator) == Exit(1) && settings.profile != All)
    else if settings.onlyDelta && OutcomeOf(x.preceding) != Exit(1) then
      Skip(PrecedingProfileSkipped, OutcomeOf(x.preceding) == Good)
    else RunCase(settings, x)
  }

  /** A case is classified as executed or skipped, and its status says which. */
  lemma {:induction false} Classified(settings: Settings, x: Input)
    ensures var c := ClassifyCase(settings, x);
            (c.classification == Executed && ExecutedStatus(c.status))
              || (c.classification == Skipped && SkipStatus(c.status))
  {
  }

  // ----- Counting -----

  function Count<T>(items: seq<T>, p: T -> bool): (n: nat)
    ensures n <= |items|
  {
    if items == [] then 0 else Count(items[..|items| - 1], p) + if p(items[|items| - 1]) then 1 else 0
  }

  function Having(s: Status): (p: Case -> bool) { (c: Case) => c.status == s }

  function ExecutedAs(s: Status): (p: Case -> bool) { (c: Case) => c.classification == Executed && c.status == s }

  function SkippedAs(s: Status): (p: Case -> bool) { (c: Case) => c.classification == Skipped && c.status == s }

  /** A skip the allow list excuses. */
  predicate Excused(allow: seq<Status>, c: Case) { c.classification == Skipped && c.status in allow && c.eligible }

  predicate Recognised(c: Case)
  {
    (c.classification == Executed && ExecutedStatus(c.status)) || (c.classification == Skipped && SkipStatus(c.status))
  }

  lemma {:induction false} CountNext(cases: seq<Case>, i: nat, p: Case -> bool)
    requires i < |cases|
    ensures Count(cases[..i + 1], p) == Count(cases[..i], p) + if p(cases[i]) then 1 else 0
  {
    assert cases[..i + 1][..i] == cases[..i];
  }

  lemma {:induction false} CountAll(cases: seq<Case>, p: Case -> bool)
    ensures Count(cases, p) == 0 <==> forall i :: 0 <= i < |cases| ==> !p(cases[i])
    ensures Count(cases, p) == |cases| <==> forall i :: 0 <= i < |cases| ==> p(cases[i])
  {
    if cases != [] {
      CountAll(cases[..|cases| - 1], p);
    }
  }

  // ----- The case loop -----

  type Tally = map<Status, nat>

  const EXECUTED: set<Status> := {Passed, BackendMismatch, ReferenceMismatch, ValidationRejected, OperationallyFailed}
  const SKIPPED: set<Status> :=
    {WatCompileSkipped, ProfileValidationSkipped, PrecedingProfileSkipped, NoBinaryEntrySkipped}

  function Zero(keys: set<Status>): (t: Tally) { map s | s in keys :: 0 }

  function Bump(t: Tally, s: Status): (t': Tally)
    requires s in t
  {
    t[s := t[s] + 1]
  }

  /** A tally of a sequence of cases under one predicate per status. */
  ghost predicate Tallies(t: Tally, keys: set<Status>, cases: seq<Case>, p: Status -> (Case -> bool))
  {
    t.Keys == keys && forall s :: s in keys ==> t[s] == Count(cases, p(s))
  }

  /** One more case whose own status is the only one it counts for. */
  lemma {:induction false} TallyNext(t: Tally, keys: set<Status>, cases: seq<Case>, i: nat, p: Status -> (Case -> bool),
                                     counts: bool)
    requires i < |cases| && Tallies(t, keys, cases[..i], p) && (counts ==> cases[i].status in keys)
    requires forall s :: s in keys ==> (p(s)(cases[i]) <==> counts && s == cases[i].status)
    ensures Tallies(if counts then Bump(t, cases[i].status) else t, keys, cases[..i + 1], p)
  {
    forall s | s in keys
      ensures (if counts then Bump(t, cases[i].status) else t)[s] == Count(cases[..i + 1], p(s))
    {
      CountNext(cases, i, p(s));
    }
  }

  lemma {:induction false} TallyStart(keys: set<Status>, p: Status -> (Case -> bool))
    ensures Tallies(Zero(keys), keys, [], p)
  {
  }

  /** The engines' verdict, counted where it is reached. */
  method CountRun(settings: Settings, x: Input, counters: Tally) returns (c: Case, counters': Tally)
    requires counters.Keys == EXECUTED + SKIPPED
    ensures c == RunCase(settings, x) && c.status in counters && counters' == Bump(counters, c.status)
  {
    hide OutcomeOf; hide SameResult; hide OperationalFailure;
    var status := Passed;
    if settings.mode == Validate {
      if OperationalFailure(x.interpreter) || OperationalFailure(x.compiler) {
        status := OperationallyFailed;
      } else if !SameResult(x.interpreter, x.compiler) {
        status := BackendMismatch;
      } else if OutcomeOf(x.interpreter) != Good {
        status := ValidationRejected;
      }
      return Ran(status), Bump(counters, status);
    }
    var entry := if OutcomeOf(x.objdump) != Good then Unparseable else x.entry;
    if entry != Callable {
      return Skip(NoBinaryEntrySkipped, entry == ConfirmedNone), Bump(counters, NoBinaryEntrySkipped);
    }
    if OperationalFailure(x.reference) || OperationalFailure(x.interpreter) || OperationalFailure(x.compiler) {
      status := OperationallyFailed;
    } else if !SameResult(x.interpreter, x.compiler) {
      status := BackendMismatch;
    } else if !SameResult(x.interpreter, x.reference) {
      status := ReferenceMismatch;
    }
    return Ran(status), Bump(counters, status);
  }

  method CountCase(settings: Settings, x: Input, counters: Tally) returns (c: Case, counters': Tally)
    requires counters.Keys == EXECUTED + SKIPPED
    ensures c == ClassifyCase(settings, x) && c.status in counters && counters' == Bump(counters, c.status)
  {
    hide OutcomeOf; hide RunCase;
    if OutcomeOf(x.compile) != Good || x.output != Regular {
      return Skip(WatCompileSkipped, false), Bump(counters, WatCompileSkipped);
    }
    if OutcomeOf(x.validator) != Good {
      var filtered := OutcomeOf(x.validator) == Exit(1) && settings.profile != All;
      return Skip(ProfileValidationSkipped, filtered), Bump(counters, ProfileValidationSkipped);
    }
    if settings.onlyDelta && OutcomeOf(x.preceding) != Exit(1) {
      return Skip(PrecedingProfileSkipped, OutcomeOf(x.preceding) == Good), Bump(counters, PrecedingProfileSkipped);
    }
    c, counters' := CountRun(settings, x, counters);
  }

  function CasesOf(settings: Settings, inputs: seq<Input>): (cases: seq<Case>)
    ensures |cases| == |inputs|
    ensures forall i :: 0 <= i < |inputs| ==> cases[i] == ClassifyCase(settings, inputs[i])
  {
    seq(|inputs|, i requires 0 <= i < |inputs| => ClassifyCase(settings, inputs[i]))
  }

  /** Recording a case keeps the loop's counters exact. */
  lemma {:induction false} HavingNext(t: Tally, keys: set<Status>, cases: seq<Case>, i: nat)
    requires i < |cases| && Tallies(t, keys, cases[..i], Having) && cases[i].status in keys
    ensures cases[i].status in t && Tallies(Bump(t, cases[i].status), keys, cases[..i + 1], Having)
  {
    TallyNext(t, keys, cases, i, Having, true);
  }

  /** The loop's counters are the tallies of the cases it recorded. */
  method CaseLoop(settings: Settings, inputs: seq<Input>) returns (cases: seq<Case>, counters: Tally)
    ensures cases == CasesOf(settings, inputs) && Tallies(counters, EXECUTED + SKIPPED, cases, Having)
  {
    hide ClassifyCase; hide Tallies; hide Having; hide Bump;
    var keys := EXECUTED + SKIPPED;
    cases, counters := [], Zero(keys);
    TallyStart(keys, Having);
    ghost var all := CasesOf(settings, inputs);
    assert all[..0] == [];
    for i := 0 to |inputs|
      invariant cases == all[..i] && Tallies(counters, keys, all[..i], Having)
    {
      TallyKeys(counters, keys, all[..i], Having);
      var c, counters' := CountCase(settings, inputs[i], counters);
      HavingNext(counters, keys, all, i);
      cases, counters := cases + [c], counters';
    }
    assert all[..|inputs|] == all;
  }

  lemma {:induction false} TallyKeys(t: Tally, keys: set<Status>, cases: seq<Case>, p: Status -> (Case -> bool))
    requires Tallies(t, keys, cases, p)
    ensures t.Keys == keys
  {
  }

  // ----- The gate -----

  datatype Violation =
    | MinimumNotExplicit
    | MinimumNotMet(actual: nat, minimum: int)
    | SelectedMismatch(count: nat, wanted: int)
    | UnexpectedSkips(skips: nat)
    | ResultFailures(failures: nat)

  function ExecutedTotal(t: Tally): (n: nat)
    requires t.Keys == EXECUTED
  {
    t[Passed] + t[BackendMismatch] + t[ReferenceMismatch] + t[ValidationRejected] + t[OperationallyFailed]
  }

  function SkippedTotal(t: Tally): (n: nat)
    requires t.Keys == SKIPPED
  {
    t[WatCompileSkipped] + t[ProfileValidationSkipped] + t[PrecedingProfileSkipped] + t[NoBinaryEntrySkipped]
  }

  function ExcusedBy(allow: seq<Status>): (p: Status -> (Case -> bool))
  {
    (s: Status) => (c: Case) => c.status == s && Excused(allow, c)
  }

  function UnexcusedBy(allow: seq<Status>): (p: Status -> (Case -> bool))
  {
    (s: Status) => (c: Case) => c.status == s && c.classification == Skipped && !Excused(allow, c)
  }

  datatype Tallied = Tallied(executed: Tally, skipped: Tally, excused: Tally, unexcused: Tally)

  /** The gate's four tallies of the cases. */
  ghost predicate Exact(t: Tallied, cases: seq<Case>, allow: seq<Status>)
  {
    && Tallies(t.executed, EXECUTED, cases, ExecutedAs)
    && Tallies(t.skipped, SKIPPED, cases, SkippedAs)
    && Tallies(t.excused, SKIPPED, cases, ExcusedBy(allow))
    && Tallies(t.unexcused, SKIPPED, cases, UnexcusedBy(allow))
  }

  function Marked(c: Case, allow: seq<Status>): (c': Case)
  {
    if c.classification == Skipped then c.(expected := Some(Excused(allow, c))) else c
  }

  lemma {:induction false} ExecutedNext(t: Tally, keys: set<Status>, cases: seq<Case>, i: nat)
    requires i < |cases| && Tallies(t, keys, cases[..i], ExecutedAs)
    requires cases[i].classification == Executed ==> cases[i].status in keys
    ensures cases[i].classification == Executed ==>
      cases[i].status in t && Tallies(Bump(t, cases[i].status), keys, cases[..i + 1], ExecutedAs)
    ensures cases[i].classification != Executed ==> Tallies(t, keys, cases[..i + 1], ExecutedAs)
  {
    TallyNext(t, keys, cases, i, ExecutedAs, cases[i].classification == Executed);
  }

  lemma {:induction false} SkippedNext(t: Tally, keys: set<Status>, cases: seq<Case>, i: nat)
    requires i < |cases| && Tallies(t, keys, cases[..i], SkippedAs)
    requires cases[i].classification == Skipped ==> cases[i].status in keys
    ensures cases[i].classification == Skipped ==>
      cases[i].status in t && Tallies(Bump(t, cases[i].status), keys, cases[..i + 1], SkippedAs)
    ensures cases[i].classification != Skipped ==> Tallies(t, keys, cases[..i + 1], SkippedAs)
  {
    TallyNext(t, keys, cases, i, SkippedAs, cases[i].classification == Skipped);
  }

  lemma {:induction false} ExcusedNext(t: Tally, keys: set<Status>, cases: seq<Case>, i: nat, allow: seq<Status>)
    requires i < |cases| && Tallies(t, keys, cases[..i], ExcusedBy(allow))
    requires Excused(allow, cases[i]) ==> cases[i].status in keys
    ensures Excused(allow, cases[i]) ==>
      cases[i].status in t && Tallies(Bump(t, cases[i].status), keys, cases[..i + 1], ExcusedBy(allow))
    ensures !Excused(allow, cases[i]) ==> Tallies(t, keys, cases[..i + 1], ExcusedBy(allow))
  {
    TallyNext(t, keys, cases, i, ExcusedBy(allow), Excused(allow, cases[i]));
  }

  lemma {:induction false} UnexcusedNext(t: Tally, keys: set<Status>, cases: seq<Case>, i: nat, allow: seq<Status>)
    requires i < |cases| && Tallies(t, keys, cases[..i], UnexcusedBy(allow))
    requires cases[i].classification == Skipped ==> cases[i].status in keys
    ensures cases[i].classification == Skipped && !Excused(allow, cases[i]) ==>
      cases[i].status in t && Tallies(Bump(t, cases[i].status), keys, cases[..i + 1], UnexcusedBy(allow))
    ensures cases[i].classification != Skipped || Excused(allow, cases[i]) ==>
      Tallies(t, keys, cases[..i + 1], UnexcusedBy(allow))
  {
    TallyNext(t, keys, cases, i, UnexcusedBy(allow), cases[i].classification == Skipped && !Excused(allow, cases[i]));
  }

  /** One case of the gate's own loop. */
  method TallyCase(t: Tallied, c: Case, allow: seq<Status>, ghost cases: seq<Case>, ghost i: nat)
    returns (r: Result<(Tallied, Case)>)
    requires i < |cases| && c == cases[i] && Exact(t, cases[..i], allow)
    ensures r.Success? <==> Recognised(c)
    ensures r.Success? ==> Exact(r.value.0, cases[..i + 1], allow) && r.value.1 == Marked(c, allow)
  {
    hide Tallies; hide Bump; hide ExecutedAs; hide SkippedAs; hide ExcusedBy; hide UnexcusedBy;
    var executed, skipped := EXECUTED, SKIPPED;
    if c.classification == Executed {
      if c.status !in executed {
        return Failure("unknown executed case status");
      }
      ExecutedNext(t.executed, executed, cases, i);
      SkippedNext(t.skipped, skipped, cases, i);
      ExcusedNext(t.excused, skipped, cases, i, allow);
      UnexcusedNext(t.unexcused, skipped, cases, i, allow);
      return Success((t.(executed := Bump(t.executed, c.status)), c));
    }
    if c.classification != Skipped || c.status !in skipped {
      return Failure("case has no recognized execution classification");
    }
    ExecutedNext(t.executed, executed, cases, i);
    SkippedNext(t.skipped, skipped, cases, i);
    ExcusedNext(t.excused, skipped, cases, i, allow);
    UnexcusedNext(t.unexcused, skipped, cases, i, allow);
    var expected := c.status in allow && c.eligible;
    var t' := t.(skipped := Bump(t.skipped, c.status));
    t' := if expected then t'.(excused := Bump(t.excused, c.status)) else t'.(unexcused := Bump(t.unexcused, c.status));
    return Success((t', c.(expected := Some(expected))));
  }

  /** The four tallies of all cases; an unrecognised case stops the summary. */
  method TallyCases(cases: array<Case>, allow: seq<Status>) returns (r: Result<Tallied>)
    modifies cases
    ensures r.Success? <==> forall i :: 0 <= i < cases.Length ==> Recognised(old(cases[i]))
    ensures r.Success? ==> Exact(r.value, old(cases[..]), allow)
    ensures r.Success? ==> forall i :: 0 <= i < cases.Length ==> cases[i] == Marked(old(cases[i]), allow)
  {
    hide Exact; hide Recognised; hide Marked;
    var t := Tallied(Zero(EXECUTED), Zero(SKIPPED), Zero(SKIPPED), Zero(SKIPPED));
    ghost var all := cases[..];
    assert all[..0] == [];
    ExactStart(allow);
    for i := 0 to cases.Length
      invariant Exact(t, all[..i], allow)
      invariant forall j :: 0 <= j < i ==> Recognised(all[j]) && cases[j] == Marked(all[j], allow)
      invariant forall j :: i <= j < cases.Length ==> cases[j] == all[j]
    {
      var tallied := TallyCase(t, cases[i], allow, all, i);
      if tallied.Failure? {
        return Failure(tallied.reason);
      }
      t, cases[i] := tallied.value.0, tallied.value.1;
    }
    assert all[..cases.Length] == all;
    r := Success(t);
  }

  lemma {:induction false} ExactStart(allow: seq<Status>)
    ensures Exact(Tallied(Zero(EXECUTED), Zero(SKIPPED), Zero(SKIPPED), Zero(SKIPPED)), [], allow)
  {
    hide Tallies;
    TallyStart(EXECUTED, ExecutedAs);
    TallyStart(SKIPPED, SkippedAs);
    TallyStart(SKIPPED, ExcusedBy(allow));
    TallyStart(SKIPPED, UnexcusedBy(allow));
  }

  // ----- Totals -----

  predicate Done(c: Case) { c.classification == Executed }
  predicate Left(c: Case) { c.classification == Skipped }
  function Inexcusable(allow: seq<Status>): (p: Case -> bool) { (c: Case) => Left(c) && !Excused(allow, c) }

  function Sum5(cases: seq<Case>, p: Status -> (Case -> bool)): (n: nat)
  {
    Count(cases, p(Passed)) + Count(cases, p(BackendMismatch)) + Count(cases, p(ReferenceMismatch))
    + Count(cases, p(ValidationRejected)) + Count(cases, p(OperationallyFailed))
  }

  function Sum4(cases: seq<Case>, p: Status -> (Case -> bool)): (n: nat)
  {
    Count(cases, p(WatCompileSkipped)) + Count(cases, p(ProfileValidationSkipped))
    + Count(cases, p(PrecedingProfileSkipped)) + Count(cases, p(NoBinaryEntrySkipped))
  }

  /** Counting by executed status, or by skip status, misses nothing and repeats nothing. */
  lemma {:induction false} SumExecuted(cases: seq<Case>)
    requires forall i :: 0 <= i < |cases| ==> Recognised(cases[i])
    ensures Sum5(cases, ExecutedAs) == Count(cases, Done)
  {
    if cases != [] {
      SumExecuted(cases[..|cases| - 1]);
      assert Recognised(cases[|cases| - 1]);
    }
  }

  lemma {:induction false} SumSkips(cases: seq<Case>, p: Status -> (Case -> bool), q: Case -> bool)
    requires forall i :: 0 <= i < |cases| ==> (q(cases[i]) ==> SkipStatus(cases[i].status))
    requires forall i, s :: 0 <= i < |cases| && SkipStatus(s) ==>
      (p(s)(cases[i]) <==> q(cases[i]) && cases[i].status == s)
    ensures Sum4(cases, p) == Count(cases, q)
  {
    if cases != [] {
      SumSkips(cases[..|cases| - 1], p, q);
      SumSkip(cases[|cases| - 1], p, q);
    }
  }

  lemma {:induction false} SumSkip(c: Case, p: Status -> (Case -> bool), q: Case -> bool)
    requires q(c) ==> SkipStatus(c.status)
    requires forall s :: SkipStatus(s) ==> (p(s)(c) <==> q(c) && c.status == s)
    ensures (if p(WatCompileSkipped)(c) then 1 else 0) + (if p(ProfileValidationSkipped)(c) then 1 else 0)
            + (if p(PrecedingProfileSkipped)(c) then 1 else 0) + (if p(NoBinaryEntrySkipped)(c) then 1 else 0)
            == if q(c) then 1 else 0
  {
    assert SkipStatus(WatCompileSkipped) && SkipStatus(ProfileValidationSkipped);
    assert SkipStatus(PrecedingProfileSkipped) && SkipStatus(NoBinaryEntrySkipped);
  }

  lemma {:induction false} DoneOrLeft(cases: seq<Case>)
    requires forall i :: 0 <= i < |cases| ==> Recognised(cases[i])
    ensures Count(cases, Done) + Count(cases, Left) == |cases|
  {
    if cases != [] {
      DoneOrLeft(cases[..|cases| - 1]);
      assert Recognised(cases[|cases| - 1]);
    }
  }

  /** Every selected case is executed or skipped, and every skip is excused or not. */
  lemma {:induction false} Totals(t: Tallied, cases: seq<Case>, allow: seq<Status>)
    requires Exact(t, cases, allow) && forall i :: 0 <= i < |cases| ==> Recognised(cases[i])
    ensures t.executed.Keys == EXECUTED && t.skipped.Keys == t.excused.Keys == t.unexcused.Keys == SKIPPED
    ensures ExecutedTotal(t.executed) == Count(cases, Done) && SkippedTotal(t.skipped) == Count(cases, Left)
    ensures ExecutedTotal(t.executed) + SkippedTotal(t.skipped) == |cases|
    ensures SkippedTotal(t.unexcused) == Count(cases, Inexcusable(allow))
    ensures SkippedTotal(t.excused) == Count(cases, c => Excused(allow, c))
  {
    hide Count;
    SumExecuted(cases);
    DoneOrLeft(cases);
    SumSkips(cases, SkippedAs, Left);
    SumSkips(cases, ExcusedBy(allow), c => Excused(allow, c));
    SumSkips(cases, UnexcusedBy(allow), Inexcusable(allow));
  }

  lemma {:induction false} CountSame(cases: seq<Case>, p: Case -> bool, q: Case -> bool)
    requires forall i :: 0 <= i < |cases| ==> (p(cases[i]) <==> q(cases[i]))
    ensures Count(cases, p) == Count(cases, q)
  {
    if cases != [] {
      CountSame(cases[..|cases| - 1], p, q);
    }
  }

  lemma {:induction false} TalliesAgree(t: Tally, keys: set<Status>, p: Status -> (Case -> bool), u: Tally,
                                        keys': set<Status>,
                                        q: Status -> (Case -> bool), cases: seq<Case>, s: Status)
    requires Tallies(t, keys, cases, p) && Tallies(u, keys', cases, q) && s in keys && s in keys'
    requires forall i :: 0 <= i < |cases| ==> (p(s)(cases[i]) <==> q(s)(cases[i]))
    ensures s in t && s in u && t[s] == u[s]
  {
    CountSame(cases, p(s), q(s));
  }

  /** The loop's counters and the gate's tallies are kept separately and always agree. */
  lemma {:induction false} CountersAgree(counters: Tally, t: Tallied, cases: seq<Case>, allow: seq<Status>, s: Status)
    requires Tallies(counters, EXECUTED + SKIPPED, cases, Having) && Exact(t, cases, allow)
    requires forall i :: 0 <= i < |cases| ==> Recognised(cases[i])
    ensures ExecutedStatus(s) ==> s in counters && s in t.executed && counters[s] == t.executed[s]
    ensures SkipStatus(s) ==> s in counters && s in t.skipped && counters[s] == t.skipped[s]
  {
    hide Tallies;
    if ExecutedStatus(s) {
      TalliesAgree(counters, EXECUTED + SKIPPED, Having, t.executed, EXECUTED, ExecutedAs, cases, s);
    } else if SkipStatus(s) {
      TalliesAgree(counters, EXECUTED + SKIPPED, Having, t.skipped, SKIPPED, SkippedAs, cases, s);
    }
  }

  // ----- The verdict -----

  datatype Gate = Gate(tallied: Tallied, violations: seq<Violation>)

  predicate Qualified(g: Gate) { g.violations == [] }

  function Floor(settings: Settings): (n: int) { if settings.minimum.Some? then settings.minimum.value else 1 }

  /** A case the release can stand on: it passed, or its skip is excused; outside strict
      mode a difference from the reference engine may be tolerated. */
  predicate Sound(settings: Settings, c: Case)
  {
    if Done(c) then c.status == Passed || (c.status == ReferenceMismatch && settings.allowReference && !settings.strict)
    else Excused(settings.allow, c)
  }

  /** What the gate is for, said of the cases alone. */
  ghost predicate Qualifies(settings: Settings, cases: seq<Case>)
  {
    && (settings.strict ==> settings.minimum.Some?)
    && Count(cases, Done) >= Floor(settings)
    && (settings.selected.Some? ==> |cases| == settings.selected.value)
    && forall i :: 0 <= i < |cases| ==> Sound(settings, cases[i])
  }

  function Failures(settings: Settings, t: Tally): (n: nat)
    requires t.Keys == EXECUTED
  {
    t[BackendMismatch] + t[ValidationRejected] + t[OperationallyFailed]
    + if settings.allowReference && !settings.strict then 0 else t[ReferenceMismatch]
  }

  /** All cases are sound exactly if nothing failed and no skip is unexcused. */
  lemma {:induction false} SoundIff(settings: Settings, t: Tallied, cases: seq<Case>)
    requires Exact(t, cases, settings.allow) && forall i :: 0 <= i < |cases| ==> Recognised(cases[i])
    ensures t.executed.Keys == EXECUTED && t.unexcused.Keys == SKIPPED
    ensures Failures(settings, t.executed) == 0 && SkippedTotal(t.unexcused) == 0 <==>
            forall i :: 0 <= i < |cases| ==> Sound(settings, cases[i])
  {
    hide Count;
    Totals(t, cases, settings.allow);
    CountAll(cases, Inexcusable(settings.allow));
    CountAll(cases, ExecutedAs(BackendMismatch));
    CountAll(cases, ExecutedAs(ValidationRejected));
    CountAll(cases, ExecutedAs(OperationallyFailed));
    CountAll(cases, ExecutedAs(ReferenceMismatch));
    SoundParts(settings, cases);
  }

  lemma {:induction false} SoundParts(settings: Settings, cases: seq<Case>)
    requires forall i :: 0 <= i < |cases| ==> Recognised(cases[i])
    ensures (forall i :: 0 <= i < |cases| ==> Sound(settings, cases[i])) <==>
      && (forall i :: 0 <= i < |cases| ==> !Inexcusable(settings.allow)(cases[i]))
      && (forall i :: 0 <= i < |cases| ==> !ExecutedAs(BackendMismatch)(cases[i]))
      && (forall i :: 0 <= i < |cases| ==> !ExecutedAs(ValidationRejected)(cases[i]))
      && (forall i :: 0 <= i < |cases| ==> !ExecutedAs(OperationallyFailed)(cases[i]))
      && ((settings.allowReference && !settings.strict) || forall i :: 0 <= i < |cases| ==>
          !ExecutedAs(ReferenceMismatch)(cases[i]))
  {
    forall i | 0 <= i < |cases|
      ensures Sound(settings, cases[i]) <==>
        && !Inexcusable(settings.allow)(cases[i]) && !ExecutedAs(BackendMismatch)(cases[i])
        && !ExecutedAs(ValidationRejected)(cases[i]) && !ExecutedAs(OperationallyFailed)(cases[i])
        && ((settings.allowReference && !settings.strict) || !ExecutedAs(ReferenceMismatch)(cases[i]))
    {
      assert Recognised(cases[i]);
    }
  }

  /** An executed case that counts as a failure. */
  predicate Failing(settings: Settings, c: Case)
  {
    && Done(c) && c.status != Passed
    && !(c.status == ReferenceMismatch && settings.allowReference && !settings.strict)
  }

  function If(condition: bool, v: Violation): (vs: seq<Violation>) { if condition then [v] else [] }

  /** The violations of the run's size and of the executed cases. */
  function Shortfalls(settings: Settings, size: nat, executed: nat): (vs: seq<Violation>)
  {
    If(settings.strict && settings.minimum.None?, MinimumNotExplicit)
    + If(executed < Floor(settings), MinimumNotMet(executed, Floor(settings)))
    + match settings.selected
      case None => []
      case Some(wanted) => If(size != wanted, SelectedMismatch(size, wanted))
  }

  /** The violations that these numbers give. */
  function Listing(settings: Settings, size: nat, executed: nat, skips: nat, failures: nat): (vs: seq<Violation>)
  {
    Shortfalls(settings, size, executed) + If(skips > 0, UnexpectedSkips(skips))
      + If(failures > 0, ResultFailures(failures))
  }

  /** What the gate has to report, counted from the cases. */
  ghost function Reported(settings: Settings, cases: seq<Case>): (vs: seq<Violation>)
  {
    Listing(settings, |cases|, Count(cases, Done), Count(cases, Inexcusable(settings.allow)),
            Count(cases, c => Failing(settings, c)))
  }

  /** The failures the tallies give are the failing cases. */
  lemma {:induction false} FailingCount(settings: Settings, cases: seq<Case>)
    requires forall i :: 0 <= i < |cases| ==> Recognised(cases[i])
    ensures Count(cases, c => Failing(settings, c))
            == Count(cases, ExecutedAs(BackendMismatch)) + Count(cases, ExecutedAs(ValidationRejected))
               + Count(cases, ExecutedAs(OperationallyFailed))
               + if settings.allowReference && !settings.strict then 0 else Count(cases, ExecutedAs(ReferenceMismatch))
  {
    if cases != [] {
      FailingCount(settings, cases[..|cases| - 1]);
      assert Recognised(cases[|cases| - 1]);
    }
  }

  lemma {:induction false} FailuresAre(settings: Settings, t: Tallied, cases: seq<Case>)
    requires Exact(t, cases, settings.allow) && forall i :: 0 <= i < |cases| ==> Recognised(cases[i])
    ensures t.executed.Keys == EXECUTED
    ensures Failures(settings, t.executed) == Count(cases, c => Failing(settings, c))
  {
    hide Count; hide Failing; hide Recognised;
    FailingCount(settings, cases);
  }

  method ListViolations(settings: Settings, size: nat, executed: nat, skips: nat, failures: nat)
    returns (violations: seq<Violation>)
    ensures violations == Listing(settings, size, executed, skips, failures)
    ensures violations == [] <==>
      && (settings.strict ==> settings.minimum.Some?) && executed >= Floor(settings)
      && (settings.selected.Some? ==> size == settings.selected.value) && skips == 0 && failures == 0
  {
    violations := [];
    if settings.strict && settings.minimum.None? {
      violations := violations + [MinimumNotExplicit];
    }
    var floor := if settings.minimum.Some? then settings.minimum.value else 1;
    if executed < floor {
      violations := violations + [MinimumNotMet(executed, floor)];
    }
    if settings.selected.Some? && size != settings.selected.value {
      violations := violations + [SelectedMismatch(size, settings.selected.value)];
    }
    assert violations == Shortfalls(settings, size, executed);
    if skips > 0 {
      violations := violations + [UnexpectedSkips(skips)];
    }
    if failures > 0 {
      violations := violations + [ResultFailures(failures)];
    }
  }

  /** The gate qualifies a run exactly if its cases deserve it, and says what speaks against it. */
  method Summarize(cases: array<Case>, settings: Settings) returns (r: Result<Gate>)
    modifies cases
    ensures r.Success? <==> forall i :: 0 <= i < cases.Length ==> Recognised(old(cases[i]))
    ensures r.Success? ==> Exact(r.value.tallied, old(cases[..]), settings.allow)
    ensures r.Success? ==> (Qualified(r.value) <==> Qualifies(settings, old(cases[..])))
    ensures r.Success? ==> r.value.violations == Reported(settings, old(cases[..]))
  {
    hide Exact; hide Failing; hide Listing; hide Recognised; hide Sound; hide Count; hide Marked;
    ghost var all := cases[..];
    var tallied := TallyCases(cases, settings.allow);
    if tallied.Failure? {
      return Failure(tallied.reason);
    }
    var t := tallied.value;
    Totals(t, all, settings.allow);
    SoundIff(settings, t, all);
    FailuresAre(settings, t, all);
    var executed, unexpected := ExecutedTotal(t.executed), SkippedTotal(t.unexcused);
    var violations := ListViolations(settings, cases.Length, executed, unexpected, Failures(settings, t.executed));
    r := Success(Gate(t, violations));
  }
}
