/** The measurement driver under failures and cancellations (tools/check_jupyter_lsp_zup.py,
    owned_operation and run_pairs). What the environment does to one arm is an adversarial
    script; the driver's effects are a trace. */
module MeasurementDriver {
  import opened Wrappers
  import opened CanonicalJson
  import opened MeasurementFailures

  const WARMUP := 3
  /** Two arms for each of 23 pairs. */
  const ARMS := 46

  /** An exception the environment raises. Evidence reaches an exception only through
      raise_if_failed, which raises only when something was recorded: an empty list means that
      the exception carries none. */
  datatype Fault = Fault(kind: string, isCancelled: bool, args: seq<Json>, diagnostic: Option<Json>,
                         evidence: seq<Logged>)

  /** How an operation ends. A cancelled operation raises its cancellation. */
  datatype End<+T> = Returned(value: T) | Raised(fault: Fault)

  /** An owned operation: how many caller cancellations arrive while it runs, then its own end. */
  datatype Op<+T> = Op(cancels: nat, end: End<T>)

  /** An unowned step of the setup. */
  datatype Step = Done | Fails(fault: Fault)

  datatype Load = Load(handle: int, duration: real)

  datatype ArmScript = ArmScript(prepare: Step, checkBefore: Step, load: Op<Load>, checkAfter: Step,
                                 release: Op<()>, close: Op<()>)

  datatype Kind = Preparing | Loading | Releasing(handle: int) | Closing

  datatype Event = Created(arm: nat) | Begin(kind: Kind) | Ended(kind: Kind) | Obtained(handle: int)

  // ----- the protocol, as an automaton over traces -----

  /** Arms finished, whether an arm is open, the operation under way, the generation handle held. */
  datatype Monitor = Monitor(finished: nat, open: bool, running: Option<Kind>, held: Option<int>)

  const IDLE := Monitor(0, false, None, None)

  /** One event, None if the protocol forbids it: arms one at a time, operations one at a time and
      only in an open arm, a release only of the held handle, a close only with no handle held. */
  function Advance(m: Monitor, e: Event): Option<Monitor> {
    match e
    case Created(arm) =>
      if m.open || m.running.Some? || m.held.Some? || arm != m.finished then None else Some(m.(open := true))
    case Begin(kind) =>
      if !m.open || m.running.Some? then None
      else if kind.Releasing? && m.held != Some(kind.handle) then None
      else if kind.Closing? && m.held.Some? then None
      else Some(m.(running := Some(kind)))
    case Ended(kind) =>
      if m.running != Some(kind) then None
      else if kind.Closing? then Some(Monitor(m.finished + 1, false, None, None))
      else if kind.Releasing? then Some(m.(running := None, held := None))
      else Some(m.(running := None))
    case Obtained(handle) =>
      if !m.open || m.running.Some? || m.held.Some? then None else Some(m.(held := Some(handle)))
  }

  function Follow(m: Monitor, trace: seq<Event>): Option<Monitor>
    decreases |trace|
  {
    if trace == [] then Some(m)
    else
      match Follow(m, trace[..|trace| - 1])
      case None => None
      case Some(m') => Advance(m', trace[|trace| - 1])
  }

  lemma FollowStep(m: Monitor, trace: seq<Event>, e: Event)
    ensures Follow(m, trace + [e]) == match Follow(m, trace) case None => None case Some(m') => Advance(m', e)
  {
    assert (trace + [e])[..|trace|] == trace;
  }

  // ----- what the driver records -----

  ghost predicate FaultOk(f: Fault) { AllBounded(f.evidence) }

  /** The failures one exception leaves in an evidence other than the one it carries. */
  function Failure(f: Fault, phase: string, pair: int, enabled: bool): (log: seq<Logged>)
    ensures log != []
  {
    if f.kind in {MEASUREMENT, CANCELLED} && f.evidence != [] then PlacedLog(f.evidence, Some(pair), Some(enabled))
    else
      var error := Error(f.kind, f.isCancelled, f.args, f.diagnostic, null);
      [Logged(Bounded(ErrorItem(error, phase, Some(pair), Some(enabled))), f.isCancelled)]
  }

  const CALLER_CANCEL := Error(CANCELLED, true, [], None, null)

  function CancelLog(n: nat, phase: string, pair: int, enabled: bool): (log: seq<Logged>)
    ensures |log| == n
  {
    seq(n, _ => Logged(Bounded(ErrorItem(CALLER_CANCEL, phase, Some(pair), Some(enabled))), true))
  }

  function EndLog<T>(end: End<T>, phase: string, pair: int, enabled: bool): seq<Logged> {
    if end.Raised? then Failure(end.fault, phase, pair, enabled) else []
  }

  function OpLog<T>(op: Op<T>, phase: string, pair: int, enabled: bool): seq<Logged> {
    CancelLog(op.cancels, phase, pair, enabled) + EndLog(op.end, phase, pair, enabled)
  }

  /** The environment raises: evidence, if any, comes in an object of its own. */
  method Raise(f: Fault) returns (e: Error)
    requires FaultOk(f)
    ensures e.kind == f.kind && e.isCancelled == f.isCancelled && e.args == f.args && e.diagnostic == f.diagnostic
    ensures e.nested == null <==> f.evidence == []
    ensures e.nested != null ==> fresh(e.nested) && e.nested.Valid() && e.nested.log == f.evidence
  {
    var nested: FailureEvidence? := null;
    if f.evidence != [] { nested := new FailureEvidence.After(f.evidence); }
    e := Error(f.kind, f.isCancelled, f.args, f.diagnostic, nested);
  }

  /** The environment raises and the driver records. */
  method RecordFault(f: Fault, failures: FailureEvidence, phase: string, pair: int, enabled: bool)
    requires FaultOk(f) && failures.Valid()
    modifies failures
    ensures failures.Valid() && failures.log == old(failures.log) + Failure(f, phase, pair, enabled)
  {
    hide Bounded;
    var error := Raise(f);
    failures.Record(error, phase, Some(pair), Some(enabled));
  }

  /** Runs an operation to its own end. Caller cancellations are recorded but neither stop the
      operation nor discard its result; only the operation's own failure loses the result. */
  method OwnedOperation<T>(op: Op<T>, kind: Kind, failures: FailureEvidence, phase: string, pair: int, enabled: bool,
                           ghost trace: seq<Event>)
      returns (value: Option<T>, ghost trace': seq<Event>)
    requires failures.Valid() && (op.end.Raised? ==> FaultOk(op.end.fault))
    modifies failures
    ensures failures.Valid() && failures.log == old(failures.log) + OpLog(op, phase, pair, enabled)
    ensures value == match op.end case Returned(v) => Some(v) case Raised(_) => None
    ensures trace' == trace + [Begin(kind), Ended(kind)]
  {
    hide Bounded, ErrorItem, Failure;
    var waited := 0;
    trace' := trace + [Begin(kind)];
    assert failures.log + CancelLog(0, phase, pair, enabled) == failures.log;
    while true
      invariant 0 <= waited <= op.cancels && failures.Valid()
      invariant failures.log == old(failures.log) + CancelLog(waited, phase, pair, enabled)
      decreases op.cancels - waited
    {
      if waited < op.cancels {
        failures.Record(CALLER_CANCEL, phase, Some(pair), Some(enabled));
        assert CancelLog(waited + 1, phase, pair, enabled)
            == CancelLog(waited, phase, pair, enabled)
               + [Logged(Bounded(ErrorItem(CALLER_CANCEL, phase, Some(pair), Some(enabled))), true)];
        waited := waited + 1;
      } else {
        trace' := trace' + [Ended(kind)];
        match op.end {
          case Returned(v) =>
            value := Some(v);
          case Raised(fault) =>
            RecordFault(fault, failures, phase, pair, enabled);
            value := None;
        }
        return;
      }
    }
  }

  // ----- one arm -----

  function PairOf(k: nat): nat { k / 2 }

  /** Counterbalanced order: even pairs run disabled first, odd pairs enabled first. */
  function EnabledAt(k: nat): bool { (k % 2 == 1) == (PairOf(k) % 2 == 0) }

  /** Each pair runs both modes, and which one goes first changes from pair to pair, disabled first in
      the first pair. */
  lemma PairsAlternate(pair: nat)
    ensures PairOf(2 * pair) == PairOf(2 * pair + 1) == pair
    ensures EnabledAt(2 * pair) != EnabledAt(2 * pair + 1)
    ensures EnabledAt(2 * pair) != EnabledAt(2 * (pair + 1)) && !EnabledAt(0)
  {
  }

  ghost predicate EndOk<T>(end: End<T>) { end.Raised? ==> FaultOk(end.fault) }

  ghost predicate StepOk(s: Step) { s.Fails? ==> FaultOk(s.fault) }

  ghost predicate ScriptOk(s: ArmScript) {
    && StepOk(s.prepare) && StepOk(s.checkBefore) && StepOk(s.checkAfter)
    && EndOk(s.load.end) && EndOk(s.release.end) && EndOk(s.close.end)
  }

  predicate LoadReached(s: ArmScript) { s.prepare.Done? && s.checkBefore.Done? }

  predicate HandleObtained(s: ArmScript) { LoadReached(s) && s.load.end.Returned? }

  /** What goes wrong before the clean-up of an arm. */
  function SetupLog(s: ArmScript, pair: int, enabled: bool): seq<Logged> {
    if s.prepare.Fails? then Failure(s.prepare.fault, "arm-prepare", pair, enabled)
    else if s.checkBefore.Fails? then Failure(s.checkBefore.fault, "arm-check-before", pair, enabled)
    else if OpLog(s.load, "arm-load", pair, enabled) != [] then OpLog(s.load, "arm-load", pair, enabled)
    else if s.checkAfter.Fails? then Failure(s.checkAfter.fault, "arm-check-after", pair, enabled)
    else []
  }

  /** Everything the k-th arm records: its setup, the release if there is a handle, the close. */
  function ArmLog(s: ArmScript, k: nat): seq<Logged> {
    var pair, enabled := PairOf(k), EnabledAt(k);
    SetupLog(s, pair, enabled)
    + (if HandleObtained(s) then OpLog(s.release, "handle-release", pair, enabled) else [])
    + OpLog(s.close, "arm-close", pair, enabled)
  }

  function LoadTrace(s: ArmScript): seq<Event> {
    if !LoadReached(s) then []
    else [Begin(Loading), Ended(Loading)] + if s.load.end.Returned? then [Obtained(s.load.end.value.handle)] else []
  }

  function ReleaseTrace(s: ArmScript): seq<Event> {
    if !HandleObtained(s) then []
    else [Begin(Releasing(s.load.end.value.handle)), Ended(Releasing(s.load.end.value.handle))]
  }

  function ArmTrace(s: ArmScript, k: nat): seq<Event> {
    [Created(k), Begin(Preparing), Ended(Preparing)] + LoadTrace(s) + ReleaseTrace(s) + [Begin(Closing), Ended(Closing)]
  }

  /** The measured load and what follows it in the try block, up to the recorded failure. A
      result obtained despite a cancellation is kept, so that its handle can be released. */
  method LoadArm(s: ArmScript, k: nat, failures: FailureEvidence, stale: real, ghost trace: seq<Event>)
      returns (handle: Option<int>, duration: real, ghost trace': seq<Event>)
    requires ScriptOk(s) && LoadReached(s) && failures.Valid() && failures.log == []
    modifies failures
    ensures failures.Valid() && failures.log == SetupLog(s, PairOf(k), EnabledAt(k))
    ensures handle == if HandleObtained(s) then Some(s.load.end.value.handle) else None
    ensures duration == if HandleObtained(s) then s.load.end.value.duration else stale
    ensures trace' == trace + LoadTrace(s)
  {
    hide OpLog, Failure, AllBounded, Items, AnyCancel;
    var phase := "arm-load";
    handle, duration := None, stale;
    var measured;
    measured, trace' := OwnedOperation(s.load, Loading, failures, phase, PairOf(k), EnabledAt(k), trace);
    if measured.Some? {
      handle, duration := Some(measured.value.handle), measured.value.duration;
      trace' := trace' + [Obtained(measured.value.handle)];
    }
    var raised := failures.RaiseIfFailed();
    if raised.Some? {
      failures.Record(raised.value, phase, Some(PairOf(k)), Some(EnabledAt(k)));
      return;
    }
    phase := "arm-check-after";
    if s.checkAfter.Fails? { RecordFault(s.checkAfter.fault, failures, phase, PairOf(k), EnabledAt(k)); }
  }

  /** The try block of one arm: its failure is recorded, its handle and duration survive it. */
  method SetUpArm(s: ArmScript, k: nat, failures: FailureEvidence, stale: real, ghost trace: seq<Event>)
      returns (handle: Option<int>, duration: real, ghost trace': seq<Event>)
    requires ScriptOk(s) && failures.Valid() && failures.log == []
    modifies failures
    ensures failures.Valid() && failures.log == SetupLog(s, PairOf(k), EnabledAt(k))
    ensures handle == if HandleObtained(s) then Some(s.load.end.value.handle) else None
    ensures duration == if HandleObtained(s) then s.load.end.value.duration else stale
    ensures trace' == trace + [Begin(Preparing), Ended(Preparing)] + LoadTrace(s)
  {
    hide OpLog, Failure, FailureEvidence.Valid;
    handle, duration := None, stale;
    trace' := trace + [Begin(Preparing), Ended(Preparing)];
    if s.prepare.Fails? {
      RecordFault(s.prepare.fault, failures, "arm-prepare", PairOf(k), EnabledAt(k));
    } else if s.checkBefore.Fails? {
      RecordFault(s.checkBefore.fault, failures, "arm-check-before", PairOf(k), EnabledAt(k));
    } else {
      handle, duration, trace' := LoadArm(s, k, failures, stale, trace');
    }
  }

  /** One arm from its creation to its close, which no failure and no cancellation skips. */
  method RunArm(s: ArmScript, k: nat, failures: FailureEvidence, stale: real, ghost trace: seq<Event>)
      returns (duration: real, ghost trace': seq<Event>)
    requires ScriptOk(s) && failures.Valid() && failures.log == []
    modifies failures
    ensures failures.Valid() && failures.log == ArmLog(s, k)
    ensures duration == if HandleObtained(s) then s.load.end.value.duration else stale
    ensures trace' == trace + ArmTrace(s, k)
  {
    hide OpLog, SetupLog, LoadTrace, FaultOk, FailureEvidence.Valid;
    var pair, enabled := PairOf(k), EnabledAt(k);
    trace' := trace + [Created(k)];
    var handle, outcome;
    handle, duration, trace' := SetUpArm(s, k, failures, stale, trace');
    if handle.Some? {
      outcome, trace' :=
        OwnedOperation(s.release, Releasing(handle.value), failures, "handle-release", pair, enabled, trace');
    }
    outcome, trace' := OwnedOperation(s.close, Closing, failures, "arm-close", pair, enabled, trace');
  }

  // ----- all pairs -----

  datatype ArmResult = ArmResult(pair: nat, enabled: bool, warmup: bool, duration: real)

  datatype Measured = Measured(timings: map<bool, seq<real>>, arms: seq<ArmResult>)

  function DurationOf(s: ArmScript): real { if HandleObtained(s) then s.load.end.value.duration else 0.0 }

  function ArmResults(scripts: seq<ArmScript>): (r: seq<ArmResult>)
    ensures |r| == |scripts|
    ensures forall k :: 0 <= k < |scripts| ==>
              r[k] == ArmResult(PairOf(k), EnabledAt(k), PairOf(k) < WARMUP, DurationOf(scripts[k]))
  {
    seq(|scripts|, k requires 0 <= k < |scripts| =>
      ArmResult(PairOf(k), EnabledAt(k), PairOf(k) < WARMUP, DurationOf(scripts[k])))
  }

  /** The measured durations of one mode, warm-up pairs left out, in the order of the arms. */
  function Timings(scripts: seq<ArmScript>, mode: bool): seq<real> {
    if scripts == [] then []
    else
      var k := |scripts| - 1;
      Timings(scripts[..k], mode) + if PairOf(k) >= WARMUP && EnabledAt(k) == mode then [DurationOf(scripts[k])] else []
  }

  function RunTrace(scripts: seq<ArmScript>): seq<Event> {
    if scripts == [] then [] else RunTrace(scripts[..|scripts| - 1]) + ArmTrace(scripts[|scripts| - 1], |scripts| - 1)
  }

  lemma NoArms()
    ensures ArmResults([]) == [] && Timings([], false) == Timings([], true) == [] && RunTrace([]) == []
  {
  }

  lemma NextTrace(scripts: seq<ArmScript>, k: nat)
    requires k < |scripts|
    ensures RunTrace(scripts[..k + 1]) == RunTrace(scripts[..k]) + ArmTrace(scripts[k], k)
  {
    assert scripts[..k + 1][..k] == scripts[..k];
  }

  lemma NextArm(scripts: seq<ArmScript>, k: nat)
    requires k < |scripts|
    ensures ArmResults(scripts[..k + 1]) == ArmResults(scripts[..k])
              + [ArmResult(PairOf(k), EnabledAt(k), PairOf(k) < WARMUP, DurationOf(scripts[k]))]
    ensures forall mode :: Timings(scripts[..k + 1], mode) == Timings(scripts[..k], mode)
              + if PairOf(k) >= WARMUP && EnabledAt(k) == mode then [DurationOf(scripts[k])] else []
  {
    assert scripts[..k + 1][..k] == scripts[..k];
  }

  ghost predicate FirstFailure(scripts: seq<ArmScript>, n: int) {
    0 <= n < |scripts| && ArmLog(scripts[n], n) != [] && forall k :: 0 <= k < n ==> ArmLog(scripts[k], k) == []
  }

  /** The run ended after arm `n`, the first to record a failure, with exactly the log of that arm. */
  ghost predicate FailedAt(scripts: seq<ArmScript>, n: nat, trace: seq<Event>, log: seq<Logged>, cancelled: bool) {
    && FirstFailure(scripts, n) && trace == RunTrace(scripts[..n + 1])
    && log == ArmLog(scripts[n], n) && cancelled == AnyCancel(log)
  }

  /** Runs the arms of all pairs until one records a failure. A normal return means that none
      did, and reports every arm with its own duration; an error carries exactly the failures of
      the first arm that had any. */
  method RunPairs(scripts: seq<ArmScript>) returns (r: Result<Measured, Error>, ghost trace: seq<Event>)
    requires |scripts| == ARMS && forall k :: 0 <= k < ARMS ==> ScriptOk(scripts[k])
    ensures r.Ok? <==> forall k :: 0 <= k < ARMS ==> ArmLog(scripts[k], k) == []
    ensures r.Ok? ==>
              r.value == Measured(map[false := Timings(scripts, false), true := Timings(scripts, true)],
                  ArmResults(scripts))
    ensures r.Ok? ==> trace == RunTrace(scripts)
    ensures r.Err? ==>
              && r.error.nested != null && r.error.nested.Valid()
              && exists n :: FailedAt(scripts, n, trace, r.error.nested.log, r.error.isCancelled)
  {
    hide ArmLog, ArmTrace, AnyCancel, Bounded, Items, ArmResults, Timings, RunTrace, FaultOk;
    hide ScriptOk;
    NoArms();
    var timings: map<bool, seq<real>>, arms: seq<ArmResult> := map[false := [], true := []], [];
    var failures := new FailureEvidence();
    var duration := 0.0;
    trace := [];
    for k := 0 to ARMS
      invariant failures.Valid() && failures.log == [] && fresh(failures)
      invariant forall j :: 0 <= j < k ==> ArmLog(scripts[j], j) == []
      invariant trace == RunTrace(scripts[..k])
      invariant timings.Keys == {false, true}
      invariant forall mode: bool :: mode in timings && timings[mode] == Timings(scripts[..k], mode)
      invariant arms == ArmResults(scripts[..k])
    {
      var pair, enabled := PairOf(k), EnabledAt(k);
      duration, trace := RunArm(scripts[k], k, failures, duration, trace);
      NextTrace(scripts, k);
      var error := failures.RaiseIfFailed();
      if error.Some? {
        assert FailedAt(scripts, k, trace, error.value.nested.log, error.value.isCancelled);
        return Err(error.value), trace;
      }
      CleanHasHandle(scripts[k], k);
      NextArm(scripts, k);
      if pair >= WARMUP { timings := timings[enabled := timings[enabled] + [duration]]; }
      arms := arms + [ArmResult(pair, enabled, pair < WARMUP, duration)];
    }
    assert scripts[..ARMS] == scripts;
    assert timings == map[false := Timings(scripts, false), true := Timings(scripts, true)];
    r := Ok(Measured(timings, arms));
  }

  /** An arm without recorded failures has its own measurement. */
  lemma CleanHasHandle(s: ArmScript, k: nat)
    requires ArmLog(s, k) == []
    ensures HandleObtained(s)
  {
  }

  predicate Undisturbed<T>(op: Op<T>) { op.cancels == 0 && op.end.Returned? }

  /** An arm records nothing exactly when no step of it failed and no cancellation arrived. */
  lemma CleanIff(s: ArmScript, k: nat)
    ensures ArmLog(s, k) == [] <==>
              && s.prepare.Done? && s.checkBefore.Done? && s.checkAfter.Done?
              && Undisturbed(s.load) && Undisturbed(s.release) && Undisturbed(s.close)
  {
    hide Failure, CancelLog;
  }

  // ----- what every run keeps -----

  lemma FollowSteps(m: Monitor, trace: seq<Event>, more: seq<Event>)
    ensures Follow(m, trace + more) == match Follow(m, trace) case None => None case Some(m') => Follow(m', more)
    decreases |more|
  {
    if more == [] {
      assert trace + more == trace;
    } else {
      var k := |more| - 1;
      FollowSteps(m, trace, more[..k]);
      assert trace + more == (trace + more[..k]) + [more[k]];
      FollowStep(m, trace + more[..k], more[k]);
    }
  }

  function Held(s: ArmScript): Option<int> { if HandleObtained(s) then Some(s.load.end.value.handle) else None }

  lemma LoadTraceLegal(s: ArmScript, open: Monitor)
    requires open.open && open.running == None && open.held == None
    ensures Follow(open, LoadTrace(s)) == Some(open.(held := Held(s)))
  {
    if LoadReached(s) {
      var load := [Begin(Loading), Ended(Loading)];
      FollowTwo(open, load[0], load[1]);
      if s.load.end.Returned? { FollowStep(open, load, Obtained(s.load.end.value.handle)); }
    }
  }

  lemma ReleaseTraceLegal(s: ArmScript, open: Monitor)
    requires open.open && open.running == None && open.held == Held(s)
    ensures Follow(open, ReleaseTrace(s)) == Some(open.(held := None))
  {
    if HandleObtained(s) {
      var h := s.load.end.value.handle;
      FollowTwo(open, Begin(Releasing(h)), Ended(Releasing(h)));
    }
  }

  /** One arm takes the protocol from idle to idle, one more arm finished. */
  lemma ArmTraceLegal(s: ArmScript, k: nat)
    ensures Follow(Monitor(k, false, None, None), ArmTrace(s, k)) == Some(Monitor(k + 1, false, None, None))
  {
    hide LoadTrace, ReleaseTrace, Follow;
    var start, open := Monitor(k, false, None, None), Monitor(k, true, None, None);
    var head := [Created(k), Begin(Preparing), Ended(Preparing)];
    FollowThree(start, head[0], head[1], head[2]);
    FollowTwo(start, head[0], head[1]);
    LoadTraceLegal(s, open);
    FollowSteps(start, head, LoadTrace(s));
    ReleaseTraceLegal(s, open.(held := Held(s)));
    FollowSteps(start, head + LoadTrace(s), ReleaseTrace(s));
    FollowTwo(open, Begin(Closing), Ended(Closing));
    FollowSteps(start, head + LoadTrace(s) + ReleaseTrace(s), [Begin(Closing), Ended(Closing)]);
  }

  lemma FollowTwo(m: Monitor, a: Event, b: Event)
    ensures Follow(m, [a, b]) == match Advance(m, a) case None => None case Some(m') => Advance(m', b)
  {
    assert [a, b] == [] + [a] + [b];
    FollowStep(m, [], a);
    FollowStep(m, [a], b);
  }

  lemma FollowThree(m: Monitor, a: Event, b: Event, c: Event)
    ensures Follow(m, [a, b, c]) == match Follow(m, [a, b]) case None => None case Some(m') => Advance(m', c)
  {
    assert [a, b, c] == [a, b] + [c];
    FollowTwo(m, a, b);
    FollowStep(m, [a, b], c);
  }

  /** Whatever the scripts, every run keeps the protocol and ends idle: all arms closed, no
      operation under way, no handle held. */
  lemma {:induction false} EveryRunKeepsProtocol(scripts: seq<ArmScript>)
    ensures Follow(IDLE, RunTrace(scripts)) == Some(Monitor(|scripts|, false, None, None))
  {
    if scripts != [] {
      var k := |scripts| - 1;
      EveryRunKeepsProtocol(scripts[..k]);
      ArmTraceLegal(scripts[k], k);
      FollowSteps(IDLE, RunTrace(scripts[..k]), ArmTrace(scripts[k], k));
    }
  }

  function Occurrences(trace: seq<Event>, e: Event): nat {
    if trace == [] then 0
    else Occurrences(trace[..|trace| - 1], e) + if trace[|trace| - 1] == e then 1 else 0
  }

  lemma OccurrencesStep(trace: seq<Event>, x: Event, e: Event)
    ensures Occurrences(trace + [x], e) == Occurrences(trace, e) + if x == e then 1 else 0
  {
    assert (trace + [x])[..|trace|] == trace;
  }

  ghost predicate Balanced(m: Monitor, trace: seq<Event>, h: int, kind: Kind) {
    && Occurrences(trace, Obtained(h))
       == Occurrences(trace, Ended(Releasing(h))) + (if m.held == Some(h) then 1 else 0)
    && Occurrences(trace, Begin(kind))
       == Occurrences(trace, Ended(kind)) + (if m.running == Some(kind) then 1 else 0)
    && Occurrences(trace, Ended(Closing)) == m.finished
    && (m.running.Some? && m.running.value.Releasing? ==> m.held == Some(m.running.value.handle))
    && (m.running == Some(Closing) ==> m.held == None)
  }

  lemma BalancedStep(m: Monitor, trace: seq<Event>, x: Event, h: int, kind: Kind)
    requires Balanced(m, trace, h, kind) && Advance(m, x).Some?
    ensures Balanced(Advance(m, x).value, trace + [x], h, kind)
  {
    hide Occurrences;
    OccurrencesStep(trace, x, Obtained(h));
    OccurrencesStep(trace, x, Ended(Releasing(h)));
    OccurrencesStep(trace, x, Begin(kind));
    OccurrencesStep(trace, x, Ended(kind));
    OccurrencesStep(trace, x, Ended(Closing));
  }

  lemma {:induction false} FollowBalanced(trace: seq<Event>, h: int, kind: Kind)
    requires Follow(IDLE, trace).Some?
    ensures Balanced(Follow(IDLE, trace).value, trace, h, kind)
  {
    if trace != [] {
      hide Follow, Advance, Balanced;
      var k := |trace| - 1;
      FollowStep(IDLE, trace[..k], trace[k]);
      assert trace == trace[..k] + [trace[k]];
      FollowBalanced(trace[..k], h, kind);
      BalancedStep(Follow(IDLE, trace[..k]).value, trace[..k], trace[k], h, kind);
    }
  }

  /** What the automaton forces on any trace it follows: obtained handles are released exactly
      once, except the one still held, and operations that began have ended, except the one under way. */
  lemma ProtocolBalance(trace: seq<Event>, h: int, kind: Kind)
    requires Follow(IDLE, trace).Some?
    ensures var m := Follow(IDLE, trace).value;
            && Occurrences(trace, Obtained(h))
               == Occurrences(trace, Ended(Releasing(h))) + (if m.held == Some(h) then 1 else 0)
            && Occurrences(trace, Begin(kind))
               == Occurrences(trace, Ended(kind)) + (if m.running == Some(kind) then 1 else 0)
            && Occurrences(trace, Ended(Closing)) == m.finished
            && (m.running.Some? && m.running.value.Releasing? ==> m.held == Some(m.running.value.handle))
            && (m.running == Some(Closing) ==> m.held == None)
  {
    hide Follow, Occurrences;
    FollowBalanced(trace, h, kind);
  }

  /** Over every run: each generation handle obtained is released exactly once, each operation
      begun runs to its end, and each arm is closed exactly once. */
  lemma EveryRunReleases(scripts: seq<ArmScript>, h: int, kind: Kind)
    ensures var t := RunTrace(scripts);
            && Occurrences(t, Obtained(h)) == Occurrences(t, Begin(Releasing(h))) == Occurrences(t, Ended(Releasing(h)))
            && Occurrences(t, Begin(kind)) == Occurrences(t, Ended(kind))
            && Occurrences(t, Begin(Closing)) == |scripts|
  {
    EveryRunKeepsProtocol(scripts);
    ProtocolBalance(RunTrace(scripts), h, kind);
    ProtocolBalance(RunTrace(scripts), h, Releasing(h));
    ProtocolBalance(RunTrace(scripts), h, Closing);
  }

  /** Three warm-up pairs aside, both modes are timed equally often at every pair boundary. */
  lemma {:induction false} TimingsCounted(scripts: seq<ArmScript>, mode: bool)
    requires |scripts| % 2 == 0
    ensures |Timings(scripts, mode)| == if |scripts| <= 2 * WARMUP then 0 else |scripts| / 2 - WARMUP
  {
    if scripts != [] {
      var n := |scripts|;
      assert scripts[..n - 1][..n - 2] == scripts[..n - 2];
      TimingsCounted(scripts[..n - 2], mode);
    }
  }

  /** A complete measurement has 46 arms and 20 timings a mode. */
  lemma CompleteMeasurement(scripts: seq<ArmScript>)
    requires |scripts| == ARMS
    ensures |ArmResults(scripts)| == 46 && |Timings(scripts, false)| == 20 && |Timings(scripts, true)| == 20
  {
    TimingsCounted(scripts, false);
    TimingsCounted(scripts, true);
  }
}
