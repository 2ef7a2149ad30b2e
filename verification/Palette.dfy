/** The offline palette runtime and the scripted evaluation of one profile
    (tools/eval_mcp_palettes.py). The MCP client and server may block a call, rewrite its arguments or
    drop its answer. */
module Palette {
  import opened Wrappers
  import opened PaletteArguments

  datatype Stage = New | Ready | CapturedA | CapturedB | Unknown | CleanGeneration | Closed

  datatype Fault = MalformedResult | Noop | OtherFault

  datatype Refused = Refused

  datatype StateText = Named(stage: Stage) | OtherText

  /** The parts of a returned mapping that the evaluation reads. */
  datatype Value = Value(
    state: Option<StateText>,
    fence: Option<int>,
    generation: Option<int>,
    frameListed: bool,
    proxyInspected: bool,
    exactFrame: bool,
    hypothesisRecorded: bool,
    recovered: bool,
    closed: bool)

  const EMPTY := Value(None, None, None, false, false, false, false, false, false)

  /** The runtime's mutable fields, as a value. */
  datatype Runtime = Runtime(profile: Profile, stage: Stage, inspected: bool, bounded: bool, hypothesis: bool)

  // ----- the one path through the stages -----

  function Fresh(p: Profile): Runtime { Runtime(p, New, false, false, false) }

  /** Evidence is gathered in order, only in capture A, and all of it before capture B. */
  predicate Sound(r: Runtime) {
    && (r.hypothesis ==> r.bounded) && (r.bounded ==> r.inspected)
    && (r.stage in {New, Ready} ==> !r.inspected)
    && (r.stage !in {New, Ready, CapturedA} ==> r.hypothesis)
  }

  function StageRank(s: Stage): nat {
    match s
    case New => 0 case Ready => 1 case CapturedA => 2 case CapturedB => 3
    case Unknown => 4 case CleanGeneration => 5 case Closed => 6
  }

  /** How far along the path a runtime is: stages passed plus pieces of evidence. */
  function Milestone(r: Runtime): nat {
    StageRank(r.stage) + (if r.inspected then 1 else 0) + (if r.bounded then 1 else 0)
    + (if r.hypothesis then 1 else 0)
  }

  /** Sound runtimes of a profile form a single path: the milestone determines the runtime. */
  lemma OnePath(r: Runtime, t: Runtime)
    requires Sound(r) && Sound(t) && r.profile == t.profile
    ensures Milestone(r) == Milestone(t) <==> r == t
  {
  }

  // ----- the runtime object -----

  class OfflineClient {
    const profile: Profile
    const faults: map<Tool, Fault>
    var stage: Stage
    var inspected: bool
    var bounded: bool
    var hypothesisRecorded: bool
    var calls: seq<(Tool, Args)>

    function State(): Runtime
      reads this
    {
      Runtime(profile, stage, inspected, bounded, hypothesisRecorded)
    }

    constructor (profile: Profile, faults: map<Tool, Fault>)
      ensures State() == Fresh(profile) && this.faults == faults && calls == []
    {
      this.profile := profile;
      this.faults := faults;
      stage := New;
      inspected, bounded, hypothesisRecorded := false, false, false;
      calls := [];
    }

    /** The branch of _successful_value for code.run: the cell decides the step. */
    method RunCode(arguments: Args) returns (r: Result<Value, Refused>)
      modifies this
      ensures calls == old(calls)
      ensures r.Ok? <==> Allowed(old(State()), CodeRun, arguments)
      ensures r.Err? ==> State() == old(State())
      ensures r.Ok? ==> State() == After(old(State()), Move(CodeRun, arguments))
      ensures r.Ok? ==> r.value == Answer(CodeRun, arguments)
    {
      hide Demanded, CellOf;
      if profile != ExpertProfile || !Demanded(profile, CodeRun, arguments) {
        return Err(Refused);
      }
      match CellOf(arguments) {
        case CellCaptureA =>
          if stage != Ready {
            return Err(Refused);
          }
          stage := CapturedA;
          r := Ok(EMPTY.(state := Some(Named(CapturedA)), generation := Some(1)));
        case CellHypothesis =>
          if stage != CapturedA || !bounded {
            return Err(Refused);
          }
          hypothesisRecorded := true;
          r := Ok(EMPTY.(state := Some(Named(CapturedA)), hypothesisRecorded := true));
        case CellContinue =>
          if stage != CapturedA || !hypothesisRecorded {
            return Err(Refused);
          }
          stage := CapturedB;
          r := Ok(EMPTY.(state := Some(Named(CapturedB)), generation := Some(2)));
        case OtherCell =>
          return Err(Refused);
      }
    }

    /** _successful_value: a refusal changes nothing; otherwise the runtime takes the step that
        `Allowed` describes. */
    method SuccessfulValue(tool: Tool, arguments: Args) returns (r: Result<Value, Refused>)
      modifies this
      ensures calls == old(calls)
      ensures r.Ok? <==> Allowed(old(State()), tool, arguments)
      ensures r.Err? ==> State() == old(State())
      ensures r.Ok? ==> State() == After(old(State()), Move(tool, arguments))
      ensures r.Ok? ==> r.value == Answer(tool, arguments)
    {
      hide Demanded, CellOf;
      match tool
      case RuntimeEnsure =>
        if stage != New || !Demanded(profile, tool, arguments) {
          return Err(Refused);
        }
        stage := Ready;
        r := Ok(EMPTY.(state := Some(Named(Ready))));
      case CaptureRunUntil =>
        if profile != CaptureProfile || stage != Ready || !Demanded(profile, tool, arguments) {
          return Err(Refused);
        }
        stage := CapturedA;
        r := Ok(EMPTY.(state := Some(OtherText), fence := Some(1)));
      case CodeRun =>
        r := RunCode(arguments);
      case CaptureInspect =>
        if profile != CaptureProfile || stage != CapturedA || !Demanded(profile, tool, arguments) {
          return Err(Refused);
        }
        inspected := true;
        r := Ok(EMPTY.(frameListed := true));
      case ValueInspect =>
        if profile != ExpertProfile || stage != CapturedA || !Demanded(profile, tool, arguments) {
          return Err(Refused);
        }
        inspected := true;
        r := Ok(EMPTY.(proxyInspected := true));
      case ValueToDf =>
        if stage != CapturedA || !inspected || !Demanded(profile, tool, arguments) {
          return Err(Refused);
        }
        bounded := true;
        r := Ok(EMPTY.(exactFrame := true));
      case CaptureHypothesis =>
        if profile != CaptureProfile || stage != CapturedA || !bounded || !Demanded(profile, tool, arguments) {
          return Err(Refused);
        }
        hypothesisRecorded := true;
        r := Ok(EMPTY.(state := Some(OtherText), fence := Some(1)));
      case CaptureContinue =>
        if profile != CaptureProfile || stage != CapturedA || !hypothesisRecorded
          || !Demanded(profile, tool, arguments)
        {
          return Err(Refused);
        }
        stage := CapturedB;
        r := Ok(EMPTY.(state := Some(OtherText), fence := Some(2)));
      case RuntimeRestart =>
        if stage != Unknown || !Demanded(profile, tool, arguments) {
          return Err(Refused);
        }
        stage := CleanGeneration;
        r := Ok(EMPTY.(state := Some(Named(CleanGeneration)), recovered := true));
      case AbortGeneration =>
        if stage != Unknown || !Demanded(profile, tool, arguments) {
          return Err(Refused);
        }
        stage := CleanGeneration;
        r := Ok(EMPTY.(state := Some(Named(CleanGeneration)), recovered := true));
      case RuntimeClose =>
        if stage != CleanGeneration || !Demanded(profile, tool, arguments) {
          return Err(Refused);
        }
        stage := Closed;
        r := Ok(EMPTY.(state := Some(Named(Closed)), closed := true));
      case OtherTool =>
        return Err(Refused);
    }

    /** call: the two known faults answer without touching the runtime, any other fault value is
        ignored. */
    method Call(tool: Tool, arguments: Args) returns (r: Result<Value, Refused>)
      modifies this
      ensures calls == old(calls) + [(tool, arguments)]
      ensures Faulted(faults, tool) ==> State() == old(State()) && r == Ok(FaultAnswer(faults[tool], tool, stage))
      ensures !Faulted(faults, tool) ==> State() == Called(old(State()), tool, arguments)
      ensures !Faulted(faults, tool) ==> (r.Ok? <==> Allowed(old(State()), tool, arguments))
      ensures !Faulted(faults, tool) && r.Ok? ==> r.value == Answer(tool, arguments)
    {
      calls := calls + [(tool, arguments)];
      if tool in faults {
        if faults[tool] == MalformedResult {
          return Ok(EMPTY.(state := Some(OtherText)));
        }
        if faults[tool] == Noop {
          if tool == CaptureContinue {
            return Ok(EMPTY.(state := Some(OtherText), fence := Some(1)));
          }
          return Ok(EMPTY.(state := Some(Named(stage))));
        }
      }
      r := SuccessfulValue(tool, arguments);
    }

    method LoseRecoveryAcknowledgement() returns (r: Result<(), Refused>)
      modifies this
      ensures calls == old(calls)
      ensures r.Ok? <==> old(stage) == CapturedB
      ensures State() == Lost(old(State()))
    {
      if stage != CapturedB {
        return Err(Refused);
      }
      stage := Unknown;
      r := Ok(());
    }
  }

  // ----- what the calls mean -----

  /** The step of the path a tool takes. */
  datatype Step = ToReady | ToCapturedA | Inspect | Bound | Hypothesize | ToCapturedB | Lose | Recover | Shut | Nowhere

  function Move(tool: Tool, arguments: Args): Step {
    match tool
    case RuntimeEnsure => ToReady
    case CaptureRunUntil => ToCapturedA
    case CodeRun =>
      (match CellOf(arguments)
       case CellCaptureA => ToCapturedA
       case CellHypothesis => Hypothesize
       case CellContinue => ToCapturedB
       case OtherCell => Nowhere)
    case CaptureInspect => Inspect
    case ValueInspect => Inspect
    case ValueToDf => Bound
    case CaptureHypothesis => Hypothesize
    case CaptureContinue => ToCapturedB
    case RuntimeRestart => Recover
    case AbortGeneration => Recover
    case RuntimeClose => Shut
    case OtherTool => Nowhere
  }

  /** When a step may be taken. */
  predicate Enabled(r: Runtime, step: Step) {
    match step
    case ToReady => r.stage == New
    case ToCapturedA => r.stage == Ready
    case Inspect => r.stage == CapturedA
    case Bound => r.stage == CapturedA && r.inspected
    case Hypothesize => r.stage == CapturedA && r.bounded
    case ToCapturedB => r.stage == CapturedA && r.hypothesis
    case Lose => r.stage == CapturedB
    case Recover => r.stage == Unknown
    case Shut => r.stage == CleanGeneration
    case Nowhere => false
  }

  function After(r: Runtime, step: Step): Runtime {
    match step
    case ToReady => r.(stage := Ready)
    case ToCapturedA => r.(stage := CapturedA)
    case Inspect => r.(inspected := true)
    case Bound => r.(bounded := true)
    case Hypothesize => r.(hypothesis := true)
    case ToCapturedB => r.(stage := CapturedB)
    case Lose => r.(stage := Unknown)
    case Recover => r.(stage := CleanGeneration)
    case Shut => r.(stage := Closed)
    case Nowhere => r
  }

  predicate Offers(p: Profile, tool: Tool) {
    match p
    case CaptureProfile => tool !in {CodeRun, ValueInspect}
    case ExpertProfile => tool !in {CaptureRunUntil, CaptureInspect, CaptureHypothesis, CaptureContinue}
  }

  predicate Allowed(r: Runtime, tool: Tool, arguments: Args) {
    Offers(r.profile, tool) && Demanded(r.profile, tool, arguments) && Enabled(r, Move(tool, arguments))
  }

  function Called(r: Runtime, tool: Tool, arguments: Args): Runtime {
    if Allowed(r, tool, arguments) then After(r, Move(tool, arguments)) else r
  }

  function Lost(r: Runtime): Runtime { if r.stage == CapturedB then After(r, Lose) else r }

  function Answer(tool: Tool, arguments: Args): Value {
    match tool
    case RuntimeEnsure => EMPTY.(state := Some(Named(Ready)))
    case CaptureRunUntil => EMPTY.(state := Some(OtherText), fence := Some(1))
    case CodeRun =>
      (match CellOf(arguments)
       case CellCaptureA => EMPTY.(state := Some(Named(CapturedA)), generation := Some(1))
       case CellHypothesis => EMPTY.(state := Some(Named(CapturedA)), hypothesisRecorded := true)
       case CellContinue => EMPTY.(state := Some(Named(CapturedB)), generation := Some(2))
       case OtherCell => EMPTY)
    case CaptureInspect => EMPTY.(frameListed := true)
    case ValueInspect => EMPTY.(proxyInspected := true)
    case ValueToDf => EMPTY.(exactFrame := true)
    case CaptureHypothesis => EMPTY.(state := Some(OtherText), fence := Some(1))
    case CaptureContinue => EMPTY.(state := Some(OtherText), fence := Some(2))
    case RuntimeRestart => EMPTY.(state := Some(Named(CleanGeneration)), recovered := true)
    case AbortGeneration => EMPTY.(state := Some(Named(CleanGeneration)), recovered := true)
    case RuntimeClose => EMPTY.(state := Some(Named(Closed)), closed := true)
    case OtherTool => EMPTY
  }

  predicate Faulted(faults: map<Tool, Fault>, tool: Tool) { tool in faults && faults[tool] != OtherFault }

  function FaultAnswer(fault: Fault, tool: Tool, stage: Stage): Value {
    if fault == MalformedResult then EMPTY.(state := Some(OtherText))
    else if tool == CaptureContinue then EMPTY.(state := Some(OtherText), fence := Some(1))
    else EMPTY.(state := Some(Named(stage)))
  }

  // ----- every run -----

  /** Anything that can reach the runtime: a call, which a fault may swallow, or a lost acknowledgement. */
  datatype Event = CallEvent(tool: Tool, arguments: Args, faulted: bool) | LoseEvent

  function Next(r: Runtime, e: Event): Runtime {
    match e
    case CallEvent(tool, arguments, faulted) => if faulted then r else Called(r, tool, arguments)
    case LoseEvent => Lost(r)
  }

  function StepOf(e: Event): Step {
    match e
    case CallEvent(tool, arguments, _) => Move(tool, arguments)
    case LoseEvent => Lose
  }

  function Run(r: Runtime, events: seq<Event>): Runtime {
    if events == [] then r else Next(Run(r, events[..|events| - 1]), events[|events| - 1])
  }

  /** The step that leads from milestone `m` to the next. */
  function Required(m: nat): Step {
    [ToReady, ToCapturedA, Inspect, Bound, Hypothesize, ToCapturedB, Lose, Recover, Shut, Nowhere]
      [if m < 9 then m else 9]
  }

  /** One event keeps a runtime sound and either leaves it alone or takes it to the next milestone by
      the one step that leads there. In particular no stage is skipped and none is left backwards. */
  lemma NextAdvances(r: Runtime, e: Event)
    requires Sound(r)
    ensures Sound(Next(r, e)) && Next(r, e).profile == r.profile
    ensures Next(r, e) == r
         || (Milestone(Next(r, e)) == Milestone(r) + 1 && StepOf(e) == Required(Milestone(r)))
    ensures StageRank(r.stage) <= StageRank(Next(r, e).stage) <= StageRank(r.stage) + 1
  {
  }

  lemma {:induction false} RunSound(p: Profile, events: seq<Event>)
    ensures Sound(Run(Fresh(p), events)) && Run(Fresh(p), events).profile == p
  {
    if events != [] {
      RunSound(p, events[..|events| - 1]);
      NextAdvances(Run(Fresh(p), events[..|events| - 1]), events[|events| - 1]);
    }
  }

  /** A run that reached milestone `m` contains the steps of all earlier milestones in order: `at[k]`
      is the event that took step k. A closed runtime therefore went through all nine. */
  lemma {:induction false} StepsTaken(p: Profile, events: seq<Event>) returns (at: seq<nat>)
    ensures |at| == Milestone(Run(Fresh(p), events))
    ensures forall k :: 0 <= k < |at| ==> at[k] < |events| && StepOf(events[at[k]]) == Required(k)
    ensures forall j, k :: 0 <= j < k < |at| ==> at[j] < at[k]
  {
    hide Next, Sound, Milestone, StepOf, Required, StageRank;
    at := [];
    FreshStart(p);
    if events != [] {
      var n := |events| - 1;
      var front := events[..n];
      at := StepsTaken(p, front);
      RunSound(p, front);
      NextAdvances(Run(Fresh(p), front), events[n]);
      if Run(Fresh(p), events) != Run(Fresh(p), front) {
        at := at + [n];
      }
    }
  }

  lemma {:induction false} NeverBack(p: Profile, events: seq<Event>, i: nat)
    requires i <= |events|
    ensures Milestone(Run(Fresh(p), events[..i])) <= Milestone(Run(Fresh(p), events))
    ensures StageRank(Run(Fresh(p), events[..i]).stage) <= StageRank(Run(Fresh(p), events).stage)
  {
    hide Next, Sound, Milestone, StepOf, Required, StageRank;
    if i == |events| {
      assert events[..i] == events;
    } else {
      var n := |events| - 1;
      assert events[..n][..i] == events[..i];
      NeverBack(p, events[..n], i);
      RunSound(p, events[..n]);
      NextAdvances(Run(Fresh(p), events[..n]), events[n]);
    }
  }

  // ----- the scripted evaluation -----

  const TASKS: seq<Task> :=
    [Ensure, CaptureA, InspectFrame, BoundedHead, HypothesisTask, ContinueOnce, RecoverUnknown, CloseTask]

  predicate TaskSucceeded(task: Task, before: Stage, after: Stage, value: Value, r: Runtime) {
    match task
    case Ensure => before == New && after == Ready && value.state == Some(Named(Ready))
    case CaptureA =>
      before == Ready && after == CapturedA && (value.fence == Some(1) || value.generation == Some(1))
    case InspectFrame =>
      before == after == CapturedA && r.inspected && (value.frameListed || value.proxyInspected)
    case BoundedHead => before == after == CapturedA && r.bounded && value.exactFrame
    case HypothesisTask =>
      before == after == CapturedA && r.hypothesis && (value.fence == Some(1) || value.hypothesisRecorded)
    case ContinueOnce =>
      before == CapturedA && after == CapturedB && (value.fence == Some(2) || value.generation == Some(2))
    case RecoverUnknown =>
      && before == Unknown && after == CleanGeneration
      && value.recovered && value.state == Some(Named(CleanGeneration))
    case CloseTask =>
      before == CleanGeneration && after == Closed && value.closed && value.state == Some(Named(Closed))
  }

  /** What the client and server do with one call: forward it and bring back its answer, forward it and
      put an error in place of the answer, refuse it before it reaches the runtime, or complete and
      coerce the arguments to others. */
  datatype Transport = Delivered | Dropped | Blocked | Rewritten(received: Args)

  datatype Delivery = Delivery(sent: Args, transport: Transport)

  predicate Faithful(p: Profile, task: Task, d: Delivery) {
    d == Delivery(TaskArguments(p, task), Delivered)
  }

  /** The arguments that reach the runtime, if the call does. */
  function Received(p: Profile, tool: Tool, d: Delivery): Option<Args> {
    match d.transport
    case Blocked => None
    case Rewritten(a) => Some(a)
    case _ => Forwarded(p, tool, d.sent)
  }

  datatype Report = Report(invalidChoices: nat, completed: seq<Task>, recoveries: nat, taskSuccess: bool)

  /** The milestone before each task when all earlier ones succeeded; recovery's own lost
      acknowledgement is counted in its step. */
  function MilestoneBefore(i: nat): nat { if i < 7 then i else i + 1 }

  /** The runtime when the call of `task` goes out. */
  function Prepared(r: Runtime, task: Task): Runtime { if task == RecoverUnknown then Lost(r) else r }

  /** A faulted tool's answer, or none, never counts as success, whatever the runtime's state. */
  lemma FaultedFails(task: Task, p: Profile, fault: Fault, stage: Stage, r: Runtime)
    requires fault != OtherFault
    ensures !TaskSucceeded(task, stage, stage, FaultAnswer(fault, Script(p, task), stage), r)
    ensures forall after :: !TaskSucceeded(task, stage, after, EMPTY, r)
  {
  }

  /** The step a task is about. */
  function TaskStep(task: Task): Step {
    match task
    case Ensure => ToReady
    case CaptureA => ToCapturedA
    case InspectFrame => Inspect
    case BoundedHead => Bound
    case HypothesisTask => Hypothesize
    case ContinueOnce => ToCapturedB
    case RecoverUnknown => Recover
    case CloseTask => Shut
  }

  /** No other step counts as success of a task, whatever tool took it. */
  lemma OnlyItsStep(task: Task, r: Runtime, tool: Tool, arguments: Args)
    requires Allowed(r, tool, arguments)
    requires var after := Called(r, tool, arguments);
             TaskSucceeded(task, r.stage, after.stage, Answer(tool, arguments), after)
    ensures Move(tool, arguments) == TaskStep(task)
  {
    hide Demanded, CellOf;
  }

  /** The runtime before each task when all earlier ones succeeded. */
  function Waypoint(p: Profile, i: nat): Runtime {
    match i
    case 0 => Fresh(p)
    case 1 => Runtime(p, Ready, false, false, false)
    case 2 => Runtime(p, CapturedA, false, false, false)
    case 3 => Runtime(p, CapturedA, true, false, false)
    case 4 => Runtime(p, CapturedA, true, true, false)
    case 5 => Runtime(p, CapturedA, true, true, true)
    case 6 => Runtime(p, CapturedB, true, true, true)
    case 7 => Runtime(p, CleanGeneration, true, true, true)
    case _ => Runtime(p, Closed, true, true, true)
  }

  lemma OnlyWaypoint(r: Runtime, i: nat)
    requires i <= 8 && Sound(r)
    ensures Milestone(r) == MilestoneBefore(i) <==> r == Waypoint(r.profile, i)
  {
    OnePath(r, Waypoint(r.profile, i));
  }

  /** Arguments that a task's tool demands take the runtime from one waypoint to the next. */
  lemma DemandedTaskSucceeds(p: Profile, i: nat, arguments: Args)
    requires i < 8
    requires Demanded(p, Script(p, TASKS[i]), arguments)
    requires Script(p, TASKS[i]) == CodeRun ==> CellOf(arguments) == ScriptCell(TASKS[i])
    ensures
      var task := TASKS[i];
      var tool, ready, after := Script(p, task), Prepared(Waypoint(p, i), task), Waypoint(p, i + 1);
      && Allowed(ready, tool, arguments) && Called(ready, tool, arguments) == after
      && TaskSucceeded(task, ready.stage, after.stage, Answer(tool, arguments), after)
  {
    hide Demanded, CellOf;
  }

  /** From the milestone before a task, its unmutated and unfaulted call succeeds and leads to the
      milestone before the next task. */
  lemma HonestTaskSucceeds(r: Runtime, i: nat)
    requires i < 8 && Sound(r) && Milestone(r) == MilestoneBefore(i)
    ensures
      var task := TASKS[i];
      var tool := Script(r.profile, task);
      var forwarded := Forwarded(r.profile, tool, TaskArguments(r.profile, task));
      forwarded.Some? &&
      var arguments := forwarded.value;
      var ready := Prepared(r, task);
      var after := Called(ready, tool, arguments);
      && Allowed(ready, tool, arguments)
      && TaskSucceeded(task, ready.stage, after.stage, Answer(tool, arguments), after)
      && Sound(after) && after.profile == r.profile && Milestone(after) == MilestoneBefore(i + 1)
  {
    hide Demanded, CellOf, Forwarded, TaskArguments, Script, Prepared, Called, Allowed, Answer, TaskSucceeded;
    ScriptMeetsDemands(r.profile, TASKS[i]);
    OnlyWaypoint(r, i);
    var task := TASKS[i];
    var forwarded := Forwarded(r.profile, Script(r.profile, task), TaskArguments(r.profile, task));
    DemandedTaskSucceeds(r.profile, i, forwarded.value);
  }

  predicate Unfaulted(client: OfflineClient, n: nat)
    requires n <= 8
  {
    forall k :: 0 <= k < n ==> !Faulted(client.faults, Script(client.profile, TASKS[k]))
  }

  predicate AllFaithful(p: Profile, plan: seq<Delivery>)
    requires |plan| == 8
  {
    forall k :: 0 <= k < 8 ==> Faithful(p, TASKS[k], plan[k])
  }

  /** _execute_profile: `plan[i]` is what happens to the call of task i. */
  method ExecuteProfile(client: OfflineClient, available: set<Tool>, plan: seq<Delivery>) returns (report: Report)
    requires |plan| == 8
    modifies client
    ensures report.taskSuccess <==> report.invalidChoices == 0
    ensures |report.completed| + report.invalidChoices == 8
    ensures report.taskSuccess ==> report.completed == TASKS && client.stage == Closed
    ensures report.recoveries == if RecoverUnknown in report.completed then 1 else 0
    ensures report.taskSuccess ==> Unfaulted(client, 8)
    ensures Sound(old(client.State())) ==> Sound(client.State())
    ensures
      && old(client.State()) == Fresh(client.profile)
      && (forall task :: task in TASKS ==> Script(client.profile, task) in available)
      && AllFaithful(client.profile, plan)
      ==> (report.taskSuccess <==> Unfaulted(client, 8))
  {
    hide TaskSucceeded, Allowed, Called, After, Move, Enabled, Answer, FaultAnswer, Sound, Milestone,
         MilestoneBefore, Script, TaskArguments, Lost, Demanded, CellOf, Forwarded, Fresh;
    FreshStart(client.profile);
    var invalidChoices, recoveries: nat := 0, 0;
    var completed: seq<Task> := [];
    for i := 0 to 8
      invariant |completed| + invalidChoices == i
      invariant invalidChoices == 0 ==> completed == TASKS[..i]
      invariant forall task :: task in completed ==> task in TASKS[..i]
      invariant recoveries == if RecoverUnknown in completed then 1 else 0
      invariant invalidChoices == 0 ==> Unfaulted(client, i)
      invariant invalidChoices == 0 && i == 8 ==> client.stage == Closed
      invariant Sound(old(client.State())) ==> Sound(client.State())
      invariant
        && old(client.State()) == Fresh(client.profile)
        && (forall task :: task in TASKS ==> Script(client.profile, task) in available)
        && AllFaithful(client.profile, plan) && Unfaulted(client, i)
        ==> invalidChoices == 0 && Milestone(client.State()) == MilestoneBefore(i)
    {
      var task := TASKS[i];
      var chosen := Script(client.profile, task);
      assert TASKS[..i + 1] == TASKS[..i] + [task];
      ghost var start := client.State();
      if chosen !in available {
        invalidChoices := invalidChoices + 1;
        continue;
      }
      if task == RecoverUnknown {
        var _ := client.LoseRecoveryAcknowledgement();
      }
      ghost var ready := client.State();
      var before := client.stage;
      var structured := EMPTY;
      var received := Received(client.profile, chosen, plan[i]);
      if received.Some? {
        var response := client.Call(chosen, received.value);
        if response.Ok? && plan[i].transport != Dropped {
          structured := response.value;
        }
      }
      TaskKeeps(client, start, ready, task, if received.Some? then received.value else map[]);
      if Faulted(client.faults, chosen) {
        FaultedFails(task, client.profile, client.faults[chosen], before, client.State());
      } else if Sound(start) && Milestone(start) == MilestoneBefore(i) {
        HonestTaskSucceeds(start, i);
      }
      ClosingCloses(before, client.stage, structured, client.State());
      if TaskSucceeded(task, before, client.stage, structured, client.State()) {
        completed := completed + [task];
        if task == RecoverUnknown {
          recoveries := recoveries + 1;
        }
      } else {
        invalidChoices := invalidChoices + 1;
      }
    }
    assert TASKS[..8] == TASKS;
    report := Report(invalidChoices, completed, recoveries, completed == TASKS && client.stage == Closed);
  }

  lemma FreshStart(p: Profile)
    ensures Sound(Fresh(p)) && Milestone(Fresh(p)) == 0 == MilestoneBefore(0)
  {
  }

  lemma ClosingCloses(before: Stage, after: Stage, value: Value, r: Runtime)
    ensures TaskSucceeded(CloseTask, before, after, value, r) ==> after == Closed
  {
  }

  lemma TaskKeeps(client: OfflineClient, start: Runtime, ready: Runtime, task: Task, arguments: Args)
    requires ready == Prepared(start, task)
    ensures Sound(start) ==> Sound(ready) && Sound(Called(ready, Script(client.profile, task), arguments))
  {
    if Sound(start) {
      NextAdvances(start, LoseEvent);
      NextAdvances(ready, CallEvent(Script(client.profile, task), arguments, false));
    }
  }
}
