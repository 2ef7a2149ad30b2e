/** The arguments of palette calls: what the script sends for each task, what the MCP server forwards,
    and what the offline runtime demands (tools/eval_mcp_palettes.py; server.py, agent/facade.py and
    agent/value_policy.py of packages/mcp/src/onec_runtime_mcp). */
module PaletteArguments {
  import opened Wrappers

  datatype Profile = CaptureProfile | ExpertProfile

  datatype Tool =
    | RuntimeEnsure | CaptureRunUntil | CodeRun | CaptureInspect | ValueInspect | ValueToDf
    | CaptureHypothesis | CaptureContinue | RuntimeRestart | AbortGeneration | RuntimeClose | OtherTool

  datatype Task =
    | Ensure | CaptureA | InspectFrame | BoundedHead | HypothesisTask | ContinueOnce | RecoverUnknown | CloseTask

  /** A JSON-like argument up to Python's `==`: an integer, a float and a bool of equal value are one
      number, and the entries of an object have no order. */
  datatype Arg = Nothing | Text(s: string) | Number(n: real) | Listing(items: seq<Arg>) | Dict(entries: Args)

  type Args = map<string, Arg>

  /** Python's dict.get. */
  function Get(a: Args, key: string): Arg { if key in a then a[key] else Nothing }

  // ----- constants of the evaluation -----

  function SourceHash(): string { seq(64, _ => 'a') }

  const FRAME_PROXY := "proxy-frame-a"

  /** The fence of the first capture. */
  function Fence(): Arg {
    Dict(map["capture_intent_id" := Text("intent-1"), "operation_id" := Text("operation-main"),
             "source_revision" := Number(1.0), "source_sha256" := Text(SourceHash()),
             "capture_generation" := Number(1.0), "stop_sequence" := Number(1.0)])
  }

  function Point(name: string, line: real): Arg {
    Dict(map["name" := Text(name), "project" := Text("zup"), "module" := Text("Payroll.Module"),
             "procedure" := Text("Run"), "line" := Number(line)])
  }

  function HypothesisRef(): Arg {
    Dict(map["cell_id" := Text("eval-hypothesis"), "revision" := Number(1.0),
             "source_sha256" := Text(SourceHash())])
  }

  function BudgetOf(depth: real, items: real, rows: real, bytes: real, timeout: real): Arg {
    Dict(map["depth" := Number(depth), "items" := Number(items), "rows" := Number(rows),
             "bytes" := Number(bytes), "timeout_s" := Number(timeout)])
  }

  // ----- what the script sends -----

  function Script(p: Profile, task: Task): Tool {
    match task
    case Ensure => RuntimeEnsure
    case CaptureA => if p == CaptureProfile then CaptureRunUntil else CodeRun
    case InspectFrame => if p == CaptureProfile then CaptureInspect else ValueInspect
    case BoundedHead => ValueToDf
    case HypothesisTask => if p == CaptureProfile then CaptureHypothesis else CodeRun
    case ContinueOnce => if p == CaptureProfile then CaptureContinue else CodeRun
    case RecoverUnknown => if p == CaptureProfile then RuntimeRestart else AbortGeneration
    case CloseTask => RuntimeClose
  }

  function CodeArguments(cell: string): Args {
    map["cell_id" := Text(cell), "revision" := Number(1.0), "source_sha256" := Text(SourceHash()),
        "inputs" := Dict(map[]), "wait_s" := Number(0.0)]
  }

  function TaskArguments(p: Profile, task: Task): Args {
    match task
    case Ensure => map["mode" := Text("experiment"), "profile" := Text("default")]
    case CaptureA =>
      if p == ExpertProfile then CodeArguments("eval-capture-a")
      else map["cell_id" := Text("eval-main"), "revision" := Number(1.0), "source_sha256" := Text(SourceHash()),
               "points" := Listing([Point("point_1", 10.0)]), "request_id" := Text("request-capture-a"),
               "wait_s" := Number(0.0)]
    case InspectFrame =>
      if p == ExpertProfile
      then map["proxy_id" := Text(FRAME_PROXY), "detail" := Text("metadata"),
               "budget_profile" := Text("agent_metadata")]
      else map["fence" := Fence(), "filters" := Dict(map["name" := Text("FrameValue")]),
               "cursor" := Number(0.0), "limit" := Number(20.0)]
    case BoundedHead =>
      var common := map["proxy_id" := Text(FRAME_PROXY), "columns" := Listing([Text("Amount")]),
                        "refs" := Text("presentation")];
      if p == ExpertProfile then common["budget" := BudgetOf(2.0, 100.0, 5.0, 65536.0, 2.0)]
      else common["budget_profile" := Text("agent_dataframe")]
    case HypothesisTask =>
      if p == ExpertProfile then CodeArguments("eval-hypothesis")
      else map["fence" := Fence(), "code_ref" := HypothesisRef(), "request_id" := Text("request-hypothesis"),
               "wait_s" := Number(0.0)]
    case ContinueOnce =>
      if p == ExpertProfile then CodeArguments("eval-continue")
      else map["fence" := Fence(), "request_id" := Text("request-continue"),
               "next_points" := Listing([Point("point_2", 20.0)]), "wait_s" := Number(0.0)]
    case RecoverUnknown =>
      if p == ExpertProfile then map["operation_id" := Text("operation-main")]
      else map["policy" := Text("abort_generation")]
    case CloseTask => map["policy" := Text("abort_generation")]
  }

  // ----- what the server forwards -----

  /** The server-owned budget of a named profile, if that profile permits a full scan. */
  function FullScanBudget(profile: Arg): Option<Arg> {
    if profile == Text("agent_dataframe")
    then Some(BudgetOf(8.0, 200000.0, 10000.0, 64.0 * 1024.0 * 1024.0, 30.0))
    else None
  }

  /** What reaches the runtime of arguments that the tool's schema accepts as they stand. Only the capture
      profile's value.to_df changes them: the named budget is replaced by its limits, and refused unless
      it permits a full scan. */
  function Forwarded(p: Profile, tool: Tool, a: Args): Option<Args> {
    if p == CaptureProfile && tool == ValueToDf then
      var profile := if "budget_profile" in a then a["budget_profile"] else Text("agent_dataframe");
      match FullScanBudget(profile)
      case None => None
      case Some(budget) => Some((a - {"budget_profile"})["budget" := budget])
    else Some(a)
  }

  // ----- what the runtime demands -----

  predicate OnePoint(a: Args, key: string, name: string) {
    var points := Get(a, key);
    && points.Listing? && |points.items| == 1 && points.items[0].Dict?
    && Get(points.items[0].entries, "name") == Text(name)
  }

  predicate Source(a: Args) {
    Get(a, "revision") == Number(1.0) && Get(a, "source_sha256") == Text(SourceHash())
  }

  /** The budget the runtime expects of value.to_df. */
  function ExpectedBudget(p: Profile): Arg {
    if p == CaptureProfile then BudgetOf(8.0, 200000.0, 10000.0, 64.0 * 1024.0 * 1024.0, 30.0)
    else BudgetOf(2.0, 100.0, 5.0, 65536.0, 2.0)
  }

  /** The conditions of _successful_value on a tool's arguments. */
  predicate Demanded(p: Profile, tool: Tool, a: Args) {
    match tool
    case RuntimeEnsure => forall key :: key in a ==> key == "mode" || key == "profile"
    case CaptureRunUntil => Get(a, "cell_id") == Text("eval-main") && Source(a) && OnePoint(a, "points", "point_1")
    case CodeRun => Source(a)
    case CaptureInspect =>
      && Get(a, "fence") == Fence() && Get(a, "filters") == Dict(map["name" := Text("FrameValue")])
      && Get(a, "cursor") == Number(0.0) && Get(a, "limit") == Number(20.0)
    case ValueInspect => Get(a, "proxy_id") == Text(FRAME_PROXY) && Get(a, "detail") == Text("metadata")
    case ValueToDf =>
      && Get(a, "proxy_id") == Text(FRAME_PROXY) && Get(a, "columns") == Listing([Text("Amount")])
      && Get(a, "budget") == ExpectedBudget(p)
    case CaptureHypothesis => Get(a, "fence") == Fence() && Get(a, "code_ref") == HypothesisRef()
    case CaptureContinue => Get(a, "fence") == Fence() && OnePoint(a, "next_points", "point_2")
    case RuntimeRestart => a == map["policy" := Text("abort_generation")]
    case AbortGeneration => a == map["operation_id" := Text("operation-main")]
    case RuntimeClose => a == map["policy" := Text("abort_generation")]
    case OtherTool => false
  }

  datatype Cell = CellCaptureA | CellHypothesis | CellContinue | OtherCell

  /** The code cell a code.run names. */
  function CellOf(a: Args): Cell {
    var cell := Get(a, "cell_id");
    if cell == Text("eval-capture-a") then CellCaptureA
    else if cell == Text("eval-hypothesis") then CellHypothesis
    else if cell == Text("eval-continue") then CellContinue
    else OtherCell
  }

  // ----- the script meets the demands -----

  function ScriptCell(task: Task): Cell {
    match task
    case CaptureA => CellCaptureA
    case HypothesisTask => CellHypothesis
    case ContinueOnce => CellContinue
    case _ => OtherCell
  }

  lemma CodeMeetsDemands(p: Profile, cell: string)
    ensures Demanded(p, CodeRun, CodeArguments(cell)) && Get(CodeArguments(cell), "cell_id") == Text(cell)
  {
    hide SourceHash;
  }

  predicate MeetsDemands(p: Profile, task: Task) {
    var tool := Script(p, task);
    var received := Forwarded(p, tool, TaskArguments(p, task));
    && received.Some? && Demanded(p, tool, received.value)
    && (tool == CodeRun ==> CellOf(received.value) == ScriptCell(task))
  }

  lemma CodeTaskMeets(task: Task)
    requires task in {CaptureA, HypothesisTask, ContinueOnce}
    ensures MeetsDemands(ExpertProfile, task)
  {
    hide SourceHash, Demanded, CodeArguments;
    match task
    case CaptureA => CodeMeetsDemands(ExpertProfile, "eval-capture-a");
    case HypothesisTask => CodeMeetsDemands(ExpertProfile, "eval-hypothesis");
    case _ => CodeMeetsDemands(ExpertProfile, "eval-continue");
  }

  lemma RunUntilMeets()
    ensures MeetsDemands(CaptureProfile, CaptureA)
  {
    hide SourceHash, Fence, HypothesisRef, FullScanBudget, ExpectedBudget, CodeArguments, CellOf;
  }

  lemma InspectMeets(p: Profile)
    ensures MeetsDemands(p, InspectFrame)
  {
    hide SourceHash, Fence, HypothesisRef, FullScanBudget, ExpectedBudget, CodeArguments, CellOf, Point, OnePoint;
  }

  lemma DataFrameMeets(p: Profile)
    ensures MeetsDemands(p, BoundedHead)
  {
    hide SourceHash, Fence, HypothesisRef, CodeArguments, CellOf, Point, OnePoint, BudgetOf;
  }

  lemma HypothesisMeets()
    ensures MeetsDemands(CaptureProfile, HypothesisTask)
  {
    hide SourceHash, Fence, HypothesisRef, FullScanBudget, ExpectedBudget, CodeArguments, CellOf, Point, OnePoint;
  }

  lemma ContinueMeets()
    ensures MeetsDemands(CaptureProfile, ContinueOnce)
  {
    hide SourceHash, Fence, HypothesisRef, FullScanBudget, ExpectedBudget, CodeArguments, CellOf;
  }

  lemma PolicyMeets(p: Profile, task: Task)
    requires task in {Ensure, RecoverUnknown, CloseTask}
    ensures MeetsDemands(p, task)
  {
    hide SourceHash, Fence, HypothesisRef, FullScanBudget, ExpectedBudget, CodeArguments, CellOf, Point, OnePoint;
  }

  /** What reaches the runtime for a task is what its tool demands, in both profiles. */
  lemma ScriptMeetsDemands(p: Profile, task: Task)
    ensures MeetsDemands(p, task)
  {
    hide MeetsDemands;
    match task
    case CaptureA => if p == ExpertProfile { CodeTaskMeets(task); } else { RunUntilMeets(); }
    case InspectFrame => InspectMeets(p);
    case BoundedHead => DataFrameMeets(p);
    case HypothesisTask => if p == ExpertProfile { CodeTaskMeets(task); } else { HypothesisMeets(); }
    case ContinueOnce => if p == ExpertProfile { CodeTaskMeets(task); } else { ContinueMeets(); }
    case _ => PolicyMeets(p, task);
  }

  // ----- the demands are those of the script -----

  /** The keys whose values a tool's demands fix. */
  function DemandedKeys(tool: Tool): set<string> {
    match tool
    case CaptureRunUntil => {"cell_id", "revision", "source_sha256"}
    case CodeRun => {"revision", "source_sha256"}
    case CaptureInspect => {"fence", "filters", "cursor", "limit"}
    case ValueInspect => {"proxy_id", "detail"}
    case ValueToDf => {"proxy_id", "columns", "budget"}
    case CaptureHypothesis => {"fence", "code_ref"}
    case CaptureContinue => {"fence"}
    case _ => {}
  }

  ghost predicate AgreesOn(a: Args, b: Args, keys: set<string>) {
    forall key :: key in keys ==> Get(a, key) == Get(b, key)
  }

  /** The one point a call names, where the tool wants one. */
  predicate PointOk(tool: Tool, a: Args) {
    && (tool == CaptureRunUntil ==> OnePoint(a, "points", "point_1"))
    && (tool == CaptureContinue ==> OnePoint(a, "next_points", "point_2"))
  }

  lemma InspectDemands(p: Profile, a: Args, b: Args)
    requires Demanded(p, CaptureInspect, b)
    ensures Demanded(p, CaptureInspect, a) <==> AgreesOn(a, b, DemandedKeys(CaptureInspect))
  {
    hide Fence, Get;
    if AgreesOn(a, b, DemandedKeys(CaptureInspect)) {
      assert Get(a, "fence") == Get(b, "fence") && Get(a, "filters") == Get(b, "filters");
      assert Get(a, "cursor") == Get(b, "cursor") && Get(a, "limit") == Get(b, "limit");
    }
  }

  lemma ValueDemands(p: Profile, a: Args, b: Args)
    ensures Demanded(p, ValueInspect, b) ==>
              (Demanded(p, ValueInspect, a) <==> AgreesOn(a, b, DemandedKeys(ValueInspect)))
    ensures Demanded(p, ValueToDf, b) ==> (Demanded(p, ValueToDf, a) <==> AgreesOn(a, b, DemandedKeys(ValueToDf)))
  {
    hide ExpectedBudget, Get;
    if AgreesOn(a, b, DemandedKeys(ValueInspect)) {
      assert Get(a, "proxy_id") == Get(b, "proxy_id") && Get(a, "detail") == Get(b, "detail");
    }
    if AgreesOn(a, b, DemandedKeys(ValueToDf)) {
      assert Get(a, "proxy_id") == Get(b, "proxy_id") && Get(a, "columns") == Get(b, "columns");
      assert Get(a, "budget") == Get(b, "budget");
    }
  }

  lemma CaptureDemands(p: Profile, a: Args, b: Args)
    ensures Demanded(p, CaptureHypothesis, b) ==>
              (Demanded(p, CaptureHypothesis, a) <==> AgreesOn(a, b, DemandedKeys(CaptureHypothesis)))
    ensures Demanded(p, CaptureContinue, b) ==>
              (Demanded(p, CaptureContinue, a) <==>
                 AgreesOn(a, b, DemandedKeys(CaptureContinue)) && PointOk(CaptureContinue, a))
  {
    hide Fence, HypothesisRef, Get, OnePoint;
    if AgreesOn(a, b, DemandedKeys(CaptureHypothesis)) {
      assert Get(a, "fence") == Get(b, "fence") && Get(a, "code_ref") == Get(b, "code_ref");
    }
    if AgreesOn(a, b, DemandedKeys(CaptureContinue)) {
      assert Get(a, "fence") == Get(b, "fence");
    }
  }

  lemma SourceDemands(p: Profile, a: Args, b: Args)
    ensures Demanded(p, CodeRun, b) ==> (Demanded(p, CodeRun, a) <==> AgreesOn(a, b, DemandedKeys(CodeRun)))
    ensures Demanded(p, CaptureRunUntil, b) ==>
              (Demanded(p, CaptureRunUntil, a) <==>
                 AgreesOn(a, b, DemandedKeys(CaptureRunUntil)) && PointOk(CaptureRunUntil, a))
  {
    hide SourceHash, Get, OnePoint;
    if AgreesOn(a, b, DemandedKeys(CodeRun)) {
      assert Get(a, "revision") == Get(b, "revision") && Get(a, "source_sha256") == Get(b, "source_sha256");
    }
    if AgreesOn(a, b, DemandedKeys(CaptureRunUntil)) {
      assert Get(a, "revision") == Get(b, "revision") && Get(a, "source_sha256") == Get(b, "source_sha256");
      assert Get(a, "cell_id") == Get(b, "cell_id");
    }
  }

  lemma ExactDemands(p: Profile, task: Task, a: Args)
    requires task in {RecoverUnknown, CloseTask}
    ensures Forwarded(p, Script(p, task), TaskArguments(p, task)).Some?
    ensures Demanded(p, Script(p, task), a) <==> a == Forwarded(p, Script(p, task), TaskArguments(p, task)).value
  {
    hide SourceHash, Fence, HypothesisRef, FullScanBudget, ExpectedBudget, CodeArguments, CellOf, Point, OnePoint;
  }

  /** The runtime takes arguments for a task exactly when they agree with what the script's own arguments
      become on every key the tool looks at: recovery and close on all keys, the ensure call on none. */
  lemma DemandsAreScript(p: Profile, task: Task, a: Args)
    ensures
      var tool := Script(p, task);
      var received := Forwarded(p, tool, TaskArguments(p, task));
      && received.Some?
      && (Demanded(p, tool, a) <==>
            match task
            case Ensure => a.Keys <= {"mode", "profile"}
            case RecoverUnknown => a == received.value
            case CloseTask => a == received.value
            case _ => AgreesOn(a, received.value, DemandedKeys(tool)) && PointOk(tool, a))
  {
    ScriptMeetsDemands(p, task);
    var tool := Script(p, task);
    var b := Forwarded(p, tool, TaskArguments(p, task)).value;
    if task in {RecoverUnknown, CloseTask} {
      ExactDemands(p, task, a);
    } else if task == Ensure {
      EnsureDemands(p, a);
    } else {
      hide Demanded, Forwarded, TaskArguments, AgreesOn, DemandedKeys, OnePoint;
      InspectOrNot(p, tool, a, b);
      ValueDemands(p, a, b);
      CaptureDemands(p, a, b);
      SourceDemands(p, a, b);
    }
  }

  lemma EnsureDemands(p: Profile, a: Args)
    ensures Demanded(p, RuntimeEnsure, a) <==> a.Keys <= {"mode", "profile"}
  {
  }

  lemma InspectOrNot(p: Profile, tool: Tool, a: Args, b: Args)
    requires Demanded(p, tool, b)
    ensures tool == CaptureInspect ==> (Demanded(p, tool, a) <==> AgreesOn(a, b, DemandedKeys(tool)))
  {
    hide Demanded, AgreesOn, DemandedKeys;
    if tool == CaptureInspect { InspectDemands(p, a, b); }
  }
}
