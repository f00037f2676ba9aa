/**
 The agent graph (backend/agent/workflow.py, edges.py, nodes.py) as a transition system: one step
 executes one node and follows its edge. The model's responses, the tools' outcomes and the state of
 the workspace arrive as inputs.
 */
module Workflow {
  import opened Common
  import Graphs
  import Plans
  import opened Scheduler
  import opened Budgets

  const MAX_DEVELOPER_RETRIES: nat := 3
  const MAX_REVIEW_PROTOCOL_ERRORS: nat := 2

  datatype Node =
    | InitializeWorkspace | Architect | ArchitectTools | ScheduleTask | Developer | DeveloperTools
    | CompleteTask | Reviewer | ReviewerTools | DeveloperRetry | ReviewerProtocolRetry
    | FinalizeBudgetFailure | FinalizePlanFailure | FinalizeReviewSuccess | FinalizeReviewFailure
    | PrepareWorkspaceApproval | ApplyWorkspace | CleanupWorkspace | End

  /** The facts of the last message that the edges and the Reviewer protocol look at. */
  datatype Message = Message(toolCalls: nat, marksFail: bool, marksSuccess: bool, verdict: Option<seq<Graphs.TaskId>>)

  const PLAIN := Message(0, false, false, None)

  /** Everything a step cannot know in advance. */
  datatype Input = Input(
    message: Message,            // the model's response
    tokens: TokenReport,         // its metering
    parsed: Plan,                // the plan found in an Architect response
    write: Option<bool>,         // outcome of the last write tool call, if any
    resultBuilds: bool,          // whether the dependency result of a task can be built
    evidenceOk: bool,            // whether review_evidence_errors finds nothing
    prepared: bool,              // whether the final diff could be built
    applied: bool)               // whether the diff was approved and its transaction went through

  datatype Counts = Counts(
    nodes: nat, modelCalls: nat, toolRuns: nat, attempts: nat, completions: nat, failures: nat, reopens: nat)

  datatype RunState = RunState(
    next: Node, plan: Plan, exec: Execution, retryCount: nat, protocolErrors: nat,
    usage: Usage, budgetExceeded: bool, last: Message, reviewPassed: bool, counts: Counts)

  const INITIAL_EXECUTION := Execution(map[], None, [], map[], map[], {}, PlanPending, false)

  const INITIAL_STATE := RunState(
    InitializeWorkspace, None, INITIAL_EXECUTION, 0, 0, EMPTY_USAGE, false, PLAIN, false,
    Counts(0, 0, 0, 0, 0, 0, 0))

  // ---------------------------------------------------------------- edges.py

  predicate PlanMode(s: RunState) {
    s.plan.Some? && s.exec.planStatus != Fallback
  }

  function RouteArchitect(s: RunState): Node {
    if s.budgetExceeded then FinalizeBudgetFailure
    else if s.last.toolCalls > 0 then ArchitectTools
    else ScheduleTask
  }

  function RouteDeveloper(s: RunState): Node {
    if s.budgetExceeded then if PlanMode(s) then CompleteTask else FinalizeBudgetFailure
    else if s.last.toolCalls > 0 then DeveloperTools
    else if PlanMode(s) then CompleteTask
    else Reviewer
  }

  function RouteTaskScheduler(s: RunState): Node {
    if s.exec.planStatus == Fallback || s.plan.None? then Developer
    else if s.exec.planStatus == PlanCompleted then Reviewer
    else if s.exec.planStatus == PlanFailed then
      if s.budgetExceeded then FinalizeBudgetFailure else FinalizePlanFailure
    else if s.exec.active.Some? then Developer
    else FinalizePlanFailure
  }

  function RouteReviewer(s: RunState, evidenceOk: bool): Node {
    if s.budgetExceeded then FinalizeBudgetFailure
    else if s.last.toolCalls > 0 then ReviewerTools
    else if s.last.marksFail then
      if s.retryCount < MAX_DEVELOPER_RETRIES then DeveloperRetry else FinalizeReviewFailure
    else if s.last.marksSuccess && evidenceOk then FinalizeReviewSuccess
    else if s.protocolErrors < MAX_REVIEW_PROTOCOL_ERRORS then ReviewerProtocolRetry
    else FinalizeReviewFailure
  }

  // ---------------------------------------------------------------- nodes.py

  /** The model is called only when the preflight passes; an over-budget response loses its tool calls. */
  function InvokeBudgetedAgent(s: RunState, limits: Limits, input: Input): RunState {
    if BudgetPreflightReason(s.usage, limits).Some? then
      s.(last := PLAIN, usage := GetRunUsage(s.usage), budgetExceeded := true)
    else
      var usage := UsageAfter(s.usage, input.message.toolCalls, input.tokens);
      var exceeded := AccountingReason(usage, limits, input.message.toolCalls).Some?;
      s.(last := if exceeded then PLAIN else input.message, usage := usage, budgetExceeded := exceeded,
         counts := s.counts.(modelCalls := s.counts.modelCalls + 1))
  }

  function CallArchitect(s: RunState, limits: Limits, input: Input): RunState {
    var s' := InvokeBudgetedAgent(s, limits, input);
    if !s'.budgetExceeded && s'.last.toolCalls == 0 then
      s'.(plan := input.parsed, exec := InitializePlanExecution(input.parsed))
    else s'
  }

  /** Every requested tool call is executed and answered. */
  function RunTools(s: RunState): RunState {
    s.(counts := s.counts.(toolRuns := s.counts.toolRuns + s.last.toolCalls), last := PLAIN)
  }

  function RunDeveloperTools(s: RunState, input: Input): RunState {
    var s' := RunTools(s);
    if s.exec.active.Some? && input.write.Some? then s'.(exec := s.exec.(writeSucceeded := input.write.value)) else s'
  }

  function CountStart(s: RunState, exec: Execution): Counts {
    if s.exec.active.None? && exec.active.Some? then s.counts.(attempts := s.counts.attempts + 1) else s.counts
  }

  function CountClose(s: RunState, exec: Execution): Counts {
    if s.exec.active.None? || s.plan.None? then s.counts
    else if |exec.completed| > |s.exec.completed| then s.counts.(completions := s.counts.completions + 1)
    else s.counts.(failures := s.counts.failures + 1)
  }

  ghost function DeveloperRetryNode(s: RunState): RunState {
    s.(retryCount := s.retryCount + 1, exec := Reopen(s.plan, s.exec, s.last.verdict), last := PLAIN,
       counts := s.counts.(reopens := s.counts.reopens + 1))
  }

  function FinalizeFailureNode(s: RunState, always: bool): RunState {
    s.(last := PLAIN.(marksFail := true), reviewPassed := false,
       exec := if always || s.plan.Some? then s.exec.(planStatus := PlanFailed) else s.exec)
  }

  // ---------------------------------------------------------------- the graph

  ghost function Execute(s: RunState, limits: Limits, input: Input): RunState {
    match s.next
    case InitializeWorkspace => s.(next := Architect)
    case Architect => var t := CallArchitect(s, limits, input); t.(next := RouteArchitect(t))
    case ArchitectTools => RunTools(s).(next := Architect)
    case ScheduleTask =>
      var exec := ScheduleNext(s.plan, s.exec);
      var t := s.(exec := exec, counts := CountStart(s, exec), last := if exec.active.Some? then PLAIN else s.last);
      t.(next := RouteTaskScheduler(t))
    case Developer => var t := InvokeBudgetedAgent(s, limits, input); t.(next := RouteDeveloper(t))
    case DeveloperTools => RunDeveloperTools(s, input).(next := Developer)
    case CompleteTask =>
      var exec := CompleteActive(s.plan, s.exec, s.budgetExceeded, input.resultBuilds);
      s.(exec := exec, counts := CountClose(s, exec), next := ScheduleTask)
    case Reviewer => var t := InvokeBudgetedAgent(s, limits, input); t.(next := RouteReviewer(t, input.evidenceOk))
    case ReviewerTools => RunTools(s).(next := Reviewer)
    case DeveloperRetry => DeveloperRetryNode(s).(next := ScheduleTask)
    case ReviewerProtocolRetry => s.(protocolErrors := s.protocolErrors + 1, last := PLAIN, next := Reviewer)
    case FinalizeBudgetFailure => FinalizeFailureNode(s, false).(next := CleanupWorkspace)
    case FinalizePlanFailure => FinalizeFailureNode(s, true).(next := CleanupWorkspace)
    case FinalizeReviewSuccess =>
      s.(reviewPassed := input.evidenceOk && s.last.marksSuccess, next := PrepareWorkspaceApproval)
    case FinalizeReviewFailure => FinalizeFailureNode(s, false).(next := CleanupWorkspace)
    case PrepareWorkspaceApproval =>
      if input.evidenceOk && input.prepared then s.(next := ApplyWorkspace)
      else s.(reviewPassed := false, next := CleanupWorkspace)
    case ApplyWorkspace => s.(reviewPassed := s.reviewPassed && input.applied, next := End)
    case CleanupWorkspace => s.(next := End)
    case End => s
  }

  ghost function Step(s: RunState, limits: Limits, input: Input): RunState {
    if s.next == End then s
    else
      var t := Execute(s, limits, input);
      t.(counts := t.counts.(nodes := s.counts.nodes + 1))
  }

  ghost function Run(s: RunState, limits: Limits, inputs: seq<Input>): RunState {
    if inputs == [] then s
    else Step(Run(s, limits, inputs[..|inputs| - 1]), limits, inputs[|inputs| - 1])
  }

  /** Plans reach the state only through validation. */
  ghost predicate InputOk(input: Input) {
    input.parsed.Some? ==> Plans.ValidPlan(input.parsed.value)
  }

  ghost predicate InputsOk(inputs: seq<Input>) {
    forall i | 0 <= i < |inputs| :: InputOk(inputs[i])
  }
}
