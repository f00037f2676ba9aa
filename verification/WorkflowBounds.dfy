/**
 Whole-run properties of the agent graph, for every behaviour of the model and the tools: the
 business budget stops a run before the framework limit, scheduling is bounded, and the Reviewer
 starts only on a finished plan.
 */
module WorkflowBounds {
  import opened Common
  import Plans
  import opened Scheduler
  import opened SchedulerInvariant
  import opened Budgets
  import opened Workflow

  // ---------------------------------------------------------------- where a run can be

  ghost predicate Resting(s: RunState) {
    s.plan.Some? ==> s.exec.active.None?
  }

  ghost predicate Reviewing(s: RunState) {
    s.plan.Some? ==> s.exec.planStatus == PlanCompleted
  }

  ghost predicate Located(s: RunState) {
    match s.next
    case InitializeWorkspace => s.plan.None? && !s.budgetExceeded
    case Architect => s.plan.None? && !s.budgetExceeded
    case ArchitectTools => s.plan.None? && !s.budgetExceeded
    case ScheduleTask => Resting(s) && (s.budgetExceeded ==> s.plan.Some? && s.exec.planStatus == PlanFailed)
    case Developer => !s.budgetExceeded && (s.plan.Some? ==> s.exec.active.Some?)
    case DeveloperTools => !s.budgetExceeded && (s.plan.Some? ==> s.exec.active.Some?)
    case CompleteTask => s.plan.Some? && s.exec.active.Some?
    case Reviewer => !s.budgetExceeded && Reviewing(s)
    case ReviewerTools => !s.budgetExceeded && Reviewing(s)
    case DeveloperRetry => !s.budgetExceeded && Reviewing(s) && s.retryCount < MAX_DEVELOPER_RETRIES
    case ReviewerProtocolRetry => !s.budgetExceeded && Reviewing(s)
    case FinalizeBudgetFailure => Resting(s)
    case FinalizePlanFailure => Resting(s)
    case FinalizeReviewSuccess => !s.budgetExceeded && Reviewing(s)
    case PrepareWorkspaceApproval => !s.budgetExceeded && Reviewing(s)
    case ApplyWorkspace => !s.budgetExceeded && Reviewing(s)
    case FinalizeReviewFailure => Resting(s)
    case _ => true
  }

  ghost predicate Controlled(s: RunState) {
    && (s.plan.Some? ==> Invariant(s.plan.value, s.exec))
    && Located(s)
  }

  lemma {:induction false} FlagsKeepInvariant(tasks: seq<Plans.Task>, e: Execution, writeSucceeded: bool, failed: bool)
    requires Invariant(tasks, e) && (failed ==> e.active.None?)
    ensures Invariant(tasks, e.(writeSucceeded := writeSucceeded,
                                planStatus := if failed then PlanFailed else e.planStatus))
  {
    var e' := e.(writeSucceeded := writeSucceeded, planStatus := if failed then PlanFailed else e.planStatus);
    forall x ensures TaskOk(Plans.DepGraph(tasks), e', x) {
      assert TaskOk(Plans.DepGraph(tasks), e, x);
    }
  }

  lemma {:induction false} FailMarkControlled(s: RunState)
    requires Controlled(s) && Resting(s)
    ensures s.plan.Some? ==> Invariant(s.plan.value, s.exec.(planStatus := PlanFailed))
  {
    if s.plan.Some? {
      FlagsKeepInvariant(s.plan.value, s.exec, s.exec.writeSucceeded, true);
    }
  }

  lemma {:induction false} ArchitectControlled(s: RunState, limits: Limits, input: Input)
    requires Controlled(s) && s.next == Architect && InputOk(input)
    ensures Controlled(Step(s, limits, input))
  {
    if input.parsed.Some? {
      InitialInvariant(input.parsed.value);
    }
  }

  lemma {:induction false} ScheduleControlled(s: RunState, limits: Limits, input: Input)
    requires Controlled(s) && s.next == ScheduleTask
    ensures Controlled(Step(s, limits, input))
  {
    if s.plan.Some? {
      ScheduleKeepsInvariant(s.plan.value, s.exec);
    }
  }

  lemma {:induction false} CompleteControlled(s: RunState, limits: Limits, input: Input)
    requires Controlled(s) && s.next == CompleteTask
    ensures Controlled(Step(s, limits, input))
  {
    CompleteKeepsInvariant(s.plan.value, s.exec, s.budgetExceeded, input.resultBuilds);
  }

  lemma {:induction false} ToolsControlled(s: RunState, limits: Limits, input: Input)
    requires Controlled(s) && s.next == DeveloperTools
    ensures Controlled(Step(s, limits, input))
  {
    if s.plan.Some? && input.write.Some? {
      FlagsKeepInvariant(s.plan.value, s.exec, input.write.value, false);
    }
  }

  lemma {:induction false} RetryControlled(s: RunState, limits: Limits, input: Input)
    requires Controlled(s) && s.next == DeveloperRetry
    ensures Controlled(Step(s, limits, input))
  {
    if s.plan.Some? {
      ReopenKeepsInvariant(s.plan.value, s.exec, s.last.verdict);
    }
  }

  lemma {:induction false} FailureControlled(s: RunState, limits: Limits, input: Input)
    requires Controlled(s) && s.next in {FinalizeBudgetFailure, FinalizePlanFailure, FinalizeReviewFailure}
    ensures Controlled(Step(s, limits, input))
  {
    FailMarkControlled(s);
  }

  predicate Special(n: Node) {
    n in {Architect, ScheduleTask, CompleteTask, DeveloperTools, DeveloperRetry,
          FinalizeBudgetFailure, FinalizePlanFailure, FinalizeReviewFailure}
  }

  ghost predicate StatusFacts(s: RunState) {
    s.plan.Some? ==>
      && s.exec.planStatus != Fallback
      && (s.exec.planStatus in {PlanCompleted, PlanFailed} ==> s.exec.active.None?)
  }

  lemma {:induction false} AgentLocated(s: RunState, limits: Limits, input: Input)
    requires Located(s) && StatusFacts(s) && s.next in {Developer, Reviewer}
    ensures Located(Step(s, limits, input))
  {
  }

  lemma {:induction false} OtherLocated(s: RunState, limits: Limits, input: Input)
    requires Located(s) && StatusFacts(s) && !Special(s.next) && s.next !in {Developer, Reviewer}
    ensures Located(Step(s, limits, input))
  {
  }

  lemma {:induction false} OtherUnchanged(s: RunState, limits: Limits, input: Input)
    requires !Special(s.next)
    ensures Step(s, limits, input).plan == s.plan && Step(s, limits, input).exec == s.exec
  {
  }

  lemma {:induction false} OtherControlled(s: RunState, limits: Limits, input: Input)
    requires Controlled(s) && !Special(s.next)
    ensures Controlled(Step(s, limits, input))
  {
    OtherUnchanged(s, limits, input);
    if s.next in {Developer, Reviewer} {
      AgentLocated(s, limits, input);
    } else {
      OtherLocated(s, limits, input);
    }
  }

  lemma {:induction false} StepControlled(s: RunState, limits: Limits, input: Input)
    requires Controlled(s) && InputOk(input)
    ensures Controlled(Step(s, limits, input))
  {
    match s.next
    case Architect => ArchitectControlled(s, limits, input);
    case ScheduleTask => ScheduleControlled(s, limits, input);
    case CompleteTask => CompleteControlled(s, limits, input);
    case DeveloperTools => ToolsControlled(s, limits, input);
    case DeveloperRetry => RetryControlled(s, limits, input);
    case FinalizeBudgetFailure => FailureControlled(s, limits, input);
    case FinalizePlanFailure => FailureControlled(s, limits, input);
    case FinalizeReviewFailure => FailureControlled(s, limits, input);
    case _ => OtherControlled(s, limits, input);
  }

  // ---------------------------------------------------------------- what a run has spent

  predicate ValidLimits(limits: Limits) {
    3 <= limits.steps <= 100 && 1 <= limits.tools <= 200 && 1000 <= limits.tokens <= 2000000
  }

  predicate RunsTools(n: Node) {
    n in {ArchitectTools, DeveloperTools, ReviewerTools}
  }

  function PendingTools(s: RunState): nat {
    if RunsTools(s.next) then s.last.toolCalls else 0
  }

  /** The ledger is exact: one step per model call, one tool call per execution still allowed. */
  ghost predicate Ledger(s: RunState, limits: Limits) {
    && s.usage.steps == s.counts.modelCalls <= limits.steps
    && (s.budgetExceeded ==> s.counts.toolRuns <= limits.tools && PendingTools(s) == 0)
    && (!s.budgetExceeded ==> s.counts.toolRuns + PendingTools(s) == s.usage.tools <= limits.tools)
  }

  predicate CallsModel(n: Node) {
    n in {Architect, Developer, Reviewer}
  }

  /** An agent turn either is refused, or is charged one step and the tool calls it asks for. */
  lemma {:induction false} InvocationLedger(s: RunState, limits: Limits, input: Input)
    requires ValidLimits(limits) && !s.budgetExceeded && Ledger(s, limits) && PendingTools(s) == 0
    ensures var t := InvokeBudgetedAgent(s, limits, input);
            && t.usage.steps == t.counts.modelCalls <= limits.steps
            && t.counts.toolRuns == s.counts.toolRuns <= limits.tools
            && (t.budgetExceeded ==> t.last.toolCalls == 0)
            && (!t.budgetExceeded ==> t.counts.toolRuns + t.last.toolCalls == t.usage.tools <= limits.tools)
  {
  }

  lemma {:induction false} AgentLedger(s: RunState, limits: Limits, input: Input)
    requires ValidLimits(limits) && Located(s) && Ledger(s, limits) && CallsModel(s.next)
    ensures Ledger(Step(s, limits, input), limits)
  {
    InvocationLedger(s, limits, input);
  }

  lemma {:induction false} ToolsLedger(s: RunState, limits: Limits, input: Input)
    requires Ledger(s, limits) && RunsTools(s.next)
    ensures Ledger(Step(s, limits, input), limits)
  {
  }

  lemma {:induction false} QuietLedger(s: RunState, limits: Limits, input: Input)
    requires Ledger(s, limits) && !CallsModel(s.next) && !RunsTools(s.next)
    ensures Ledger(Step(s, limits, input), limits)
  {
  }

  lemma {:induction false} StepLedger(s: RunState, limits: Limits, input: Input)
    requires ValidLimits(limits) && Located(s) && Ledger(s, limits)
    ensures Ledger(Step(s, limits, input), limits)
  {
    if CallsModel(s.next) {
      AgentLedger(s, limits, input);
    } else if RunsTools(s.next) {
      ToolsLedger(s, limits, input);
    } else {
      QuietLedger(s, limits, input);
    }
  }

  // ---------------------------------------------------------------- how far a run can still go

  /** An upper bound on the node executions still to come. */
  function Remaining(s: RunState, limits: Limits): int {
    var k := limits.steps - s.usage.steps;
    match s.next
    case InitializeWorkspace => 3 * k + 6
    case Architect => 3 * k + 5
    case Developer => 3 * k + 5
    case Reviewer => 3 * k + 5
    case ArchitectTools => 3 * k + 6
    case DeveloperTools => 3 * k + 6
    case ReviewerTools => 3 * k + 6
    case ReviewerProtocolRetry => 3 * k + 6
    case ScheduleTask => if s.budgetExceeded then 3 else 3 * k + 6
    case CompleteTask => if s.budgetExceeded then 4 else 3 * k + 7
    case DeveloperRetry => 3 * k + 7
    case FinalizeBudgetFailure => 2
    case FinalizePlanFailure => 2
    case FinalizeReviewFailure => 2
    case FinalizeReviewSuccess => 3
    case PrepareWorkspaceApproval => 2
    case ApplyWorkspace => 1
    case CleanupWorkspace => 1
    case End => 0
  }

  ghost predicate Progress(s: RunState, t: RunState, limits: Limits) {
    0 <= Remaining(t, limits) < Remaining(s, limits)
  }

  /** An agent turn that is not refused has used up one step. */
  lemma {:induction false} InvocationCharges(s: RunState, limits: Limits, input: Input) returns (t: RunState)
    requires ValidLimits(limits) && !s.budgetExceeded && Ledger(s, limits) && PendingTools(s) == 0
    ensures t == InvokeBudgetedAgent(s, limits, input) && t.next == s.next && t.usage.steps <= limits.steps
    ensures !t.budgetExceeded ==> t.usage.steps == s.usage.steps + 1
  {
    InvocationLedger(s, limits, input);
    t := InvokeBudgetedAgent(s, limits, input);
  }

  lemma {:induction false} ArchitectProgress(s: RunState, limits: Limits, input: Input)
    requires ValidLimits(limits) && Located(s) && Ledger(s, limits) && s.next == Architect
    ensures Progress(s, Step(s, limits, input), limits)
  {
    var t := InvocationCharges(s, limits, input);
  }

  lemma {:induction false} DeveloperProgress(s: RunState, limits: Limits, input: Input)
    requires ValidLimits(limits) && Located(s) && Ledger(s, limits) && s.next == Developer
    ensures Progress(s, Step(s, limits, input), limits)
  {
    var t := InvocationCharges(s, limits, input);
  }

  lemma {:induction false} ReviewerProgress(s: RunState, limits: Limits, input: Input)
    requires ValidLimits(limits) && Located(s) && Ledger(s, limits) && s.next == Reviewer
    ensures Progress(s, Step(s, limits, input), limits)
  {
    var t := InvocationCharges(s, limits, input);
  }

  lemma {:induction false} CloseProgress(s: RunState, limits: Limits, input: Input)
    requires Ledger(s, limits) && s.next == CompleteTask
    ensures Progress(s, Step(s, limits, input), limits)
  {
  }

  lemma {:induction false} ScheduleProgress(s: RunState, limits: Limits, input: Input)
    requires Controlled(s) && Ledger(s, limits) && s.next == ScheduleTask
    ensures Progress(s, Step(s, limits, input), limits)
  {
    if s.budgetExceeded {
      assert ScheduleNext(s.plan, s.exec).planStatus == PlanFailed;
    }
  }

  lemma {:induction false} QuietProgress(s: RunState, limits: Limits, input: Input)
    requires Ledger(s, limits) && s.next !in {Architect, Developer, Reviewer, CompleteTask, ScheduleTask, End}
    ensures Progress(s, Step(s, limits, input), limits)
  {
  }

  lemma {:induction false} StepProgress(s: RunState, limits: Limits, input: Input)
    requires ValidLimits(limits) && Controlled(s) && Ledger(s, limits) && s.next != End
    ensures Progress(s, Step(s, limits, input), limits)
  {
    match s.next
    case Architect => ArchitectProgress(s, limits, input);
    case Developer => DeveloperProgress(s, limits, input);
    case Reviewer => ReviewerProgress(s, limits, input);
    case CompleteTask => CloseProgress(s, limits, input);
    case ScheduleTask => ScheduleProgress(s, limits, input);
    case _ => QuietProgress(s, limits, input);
  }

  /** The framework's own fuse: backend/app.py computes it from the same budget. */
  function RecursionLimit(limits: Limits): nat {
    limits.steps * 3 + limits.tools * 2 + 10
  }

  lemma {:induction false} RunKeepsBounds(limits: Limits, inputs: seq<Input>)
    requires ValidLimits(limits) && InputsOk(inputs)
    ensures var s := Run(INITIAL_STATE, limits, inputs);
            && Controlled(s) && Ledger(s, limits) && 0 <= Remaining(s, limits)
            && s.counts.nodes + Remaining(s, limits) <= 3 * limits.steps + 6
            && (s.next != End ==> s.counts.nodes == |inputs|)
  {
    if inputs != [] {
      var earlier := inputs[..|inputs| - 1];
      var input := inputs[|inputs| - 1];
      RunKeepsBounds(limits, earlier);
      var s := Run(INITIAL_STATE, limits, earlier);
      StepControlled(s, limits, input);
      StepLedger(s, limits, input);
      if s.next != End {
        StepProgress(s, limits, input);
      }
    }
  }

  /**
   The business budget always stops a run before the framework's limit. For every configuration and
   every behaviour of model and tools: at most 3N + 6 nodes are executed and the run is then over, the
   model is called at most N times, and at most T tool calls are executed.
   */
  lemma {:induction false} BudgetStopsTheRun(raw: RawBudget, inputs: seq<Input>)
    requires InputsOk(inputs)
    ensures var limits := GetRunBudgetLimits(raw);
            var s := Run(INITIAL_STATE, limits, inputs);
            && s.counts.nodes <= 3 * limits.steps + 6 < RecursionLimit(limits)
            && s.counts.modelCalls <= limits.steps
            && s.counts.toolRuns <= limits.tools
            && (|inputs| >= 3 * limits.steps + 6 ==> s.next == End)
  {
    RunKeepsBounds(GetRunBudgetLimits(raw), inputs);
  }

  ghost predicate CutOff(s: RunState, limits: Limits) {
    Controlled(s) && Ledger(s, limits) && s.budgetExceeded
  }

  lemma {:induction false} CutOffForGood(s: RunState, limits: Limits, inputs: seq<Input>)
    requires ValidLimits(limits) && InputsOk(inputs) && CutOff(s, limits)
    ensures CutOff(Run(s, limits, inputs), limits)
    ensures Run(s, limits, inputs).counts.modelCalls == s.counts.modelCalls
    ensures Run(s, limits, inputs).counts.toolRuns == s.counts.toolRuns
  {
    if inputs != [] {
      var earlier := inputs[..|inputs| - 1];
      CutOffForGood(s, limits, earlier);
      var t := Run(s, limits, earlier);
      StepControlled(t, limits, inputs[|inputs| - 1]);
      StepLedger(t, limits, inputs[|inputs| - 1]);
    }
  }

  lemma {:induction false} RunOn(s: RunState, limits: Limits, first: seq<Input>, second: seq<Input>)
    ensures Run(s, limits, first + second) == Run(Run(s, limits, first), limits, second)
  {
    if second == [] {
      assert first + second == first;
    } else {
      var shorter := second[..|second| - 1];
      RunOn(s, limits, first, shorter);
      assert (first + second)[..|first + second| - 1] == first + shorter;
    }
  }

  /** Once the budget has failed, however the run goes on, neither the model nor a tool is called again. */
  lemma {:induction false} NoModelCallAfterBudgetFailure(limits: Limits, before: seq<Input>, after: seq<Input>)
    requires ValidLimits(limits) && InputsOk(before) && InputsOk(after)
    requires Run(INITIAL_STATE, limits, before).budgetExceeded
    ensures var s, t := Run(INITIAL_STATE, limits, before), Run(INITIAL_STATE, limits, before + after);
            t.budgetExceeded && t.counts.modelCalls == s.counts.modelCalls && t.counts.toolRuns == s.counts.toolRuns
  {
    RunKeepsBounds(limits, before);
    CutOffForGood(Run(INITIAL_STATE, limits, before), limits, after);
    RunOn(INITIAL_STATE, limits, before, after);
  }

  lemma {:induction false} FinishedBeforeReview(s: RunState)
    requires Controlled(s) && s.next in {Reviewer, PrepareWorkspaceApproval, ApplyWorkspace}
    ensures !s.budgetExceeded && (s.plan.Some? ==> Finished(s.plan.value, s.exec))
  {
    if s.plan.Some? {
      CompletedPlanIsFinished(s.plan.value, s.exec);
    }
  }

  /**
   With a plan, the Reviewer runs, and changes are prepared and applied, only when every task of the
   plan is completed and the budget has not failed.
   */
  lemma {:induction false} ReviewAndApplyOnlyWhenFinished(limits: Limits, inputs: seq<Input>)
    requires ValidLimits(limits) && InputsOk(inputs)
    requires Run(INITIAL_STATE, limits, inputs).next in {Reviewer, PrepareWorkspaceApproval, ApplyWorkspace}
    ensures var s := Run(INITIAL_STATE, limits, inputs);
            && !s.budgetExceeded
            && (s.plan.Some? ==> Finished(s.plan.value, s.exec))
  {
    RunKeepsBounds(limits, inputs);
    FinishedBeforeReview(Run(INITIAL_STATE, limits, inputs));
  }

  /** In plan mode the scheduler always finds a task or a finished plan: it never fails the plan itself. */
  lemma {:induction false} SchedulerNeverGivesUp(limits: Limits, inputs: seq<Input>)
    requires ValidLimits(limits) && InputsOk(inputs)
    requires var s := Run(INITIAL_STATE, limits, inputs);
             s.next == ScheduleTask && s.plan.Some? && s.exec.planStatus in {PlanPending, PlanRunning}
    ensures var s := Run(INITIAL_STATE, limits, inputs);
            var e := ScheduleNext(s.plan, s.exec);
            e.planStatus == PlanCompleted || e.active.Some?
  {
    RunKeepsBounds(limits, inputs);
    var s := Run(INITIAL_STATE, limits, inputs);
    ScheduleKeepsInvariant(s.plan.value, s.exec);
  }
}
