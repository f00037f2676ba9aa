/**
 How many attempts the scheduler can start in one run: at most six per task, whatever the Developer,
 the tools and the Reviewer do.
 */
module SchedulingBound {
  import opened Common
  import Graphs
  import opened Plans
  import opened Scheduler
  import opened SchedulerInvariant
  import opened Budgets
  import opened Workflow
  import opened WorkflowBounds

  /** Completions that `reopens` reviews can make room for in a plan of `n` tasks. */
  function Room(n: nat, reopens: nat): nat {
    if reopens == 0 then n else n + Room(n, reopens - 1)
  }

  lemma {:induction false} RoomBounded(n: nat, reopens: nat)
    requires reopens <= MAX_DEVELOPER_RETRIES
    ensures Room(n, reopens) <= 4 * n
  {
    assert Room(n, 1) == n + Room(n, 0);
    assert Room(n, 2) == n + Room(n, 1);
    assert Room(n, 3) == n + Room(n, 2);
  }

  ghost predicate PlanQuotas(tasks: seq<Task>, e: Execution, c: Counts) {
    && c.completions + |tasks| - |e.completed| <= Room(|tasks|, c.reopens)
    && c.failures == TotalRetries(tasks, e.retries)
    && c.attempts == c.completions + c.failures + (if e.active.Some? then 1 else 0)
    && c.attempts <= 6 * |tasks|
    && c.failures <= 2 * |tasks| + 1
  }

  ghost predicate Quotas(s: RunState) {
    && s.counts.reopens == s.retryCount <= MAX_DEVELOPER_RETRIES
    && (s.plan.None? ==> s.counts.attempts == s.counts.completions == s.counts.failures == 0)
    && (s.plan.Some? ==> PlanQuotas(s.plan.value, s.exec, s.counts))
  }

  lemma {:induction false} FreshPlanQuotas(tasks: seq<Task>, c: Counts)
    requires ValidPlan(tasks) && c.attempts == c.completions == c.failures == 0
    ensures PlanQuotas(tasks, InitializePlanExecution(Some(tasks)), c)
  {
    var e := InitializePlanExecution(Some(tasks));
    RetriesBounded(tasks, e.retries, 0);
    assert |tasks| <= Room(|tasks|, c.reopens) by {
      RoomGrows(|tasks|, c.reopens);
    }
  }

  lemma {:induction false} RoomGrows(n: nat, reopens: nat)
    ensures n <= Room(n, reopens)
  {
    if reopens > 0 {
      RoomGrows(n, reopens - 1);
    }
  }

  /** While the plan is alive no task has failed more than twice. */
  lemma {:induction false} LivePlanFailures(tasks: seq<Task>, e: Execution)
    requires Invariant(tasks, e) && e.planStatus != PlanFailed
    ensures TotalRetries(tasks, e.retries) <= 2 * |tasks|
  {
    forall i | 0 <= i < |tasks| && tasks[i].id in e.retries ensures e.retries[tasks[i].id] <= 2 {
      TaskInGraph(tasks, i);
      assert TaskOk(DepGraph(tasks), e, tasks[i].id);
    }
    RetriesBounded(tasks, e.retries, 2);
  }

  lemma {:induction false} StartQuotas(tasks: seq<Task>, e: Execution, c: Counts)
    requires Invariant(tasks, e) && e.active.None? && PlanQuotas(tasks, e, c) && c.reopens <= MAX_DEVELOPER_RETRIES
    requires e.planStatus in {PlanPending, PlanRunning} && |e.completed| != |tasks|
    ensures c.attempts + 1 <= 6 * |tasks|
  {
    CompletedWithinPlan(tasks, e);
    RoomBounded(|tasks|, c.reopens);
    LivePlanFailures(tasks, e);
  }

  lemma {:induction false} ScheduleQuotas(s: RunState, limits: Limits, input: Input)
    requires Controlled(s) && Quotas(s) && s.next == ScheduleTask
    ensures Quotas(Step(s, limits, input))
  {
    if s.plan.Some? {
      ScheduleKeepsInvariant(s.plan.value, s.exec);
      if s.exec.planStatus in {PlanPending, PlanRunning} && |s.exec.completed| != |s.plan.value| {
        StartQuotas(s.plan.value, s.exec, s.counts);
      }
    }
  }

  lemma {:induction false} CloseQuotas(
    tasks: seq<Task>, e: Execution, c: Counts, budgetExceeded: bool, resultBuilds: bool)
    requires Invariant(tasks, e) && e.active.Some? && PlanQuotas(tasks, e, c)
    ensures var e' := CompleteActive(Some(tasks), e, budgetExceeded, resultBuilds);
            && e'.active.None?
            && (|e'.completed| > |e.completed| ==>
                  PlanQuotas(tasks, e', c.(completions := c.completions + 1)))
            && (|e'.completed| <= |e.completed| ==>
                  PlanQuotas(tasks, e', c.(failures := c.failures + 1)))
  {
    ActiveIsUnfinished(tasks, e);
    var i := GraphTask(tasks, e.active.value);
    OneMoreRetry(tasks, e.retries, i);
    LivePlanFailures(tasks, e);
    if AttemptSucceeds(e, budgetExceeded, resultBuilds) {
      SuccessKeepsInvariant(tasks, e);
    }
  }

  lemma {:induction false} ReopenQuotas(tasks: seq<Task>, e: Execution, c: Counts, verdict: Option<seq<Graphs.TaskId>>)
    requires Invariant(tasks, e) && e.planStatus == PlanCompleted && PlanQuotas(tasks, e, c)
    ensures PlanQuotas(tasks, Reopen(Some(tasks), e, verdict), c.(reopens := c.reopens + 1))
  {
  }

  predicate Counted(n: Node) {
    n in {Architect, ScheduleTask, CompleteTask, DeveloperRetry}
  }

  /** Nothing the quotas speak of has changed. */
  predicate Steady(s: RunState, t: RunState) {
    && t.plan == s.plan && t.retryCount == s.retryCount
    && t.exec.completed == s.exec.completed && t.exec.retries == s.exec.retries && t.exec.active == s.exec.active
    && t.counts.attempts == s.counts.attempts && t.counts.completions == s.counts.completions
    && t.counts.failures == s.counts.failures && t.counts.reopens == s.counts.reopens
  }

  lemma {:induction false} AgentSteady(s: RunState, limits: Limits, input: Input)
    requires s.next in {Developer, Reviewer}
    ensures Steady(s, Step(s, limits, input))
  {
  }

  lemma {:induction false} ToolsSteady(s: RunState, limits: Limits, input: Input)
    requires s.next in {InitializeWorkspace, ArchitectTools, DeveloperTools, ReviewerTools, ReviewerProtocolRetry}
    ensures Steady(s, Step(s, limits, input))
  {
  }

  lemma {:induction false} OtherSteady(s: RunState, limits: Limits, input: Input)
    requires !Counted(s.next)
    ensures Steady(s, Step(s, limits, input))
  {
    match s.next
    case Developer => AgentSteady(s, limits, input);
    case Reviewer => AgentSteady(s, limits, input);
    case FinalizeBudgetFailure =>
    case FinalizePlanFailure =>
    case FinalizeReviewFailure =>
    case FinalizeReviewSuccess =>
    case PrepareWorkspaceApproval =>
    case ApplyWorkspace =>
    case CleanupWorkspace =>
    case End =>
    case _ => ToolsSteady(s, limits, input);
  }

  lemma {:induction false} ArchitectQuotas(s: RunState, limits: Limits, input: Input)
    requires Controlled(s) && InputOk(input) && Quotas(s) && s.next == Architect
    ensures Quotas(Step(s, limits, input))
  {
    if input.parsed.Some? {
      FreshPlanQuotas(input.parsed.value, s.counts);
    }
  }

  lemma {:induction false} CompleteQuotas(s: RunState, limits: Limits, input: Input)
    requires Controlled(s) && Quotas(s) && s.next == CompleteTask
    ensures Quotas(Step(s, limits, input))
  {
    CloseQuotas(s.plan.value, s.exec, s.counts, s.budgetExceeded, input.resultBuilds);
  }

  lemma {:induction false} RetryQuotas(s: RunState, limits: Limits, input: Input)
    requires Controlled(s) && Quotas(s) && s.next == DeveloperRetry
    ensures Quotas(Step(s, limits, input))
  {
    if s.plan.Some? {
      ReopenQuotas(s.plan.value, s.exec, s.counts, s.last.verdict);
    }
  }

  lemma {:induction false} StepQuotas(s: RunState, limits: Limits, input: Input)
    requires Controlled(s) && InputOk(input) && Quotas(s)
    ensures Quotas(Step(s, limits, input))
  {
    match s.next
    case Architect => ArchitectQuotas(s, limits, input);
    case ScheduleTask => ScheduleQuotas(s, limits, input);
    case CompleteTask => CompleteQuotas(s, limits, input);
    case DeveloperRetry => RetryQuotas(s, limits, input);
    case _ => OtherSteady(s, limits, input);
  }

  lemma {:induction false} RunKeepsQuotas(limits: Limits, inputs: seq<Input>)
    requires ValidLimits(limits) && InputsOk(inputs)
    ensures Controlled(Run(INITIAL_STATE, limits, inputs)) && Quotas(Run(INITIAL_STATE, limits, inputs))
  {
    RunKeepsBounds(limits, inputs);
    if inputs != [] {
      RunKeepsQuotas(limits, inputs[..|inputs| - 1]);
      StepQuotas(Run(INITIAL_STATE, limits, inputs[..|inputs| - 1]), limits, inputs[|inputs| - 1]);
    }
  }

  /**
   Scheduling terminates on its own, without the budget: a plan of n tasks has at most 6n attempts,
   of which at most 4n complete and at most 2n + 1 fail.
   */
  lemma {:induction false} AttemptsAreBounded(limits: Limits, inputs: seq<Input>)
    requires ValidLimits(limits) && InputsOk(inputs)
    requires Run(INITIAL_STATE, limits, inputs).plan.Some?
    ensures var s := Run(INITIAL_STATE, limits, inputs);
            var n := |s.plan.value|;
            && s.counts.attempts <= 6 * n
            && s.counts.completions <= 4 * n && s.counts.failures <= 2 * n + 1
            && s.counts.completions + s.counts.failures <= s.counts.attempts
            && s.counts.reopens <= MAX_DEVELOPER_RETRIES
  {
    RunKeepsQuotas(limits, inputs);
    var s := Run(INITIAL_STATE, limits, inputs);
    CompletedWithinPlan(s.plan.value, s.exec);
    RoomBounded(|s.plan.value|, s.counts.reopens);
  }
}
