/**
 Why a run of the agent graph does what it does: each completion of an entry, each step past the Reviewer
 and each end is traced back to the model responses, tool outcomes and evidence that came before it.
 */
module WorkflowHistory {
  import opened Common
  import Graphs
  import Plans
  import opened Scheduler
  import opened SchedulerInvariant
  import opened SchedulerExactness
  import opened Budgets
  import opened Workflow
  import opened WorkflowBounds

  ghost predicate Moves(limits: Limits, inputs: seq<Input>, states: seq<RunState>, j: nat)
    requires j < |inputs| && |states| == |inputs| + 1
  {
    states[j + 1] == Step(states[j], limits, inputs[j])
  }

  /** The states a run goes through, one more than it has inputs. */
  ghost predicate IsRun(limits: Limits, inputs: seq<Input>, states: seq<RunState>) {
    && ValidLimits(limits) && InputsOk(inputs)
    && |states| == |inputs| + 1 && states[0] == INITIAL_STATE
    && forall j | 0 <= j < |inputs| :: Moves(limits, inputs, states, j)
  }

  lemma {:induction false} OneStepFurther(limits: Limits, inputs: seq<Input>, j: nat, next: nat)
    requires next == j + 1 <= |inputs|
    ensures Run(INITIAL_STATE, limits, inputs[..next])
            == Step(Run(INITIAL_STATE, limits, inputs[..j]), limits, inputs[j])
  {
    assert inputs[..next][..j] == inputs[..j];
  }

  /** Every sequence of inputs has its run, and the run ends where its inputs lead. */
  lemma {:induction false} EveryInputHasItsRun(limits: Limits, inputs: seq<Input>) returns (states: seq<RunState>)
    requires ValidLimits(limits) && InputsOk(inputs)
    ensures IsRun(limits, inputs, states) && states[|inputs|] == Run(INITIAL_STATE, limits, inputs)
  {
    ghost var reached := (j: nat) requires j <= |inputs| => Run(INITIAL_STATE, limits, inputs[..j]);
    states := seq(|inputs| + 1, j requires 0 <= j <= |inputs| => reached(j));
    forall j | 0 <= j < |inputs| ensures Moves(limits, inputs, states, j) {
      OneStepFurther(limits, inputs, j, j + 1);
    }
    assert inputs[..|inputs|] == inputs;
  }

  lemma {:induction false} RunsAreControlled(limits: Limits, inputs: seq<Input>, states: seq<RunState>, j: nat)
    requires IsRun(limits, inputs, states) && j < |states|
    ensures Controlled(states[j]) && Ledger(states[j], limits)
  {
    if j > 0 {
      RunsAreControlled(limits, inputs, states, j - 1);
      assert Moves(limits, inputs, states, j - 1);
      StepControlled(states[j - 1], limits, inputs[j - 1]);
      StepLedger(states[j - 1], limits, inputs[j - 1]);
    }
  }

  lemma {:induction false} Moment(limits: Limits, inputs: seq<Input>, states: seq<RunState>, i: nat, next: nat)
    returns (s: RunState, t: RunState, input: Input)
    requires IsRun(limits, inputs, states) && next == i + 1 < |states|
    ensures s == states[i] && t == states[next] && input == inputs[i] && InputOk(input)
    ensures Controlled(s) && Ledger(s, limits) && t == Step(s, limits, input)
  {
    RunsAreControlled(limits, inputs, states, i);
    assert Moves(limits, inputs, states, i);
    s, t, input := states[i], states[i + 1], inputs[i];
  }

  // ---------------------------------------------------------------- what an attempt wrote

  /** Since the latest scheduling step some write succeeded, and no write failed after it. */
  predicate WroteLast(states: seq<RunState>, inputs: seq<Input>, i: nat)
    requires i <= |inputs| <= |states|
  {
    exists j | 0 <= j < i ::
      && states[j].next == DeveloperTools && inputs[j].write == Some(true)
      && forall k | j < k < i ::
           states[k].next != ScheduleTask && !(states[k].next == DeveloperTools && inputs[k].write == Some(false))
  }

  predicate InAttempt(n: Node) { n in {Developer, DeveloperTools, CompleteTask} }

  lemma {:induction false} AttemptStarts(s: RunState, limits: Limits, input: Input) returns (t: RunState)
    requires Controlled(s) && s.next == ScheduleTask
    ensures t == Step(s, limits, input) && t.plan == s.plan
    ensures InAttempt(t.next) && t.plan.Some? ==> !t.exec.writeSucceeded
  {
    if s.plan.Some? {
      SchedulingIsExact(s.plan.value, s.exec);
    }
    t := Step(s, limits, input);
  }

  lemma {:induction false} AttemptGoesOn(s: RunState, limits: Limits, input: Input) returns (t: RunState)
    requires Controlled(s) && s.next in {Developer, DeveloperTools}
    ensures t == Step(s, limits, input) && t.plan == s.plan
    ensures t.plan.Some? ==>
              t.exec.writeSucceeded == if s.next == DeveloperTools && input.write.Some? then input.write.value
                                       else s.exec.writeSucceeded
  {
    t := Step(s, limits, input);
  }

  lemma {:induction false} AttemptStartsNowhereElse(s: RunState, limits: Limits, input: Input) returns (t: RunState)
    requires s.next !in {ScheduleTask, Developer, DeveloperTools}
    ensures t == Step(s, limits, input) && !InAttempt(t.next)
  {
    t := Step(s, limits, input);
  }

  lemma {:induction false} WriteStep(s: RunState, limits: Limits, input: Input) returns (t: RunState)
    requires Controlled(s)
    ensures t == Step(s, limits, input)
    ensures InAttempt(t.next) && t.plan.Some? ==>
              && t.plan == s.plan && (s.next == ScheduleTask || InAttempt(s.next))
              && t.exec.writeSucceeded == if s.next == ScheduleTask then false
                                          else if s.next == DeveloperTools && input.write.Some? then input.write.value
                                          else s.exec.writeSucceeded
  {
    if s.next == ScheduleTask {
      t := AttemptStarts(s, limits, input);
    } else if s.next in {Developer, DeveloperTools} {
      t := AttemptGoesOn(s, limits, input);
    } else {
      t := AttemptStartsNowhereElse(s, limits, input);
    }
  }

  lemma {:induction false} WroteLastNext(states: seq<RunState>, inputs: seq<Input>, i: nat, next: nat)
    requires next == i + 1 <= |inputs| <= |states|
    ensures var n := states[i].next;
            WroteLast(states, inputs, next) <==>
            && n != ScheduleTask
            && if n == DeveloperTools && inputs[i].write.Some? then inputs[i].write.value
               else WroteLast(states, inputs, i)
  {
  }

  /** During an attempt the flag in the state says exactly whether its last write succeeded. */
  lemma {:induction false} FlagTellsLastWrite(limits: Limits, inputs: seq<Input>, states: seq<RunState>, i: nat)
    requires IsRun(limits, inputs, states) && i <= |inputs| && states[i].plan.Some? && InAttempt(states[i].next)
    ensures states[i].exec.writeSucceeded <==> WroteLast(states, inputs, i)
  {
    if i > 0 {
      var j := i - 1;
      var s, t, input := Moment(limits, inputs, states, j, i);
      t := WriteStep(s, limits, input);
      WroteLastNext(states, inputs, j, i);
      if InAttempt(s.next) {
        FlagTellsLastWrite(limits, inputs, states, j);
      }
    }
  }

  /** What a closing step does to the entry it closes. */
  ghost predicate Closes(e: Execution, e': Execution, wrote: bool, budgetExceeded: bool, resultBuilds: bool) {
    && e.active.Some?
    && var id := e.active.value;
       && id !in e.completed
       && if wrote && !budgetExceeded && resultBuilds then
            e'.completed == e.completed + [id] && id in e'.results && e'.retries == e.retries
          else
            && e'.completed == e.completed && id !in e'.results
            && id in e.retries && e'.retries == e.retries[id := e.retries[id] + 1]
            && id in e'.failures && e'.failures[id].kind == FailureCause(wrote, budgetExceeded)
  }

  lemma {:induction false} ClosingCloses(tasks: seq<Plans.Task>, e: Execution, budgetExceeded: bool, resultBuilds: bool)
    requires Invariant(tasks, e) && e.active.Some?
    ensures Closes(e, CompleteActive(Some(tasks), e, budgetExceeded, resultBuilds), e.writeSucceeded,
                   budgetExceeded, resultBuilds)
  {
    ActiveIsUnfinished(tasks, e);
    ClosingIsExact(tasks, e, budgetExceeded, resultBuilds);
    assert TaskOk(Plans.DepGraph(tasks), e, e.active.value);
  }

  lemma {:induction false} ClosingStep(s: RunState, limits: Limits, input: Input) returns (t: RunState)
    requires Controlled(s) && s.next == CompleteTask
    ensures t == Step(s, limits, input) && s.plan.Some?
    ensures Closes(s.exec, t.exec, s.exec.writeSucceeded, s.budgetExceeded, input.resultBuilds)
  {
    ClosingCloses(s.plan.value, s.exec, s.budgetExceeded, input.resultBuilds);
    t := Step(s, limits, input);
  }

  /**
   In every run, an entry is completed at a closing step, and its result recorded, exactly if a write call
   of this very attempt succeeded with no failing one after it, the budget held and the result could be
   built; otherwise exactly this entry has failed once more, for the condition that was missing.
   */
  lemma {:induction false} CompletedIffWritten(limits: Limits, inputs: seq<Input>, states: seq<RunState>, i: nat)
    requires IsRun(limits, inputs, states) && i < |inputs| && states[i].next == CompleteTask
    ensures Closes(states[i].exec, states[i + 1].exec, WroteLast(states, inputs, i), states[i].budgetExceeded,
                   inputs[i].resultBuilds)
  {
    var s, t, input := Moment(limits, inputs, states, i, i + 1);
    t := ClosingStep(s, limits, input);
    FlagTellsLastWrite(limits, inputs, states, i);
  }

  lemma {:induction false} StepCompletes(s: RunState, limits: Limits, input: Input) returns (t: RunState)
    requires Controlled(s) && s.next != CompleteTask
    ensures t == Step(s, limits, input)
    ensures forall x | x in t.exec.completed :: x in s.exec.completed
  {
    t := Step(s, limits, input);
    if s.next == ScheduleTask && s.plan.Some? {
      SchedulingIsExact(s.plan.value, s.exec);
    } else if s.next == DeveloperRetry && s.plan.Some? {
      WithoutMembers(s.exec.completed, Plans.Downstream(s.plan.value, FailedIds(s.plan.value, s.last.verdict)));
    }
  }

  /** No entry is completed in any other way: whatever becomes completed in a run was written in its attempt. */
  lemma {:induction false} WhatIsCompletedWasWritten(
    limits: Limits, inputs: seq<Input>, states: seq<RunState>, i: nat, x: Graphs.TaskId)
    requires IsRun(limits, inputs, states) && i < |inputs|
    requires x in states[i + 1].exec.completed && x !in states[i].exec.completed
    ensures states[i].next == CompleteTask && states[i].exec.active == Some(x) && WroteLast(states, inputs, i)
  {
    var s, t, input := Moment(limits, inputs, states, i, i + 1);
    if s.next == CompleteTask {
      CompletedIffWritten(limits, inputs, states, i);
    } else {
      t := StepCompletes(s, limits, input);
    }
  }

  // ---------------------------------------------------------------- what a run was charged

  /** The model was called at step `i`. */
  predicate Called(states: seq<RunState>, i: nat)
    requires i + 1 < |states|
  {
    states[i + 1].counts.modelCalls > states[i].counts.modelCalls
  }

  /** The bill of the first `n` steps: each model call with the tool calls and tokens of its response. */
  function Bill(states: seq<RunState>, inputs: seq<Input>, n: nat): Usage
    requires n <= |inputs| < |states|
  {
    if n == 0 then Usage(0, 0, 0, 0, 0, 0)
    else
      var b := Bill(states, inputs, n - 1);
      if !Called(states, n - 1) then b
      else
        var response := inputs[n - 1];
        Usage(b.steps + 1, b.tools + response.message.toolCalls,
              b.input + ReportedInput(response.tokens), b.output + ReportedOutput(response.tokens),
              b.total + ReportedTotal(response.tokens), b.unmetered + if response.tokens.Metered? then 0 else 1)
  }

  /** What is charged while the budget holds lies far below where counters are clamped. */
  ghost predicate Modest(s: RunState, limits: Limits) {
    var u := s.usage;
    && 0 <= u.input && 0 <= u.output && u.input + u.output <= u.total && 0 <= u.unmetered <= u.steps
    && 0 <= u.tools
    && (!s.budgetExceeded ==> u.total <= limits.tokens)
  }

  /** One model turn, from its bill so far to its outcome. */
  ghost predicate Turn(b: Usage, limits: Limits, input: Input, called: bool, exceeded: bool) {
    var m := input.message;
    && (called <==> b.steps < limits.steps && b.total < limits.tokens)
    && (exceeded <==>
          || !called
          || b.tools + m.toolCalls > limits.tools
          || b.total + ReportedTotal(input.tokens) > limits.tokens
          || (b.steps + 1 == limits.steps && m.toolCalls > 0))
  }

  lemma {:induction false} InvocationTurn(s: RunState, limits: Limits, input: Input) returns (t: RunState)
    requires ValidLimits(limits) && Ledger(s, limits) && Modest(s, limits) && !s.budgetExceeded
    ensures t == InvokeBudgetedAgent(s, limits, input)
    ensures Turn(s.usage, limits, input, t.counts.modelCalls > s.counts.modelCalls, t.budgetExceeded)
    ensures Modest(t, limits)
    ensures t.usage == if t.counts.modelCalls > s.counts.modelCalls then
                         UsageAfter(s.usage, input.message.toolCalls, input.tokens)
                       else s.usage
    ensures GetRunUsage(s.usage) == s.usage
  {
    assert GetRunUsage(s.usage) == s.usage;
    t := InvokeBudgetedAgent(s, limits, input);
  }

  lemma {:induction false} AgentTurn(s: RunState, limits: Limits, input: Input) returns (t: RunState)
    requires ValidLimits(limits) && Controlled(s) && Ledger(s, limits) && Modest(s, limits) && CallsModel(s.next)
    ensures t == Step(s, limits, input) && Modest(t, limits)
    ensures Turn(s.usage, limits, input, t.counts.modelCalls > s.counts.modelCalls, t.budgetExceeded)
    ensures GetRunUsage(s.usage) == s.usage
    ensures t.usage == if t.counts.modelCalls > s.counts.modelCalls then
                         UsageAfter(s.usage, input.message.toolCalls, input.tokens)
                       else s.usage
  {
    var u := InvocationTurn(s, limits, input);
    t := Step(s, limits, input);
  }

  lemma {:induction false} OtherStepsAreFree(s: RunState, limits: Limits, input: Input) returns (t: RunState)
    requires !CallsModel(s.next)
    ensures t == Step(s, limits, input) && t.usage == s.usage && t.budgetExceeded == s.budgetExceeded
    ensures t.counts.modelCalls == s.counts.modelCalls
  {
    t := Step(s, limits, input);
  }

  /** In every run the counters are exactly the bill: no clamping ever falsifies them. */
  lemma {:induction false} UsageIsTheBill(limits: Limits, inputs: seq<Input>, states: seq<RunState>, n: nat)
    requires IsRun(limits, inputs, states) && n <= |inputs|
    ensures states[n].usage == Bill(states, inputs, n) && Modest(states[n], limits)
  {
    if n > 0 {
      var i := n - 1;
      UsageIsTheBill(limits, inputs, states, i);
      var s, t, input := Moment(limits, inputs, states, i, n);
      if CallsModel(s.next) {
        t := AgentTurn(s, limits, input);
      } else {
        t := OtherStepsAreFree(s, limits, input);
      }
    }
  }

  /**
   In every run the model is called at an agent's turn exactly if fewer than N calls and fewer than T tokens
   were billed; and the budget fails exactly there, exactly if the call is refused, or its response asks for
   more tool calls than are left, brings the tokens above the limit, or uses tools in the last turn.
   */
  lemma {:induction false} CutOffIff(limits: Limits, inputs: seq<Input>, states: seq<RunState>, i: nat)
    requires IsRun(limits, inputs, states) && i < |inputs|
    ensures if CallsModel(states[i].next) then
              Turn(Bill(states, inputs, i), limits, inputs[i], Called(states, i), states[i + 1].budgetExceeded)
            else
              !Called(states, i) && states[i + 1].budgetExceeded == states[i].budgetExceeded
  {
    UsageIsTheBill(limits, inputs, states, i);
    var s, t, input := Moment(limits, inputs, states, i, i + 1);
    if CallsModel(s.next) {
      t := AgentTurn(s, limits, input);
    } else {
      t := OtherStepsAreFree(s, limits, input);
    }
  }

  // ---------------------------------------------------------------- what follows an agent's response

  function ToolsOf(agent: Node): Node
    requires CallsModel(agent)
  {
    match agent
    case Architect => ArchitectTools
    case Developer => DeveloperTools
    case _ => ReviewerTools
  }

  lemma {:induction false} AgentAsksForTools(s: RunState, limits: Limits, input: Input) returns (t: RunState)
    requires Controlled(s) && CallsModel(s.next)
    ensures t == Step(s, limits, input)
    ensures !t.budgetExceeded ==> t.last == input.message
    ensures !t.budgetExceeded ==> (t.next == ToolsOf(s.next) <==> input.message.toolCalls > 0)
    ensures t.counts.toolRuns == s.counts.toolRuns
  {
    t := Step(s, limits, input);
  }

  lemma {:induction false} ToolsAnswer(s: RunState, limits: Limits, input: Input) returns (t: RunState)
    requires RunsTools(s.next)
    ensures t == Step(s, limits, input) && CallsModel(t.next) && ToolsOf(t.next) == s.next
    ensures t.counts.toolRuns == s.counts.toolRuns + s.last.toolCalls
  {
    t := Step(s, limits, input);
  }

  lemma {:induction false} ToolsAreAsked(limits: Limits, inputs: seq<Input>, states: seq<RunState>, i: nat, next: nat)
    requires IsRun(limits, inputs, states) && next == i + 1 <= |inputs|
    requires CallsModel(states[i].next) && !states[next].budgetExceeded
    ensures states[next].last == inputs[i].message
    ensures states[next].next == ToolsOf(states[i].next) <==> inputs[i].message.toolCalls > 0
    ensures states[next].counts.toolRuns == states[i].counts.toolRuns
  {
    var s, t, input := Moment(limits, inputs, states, i, next);
    t := AgentAsksForTools(s, limits, input);
  }

  lemma {:induction false} ToolsAreRun(limits: Limits, inputs: seq<Input>, states: seq<RunState>, i: nat, next: nat)
    requires IsRun(limits, inputs, states) && next == i + 1 <= |inputs| && RunsTools(states[i].next)
    ensures CallsModel(states[next].next) && ToolsOf(states[next].next) == states[i].next
    ensures states[next].counts.toolRuns == states[i].counts.toolRuns + states[i].last.toolCalls
  {
    var s, t, input := Moment(limits, inputs, states, i, next);
    t := ToolsAnswer(s, limits, input);
  }

  /**
   Within the budget, an agent that asks for tools gets all of them executed, and the next turn is its own;
   an agent that asks for none is not followed by its tool node.
   */
  lemma {:induction false} ToolCallsAreAnswered(limits: Limits, inputs: seq<Input>, states: seq<RunState>, i: nat)
    requires IsRun(limits, inputs, states) && i + 1 < |inputs|
    requires CallsModel(states[i].next) && !states[i + 1].budgetExceeded
    ensures states[i + 1].next == ToolsOf(states[i].next) <==> inputs[i].message.toolCalls > 0
    ensures inputs[i].message.toolCalls > 0 ==>
              && states[i + 2].next == states[i].next
              && states[i + 2].counts.toolRuns == states[i].counts.toolRuns + inputs[i].message.toolCalls
  {
    ToolsAreAsked(limits, inputs, states, i, i + 1);
    if inputs[i].message.toolCalls > 0 {
      ToolsAreRun(limits, inputs, states, i + 1, i + 2);
    }
  }

  /**
   Within the budget, an Architect or a Developer that asks for no tools has finished: the Architect's plan is
   taken over and scheduled, the Developer's attempt is closed, or reviewed at once if there is no plan.
   */
  lemma {:induction false} FinishedTurnMovesOn(limits: Limits, inputs: seq<Input>, states: seq<RunState>, i: nat)
    requires IsRun(limits, inputs, states) && i < |inputs|
    requires states[i].next in {Architect, Developer} && !states[i + 1].budgetExceeded
    requires inputs[i].message.toolCalls == 0
    ensures var t := states[i + 1];
            if states[i].next == Architect then
              && t.plan == inputs[i].parsed && t.next == ScheduleTask
              && t.exec == InitializePlanExecution(inputs[i].parsed)
            else
              t.next == (if t.plan.Some? then CompleteTask else Reviewer) && t.exec == states[i].exec
  {
    var s, t, input := Moment(limits, inputs, states, i, i + 1);
    t := Step(s, limits, input);
  }

  lemma {:induction false} OtherNodesKeepPlan(s: RunState, limits: Limits, input: Input) returns (t: RunState)
    requires s.next != Architect
    ensures t == Step(s, limits, input) && t.plan == s.plan
  {
    t := Step(s, limits, input);
  }

  lemma {:induction false} UnfinishedArchitectKeepsPlan(s: RunState, limits: Limits, input: Input)
    returns (t: RunState)
    requires s.next == Architect
    ensures t == Step(s, limits, input)
    ensures t.budgetExceeded || input.message.toolCalls > 0 ==> t.plan == s.plan && t.exec == s.exec
  {
    t := Step(s, limits, input);
  }

  /** A plan is taken over from a finished Architect only, within the budget. */
  lemma {:induction false} PlansComeFromArchitects(
    limits: Limits, inputs: seq<Input>, states: seq<RunState>, i: nat)
    requires IsRun(limits, inputs, states) && i < |inputs| && states[i + 1].plan != states[i].plan
    ensures states[i].next == Architect && !states[i + 1].budgetExceeded && inputs[i].message.toolCalls == 0
    ensures states[i + 1].plan == inputs[i].parsed
  {
    var s, t, input := Moment(limits, inputs, states, i, i + 1);
    if s.next == Architect {
      t := UnfinishedArchitectKeepsPlan(s, limits, input);
      FinishedTurnMovesOn(limits, inputs, states, i);
    } else {
      t := OtherNodesKeepPlan(s, limits, input);
    }
  }

  lemma {:induction false} PlainStep(s: RunState, limits: Limits, input: Input) returns (t: RunState)
    requires Controlled(s) && (s.plan.None? ==> s.exec == INITIAL_EXECUTION.(planStatus := s.exec.planStatus))
    ensures t == Step(s, limits, input)
    ensures t.plan.None? ==> t.exec == INITIAL_EXECUTION.(planStatus := t.exec.planStatus)
  {
    t := Step(s, limits, input);
  }

  /** Without a plan no entry is ever started, written, completed or charged. */
  lemma {:induction false} PlainRunsExecuteNothing(
    limits: Limits, inputs: seq<Input>, states: seq<RunState>, n: nat)
    requires IsRun(limits, inputs, states) && n <= |inputs| && states[n].plan.None?
    ensures states[n].exec == INITIAL_EXECUTION.(planStatus := states[n].exec.planStatus)
  {
    if n > 0 {
      var s, t, input := Moment(limits, inputs, states, n - 1, n);
      if s.plan.None? {
        PlainRunsExecuteNothing(limits, inputs, states, n - 1);
      }
      t := PlainStep(s, limits, input);
    }
  }

  lemma {:induction false} SchedulingStep(s: RunState, limits: Limits, input: Input) returns (t: RunState)
    requires Controlled(s) && s.next == ScheduleTask
    ensures t == Step(s, limits, input)
    ensures s.plan.None? ==> t.next == Developer && t.exec == s.exec
    ensures s.plan.Some? ==>
              && (t.next == Developer <==> t.exec.active.Some?)
              && (t.next == Developer <==> s.exec.planStatus != PlanFailed && !Finished(s.plan.value, s.exec))
              && (t.next == Reviewer <==> s.exec.planStatus != PlanFailed && Finished(s.plan.value, s.exec))
              && (t.next == FinalizeBudgetFailure <==> s.exec.planStatus == PlanFailed && s.budgetExceeded)
              && (t.next == FinalizePlanFailure <==> s.exec.planStatus == PlanFailed && !s.budgetExceeded)
  {
    if s.plan.Some? {
      SchedulingIsExact(s.plan.value, s.exec);
      if s.exec.planStatus == PlanCompleted {
        CompletedPlanIsFinished(s.plan.value, s.exec);
      }
    }
    t := Step(s, limits, input);
  }

  /**
   Scheduling sends a run without a plan to the Developer; with one, to the Developer exactly while entries are
   left, to the Reviewer exactly when all are completed, and to the failure that caused it once the plan failed.
   */
  lemma {:induction false} SchedulingMovesOn(limits: Limits, inputs: seq<Input>, states: seq<RunState>, i: nat)
    requires IsRun(limits, inputs, states) && i < |inputs| && states[i].next == ScheduleTask
    ensures var (s, t) := (states[i], states[i + 1]);
            if s.plan.None? then t.next == Developer
            else t.next == if s.exec.planStatus == PlanFailed then
                             if s.budgetExceeded then FinalizeBudgetFailure else FinalizePlanFailure
                           else if Finished(s.plan.value, s.exec) then Reviewer
                           else Developer
    ensures states[i].plan.Some? ==> (states[i + 1].next == Developer <==> states[i + 1].exec.active.Some?)
  {
    var s, t, input := Moment(limits, inputs, states, i, i + 1);
    t := SchedulingStep(s, limits, input);
  }

  // ---------------------------------------------------------------- the Reviewer

  /** How often a node was executed in the first `n` steps. */
  function Visits(states: seq<RunState>, n: nat, node: Node): nat
    requires n <= |states|
  {
    if n == 0 then 0 else Visits(states, n - 1, node) + if states[n - 1].next == node then 1 else 0
  }

  lemma {:induction false} RetryStep(s: RunState, limits: Limits, input: Input) returns (t: RunState)
    ensures t == Step(s, limits, input)
    ensures t.retryCount == s.retryCount + if s.next == DeveloperRetry then 1 else 0
    ensures t.protocolErrors == s.protocolErrors + if s.next == ReviewerProtocolRetry then 1 else 0
  {
    t := Step(s, limits, input);
  }

  lemma {:induction false} RetriesAreCounted(limits: Limits, inputs: seq<Input>, states: seq<RunState>, n: nat)
    requires IsRun(limits, inputs, states) && n <= |inputs|
    ensures states[n].retryCount == Visits(states, n, DeveloperRetry)
    ensures states[n].protocolErrors == Visits(states, n, ReviewerProtocolRetry)
  {
    if n > 0 {
      RetriesAreCounted(limits, inputs, states, n - 1);
      var s, t, input := Moment(limits, inputs, states, n - 1, n);
      t := RetryStep(s, limits, input);
    }
  }

  /** The response claims success, does not also report a failure, and asks for nothing more. */
  predicate Accepts(m: Message) { m.toolCalls == 0 && m.marksSuccess && !m.marksFail }

  predicate Rejects(m: Message) { m.toolCalls == 0 && m.marksFail }

  /** Where a review leads that was answered within the budget. */
  predicate ReviewLeadsTo(m: Message, evidenceOk: bool, retries: nat, protocolErrors: nat, next: Node) {
    && (next == ReviewerTools <==> m.toolCalls > 0)
    && (next == FinalizeReviewSuccess <==> Accepts(m) && evidenceOk)
    && (next == DeveloperRetry <==> Rejects(m) && retries < 3)
    && (next == ReviewerProtocolRetry <==>
          m.toolCalls == 0 && !Rejects(m) && !(Accepts(m) && evidenceOk) && protocolErrors < 2)
    && (next in {ReviewerTools, FinalizeReviewSuccess, DeveloperRetry, ReviewerProtocolRetry, FinalizeReviewFailure})
  }

  lemma {:induction false} ReviewStep(s: RunState, limits: Limits, input: Input) returns (t: RunState)
    requires Controlled(s) && s.next == Reviewer
    ensures t == Step(s, limits, input)
    ensures if t.budgetExceeded then t.next == FinalizeBudgetFailure
            else ReviewLeadsTo(input.message, input.evidenceOk, s.retryCount, s.protocolErrors, t.next)
    ensures !t.budgetExceeded ==> t.last == input.message
  {
    t := Step(s, limits, input);
  }

  /**
   In every run the Reviewer's response decides what comes next: within the budget, success needs its
   marker without the failure marker and valid evidence; a failure reopens the work until it was reopened
   three times in the run; anything else is sent back until that was done twice; all else fails the run.
   */
  lemma {:induction false} ReviewIsFollowed(limits: Limits, inputs: seq<Input>, states: seq<RunState>, i: nat)
    requires IsRun(limits, inputs, states) && i < |inputs| && states[i].next == Reviewer
    ensures if states[i + 1].budgetExceeded then states[i + 1].next == FinalizeBudgetFailure
            else ReviewLeadsTo(inputs[i].message, inputs[i].evidenceOk, Visits(states, i, DeveloperRetry),
                               Visits(states, i, ReviewerProtocolRetry), states[i + 1].next)
  {
    RetriesAreCounted(limits, inputs, states, i);
    var s, t, input := Moment(limits, inputs, states, i, i + 1);
    t := ReviewStep(s, limits, input);
  }

  lemma {:induction false} OnlyReviewsReopen(s: RunState, limits: Limits, input: Input) returns (t: RunState)
    requires s.next != Reviewer
    ensures t == Step(s, limits, input) && t.next != DeveloperRetry
  {
    t := Step(s, limits, input);
  }

  lemma {:induction false} RejectionCameBefore(limits: Limits, inputs: seq<Input>, states: seq<RunState>, n: nat)
    requires IsRun(limits, inputs, states) && n <= |inputs| && states[n].next == DeveloperRetry
    ensures n > 0 && states[n - 1].next == Reviewer && Rejects(inputs[n - 1].message)
    ensures states[n].last == inputs[n - 1].message && states[n].exec == states[n - 1].exec
  {
    assert n > 0;
    var s, t, input := Moment(limits, inputs, states, n - 1, n);
    if s.next == Reviewer {
      t := ReviewStep(s, limits, input);
    } else {
      t := OnlyReviewsReopen(s, limits, input);
    }
  }

  lemma {:induction false} ReopeningStep(s: RunState, limits: Limits, input: Input) returns (t: RunState)
    requires s.next == DeveloperRetry
    ensures t == Step(s, limits, input) && t.plan == s.plan && t.next == ScheduleTask
    ensures s.plan.Some? ==> t.exec == Reopen(s.plan, s.exec, s.last.verdict)
  {
    t := Step(s, limits, input);
  }

  /**
   In every run a reopening follows the Reviewer's rejection, and takes back exactly the entries which that
   response names, or all of them if it names none of use, and what depends on them; then work goes on.
   */
  lemma {:induction false} RejectionReopens(
    limits: Limits, inputs: seq<Input>, states: seq<RunState>, i: nat, x: Graphs.TaskId)
    requires IsRun(limits, inputs, states) && i < |inputs| && states[i].next == DeveloperRetry
    requires states[i].plan.Some? && x in Plans.DepGraph(states[i].plan.value)
    ensures i > 0 && states[i - 1].next == Reviewer && Rejects(inputs[i - 1].message)
    ensures var (e, e') := (states[i].exec, states[i + 1].exec);
            var back := TakenBack(states[i].plan.value, inputs[i - 1].message.verdict, x);
            && states[i + 1].next == ScheduleTask
            && x in e.statuses && x in e'.statuses && e'.statuses[x] == (if back then Pending else e.statuses[x])
            && (x in e'.completed <==> x in e.completed && !back)
            && (x in e'.results <==> x in e.results && !back)
            && e'.retries == e.retries
  {
    RejectionCameBefore(limits, inputs, states, i);
    var s, t, input := Moment(limits, inputs, states, i, i + 1);
    t := ReopeningStep(s, limits, input);
    ReopeningIsExact(s.plan.value, s.exec, s.last.verdict, x);
  }

  // ---------------------------------------------------------------- what came before a success

  /** How the nodes after an accepted review are entered. */
  lemma {:induction false} EnteringStep(s: RunState, limits: Limits, input: Input) returns (t: RunState)
    requires Controlled(s) && s.next != Reviewer
    ensures t == Step(s, limits, input) && t.next != FinalizeReviewSuccess
    ensures t.next == PrepareWorkspaceApproval <==> s.next == FinalizeReviewSuccess
    ensures t.next == PrepareWorkspaceApproval ==> (t.reviewPassed <==> input.evidenceOk && s.last.marksSuccess)
    ensures t.next == ApplyWorkspace <==> s.next == PrepareWorkspaceApproval && input.evidenceOk && input.prepared
    ensures t.next == ApplyWorkspace ==> t.reviewPassed == s.reviewPassed
    ensures t.next == End ==> s.next in {ApplyWorkspace, CleanupWorkspace, End}
    ensures s.next == ApplyWorkspace ==> t.next == End && (t.reviewPassed <==> s.reviewPassed && input.applied)
    ensures s.next in {CleanupWorkspace, End} ==> t.next == End && t.reviewPassed == s.reviewPassed
    ensures t.next == CleanupWorkspace ==> !t.reviewPassed
  {
    t := Step(s, limits, input);
  }

  /** At step `i` the Reviewer accepted, within the budget and with valid evidence. */
  predicate AcceptedAt(inputs: seq<Input>, states: seq<RunState>, i: nat)
    requires i < |inputs| < |states|
  {
    && states[i].next == Reviewer && !states[i + 1].budgetExceeded
    && Accepts(inputs[i].message) && inputs[i].evidenceOk
  }

  lemma {:induction false} AcceptanceCameBefore(limits: Limits, inputs: seq<Input>, states: seq<RunState>, n: nat)
    requires IsRun(limits, inputs, states) && n <= |inputs| && states[n].next == FinalizeReviewSuccess
    ensures n >= 1 && AcceptedAt(inputs, states, n - 1) && states[n].last.marksSuccess
  {
    assert n > 0;
    var s, t, input := Moment(limits, inputs, states, n - 1, n);
    if s.next == Reviewer {
      t := ReviewStep(s, limits, input);
    } else {
      t := EnteringStep(s, limits, input);
    }
  }

  lemma {:induction false} ReviewNeverPrepares(s: RunState, limits: Limits, input: Input) returns (t: RunState)
    requires Controlled(s) && s.next == Reviewer
    ensures t == Step(s, limits, input)
    ensures t.next !in {PrepareWorkspaceApproval, ApplyWorkspace, CleanupWorkspace, End}
  {
    t := ReviewStep(s, limits, input);
  }

  lemma {:induction false} PreparationCameBefore(limits: Limits, inputs: seq<Input>, states: seq<RunState>, n: nat)
    requires IsRun(limits, inputs, states) && n <= |inputs| && states[n].next == PrepareWorkspaceApproval
    ensures n >= 2 && AcceptedAt(inputs, states, n - 2) && states[n - 1].next == FinalizeReviewSuccess
    ensures states[n].reviewPassed <==> inputs[n - 1].evidenceOk
  {
    assert n > 0;
    var s, t, input := Moment(limits, inputs, states, n - 1, n);
    if s.next == Reviewer {
      t := ReviewNeverPrepares(s, limits, input);
    } else {
      t := EnteringStep(s, limits, input);
      AcceptanceCameBefore(limits, inputs, states, n - 1);
    }
  }

  lemma {:induction false} ApplyCameBefore(limits: Limits, inputs: seq<Input>, states: seq<RunState>, n: nat)
    requires IsRun(limits, inputs, states) && n <= |inputs| && states[n].next == ApplyWorkspace
    ensures n >= 3 && AcceptedAt(inputs, states, n - 3) && states[n - 1].next == PrepareWorkspaceApproval
    ensures inputs[n - 1].evidenceOk && inputs[n - 1].prepared
    ensures states[n].reviewPassed <==> inputs[n - 2].evidenceOk
  {
    assert n > 0;
    var s, t, input := Moment(limits, inputs, states, n - 1, n);
    if s.next == Reviewer {
      t := ReviewNeverPrepares(s, limits, input);
    } else {
      t := EnteringStep(s, limits, input);
      PreparationCameBefore(limits, inputs, states, n - 1);
    }
  }

  /**
   In every run, the last response before a review is settled as successful, before the diff is prepared and
   before it is applied was the Reviewer's acceptance, with valid evidence and within the budget.
   */
  lemma {:induction false} OnlyAcceptedWorkGoesOn(limits: Limits, inputs: seq<Input>, states: seq<RunState>, n: nat)
    returns (i: nat)
    requires IsRun(limits, inputs, states) && n <= |inputs|
    requires states[n].next in {FinalizeReviewSuccess, PrepareWorkspaceApproval, ApplyWorkspace}
    ensures i < n <= i + 3 && AcceptedAt(inputs, states, i)
    ensures i + 1 <= n - 1 ==> states[i + 1].next == FinalizeReviewSuccess
    ensures i + 2 <= n - 1 ==> states[i + 2].next == PrepareWorkspaceApproval
    ensures states[n].next == ApplyWorkspace ==> inputs[n - 1].evidenceOk && inputs[n - 1].prepared
  {
    if states[n].next == FinalizeReviewSuccess {
      AcceptanceCameBefore(limits, inputs, states, n);
      i := n - 1;
    } else if states[n].next == PrepareWorkspaceApproval {
      PreparationCameBefore(limits, inputs, states, n);
      i := n - 2;
    } else {
      ApplyCameBefore(limits, inputs, states, n);
      PreparationCameBefore(limits, inputs, states, n - 1);
      i := n - 3;
    }
  }

  /** From step `i` on: an accepted review, evidence that still holds twice, and a diff that is built and applied. */
  predicate AppliedFrom(inputs: seq<Input>, states: seq<RunState>, i: nat)
    requires i + 3 < |inputs| < |states|
  {
    && AcceptedAt(inputs, states, i)
    && inputs[i + 1].evidenceOk
    && inputs[i + 2].evidenceOk && inputs[i + 2].prepared
    && inputs[i + 3].applied
  }

  lemma {:induction false} AppliedRunSucceeds(limits: Limits, inputs: seq<Input>, states: seq<RunState>, i: nat)
    requires IsRun(limits, inputs, states) && i + 3 < |inputs| && AppliedFrom(inputs, states, i)
    ensures states[i + 4].next == End && states[i + 4].reviewPassed
  {
    ReviewIsFollowed(limits, inputs, states, i);
    var s0, s1, input0 := Moment(limits, inputs, states, i, i + 1);
    s1 := ReviewStep(s0, limits, input0);
    var s1', s2, input1 := Moment(limits, inputs, states, i + 1, i + 2);
    s2 := EnteringStep(s1, limits, input1);
    var s2', s3, input2 := Moment(limits, inputs, states, i + 2, i + 3);
    s3 := EnteringStep(s2, limits, input2);
    var s3', s4, input3 := Moment(limits, inputs, states, i + 3, i + 4);
    s4 := EnteringStep(s3, limits, input3);
  }

  lemma {:induction false} EndStays(s: RunState, limits: Limits, input: Input)
    requires s.next == End
    ensures Step(s, limits, input) == s
  {
  }

  lemma {:induction false} EndIsKept(limits: Limits, inputs: seq<Input>, states: seq<RunState>, i: nat, n: nat)
    requires IsRun(limits, inputs, states) && i <= n <= |inputs| && states[i].next == End
    ensures states[n].next == End && states[n].reviewPassed == states[i].reviewPassed
  {
    if i < n {
      EndIsKept(limits, inputs, states, i, n - 1);
      assert Moves(limits, inputs, states, n - 1);
      EndStays(states[n - 1], limits, inputs[n - 1]);
    }
  }

  lemma {:induction false} SuccessWasApplied(limits: Limits, inputs: seq<Input>, states: seq<RunState>, n: nat)
    returns (i: nat)
    requires IsRun(limits, inputs, states) && n <= |inputs| && states[n].next == End && states[n].reviewPassed
    ensures i + 4 <= n && AppliedFrom(inputs, states, i)
  {
    assert n > 0;
    var s, t, input := Moment(limits, inputs, states, n - 1, n);
    if s.next == Reviewer {
      t := ReviewNeverPrepares(s, limits, input);
    } else {
      t := EnteringStep(s, limits, input);
    }
    if s.next == ApplyWorkspace {
      ApplyCameBefore(limits, inputs, states, n - 1);
      i := n - 4;
    } else if s.next == End {
      i := SuccessWasApplied(limits, inputs, states, n - 1);
    } else {
      CleanupIsNoSuccess(limits, inputs, states, n - 1);
    }
  }

  lemma {:induction false} CleanupIsNoSuccess(limits: Limits, inputs: seq<Input>, states: seq<RunState>, n: nat)
    requires IsRun(limits, inputs, states) && n <= |inputs| && states[n].next == CleanupWorkspace
    ensures !states[n].reviewPassed
  {
    assert n > 0;
    var s, t, input := Moment(limits, inputs, states, n - 1, n);
    if s.next == Reviewer {
      t := ReviewNeverPrepares(s, limits, input);
    } else {
      t := EnteringStep(s, limits, input);
    }
  }

  /**
   A run that has ended was successful exactly if the Reviewer accepted the work within the budget, the
   evidence was valid then and the two times it was looked at afterwards, and the diff was built, approved
   and applied.
   */
  lemma {:induction false} SuccessIffApplied(limits: Limits, inputs: seq<Input>, states: seq<RunState>)
    requires IsRun(limits, inputs, states) && states[|inputs|].next == End
    ensures states[|inputs|].reviewPassed <==> exists i | 0 <= i < |inputs| - 3 :: AppliedFrom(inputs, states, i)
  {
    if states[|inputs|].reviewPassed {
      var i := SuccessWasApplied(limits, inputs, states, |inputs|);
    }
    if i :| 0 <= i < |inputs| - 3 && AppliedFrom(inputs, states, i) {
      AppliedRunSucceeds(limits, inputs, states, i);
      EndIsKept(limits, inputs, states, i + 4, |inputs|);
    }
  }

  // ---------------------------------------------------------------- what came before a failure

  /** Some entry has failed for the third time. */
  ghost predicate SomeEntryExhausted(s: RunState) {
    s.plan.Some? && exists x | x in Plans.DepGraph(s.plan.value) ::
      x in s.exec.retries && s.exec.retries[x] == 3 && x in s.exec.statuses && s.exec.statuses[x] == Failed
  }

  /** A plan that failed within the budget has an entry that failed three times. */
  ghost predicate PlanFailureExplained(s: RunState) {
    (s.plan.Some? && s.exec.planStatus == PlanFailed && !s.budgetExceeded
     && s.next !in {FinalizeReviewFailure, CleanupWorkspace, End}) ==> SomeEntryExhausted(s)
  }

  lemma {:induction false} ClosingExhausts(tasks: seq<Plans.Task>, e: Execution, resultBuilds: bool)
    requires Invariant(tasks, e) && e.active.Some?
    ensures var e' := CompleteActive(Some(tasks), e, false, resultBuilds);
            e'.planStatus == PlanFailed ==>
              exists x | x in Plans.DepGraph(tasks) ::
                x in e'.retries && e'.retries[x] == 3 && x in e'.statuses && e'.statuses[x] == Failed
  {
    ActiveIsUnfinished(tasks, e);
    ClosingIsExact(tasks, e, false, resultBuilds);
    var id := e.active.value;
    assert ClosedAt(tasks, e, CompleteActive(Some(tasks), e, false, resultBuilds),
                    e.writeSucceeded && resultBuilds,
                    !(e.writeSucceeded && resultBuilds) && RetryCount(e, id) == 2, id);
  }

  lemma {:induction false} PlanFailureStep(s: RunState, limits: Limits, input: Input) returns (t: RunState)
    requires Controlled(s) && InputOk(input) && PlanFailureExplained(s)
    ensures t == Step(s, limits, input) && PlanFailureExplained(t)
  {
    t := Step(s, limits, input);
    if s.plan.Some? {
      match s.next {
        case ScheduleTask => SchedulingIsExact(s.plan.value, s.exec);
        case CompleteTask => if !s.budgetExceeded { ClosingExhausts(s.plan.value, s.exec, input.resultBuilds); }
        case _ =>
      }
    }
  }

  /** Where a run can be once its budget has failed, and when the other failing ends are entered. */
  predicate FailureLocated(s: RunState) {
    && (s.next == FinalizeBudgetFailure ==> s.budgetExceeded)
    && (s.budgetExceeded ==> s.next in {CompleteTask, ScheduleTask, FinalizeBudgetFailure, CleanupWorkspace, End})
    && (s.next == FinalizePlanFailure ==> !s.budgetExceeded && s.plan.Some? && s.exec.planStatus == PlanFailed)
    && (s.next == FinalizeReviewFailure ==> !s.budgetExceeded)
    && s.retryCount <= 3 && (s.next == DeveloperRetry ==> s.retryCount < 3)
    && s.protocolErrors <= 2 && (s.next == ReviewerProtocolRetry ==> s.protocolErrors < 2)
  }

  lemma {:induction false} AgentFailure(s: RunState, limits: Limits, input: Input)
    requires Located(s) && FailureLocated(s) && CallsModel(s.next)
    ensures FailureLocated(Step(s, limits, input))
  {
  }

  lemma {:induction false} ScheduleFailure(s: RunState, limits: Limits, input: Input)
    requires Controlled(s) && FailureLocated(s) && s.next == ScheduleTask
    ensures FailureLocated(Step(s, limits, input))
  {
    if s.plan.Some? {
      SchedulingIsExact(s.plan.value, s.exec);
    }
  }

  lemma {:induction false} OtherFailure(s: RunState, limits: Limits, input: Input)
    requires Located(s) && FailureLocated(s) && !CallsModel(s.next) && s.next != ScheduleTask
    ensures FailureLocated(Step(s, limits, input))
  {
  }

  lemma {:induction false} FailureStep(s: RunState, limits: Limits, input: Input)
    requires Controlled(s) && FailureLocated(s)
    ensures FailureLocated(Step(s, limits, input))
  {
    if CallsModel(s.next) {
      AgentFailure(s, limits, input);
    } else if s.next == ScheduleTask {
      ScheduleFailure(s, limits, input);
    } else {
      OtherFailure(s, limits, input);
    }
  }

  lemma {:induction false} FailuresAreExplained(limits: Limits, inputs: seq<Input>, states: seq<RunState>, n: nat)
    requires IsRun(limits, inputs, states) && n <= |inputs|
    ensures PlanFailureExplained(states[n]) && FailureLocated(states[n])
  {
    if n > 0 {
      FailuresAreExplained(limits, inputs, states, n - 1);
      var s, t, input := Moment(limits, inputs, states, n - 1, n);
      t := PlanFailureStep(s, limits, input);
      FailureStep(s, limits, input);
    }
  }

  lemma {:induction false} OnlyReviewsFailReviews(s: RunState, limits: Limits, input: Input) returns (t: RunState)
    requires Controlled(s) && s.next != Reviewer
    ensures t == Step(s, limits, input) && t.next != FinalizeReviewFailure
  {
    t := Step(s, limits, input);
  }

  /**
   Each failing end has its cause: the budget failed; or, within the budget, an entry failed for the third
   time; or the Reviewer rejected the work after three reopenings, or twice before gave no usable answer.
   */
  lemma {:induction false} EachFailureHasItsCause(limits: Limits, inputs: seq<Input>, states: seq<RunState>, n: nat)
    requires IsRun(limits, inputs, states) && n <= |inputs|
    ensures states[n].budgetExceeded ==>
              states[n].next in {CompleteTask, ScheduleTask, FinalizeBudgetFailure, CleanupWorkspace, End}
    ensures states[n].next == FinalizeBudgetFailure ==> states[n].budgetExceeded
    ensures states[n].next == FinalizePlanFailure ==> !states[n].budgetExceeded && SomeEntryExhausted(states[n])
    ensures states[n].next == FinalizeReviewFailure ==>
              && n > 0 && states[n - 1].next == Reviewer && !states[n].budgetExceeded
              && var m := inputs[n - 1].message;
                 && m.toolCalls == 0
                 && (if Rejects(m) then Visits(states, n - 1, DeveloperRetry) == 3
                     else !(Accepts(m) && inputs[n - 1].evidenceOk)
                          && Visits(states, n - 1, ReviewerProtocolRetry) == 2)
  {
    FailuresAreExplained(limits, inputs, states, n);
    if states[n].next == FinalizeReviewFailure {
      assert n > 0;
      var s, t, input := Moment(limits, inputs, states, n - 1, n);
      if s.next != Reviewer {
        t := OnlyReviewsFailReviews(s, limits, input);
      }
      FailuresAreExplained(limits, inputs, states, n - 1);
      RetriesAreCounted(limits, inputs, states, n - 1);
      ReviewIsFollowed(limits, inputs, states, n - 1);
    }
  }

  lemma {:induction false} FailingStep(s: RunState, limits: Limits, input: Input) returns (t: RunState)
    requires s.next in {FinalizeBudgetFailure, FinalizePlanFailure, FinalizeReviewFailure}
    ensures t == Step(s, limits, input)
    ensures t.next == CleanupWorkspace && !t.reviewPassed && t.last.marksFail && t.plan == s.plan
    ensures s.plan.Some? ==> t.exec == s.exec.(planStatus := PlanFailed)
    ensures s.plan.None? && s.next != FinalizePlanFailure ==> t.exec == s.exec
  {
    t := Step(s, limits, input);
  }

  /** A failing end reports failure, fails the plan if there is one, and leaves its entries as they are. */
  lemma {:induction false} FailuresFailThePlan(limits: Limits, inputs: seq<Input>, states: seq<RunState>, i: nat)
    requires IsRun(limits, inputs, states) && i < |inputs|
    requires states[i].next in {FinalizeBudgetFailure, FinalizePlanFailure, FinalizeReviewFailure}
    ensures var (s, t) := (states[i], states[i + 1]);
            && t.next == CleanupWorkspace && !t.reviewPassed && t.last.marksFail
            && t.exec == if s.plan.Some? then s.exec.(planStatus := PlanFailed) else s.exec
  {
    FailuresAreExplained(limits, inputs, states, i);
    var s, t, input := Moment(limits, inputs, states, i, i + 1);
    t := FailingStep(s, limits, input);
  }
}
