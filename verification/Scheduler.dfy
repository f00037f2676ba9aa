/**
 The task scheduler (backend/agent/scheduler.py): which task runs next, how an attempt is closed,
 and what the Reviewer may reopen. Messages, transition events and failure texts are not modelled.
 */
module Scheduler {
  import opened Common
  import opened Graphs
  import opened Plans

  const MAX_TASK_RETRIES: nat := 3

  datatype TaskStatus = Pending | Running | Completed | Failed | Blocked
  datatype PlanStatus = PlanPending | PlanRunning | PlanCompleted | PlanFailed | Fallback
  datatype FailureKind = DependencyContextError | BudgetExceeded | TaskIncomplete
  datatype TaskFailure = TaskFailure(kind: FailureKind, retryCount: nat)

  /** The execution control plane kept in the graph state. */
  datatype Execution = Execution(
    statuses: map<TaskId, TaskStatus>,
    active: Option<TaskId>,
    completed: seq<TaskId>,
    failures: map<TaskId, TaskFailure>,
    retries: map<TaskId, nat>,
    results: set<TaskId>,
    planStatus: PlanStatus,
    writeSucceeded: bool)

  type Plan = Option<seq<Task>>

  // ---------------------------------------------------------------- initialize_plan_execution

  function InitializePlanExecution(plan: Plan): Execution {
    match plan
    case None => Execution(map[], None, [], map[], map[], {}, Fallback, false)
    case Some(tasks) =>
      Execution(
        map x | x in ById(tasks) :: Pending, None, [], map[],
        map x | x in ById(tasks) :: 0, {}, PlanPending, false)
  }

  // ---------------------------------------------------------------- schedule_next_task_node

  predicate Ready(t: Task, e: Execution) {
    && t.id in e.statuses && e.statuses[t.id] in {Pending, Failed}
    && (if t.id in e.retries then e.retries[t.id] else 0) < MAX_TASK_RETRIES
    && forall d | d in t.deps :: d in e.completed
  }

  /** The first ready task at or after position `i`. */
  function FirstReady(tasks: seq<Task>, e: Execution, i: nat): Option<TaskId>
    requires i <= |tasks|
    decreases |tasks| - i
  {
    if i == |tasks| then None
    else if Ready(tasks[i], e) then Some(tasks[i].id)
    else FirstReady(tasks, e, i + 1)
  }

  function BlockPending(statuses: map<TaskId, TaskStatus>, ids: seq<TaskId>): map<TaskId, TaskStatus> {
    map x | x in statuses :: if x in ids && statuses[x] == Pending then Blocked else statuses[x]
  }

  function Start(e: Execution, id: TaskId): Execution {
    e.(statuses := e.statuses[id := Running], active := Some(id), planStatus := PlanRunning, writeSucceeded := false)
  }

  function ScheduleNext(plan: Plan, e: Execution): Execution {
    if plan.None? || e.planStatus == Fallback then e
    else if e.planStatus in {PlanCompleted, PlanFailed} then e.(active := None)
    else if |DepSet(e.completed)| == |plan.value| then e.(active := None, planStatus := PlanCompleted)
    else
      match FirstReady(plan.value, e, 0)
      case Some(id) => Start(e, id)
      case None => e.(statuses := BlockPending(e.statuses, Ids(plan.value)), active := None, planStatus := PlanFailed)
  }

  method ScheduleNextTaskNode(plan: Plan, e: Execution) returns (e': Execution)
    ensures e' == ScheduleNext(plan, e)
  {
    if plan.None? || e.planStatus == Fallback {
      return e;
    }
    if e.planStatus in {PlanCompleted, PlanFailed} {
      return e.(active := None);
    }
    var completed := DepSet(e.completed);
    if |completed| == |plan.value| {
      return e.(active := None, planStatus := PlanCompleted);
    }
    for i := 0 to |plan.value|
      invariant FirstReady(plan.value, e, 0) == FirstReady(plan.value, e, i)
    {
      var task := plan.value[i];
      var retryCount := if task.id in e.retries then e.retries[task.id] else 0;
      if task.id !in e.statuses || e.statuses[task.id] !in {Pending, Failed} || retryCount >= MAX_TASK_RETRIES {
        continue;
      }
      if forall d | d in task.deps :: d in completed {
        return Start(e, task.id);
      }
    }
    e' := e.(statuses := BlockPending(e.statuses, Ids(plan.value)), active := None, planStatus := PlanFailed);
  }

  // ---------------------------------------------------------------- complete_active_task_node

  function RetryCount(e: Execution, id: TaskId): nat {
    if id in e.retries then e.retries[id] else 0
  }

  /** Written by the tool, not cut off by the budget, and its dependency result could be built. */
  predicate AttemptSucceeds(e: Execution, budgetExceeded: bool, resultBuilds: bool) {
    e.writeSucceeded && !budgetExceeded && resultBuilds
  }

  function FailureOf(e: Execution, id: TaskId, budgetExceeded: bool): TaskFailure {
    TaskFailure(
      if e.writeSucceeded && !budgetExceeded then DependencyContextError
      else if budgetExceeded then BudgetExceeded
      else TaskIncomplete,
      RetryCount(e, id) + 1)
  }

  function BlockDownstream(statuses: map<TaskId, TaskStatus>, ids: seq<TaskId>, root: TaskId): map<TaskId, TaskStatus> {
    map x | x in statuses :: if x in ids && x != root && statuses[x] != Failed then Blocked else statuses[x]
  }

  ghost function CompleteActive(plan: Plan, e: Execution, budgetExceeded: bool, resultBuilds: bool): Execution {
    if plan.None? || e.active.None? then e
    else
      var id := e.active.value;
      if AttemptSucceeds(e, budgetExceeded, resultBuilds) then
        var completed := if id in e.completed then e.completed else e.completed + [id];
        e.(statuses := e.statuses[id := Completed], active := None, completed := completed,
           failures := e.failures - {id}, results := e.results + {id},
           planStatus := if |completed| == |plan.value| then PlanCompleted else PlanRunning,
           writeSucceeded := false)
      else
        var closed := e.(
          statuses := e.statuses[id := Failed], active := None,
          failures := e.failures[id := FailureOf(e, id, budgetExceeded)],
          retries := e.retries[id := RetryCount(e, id) + 1],
          planStatus := PlanRunning, writeSucceeded := false);
        if budgetExceeded || RetryCount(e, id) + 1 >= MAX_TASK_RETRIES then
          closed.(statuses := BlockDownstream(closed.statuses, Downstream(plan.value, {id}), id),
                  planStatus := PlanFailed)
        else closed
  }

  method MarkBlocked(statuses: map<TaskId, TaskStatus>, ids: seq<TaskId>, root: TaskId)
    returns (marked: map<TaskId, TaskStatus>)
    requires forall x | x in ids :: x in statuses
    ensures marked == BlockDownstream(statuses, ids, root)
  {
    marked := statuses;
    for i := 0 to |ids|
      invariant marked == BlockDownstream(statuses, ids[..i], root)
    {
      assert ids[..i + 1] == ids[..i] + [ids[i]];
      assert ids[i] in ids;
      if ids[i] != root && marked[ids[i]] != Failed {
        marked := marked[ids[i] := Blocked];
      }
    }
    assert ids[..|ids|] == ids;
  }

  method CompleteActiveTaskNode(plan: Plan, e: Execution, budgetExceeded: bool, resultBuilds: bool)
    returns (e': Execution)
    requires plan.Some? ==> WellFormed(plan.value) && DepSet(Ids(plan.value)) <= e.statuses.Keys
    ensures e' == CompleteActive(plan, e, budgetExceeded, resultBuilds)
  {
    if plan.None? || e.active.None? {
      return e;
    }
    var id := e.active.value;
    var statuses := e.statuses;
    if e.writeSucceeded && !budgetExceeded && resultBuilds {
      var completed := e.completed;
      if id !in completed {
        completed := completed + [id];
      }
      return e.(statuses := statuses[id := Completed], active := None, completed := completed,
                failures := e.failures - {id}, results := e.results + {id},
                planStatus := if |completed| == |plan.value| then PlanCompleted else PlanRunning,
                writeSucceeded := false);
    }
    var retryCount := RetryCount(e, id) + 1;
    var failure := FailureOf(e, id, budgetExceeded);
    statuses := statuses[id := Failed];
    var exhausted := budgetExceeded || retryCount >= MAX_TASK_RETRIES;
    e' := e.(statuses := statuses, active := None, failures := e.failures[id := failure],
             retries := e.retries[id := retryCount], planStatus := PlanRunning, writeSucceeded := false);
    if exhausted {
      var affected := DownstreamTaskIds(plan.value, {id});
      SelectMembers(Ids(plan.value), AffectedSet(DepGraph(plan.value), {id}));
      statuses := MarkBlocked(statuses, affected, id);
      e' := e'.(statuses := statuses, planStatus := PlanFailed);
    }
  }

  // ---------------------------------------------------------------- reopen_tasks_after_review

  /** An absent verdict, or one naming a task outside the plan, fails every task. */
  function FailedIds(tasks: seq<Task>, verdict: Option<seq<TaskId>>): set<TaskId> {
    if verdict.None? || !(DepSet(verdict.value) <= DepSet(Ids(tasks))) then DepSet(Ids(tasks))
    else DepSet(verdict.value)
  }

  function SetPending(statuses: map<TaskId, TaskStatus>, ids: seq<TaskId>): map<TaskId, TaskStatus> {
    map x | x in statuses :: if x in ids then Pending else statuses[x]
  }

  function Without(ids: seq<TaskId>, removed: seq<TaskId>): seq<TaskId> {
    if ids == [] then []
    else Without(ids[..|ids| - 1], removed) + if ids[|ids| - 1] in removed then [] else [ids[|ids| - 1]]
  }

  ghost function Reopen(plan: Plan, e: Execution, verdict: Option<seq<TaskId>>): Execution {
    if plan.None? || e.planStatus == Fallback then e
    else
      var reopened := Downstream(plan.value, FailedIds(plan.value, verdict));
      e.(statuses := SetPending(e.statuses, reopened), active := None,
         completed := Without(e.completed, reopened),
         failures := e.failures - DepSet(reopened), results := e.results - DepSet(reopened),
         planStatus := PlanRunning, writeSucceeded := false)
  }

  lemma {:induction false} ReopenNext(e: Execution, ids: seq<TaskId>, i: nat, n: nat)
    requires n == i + 1 <= |ids| && ids[i] in e.statuses
    ensures SetPending(e.statuses, ids[..n]) == SetPending(e.statuses, ids[..i])[ids[i] := Pending]
    ensures e.failures - DepSet(ids[..n]) == e.failures - DepSet(ids[..i]) - {ids[i]}
    ensures e.results - DepSet(ids[..n]) == e.results - DepSet(ids[..i]) - {ids[i]}
  {
    assert ids[..n] == ids[..i] + [ids[i]];
  }

  method ReopenTasksAfterReview(plan: Plan, e: Execution, verdict: Option<seq<TaskId>>) returns (e': Execution)
    requires plan.Some? ==> WellFormed(plan.value) && DepSet(Ids(plan.value)) <= e.statuses.Keys
    ensures e' == Reopen(plan, e, verdict)
  {
    if plan.None? || e.planStatus == Fallback {
      return e;
    }
    var reopened := DownstreamTaskIds(plan.value, FailedIds(plan.value, verdict));
    SelectMembers(Ids(plan.value), AffectedSet(DepGraph(plan.value), FailedIds(plan.value, verdict)));
    var statuses, failures, results := e.statuses, e.failures, e.results;
    for i := 0 to |reopened|
      invariant statuses == SetPending(e.statuses, reopened[..i])
      invariant failures == e.failures - DepSet(reopened[..i])
      invariant results == e.results - DepSet(reopened[..i])
    {
      assert reopened[i] in reopened;
      ReopenNext(e, reopened, i, i + 1);
      statuses := statuses[reopened[i] := Pending];
      failures := failures - {reopened[i]};
      results := results - {reopened[i]};
    }
    assert reopened[..|reopened|] == reopened;
    e' := e.(statuses := statuses, active := None, completed := Without(e.completed, reopened),
             failures := failures, results := results, planStatus := PlanRunning, writeSucceeded := false);
  }
}
