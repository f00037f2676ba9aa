/**
 What each scheduler operation does to every entry of the plan, and why: the entry that is started, the
 entries that are completed, charged, failed, blocked or taken back are exactly the ones named here.
 */
module SchedulerExactness {
  import opened Common
  import opened Graphs
  import opened Plans
  import opened Scheduler
  import opened SchedulerInvariant

  /** A fresh plan waits: no entry was started, charged or completed. Without a plan the run falls back. */
  lemma {:induction false} FreshPlanWaits(plan: Plan, x: TaskId)
    ensures var e := InitializePlanExecution(plan);
            && e.active.None? && e.completed == [] && e.failures == map[] && e.results == {} && !e.writeSucceeded
            && (plan.None? <==> e.planStatus == Fallback) && (plan.Some? <==> e.planStatus == PlanPending)
            && (plan.Some? ==>
                  && (x in e.statuses <==> x in DepGraph(plan.value)) && (x in e.retries <==> x in DepGraph(plan.value))
                  && (x in e.statuses ==> e.statuses[x] == Pending) && (x in e.retries ==> e.retries[x] == 0))
  {
    if plan.Some? {
      SameEntries(plan.value);
    }
  }

  lemma {:induction false} SameEntries(tasks: seq<Task>)
    ensures ById(tasks).Keys == DepGraph(tasks).Keys
  {
    if tasks != [] {
      SameEntries(tasks[..|tasks| - 1]);
    }
  }

  // ---------------------------------------------------------------- starting

  /** The entry may be started: it waits or has failed less than three times, and all it needs is completed. */
  ghost predicate Startable(tasks: seq<Task>, e: Execution, k: nat)
    requires k < |tasks|
  {
    var x := tasks[k].id;
    && x in e.statuses && x in e.retries
    && (e.statuses[x] == Pending || e.statuses[x] == Failed) && e.retries[x] < 3
    && forall d | d in tasks[k].deps :: d in e.statuses && e.statuses[d] == Completed
  }

  lemma {:induction false} StartableIsReady(tasks: seq<Task>, e: Execution, k: nat)
    requires Invariant(tasks, e) && k < |tasks|
    ensures Startable(tasks, e, k) <==> Ready(tasks[k], e)
  {
    TaskInGraph(tasks, k);
    WellFormedIsClosed(tasks);
    assert TaskOk(DepGraph(tasks), e, tasks[k].id);
    forall d | d in tasks[k].deps ensures d in e.statuses && (e.statuses[d] == Completed <==> d in e.completed) {
      assert d in DepGraph(tasks)[tasks[k].id];
      assert TaskOk(DepGraph(tasks), e, d);
    }
  }

  /**
   In a live plan with entries left, scheduling starts the first entry in plan order that may be started,
   marks it and no other one as running, and forgets what the previous attempt wrote; otherwise it starts
   nothing and changes no entry.
   */
  lemma {:induction false} SchedulingIsExact(tasks: seq<Task>, e: Execution)
    requires Invariant(tasks, e) && e.active.None?
    ensures var e' := ScheduleNext(Some(tasks), e);
            && e'.completed == e.completed && e'.failures == e.failures && e'.retries == e.retries
            && e'.results == e.results
            && (if e.planStatus in {PlanPending, PlanRunning} && !Finished(tasks, e) then
                  exists k: nat | k < |tasks| ::
                    && Startable(tasks, e, k) && (forall j: nat | j < k :: !Startable(tasks, e, j))
                    && e'.active == Some(tasks[k].id) && e'.statuses == e.statuses[tasks[k].id := Running]
                    && e'.planStatus == PlanRunning && !e'.writeSucceeded
                else
                  && e'.active.None? && e'.statuses == e.statuses
                  && e'.planStatus == if e.planStatus == PlanFailed then PlanFailed else PlanCompleted)
  {
    CompletedWithinPlan(tasks, e);
    FinishedIffCounted(tasks, e);
    if e.planStatus in {PlanPending, PlanRunning} && !Finished(tasks, e) {
      ReadyTaskExists(tasks, e);
      FirstReadyIsReady(tasks, e, 0);
      forall k: nat | k < |tasks| ensures Startable(tasks, e, k) <==> Ready(tasks[k], e) {
        StartableIsReady(tasks, e, k);
      }
    }
  }

  lemma {:induction false} FinishedIffCounted(tasks: seq<Task>, e: Execution)
    requires Invariant(tasks, e)
    ensures Finished(tasks, e) <==> |e.completed| == |tasks|
  {
    CompletedWithinPlan(tasks, e);
    forall x | x in DepGraph(tasks)
      ensures x in e.statuses && (e.statuses[x] == Completed <==> x in e.completed)
    {
      assert TaskOk(DepGraph(tasks), e, x);
    }
  }

  /** No entry of the plan waits or has failed with retries left and everything it needs on the completed list. */
  ghost predicate NothingCanStart(tasks: seq<Task>, e: Execution) {
    forall k | 0 <= k < |tasks| ::
      var x := tasks[k].id;
      && (x in e.statuses && (e.statuses[x] == Pending || e.statuses[x] == Failed) ==>
            || (x in e.retries && e.retries[x] >= 3)
            || exists d | d in tasks[k].deps :: d !in e.completed)
  }

  /**
   Whatever state the plan is in: when a live one has entries left but nothing is ready, exactly the entries
   that still wait are blocked, nothing starts, and the plan has failed.
   */
  lemma {:induction false} DeadEndBlocksWhatWaits(tasks: seq<Task>, e: Execution)
    requires DistinctIds(tasks) && e.planStatus in {PlanPending, PlanRunning} && NothingCanStart(tasks, e)
    requires |DepSet(e.completed)| != |tasks|
    ensures var e' := ScheduleNext(Some(tasks), e);
            && e'.active.None? && e'.planStatus == PlanFailed && e'.statuses.Keys == e.statuses.Keys
            && e' == e.(statuses := e'.statuses, active := None, planStatus := PlanFailed)
            && forall x | x in e.statuses ::
                 e'.statuses[x] == if x in DepGraph(tasks) && e.statuses[x] == Pending then Blocked else e.statuses[x]
  {
    FirstReadyIsReady(tasks, e, 0);
    GraphKeys(tasks);
    forall x ensures x in Ids(tasks) <==> x in DepGraph(tasks) {
      assert x in DepSet(Ids(tasks)) <==> x in Ids(tasks);
    }
  }

  // ---------------------------------------------------------------- closing an attempt

  /** Why an attempt counts as failed. */
  function FailureCause(wrote: bool, budgetExceeded: bool): FailureKind {
    if budgetExceeded then BudgetExceeded
    else if wrote then DependencyContextError
    else TaskIncomplete
  }

  ghost predicate ClosedAt(tasks: seq<Task>, e: Execution, e': Execution, done: bool, exhausted: bool, x: TaskId)
    requires Invariant(tasks, e) && e.active.Some? && x in DepGraph(tasks)
  {
    var id := e.active.value;
    && x in e.statuses && x in e'.statuses && x in e.retries && x in e'.retries
    && e'.statuses[x] == (if x == id then if done then Completed else Failed
                          else if exhausted && Reaches(DepGraph(tasks), id, x) && e.statuses[x] != Failed then Blocked
                          else e.statuses[x])
    && e'.retries[x] == e.retries[x] + (if x == id && !done then 1 else 0)
    && (x in e'.results <==> x in e.results || (x == id && done))
    && (x != id ==> (x in e'.failures <==> x in e.failures))
    && (x != id && x in e.failures ==> e'.failures[x] == e.failures[x])
  }

  /** The entries that a failure blocks when it exhausts the plan. */
  lemma {:induction false} DownstreamIff(tasks: seq<Task>, id: TaskId, x: TaskId)
    requires ValidPlan(tasks) && x in DepGraph(tasks)
    ensures x in Downstream(tasks, {id}) <==> Reaches(DepGraph(tasks), id, x)
  {
    GraphKeys(tasks);
    assert x in DepSet(Ids(tasks));
    SelectMembers(Ids(tasks), AffectedSet(DepGraph(tasks), {id}));
    if Reaches(DepGraph(tasks), id, x) {
      assert Affected(DepGraph(tasks), {id}, x);
    }
  }

  lemma {:induction false} ClosingAt(
    tasks: seq<Task>, e: Execution, budgetExceeded: bool, resultBuilds: bool, x: TaskId)
    requires Invariant(tasks, e) && e.active.Some? && x in DepGraph(tasks)
    ensures var done := e.writeSucceeded && !budgetExceeded && resultBuilds;
            var exhausted := !done && (budgetExceeded || RetryCount(e, e.active.value) == 2);
            ClosedAt(tasks, e, CompleteActive(Some(tasks), e, budgetExceeded, resultBuilds), done, exhausted, x)
  {
    var g := DepGraph(tasks);
    var id := e.active.value;
    ActiveIsUnfinished(tasks, e);
    DownstreamIff(tasks, id, x);
    assert TaskOk(g, e, x) && TaskOk(g, e, id);
  }

  /**
   Closing an attempt, entry by entry. The active entry is completed, and its result recorded, exactly if
   the last write of the attempt succeeded, the budget held and the result could be built. Otherwise it
   has failed, exactly its own count of failures grows, by one, and the failure names the missing
   condition; only a failure that exhausts the budget or the third one blocks, and then exactly what
   depends on the entry and has not failed itself.
   */
  lemma {:induction false} ClosingIsExact(tasks: seq<Task>, e: Execution, budgetExceeded: bool, resultBuilds: bool)
    requires Invariant(tasks, e) && e.active.Some?
    ensures var e' := CompleteActive(Some(tasks), e, budgetExceeded, resultBuilds);
            var id := e.active.value;
            var done := e.writeSucceeded && !budgetExceeded && resultBuilds;
            var exhausted := !done && (budgetExceeded || RetryCount(e, id) == 2);
            && e'.completed == (if done then e.completed + [id] else e.completed)
            && (forall x | x in DepGraph(tasks) :: ClosedAt(tasks, e, e', done, exhausted, x))
            && (id in e'.failures <==> !done)
            && (!done ==> e'.failures[id] == TaskFailure(FailureCause(e.writeSucceeded, budgetExceeded),
                                                         RetryCount(e, id) + 1))
            && e'.active.None? && !e'.writeSucceeded
            && e'.planStatus == (if exhausted then PlanFailed
                                 else if Finished(tasks, e') then PlanCompleted
                                 else PlanRunning)
  {
    var e' := CompleteActive(Some(tasks), e, budgetExceeded, resultBuilds);
    ActiveIsUnfinished(tasks, e);
    forall x | x in DepGraph(tasks)
      ensures var done := e.writeSucceeded && !budgetExceeded && resultBuilds;
              ClosedAt(tasks, e, e', done, !done && (budgetExceeded || RetryCount(e, e.active.value) == 2), x)
    {
      ClosingAt(tasks, e, budgetExceeded, resultBuilds, x);
    }
    CompleteKeepsInvariant(tasks, e, budgetExceeded, resultBuilds);
    FinishedIffCounted(tasks, e');
  }

  // ---------------------------------------------------------------- reopening

  /** The Reviewer named entries of this plan; anything else fails every entry. */
  predicate Usable(tasks: seq<Task>, verdict: Option<seq<TaskId>>) {
    verdict.Some? && forall v | v in verdict.value :: v in DepGraph(tasks)
  }

  ghost predicate TakenBack(tasks: seq<Task>, verdict: Option<seq<TaskId>>, x: TaskId) {
    exists v | v in DepGraph(tasks) ::
      (Usable(tasks, verdict) ==> v in verdict.value) && Reaches(DepGraph(tasks), v, x)
  }

  lemma {:induction false} TakenBackIsAffected(tasks: seq<Task>, verdict: Option<seq<TaskId>>, x: TaskId)
    requires ValidPlan(tasks)
    ensures TakenBack(tasks, verdict, x) <==> Affected(DepGraph(tasks), FailedIds(tasks, verdict), x)
  {
    GraphKeys(tasks);
    assert DepSet(Ids(tasks)) == DepGraph(tasks).Keys;
    if verdict.Some? {
      assert Usable(tasks, verdict) <==> DepSet(verdict.value) <= DepSet(Ids(tasks));
    }
    if Affected(DepGraph(tasks), FailedIds(tasks, verdict), x) {
      var v :| v in FailedIds(tasks, verdict) && Reaches(DepGraph(tasks), v, x);
    }
  }

  /**
   Reopening takes back exactly the entries that a usable verdict names, or all of them without one, and
   what depends on them: they wait again, without result and without failure. All others, and every
   count of failures, stay as they were, and the plan runs again with nothing active.
   */
  lemma {:induction false} ReopeningIsExact(tasks: seq<Task>, e: Execution, verdict: Option<seq<TaskId>>, x: TaskId)
    requires Invariant(tasks, e) && x in DepGraph(tasks)
    ensures var e' := Reopen(Some(tasks), e, verdict);
            var back := TakenBack(tasks, verdict, x);
            && x in e.statuses && x in e'.statuses && e'.statuses[x] == (if back then Pending else e.statuses[x])
            && (x in e'.completed <==> x in e.completed && !back)
            && (x in e'.results <==> x in e.results && !back)
            && (x in e'.failures <==> x in e.failures && !back)
            && (x in e'.failures ==> e'.failures[x] == e.failures[x])
            && e'.retries == e.retries && e'.active.None? && e'.planStatus == PlanRunning && !e'.writeSucceeded
  {
    TakenBackIsAffected(tasks, verdict, x);
    ReopenIsExact(tasks, e, verdict, x);
    GraphKeys(tasks);
    assert TaskOk(DepGraph(tasks), e, x);
    SelectMembers(Ids(tasks), AffectedSet(DepGraph(tasks), FailedIds(tasks, verdict)));
  }
}
