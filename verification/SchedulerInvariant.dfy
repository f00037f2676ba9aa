/**
 What every scheduler operation keeps, and what follows: progress, no demotion of finished work,
 exact reopening, completed reading authority.
 */
module SchedulerInvariant {
  import opened Common
  import opened Graphs
  import opened Plans
  import opened Scheduler

  ghost predicate AllDone(s: set<TaskId>, completed: seq<TaskId>) {
    forall d | d in s :: d in completed
  }

  ghost predicate TaskOk(g: Graph, e: Execution, x: TaskId) {
    if x in g then
      && x in e.statuses && x in e.retries
      && (e.statuses[x] == Completed <==> x in e.completed)
      && (x in e.results <==> x in e.completed)
      && (e.statuses[x] == Running <==> e.active == Some(x))
      && (x in e.completed || e.active == Some(x) ==> AllDone(g[x], e.completed))
      && e.retries[x] <= MAX_TASK_RETRIES
      && (e.planStatus != PlanFailed ==> e.retries[x] < MAX_TASK_RETRIES && e.statuses[x] != Blocked)
    else
      x !in e.statuses && x !in e.retries && x !in e.completed && x !in e.results && e.active != Some(x)
  }

  /** Holds in every state of a run that executes a plan. */
  ghost predicate Invariant(tasks: seq<Task>, e: Execution) {
    && ValidPlan(tasks)
    && NoDuplicates(e.completed)
    && (forall x :: TaskOk(DepGraph(tasks), e, x))
    && e.planStatus != Fallback
    && (e.planStatus in {PlanCompleted, PlanFailed} ==> e.active.None?)
    && (e.planStatus == PlanCompleted ==> |e.completed| == |tasks|)
  }

  // ---------------------------------------------------------------- counting finished tasks

  lemma {:induction false} CompletedWithinPlan(tasks: seq<Task>, e: Execution)
    requires ValidPlan(tasks) && NoDuplicates(e.completed) && forall x :: TaskOk(DepGraph(tasks), e, x)
    ensures |DepSet(e.completed)| == |e.completed| <= |tasks|
    ensures |e.completed| == |tasks| <==> forall x | x in DepGraph(tasks) :: x in e.completed
  {
    var g := DepGraph(tasks);
    GraphKeys(tasks);
    DepSetSize(e.completed);
    forall x | x in e.completed ensures x in g.Keys {
      assert TaskOk(g, e, x);
    }
    DistinctElementsFit(e.completed, g.Keys);
    assert |g.Keys - DepSet(e.completed)| == |tasks| - |e.completed|;
    if |e.completed| == |tasks| {
      forall x | x in g ensures x in e.completed {
        assert x !in g.Keys - DepSet(e.completed);
      }
    } else {
      var x :| x in g.Keys - DepSet(e.completed);
    }
  }

  // ---------------------------------------------------------------- the invariant is kept

  lemma {:induction false} InitialInvariant(tasks: seq<Task>)
    requires ValidPlan(tasks)
    ensures Invariant(tasks, InitializePlanExecution(Some(tasks)))
  {
    GraphKeys(tasks);
    forall x ensures TaskOk(DepGraph(tasks), InitializePlanExecution(Some(tasks)), x) {
    }
  }

  lemma {:induction false} FirstReadyIsReady(tasks: seq<Task>, e: Execution, i: nat)
    requires DistinctIds(tasks) && i <= |tasks|
    ensures var first := FirstReady(tasks, e, i);
            match first
            case None => forall k | i <= k < |tasks| :: !Ready(tasks[k], e)
            case Some(id) => exists k | i <= k < |tasks| ::
                               tasks[k].id == id && Ready(tasks[k], e) && forall j | i <= j < k :: !Ready(tasks[j], e)
    decreases |tasks| - i
  {
    if i < |tasks| && !Ready(tasks[i], e) {
      FirstReadyIsReady(tasks, e, i + 1);
    }
  }

  /** An unfinished live plan always has a ready task: nothing can wait for itself. */
  lemma {:induction false} ReadyTaskExists(tasks: seq<Task>, e: Execution)
    requires Invariant(tasks, e) && e.active.None? && e.planStatus in {PlanPending, PlanRunning}
    requires |DepSet(e.completed)| != |tasks|
    ensures FirstReady(tasks, e, 0).Some?
  {
    var g := DepGraph(tasks);
    WellFormedIsClosed(tasks);
    CompletedWithinPlan(tasks, e);
    var unfinished := set x | x in g && x !in e.completed;
    var missing :| missing in g && missing !in e.completed;
    assert missing in unfinished;
    var x := FirstAmong(g, unfinished);
    var i := GraphTask(tasks, x);
    assert TaskOk(g, e, x);
    forall d | d in tasks[i].deps ensures d in e.completed {
      assert d in g[x] && d !in g[x] * unfinished && d in g;
    }
    assert Ready(tasks[i], e);
    FirstReadyIsReady(tasks, e, 0);
  }

  lemma {:induction false} StartKeepsInvariant(tasks: seq<Task>, e: Execution, id: TaskId)
    requires Invariant(tasks, e) && e.active.None? && e.planStatus in {PlanPending, PlanRunning}
    requires FirstReady(tasks, e, 0) == Some(id)
    ensures Invariant(tasks, Start(e, id))
  {
    var g := DepGraph(tasks);
    FirstReadyIsReady(tasks, e, 0);
    var k :| 0 <= k < |tasks| && tasks[k].id == id && Ready(tasks[k], e);
    TaskInGraph(tasks, k);
    forall x ensures TaskOk(g, Start(e, id), x) {
      assert TaskOk(g, e, x);
    }
  }

  /** Scheduling keeps the invariant, and never reaches the branch that blocks the rest of the plan. */
  lemma {:induction false} ScheduleKeepsInvariant(tasks: seq<Task>, e: Execution)
    requires Invariant(tasks, e) && e.active.None?
    ensures Invariant(tasks, ScheduleNext(Some(tasks), e))
    ensures var e' := ScheduleNext(Some(tasks), e);
            && e'.completed == e.completed && e'.retries == e.retries && e'.statuses.Keys == e.statuses.Keys
            && (e'.planStatus == PlanFailed <==> e.planStatus == PlanFailed)
            && (e'.active.Some? <==> e.planStatus in {PlanPending, PlanRunning} && |e.completed| != |tasks|)
            && (e'.planStatus in {PlanPending, PlanRunning} ==> e'.active.Some?)
  {
    var g := DepGraph(tasks);
    CompletedWithinPlan(tasks, e);
    if e.planStatus in {PlanPending, PlanRunning} {
      if |e.completed| == |tasks| {
        forall x ensures TaskOk(g, ScheduleNext(Some(tasks), e), x) {
          assert TaskOk(g, e, x);
        }
      } else {
        ReadyTaskExists(tasks, e);
        StartKeepsInvariant(tasks, e, FirstReady(tasks, e, 0).value);
        FirstReadyIsReady(tasks, e, 0);
      }
    }
  }

  lemma {:induction false} ActiveIsUnfinished(tasks: seq<Task>, e: Execution)
    requires Invariant(tasks, e) && e.active.Some?
    ensures var id := e.active.value;
            id in DepGraph(tasks) && id !in e.completed && id in e.retries && e.retries[id] < MAX_TASK_RETRIES
    ensures |e.completed| < |tasks|
  {
    assert TaskOk(DepGraph(tasks), e, e.active.value);
    CompletedWithinPlan(tasks, e);
  }

  lemma {:induction false} SuccessKeepsInvariant(tasks: seq<Task>, e: Execution)
    requires Invariant(tasks, e) && e.active.Some? && e.writeSucceeded
    ensures Invariant(tasks, CompleteActive(Some(tasks), e, false, true))
    ensures CompleteActive(Some(tasks), e, false, true).completed == e.completed + [e.active.value]
  {
    var g := DepGraph(tasks);
    var id := e.active.value;
    ActiveIsUnfinished(tasks, e);
    var e' := CompleteActive(Some(tasks), e, false, true);
    SnocDistinct(e.completed, id);
    forall x ensures TaskOk(g, e', x) {
      assert TaskOk(g, e, x) && TaskOk(g, e, id);
    }
  }

  /** Whatever lies downstream of an unfinished task is unfinished. */
  lemma {:induction false} DownstreamUnfinished(tasks: seq<Task>, e: Execution, id: TaskId, x: TaskId)
    requires Invariant(tasks, e) && id in DepGraph(tasks) && id !in e.completed
    requires Reaches(DepGraph(tasks), id, x)
    ensures x !in e.completed
  {
    var g := DepGraph(tasks);
    if x in e.completed {
      var c :| ChainBetween(g, c, id, x);
      forall y | y in g && y in DepSet(e.completed) ensures g[y] <= DepSet(e.completed) {
        assert TaskOk(g, e, y);
      }
      UpwardClosedContains(g, DepSet(e.completed), c);
    }
  }

  lemma {:induction false} FailureKeepsInvariant(
    tasks: seq<Task>, e: Execution, budgetExceeded: bool, resultBuilds: bool)
    requires Invariant(tasks, e) && e.active.Some? && !AttemptSucceeds(e, budgetExceeded, resultBuilds)
    ensures Invariant(tasks, CompleteActive(Some(tasks), e, budgetExceeded, resultBuilds))
  {
    var g := DepGraph(tasks);
    var id := e.active.value;
    ActiveIsUnfinished(tasks, e);
    var e' := CompleteActive(Some(tasks), e, budgetExceeded, resultBuilds);
    var affected := Downstream(tasks, {id});
    SelectMembers(Ids(tasks), AffectedSet(g, {id}));
    forall x ensures TaskOk(g, e', x) {
      assert TaskOk(g, e, x);
      if x in affected {
        assert Reaches(g, id, x);
        DownstreamUnfinished(tasks, e, id, x);
      }
    }
  }

  lemma {:induction false} CompleteKeepsInvariant(
    tasks: seq<Task>, e: Execution, budgetExceeded: bool, resultBuilds: bool)
    requires Invariant(tasks, e) && e.active.Some?
    ensures Invariant(tasks, CompleteActive(Some(tasks), e, budgetExceeded, resultBuilds))
  {
    if AttemptSucceeds(e, budgetExceeded, resultBuilds) {
      SuccessKeepsInvariant(tasks, e);
    } else {
      FailureKeepsInvariant(tasks, e, budgetExceeded, resultBuilds);
    }
  }

  lemma {:induction false} WithoutMembers(ids: seq<TaskId>, removed: seq<TaskId>)
    requires NoDuplicates(ids)
    ensures NoDuplicates(Without(ids, removed))
    ensures forall x :: x in Without(ids, removed) <==> x in ids && x !in removed
  {
    if ids != [] {
      var rest := ids[..|ids| - 1];
      var last := ids[|ids| - 1];
      WithoutMembers(rest, removed);
      assert ids == rest + [last];
      if last !in removed {
        assert last !in rest;
        SnocDistinct(Without(rest, removed), last);
      }
    }
  }

  /** Reopening takes back exactly the failed tasks and what they reach, and nothing else. */
  lemma {:induction false} ReopenIsExact(tasks: seq<Task>, e: Execution, verdict: Option<seq<TaskId>>, x: TaskId)
    requires Invariant(tasks, e) && x in DepGraph(tasks)
    ensures var e' := Reopen(Some(tasks), e, verdict);
            var reopened := Affected(DepGraph(tasks), FailedIds(tasks, verdict), x);
            && x in e'.statuses
            && e'.statuses[x] == (if reopened then Pending else e.statuses[x])
            && (x in e'.completed <==> x in e.completed && !reopened)
            && (x in e'.results <==> x in e.results && !reopened)
            && e'.retries == e.retries
  {
    var g := DepGraph(tasks);
    GraphKeys(tasks);
    assert TaskOk(g, e, x);
    SelectMembers(Ids(tasks), AffectedSet(g, FailedIds(tasks, verdict)));
    WithoutMembers(e.completed, Downstream(tasks, FailedIds(tasks, verdict)));
    assert x in DepSet(Ids(tasks));
  }

  lemma {:induction false} ReopenKeepsInvariant(tasks: seq<Task>, e: Execution, verdict: Option<seq<TaskId>>)
    requires Invariant(tasks, e) && e.active.None? && e.planStatus != PlanFailed
    ensures Invariant(tasks, Reopen(Some(tasks), e, verdict))
  {
    var g := DepGraph(tasks);
    var failed := FailedIds(tasks, verdict);
    var e' := Reopen(Some(tasks), e, verdict);
    WellFormedIsClosed(tasks);
    WithoutMembers(e.completed, Downstream(tasks, failed));
    forall x ensures TaskOk(g, e', x) {
      assert TaskOk(g, e, x);
      if x in g {
        ReopenIsExact(tasks, e, verdict, x);
        if x in e'.completed {
          forall d | d in g[x] ensures d in e'.completed {
            ReopenIsExact(tasks, e, verdict, d);
            if Affected(g, failed, d) {
              var root :| root in failed && Reaches(g, root, d);
              ReachesStep(g, root, d, x);
            }
          }
        }
      }
    }
  }

  // ---------------------------------------------------------------- consequences

  /** Closing an attempt, even one that blocks everything downstream, never takes back finished work. */
  lemma {:induction false} FinishedWorkIsNeverDemoted(
    tasks: seq<Task>, e: Execution, budgetExceeded: bool, resultBuilds: bool, x: TaskId)
    requires Invariant(tasks, e) && e.active.Some? && x in e.completed
    ensures var e' := CompleteActive(Some(tasks), e, budgetExceeded, resultBuilds);
            x in e'.completed && x in e'.statuses && e'.statuses[x] == Completed
  {
    ActiveIsUnfinished(tasks, e);
    CompleteKeepsInvariant(tasks, e, budgetExceeded, resultBuilds);
    assert TaskOk(DepGraph(tasks), e, x);
    assert TaskOk(DepGraph(tasks), CompleteActive(Some(tasks), e, budgetExceeded, resultBuilds), x);
  }

  ghost predicate Finished(tasks: seq<Task>, e: Execution) {
    forall x | x in DepGraph(tasks) :: x in e.statuses && e.statuses[x] == Completed
  }

  lemma {:induction false} CompletedPlanIsFinished(tasks: seq<Task>, e: Execution)
    requires Invariant(tasks, e) && e.planStatus == PlanCompleted
    ensures Finished(tasks, e)
  {
    CompletedWithinPlan(tasks, e);
    forall x | x in DepGraph(tasks) ensures x in e.statuses && e.statuses[x] == Completed {
      assert TaskOk(DepGraph(tasks), e, x);
    }
  }

  /** Besides its own file, the active task may read only files of completed tasks. */
  lemma {:induction false} VisibleTasksAreCompleted(tasks: seq<Task>, e: Execution, x: TaskId)
    requires Invariant(tasks, e) && e.active.Some?
    requires x in VisibleSet(DepGraph(tasks), e.active.value) && x != e.active.value
    ensures x in e.completed
  {
    var g := DepGraph(tasks);
    var s := DepSet(e.completed) + {e.active.value};
    forall y | y in g && y in s ensures g[y] <= s {
      assert TaskOk(g, e, y);
    }
    var c :| ChainBetween(g, c, x, e.active.value);
    UpwardClosedContains(g, s, c);
  }

  /** Every dependency of the task being executed has a recorded result. */
  lemma {:induction false} DependencyResultsPresent(tasks: seq<Task>, e: Execution, d: TaskId)
    requires Invariant(tasks, e) && e.active.Some?
    requires e.active.value in DepGraph(tasks) && d in DepGraph(tasks)[e.active.value]
    ensures d in e.results
  {
    assert TaskOk(DepGraph(tasks), e, e.active.value) && TaskOk(DepGraph(tasks), e, d);
  }

  // ---------------------------------------------------------------- retries spent

  function TotalRetries(tasks: seq<Task>, retries: map<TaskId, nat>): nat {
    if tasks == [] then 0
    else
      var last := tasks[|tasks| - 1].id;
      TotalRetries(tasks[..|tasks| - 1], retries) + if last in retries then retries[last] else 0
  }

  lemma {:induction false} RetriesElsewhere(tasks: seq<Task>, retries: map<TaskId, nat>, id: TaskId, n: nat)
    requires forall i | 0 <= i < |tasks| :: tasks[i].id != id
    ensures TotalRetries(tasks, retries[id := n]) == TotalRetries(tasks, retries)
  {
    if tasks != [] {
      RetriesElsewhere(tasks[..|tasks| - 1], retries, id, n);
    }
  }

  lemma {:induction false} OneMoreRetry(tasks: seq<Task>, retries: map<TaskId, nat>, i: nat)
    requires DistinctIds(tasks) && i < |tasks| && tasks[i].id in retries
    ensures TotalRetries(tasks, retries[tasks[i].id := retries[tasks[i].id] + 1]) == TotalRetries(tasks, retries) + 1
  {
    var shorter := tasks[..|tasks| - 1];
    var id := tasks[i].id;
    if i == |tasks| - 1 {
      RetriesElsewhere(shorter, retries, id, retries[id] + 1);
    } else {
      assert shorter[i] == tasks[i];
      OneMoreRetry(shorter, retries, i);
    }
  }

  lemma {:induction false} RetriesBounded(tasks: seq<Task>, retries: map<TaskId, nat>, bound: nat)
    requires forall i | 0 <= i < |tasks| && tasks[i].id in retries :: retries[tasks[i].id] <= bound
    ensures TotalRetries(tasks, retries) <= bound * |tasks|
  {
    if tasks != [] {
      RetriesBounded(tasks[..|tasks| - 1], retries, bound);
    }
  }
}
