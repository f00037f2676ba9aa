/**
 What Kahn's loop keeps, in whichever order it takes the ready tasks: the backend pops the last
 one, the frontend shifts the first one.
 */
module Kahn {
  import opened Graphs

  /** The count of `x` is the number of its dependencies not taken yet, plus a decrement still owed. */
  ghost predicate CountRight(
    g: Graph, done: set<TaskId>, indegree: map<TaskId, int>, owed: set<TaskId>, x: TaskId)
  {
    x in g ==> x in indegree && indegree[x] == |g[x] - done| + if x in owed then 1 else 0
  }

  /** `x` is ready exactly when it was not taken and its count is zero. */
  ghost predicate ReadyRight(done: set<TaskId>, indegree: map<TaskId, int>, ready: seq<TaskId>, x: TaskId) {
    x in ready <==> x in indegree && x !in done && indegree[x] == 0
  }

  /**
   `done` has been taken; `owed` are the dependents of the task taken last whose count has not been
   decremented yet; `ready` holds exactly the other tasks whose count is zero.
   */
  ghost predicate KahnState(
    g: Graph, done: set<TaskId>, indegree: map<TaskId, int>, ready: seq<TaskId>, owed: set<TaskId>)
  {
    && done <= g.Keys && owed <= g.Keys && indegree.Keys == g.Keys
    && (forall x :: CountRight(g, done, indegree, owed, x))
    && (forall x :: ReadyRight(done, indegree, ready, x))
  }

  lemma {:induction false} RemoveOne(s: set<TaskId>, done: set<TaskId>, taken: TaskId)
    requires taken !in done
    ensures |s - done| == |s - (done + {taken})| + if taken in s then 1 else 0
  {
    if taken in s {
      assert s - done == (s - (done + {taken})) + {taken};
    } else {
      assert s - done == s - (done + {taken});
    }
  }

  lemma {:induction false} NothingLeft(s: set<TaskId>, done: set<TaskId>)
    ensures |s - done| == 0 <==> s <= done
  {
    if |s - done| == 0 {
      forall d | d in s ensures d in done {
        assert d !in s - done;
      }
    } else {
      var d :| d in s - done;
    }
  }

  lemma {:induction false} TakeReady(
    g: Graph, done: set<TaskId>, indegree: map<TaskId, int>, ready: seq<TaskId>,
    x: TaskId, rest: seq<TaskId>, owed: set<TaskId>)
    requires KahnState(g, done, indegree, ready, {})
    requires x in ready && forall y :: y in rest <==> y in ready && y != x
    requires forall y :: y in owed <==> y in g && x in g[y]
    ensures KahnState(g, done + {x}, indegree, rest, owed)
  {
    assert ReadyRight(done, indegree, ready, x);
    forall y ensures CountRight(g, done + {x}, indegree, owed, y) {
      assert CountRight(g, done, indegree, {}, y);
      if y in g {
        RemoveOne(g[y], done, x);
      }
    }
    forall y ensures ReadyRight(done + {x}, indegree, rest, y) {
      assert ReadyRight(done, indegree, ready, y);
    }
  }

  lemma {:induction false} PayOwed(
    g: Graph, done: set<TaskId>, indegree: map<TaskId, int>, ready: seq<TaskId>,
    owed: set<TaskId>, x: TaskId, ready': seq<TaskId>)
    requires KahnState(g, done, indegree, ready, owed)
    requires x in owed && x !in done
    requires ready' == if indegree[x] == 1 then ready + [x] else ready
    ensures KahnState(g, done, indegree[x := indegree[x] - 1], ready', owed - {x})
    ensures x !in ready
  {
    var indegree' := indegree[x := indegree[x] - 1];
    assert CountRight(g, done, indegree, owed, x) && ReadyRight(done, indegree, ready, x);
    forall y ensures CountRight(g, done, indegree', owed - {x}, y) {
      assert CountRight(g, done, indegree, owed, y);
    }
    forall y ensures ReadyRight(done, indegree', ready', y) {
      assert ReadyRight(done, indegree, ready, y);
    }
  }

  /** Whoever was not taken waits for somebody else who was not. */
  lemma {:induction false} WaitingOnWaiting(g: Graph, done: set<TaskId>, indegree: map<TaskId, int>, x: TaskId)
    requires Closed(g) && KahnState(g, done, indegree, [], {}) && x in g && x !in done
    ensures g[x] * (g.Keys - done) != {}
  {
    assert CountRight(g, done, indegree, {}, x) && ReadyRight(done, indegree, [], x);
    NothingLeft(g[x], done);
    var d :| d in g[x] && d !in done;
    assert d in g[x] * (g.Keys - done);
  }

  /** What is left is exactly what lies on a cycle or depends on one. */
  lemma {:induction false} LeftBehindCycles(
    g: Graph, done: set<TaskId>, indegree: map<TaskId, int>, rank: map<TaskId, nat>)
    requires Closed(g) && KahnState(g, done, indegree, [], {}) && PartialRank(g, done, rank)
    ensures forall x :: x in g.Keys - done <==> x in g && BehindCycle(g, x)
  {
    forall x | x in g && x !in done ensures g[x] * (g.Keys - done) != {} {
      WaitingOnWaiting(g, done, indegree, x);
    }
    forall x ensures x in g.Keys - done <==> x in g && BehindCycle(g, x) {
      if x in g {
        PeeledUnlessBehindCycle(g, done, rank, x);
      }
    }
  }

  /** Either everything is ranked, or whatever is not contains a cycle. */
  lemma {:induction false} RankedUnlessStuck(g: Graph, done: set<TaskId>, rank: map<TaskId, nat>)
    requires Closed(g) && PartialRank(g, done, rank)
    requires forall x | x in g && x !in done :: g[x] * (g.Keys - done) != {}
    ensures done == g.Keys <==> Acyclic(g)
    ensures done != g.Keys ==> CycleWithin(g, g.Keys - done) && Cyclic(g)
    ensures Cyclic(g) ==> done != g.Keys
  {
    AcyclicIffNoCycle(g);
    if done == g.Keys {
      assert Ranked(g, rank);
    } else {
      var x :| x in g.Keys - done;
      StuckSetHasCycle(g, g.Keys - done);
    }
  }

  /**
   When nothing is ready, either everything was taken, or what is left contains a cycle; and what is left
   is exactly what lies on a cycle or depends on one.
   */
  lemma {:induction false} NothingReady(g: Graph, done: set<TaskId>, indegree: map<TaskId, int>, rank: map<TaskId, nat>)
    requires Closed(g) && KahnState(g, done, indegree, [], {}) && PartialRank(g, done, rank)
    ensures |done| == |g.Keys| <==> Acyclic(g)
    ensures |done| != |g.Keys| <==> Cyclic(g)
    ensures |done| != |g.Keys| ==> CycleWithin(g, g.Keys - done)
    ensures forall x :: x in g.Keys - done <==> x in g && BehindCycle(g, x)
  {
    forall x | x in g && x !in done ensures g[x] * (g.Keys - done) != {} {
      WaitingOnWaiting(g, done, indegree, x);
    }
    RankedUnlessStuck(g, done, rank);
    LeftBehindCycles(g, done, indegree, rank);
    assert |g.Keys - done| == |g.Keys| - |done|;
    assert done != g.Keys ==> g.Keys - done != {};
  }
}
