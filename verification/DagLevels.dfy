/**
 The topological levels of a plan (frontend/src/composables/useTaskDag.ts): a second Kahn loop, with a
 first-in first-out queue, that also computes for each task the length of its longest dependency chain.
 */
module DagLevels {
  import opened Graphs
  import opened Kahn
  import opened Plans

  ghost predicate ChainTo(g: Graph, c: seq<TaskId>, x: TaskId) {
    Chain(g, c) && c[|c| - 1] == x
  }

  /** `n` tasks lie on the longest dependency chain that ends in `x`. */
  ghost predicate LongestChain(g: Graph, x: TaskId, n: int) {
    && (exists c :: ChainTo(g, c, x) && |c| == n)
    && (forall c :: ChainTo(g, c, x) ==> |c| <= n)
  }

  lemma {:induction false} LongestIsUnique(g: Graph, x: TaskId, n: int, m: int)
    requires LongestChain(g, x, n) && LongestChain(g, x, m)
    ensures n == m
  {
  }

  // ---------------------------------------------------------------- what the loop keeps

  /** Some chain ending in `x` is as long as its level says. */
  ghost predicate Attained(g: Graph, levels: map<TaskId, nat>, x: TaskId) {
    x in levels && exists c :: ChainTo(g, c, x) && |c| == levels[x]
  }

  /** `x` is above its dependency `d`, unless `d` was taken last and has not raised `x` yet. */
  ghost predicate Above(
    g: Graph, done: set<TaskId>, levels: map<TaskId, nat>, taken: TaskId, owed: set<TaskId>, d: TaskId, x: TaskId)
  {
    x in g && d in g[x] && d in done && !(d == taken && x in owed) ==>
      d in levels && x in levels && levels[d] < levels[x]
  }

  ghost predicate LevelState(
    g: Graph, done: set<TaskId>, levels: map<TaskId, nat>, taken: TaskId, owed: set<TaskId>)
  {
    && levels.Keys == g.Keys
    && (forall x | x in g :: Attained(g, levels, x))
    && (forall d, x :: Above(g, done, levels, taken, owed, d, x))
  }

  function StartLevels(tasks: seq<Task>): map<TaskId, nat> {
    map x | x in DepGraph(tasks) :: 1
  }

  lemma {:induction false} LevelsStart(tasks: seq<Task>, taken: TaskId)
    ensures LevelState(DepGraph(tasks), {}, StartLevels(tasks), taken, {})
  {
    var g := DepGraph(tasks);
    forall x | x in g ensures Attained(g, StartLevels(tasks), x) {
      assert ChainTo(g, [x], x);
    }
  }

  lemma {:induction false} TakeKeepsLevels(
    g: Graph, done: set<TaskId>, levels: map<TaskId, nat>, before: TaskId, x: TaskId, owed: set<TaskId>)
    requires LevelState(g, done, levels, before, {})
    requires forall y :: y in owed <==> y in g && x in g[y]
    ensures LevelState(g, done + {x}, levels, x, owed)
  {
    forall d, y ensures Above(g, done + {x}, levels, x, owed, d, y) {
      assert Above(g, done, levels, before, {}, d, y);
    }
  }

  function Raised(levels: map<TaskId, nat>, x: TaskId, atLeast: nat): map<TaskId, nat>
    requires x in levels
  {
    levels[x := if levels[x] < atLeast then atLeast else levels[x]]
  }

  lemma {:induction false} RaiseKeepsLevels(
    g: Graph, done: set<TaskId>, levels: map<TaskId, nat>, taken: TaskId, owed: set<TaskId>, x: TaskId)
    requires LevelState(g, done, levels, taken, owed)
    requires x in owed && x in g && x !in done && taken in done && taken in g[x] && taken in g
    ensures LevelState(g, done, Raised(levels, x, levels[taken] + 1), taken, owed - {x})
  {
    var levels' := Raised(levels, x, levels[taken] + 1);
    forall y | y in g ensures Attained(g, levels', y) {
      assert Attained(g, levels, y) && Attained(g, levels, taken);
      if y == x && levels[x] < levels[taken] + 1 {
        var c :| ChainTo(g, c, taken) && |c| == levels[taken];
        assert ChainTo(g, c + [x], x);
      }
    }
    forall d, y ensures Above(g, done, levels', taken, owed - {x}, d, y) {
      assert Above(g, done, levels, taken, owed, d, y);
    }
  }

  /** Once everything was taken, the levels are the longest chain lengths. */
  lemma {:induction false} LevelsAreLongest(g: Graph, levels: map<TaskId, nat>, taken: TaskId, x: TaskId)
    requires Closed(g) && LevelState(g, g.Keys, levels, taken, {}) && x in g
    ensures LongestChain(g, x, levels[x])
  {
    assert Attained(g, levels, x);
    assert Ranked(g, levels) by {
      forall y, d | y in g && d in g[y] ensures d in levels && levels[d] < levels[y] {
        assert Above(g, g.Keys, levels, taken, {}, d, y);
      }
    }
    forall c | ChainTo(g, c, x) ensures |c| <= levels[x] {
      RankGrowsAlongChain(g, levels, c);
      assert Attained(g, levels, c[0]);
    }
  }

  // ---------------------------------------------------------------- the loops

  /** What the outer loop keeps. */
  ghost predicate LoopState(
    g: Graph, done: set<TaskId>, rank: map<TaskId, nat>, taken: TaskId,
    levels: map<TaskId, nat>, indegree: map<TaskId, int>, ready: seq<TaskId>)
  {
    && NoDuplicates(ready) && KahnState(g, done, indegree, ready, {})
    && PartialRank(g, done, rank) && LevelState(g, done, levels, taken, {})
  }

  /** The same after `taken` was taken, while its dependents have still to be raised. */
  ghost predicate OwedState(
    g: Graph, done: set<TaskId>, rank: map<TaskId, nat>, taken: TaskId,
    levels: map<TaskId, nat>, indegree: map<TaskId, int>, ready: seq<TaskId>, row: seq<TaskId>)
  {
    && NoDuplicates(ready) && KahnState(g, done, indegree, ready, DepSet(row))
    && PartialRank(g, done, rank) && LevelState(g, done, levels, taken, DepSet(row))
    && taken in done && NoDuplicates(row) && DepSet(row) !! done
    && forall x | x in row :: x in g && taken in g[x]
  }

  /** The inner loop: every dependent of the task just taken is raised above it and loses one count. */
  method RaiseDependents(
    ghost g: Graph, ghost done: set<TaskId>, ghost rank: map<TaskId, nat>, taken: TaskId, row: seq<TaskId>,
    levels: map<TaskId, nat>, indegree: map<TaskId, int>, ready: seq<TaskId>)
    returns (levels': map<TaskId, nat>, indegree': map<TaskId, int>, ready': seq<TaskId>)
    requires OwedState(g, done, rank, taken, levels, indegree, ready, row)
    ensures LoopState(g, done, rank, taken, levels', indegree', ready')
  {
    levels', indegree', ready' := levels, indegree, ready;
    assert row[0..] == row;
    for i := 0 to |row|
      invariant NoDuplicates(ready') && KahnState(g, done, indegree', ready', DepSet(row[i..]))
      invariant LevelState(g, done, levels', taken, DepSet(row[i..]))
    {
      var dependent := row[i];
      assert dependent in DepSet(row);
      RestAfter(row, i);
      RaiseKeepsLevels(g, done, levels', taken, DepSet(row[i..]), dependent);
      levels' := Raised(levels', dependent, levels'[taken] + 1);
      ghost var enlarged := if indegree'[dependent] == 1 then ready' + [dependent] else ready';
      PayOwed(g, done, indegree', ready', DepSet(row[i..]), dependent, enlarged);
      SnocDistinct(ready', dependent);
      indegree' := indegree'[dependent := indegree'[dependent] - 1];
      if indegree'[dependent] == 0 {
        ready' := ready' + [dependent];
      }
    }
    assert DepSet(row[|row|..]) == {};
  }

  lemma {:induction false} FirstReady(ready: seq<TaskId>)
    requires NoDuplicates(ready) && ready != []
    ensures NoDuplicates(ready[1..])
    ensures forall y :: y in ready[1..] <==> y in ready && y != ready[0]
  {
    assert ready == [ready[0]] + ready[1..];
    forall i, j | 0 <= i < j < |ready[1..]| ensures ready[1..][i] != ready[1..][j] {
      assert ready[i + 1] != ready[j + 1];
    }
    forall i | 0 <= i < |ready[1..]| ensures ready[1..][i] != ready[0] {
      assert ready[i + 1] != ready[0];
    }
  }

  lemma {:induction false} TakeFirst(
    tasks: seq<Task>, row: seq<TaskId>, done: set<TaskId>, rank: map<TaskId, nat>, taken: TaskId,
    levels: map<TaskId, nat>, indegree: map<TaskId, int>, ready: seq<TaskId>)
    requires WellFormed(tasks) && ready != [] && NoDuplicates(row)
    requires LoopState(DepGraph(tasks), done, rank, taken, levels, indegree, ready)
    requires forall y :: y in row <==> y in DepGraph(tasks) && ready[0] in DepGraph(tasks)[y]
    ensures var g, id := DepGraph(tasks), ready[0];
            && id in g && id !in done
            && OwedState(g, done + {id}, rank[id := |done|], id, levels, indegree, ready[1..], row)
  {
    var g, id := DepGraph(tasks), ready[0];
    assert ReadyRight(done, indegree, ready, id);
    FirstReady(ready);
    NoSelfDependency(tasks, id);
    ReadyIsNext(g, done, indegree, ready, rank, id, row);
    TakeReady(g, done, indegree, ready, id, ready[1..], DepSet(row));
    TakeKeepsLevels(g, done, levels, taken, id, DepSet(row));
  }

  lemma {:induction false} AllTaken(g: Graph, done: set<TaskId>)
    requires done <= g.Keys && |done| == |g.Keys|
    ensures done == g.Keys
  {
    assert |g.Keys - done| == |g.Keys| - |done|;
    NothingLeft(g.Keys, done);
  }

  lemma {:induction false} LoopEnds(
    g: Graph, done: set<TaskId>, rank: map<TaskId, nat>, taken: TaskId,
    levels: map<TaskId, nat>, indegree: map<TaskId, int>)
    requires Closed(g) && LoopState(g, done, rank, taken, levels, indegree, [])
    ensures |done| == |g.Keys| <==> Acyclic(g)
    ensures |done| == |g.Keys| ==> forall x | x in g :: x in levels && LongestChain(g, x, levels[x])
  {
    NothingReady(g, done, indegree, rank);
    if |done| == |g.Keys| {
      AllTaken(g, done);
      forall x | x in g ensures x in levels && LongestChain(g, x, levels[x]) {
        LevelsAreLongest(g, levels, taken, x);
      }
    }
  }

  lemma {:induction false} LoopStarts(tasks: seq<Task>, taken: TaskId)
    requires WellFormed(tasks)
    ensures LoopState(DepGraph(tasks), {}, map[], taken, StartLevels(tasks), Indegrees(tasks), Roots(tasks))
  {
    KahnStarts(tasks);
    LevelsStart(tasks, taken);
  }

  lemma {:induction false} LevelsComputed(
    tasks: seq<Task>, done: set<TaskId>, rank: map<TaskId, nat>, taken: TaskId,
    levels: map<TaskId, nat>, indegree: map<TaskId, int>, ready: seq<TaskId>)
    requires WellFormed(tasks) && LoopState(DepGraph(tasks), done, rank, taken, levels, indegree, ready) && ready == []
    ensures |done| == |tasks| <==> Acyclic(DepGraph(tasks))
    ensures levels.Keys == DepGraph(tasks).Keys
    ensures |done| == |tasks| ==> forall x | x in DepGraph(tasks) :: LongestChain(DepGraph(tasks), x, levels[x])
  {
    GraphKeys(tasks);
    WellFormedIsClosed(tasks);
    LoopEnds(DepGraph(tasks), done, rank, taken, levels, indegree);
  }

  /** Succeeds exactly for acyclic plans, and then every level is the longest chain length. */
  method ComputeLevels(tasks: seq<Task>, dependents: map<TaskId, seq<TaskId>>)
    returns (ok: bool, levels: map<TaskId, nat>)
    requires WellFormed(tasks) && Inverted(DepGraph(tasks), dependents)
    ensures ok <==> Acyclic(DepGraph(tasks))
    ensures ok ==> levels.Keys == DepGraph(tasks).Keys
    ensures ok ==> forall x | x in DepGraph(tasks) :: LongestChain(DepGraph(tasks), x, levels[x])
  {
    var indegree, ready, visited := Indegrees(tasks), Roots(tasks), 0;
    levels := StartLevels(tasks);
    ghost var g := DepGraph(tasks);
    ghost var done: set<TaskId>, rank: map<TaskId, nat>, taken := {}, map[], TaskId("");
    LoopStarts(tasks, taken);
    while ready != []
      invariant LoopState(g, done, rank, taken, levels, indegree, ready)
      invariant visited == |done|
      decreases g.Keys - done
    {
      var id := ready[0];
      assert ReadyRight(done, indegree, ready, id);
      var row := dependents[id];
      TakeFirst(tasks, row, done, rank, taken, levels, indegree, ready);
      ready, visited := ready[1..], visited + 1;
      done, rank, taken := done + {id}, rank[id := |done|], id;
      levels, indegree, ready := RaiseDependents(g, done, rank, id, row, levels, indegree, ready);
    }
    LevelsComputed(tasks, done, rank, taken, levels, indegree, ready);
    ok := visited == |tasks|;
  }
}
