/**
 Refactor plans (backend/agent/plans.py) and the two closure computations over them
 (backend/agent/scheduler.py, backend/agent/tools.py).
 Paths are identities that are already canonical and case-folded here.
 */
module Plans {
  import opened Common
  import opened Graphs
  import opened Kahn

  datatype Task = Task(id: TaskId, file: Path, deps: seq<TaskId>)

  datatype PlanError =
    | DuplicateTaskId
    | RepeatedDependency(id: TaskId)
    | SelfDependency(id: TaskId)
    | UnknownDependency(id: TaskId)
    | SharedPath(file: Path)
    | CyclicDependencies

  datatype PlanResult = Accepted(tasks: seq<Task>) | Rejected(error: PlanError)

  predicate DistinctIds(tasks: seq<Task>) {
    forall i, j | 0 <= i < j < |tasks| :: tasks[i].id != tasks[j].id
  }

  function Ids(tasks: seq<Task>): seq<TaskId> {
    seq(|tasks|, i requires 0 <= i < |tasks| => tasks[i].id)
  }

  function DepSet(deps: seq<TaskId>): set<TaskId> {
    set d | d in deps
  }

  function DepGraph(tasks: seq<Task>): Graph {
    if tasks == [] then map[]
    else
      var last := tasks[|tasks| - 1];
      DepGraph(tasks[..|tasks| - 1])[last.id := DepSet(last.deps)]
  }

  function ById(tasks: seq<Task>): map<TaskId, Task> {
    if tasks == [] then map[]
    else
      var last := tasks[|tasks| - 1];
      ById(tasks[..|tasks| - 1])[last.id := last]
  }

  ghost predicate GoodDependencies(t: Task, known: set<TaskId>) {
    NoDuplicates(t.deps) && t.id !in t.deps && DepSet(t.deps) <= known
  }

  /** What the checks before the cycle test establish. */
  ghost predicate WellFormed(tasks: seq<Task>) {
    && DistinctIds(tasks)
    && forall i | 0 <= i < |tasks| :: GoodDependencies(tasks[i], DepGraph(tasks).Keys)
  }

  ghost predicate DistinctFiles(tasks: seq<Task>) {
    forall i, j | 0 <= i < j < |tasks| :: tasks[i].file != tasks[j].file
  }

  ghost predicate ValidPlan(tasks: seq<Task>) {
    WellFormed(tasks) && DistinctFiles(tasks) && Acyclic(DepGraph(tasks))
  }

  // ---------------------------------------------------------------- facts about the graph

  lemma {:induction false} TaskInGraph(tasks: seq<Task>, i: nat)
    requires DistinctIds(tasks) && i < |tasks|
    ensures tasks[i].id in DepGraph(tasks) && DepGraph(tasks)[tasks[i].id] == DepSet(tasks[i].deps)
    ensures tasks[i].id in ById(tasks) && ById(tasks)[tasks[i].id] == tasks[i]
  {
    if i < |tasks| - 1 {
      assert tasks[..|tasks| - 1][i] == tasks[i];
      TaskInGraph(tasks[..|tasks| - 1], i);
    }
  }

  lemma {:induction false} GraphTask(tasks: seq<Task>, x: TaskId) returns (i: nat)
    requires DistinctIds(tasks) && x in DepGraph(tasks)
    ensures i < |tasks| && tasks[i].id == x && DepGraph(tasks)[x] == DepSet(tasks[i].deps)
  {
    i := |tasks| - 1;
    if tasks[i].id != x {
      i := GraphTask(tasks[..|tasks| - 1], x);
    }
  }

  lemma {:induction false} SameKeys(tasks: seq<Task>)
    ensures DepGraph(tasks).Keys == ById(tasks).Keys == DepSet(Ids(tasks))
  {
    if tasks != [] {
      var shorter := tasks[..|tasks| - 1];
      SameKeys(shorter);
      assert Ids(tasks) == Ids(shorter) + [tasks[|tasks| - 1].id];
    }
  }

  lemma {:induction false} KeyCount(tasks: seq<Task>)
    requires DistinctIds(tasks)
    ensures |DepGraph(tasks).Keys| == |tasks|
  {
    if tasks != [] {
      var shorter, last := tasks[..|tasks| - 1], tasks[|tasks| - 1].id;
      KeyCount(shorter);
      SameKeys(shorter);
      assert last !in Ids(shorter);
      assert DepGraph(tasks).Keys == DepGraph(shorter).Keys + {last};
    }
  }

  lemma {:induction false} GraphKeys(tasks: seq<Task>)
    requires DistinctIds(tasks)
    ensures DepGraph(tasks).Keys == ById(tasks).Keys == DepSet(Ids(tasks))
    ensures |DepGraph(tasks).Keys| == |tasks|
  {
    SameKeys(tasks);
    KeyCount(tasks);
  }

  lemma {:induction false} WellFormedIsClosed(tasks: seq<Task>)
    requires WellFormed(tasks)
    ensures Closed(DepGraph(tasks))
  {
    var g := DepGraph(tasks);
    forall x | x in g ensures g[x] <= g.Keys {
      var i := GraphTask(tasks, x);
      assert GoodDependencies(tasks[i], g.Keys);
    }
  }

  lemma {:induction false} DepSetSize(deps: seq<TaskId>)
    requires NoDuplicates(deps)
    ensures |DepSet(deps)| == |deps|
  {
    if deps == [] {
    } else {
      var rest := deps[..|deps| - 1];
      DepSetSize(rest);
      var last := deps[|deps| - 1];
      assert last !in rest;
      assert DepSet(deps) == DepSet(rest) + {last};
    }
  }

  // ---------------------------------------------------------------- the inverted edge table

  /** `dependents[d]` lists, without repetition, exactly the tasks that depend on `d`. */
  ghost predicate Inverted(g: Graph, dependents: map<TaskId, seq<TaskId>>) {
    && dependents.Keys == g.Keys
    && (forall d | d in g :: NoDuplicates(dependents[d]))
    && (forall d, x | d in g :: x in dependents[d] <==> x in g && d in g[x])
  }

  /** The table after pushing `id` onto the lists of the first `j` dependencies. */
  function PushAll(table: map<TaskId, seq<TaskId>>, deps: seq<TaskId>, j: nat, id: TaskId)
    : map<TaskId, seq<TaskId>>
    requires j <= |deps|
  {
    if j == 0 then table
    else
      var t := PushAll(table, deps, j - 1, id);
      var d := deps[j - 1];
      if d in t then t[d := t[d] + [id]] else t
  }

  /** The table after the outer loop has handled the first `i` tasks. */
  function TableAfter(tasks: seq<Task>, i: nat): map<TaskId, seq<TaskId>>
    requires DistinctIds(tasks) && i <= |tasks|
  {
    if i == 0 then map d | d in DepGraph(tasks) :: []
    else PushAll(TableAfter(tasks, i - 1), tasks[i - 1].deps, |tasks[i - 1].deps|, tasks[i - 1].id)
  }

  lemma {:induction false} PushAllEntries(table: map<TaskId, seq<TaskId>>, deps: seq<TaskId>, j: nat, id: TaskId)
    requires j <= |deps| && NoDuplicates(deps)
    ensures PushAll(table, deps, j, id).Keys == table.Keys
    ensures forall d | d in table ::
              PushAll(table, deps, j, id)[d] == table[d] + if d in deps[..j] then [id] else []
  {
    if j > 0 {
      PushAllEntries(table, deps, j - 1, id);
      assert deps[..j] == deps[..j - 1] + [deps[j - 1]];
      assert deps[j - 1] !in deps[..j - 1];
    }
  }

  lemma {:induction false} TableKeys(tasks: seq<Task>, i: nat)
    requires WellFormed(tasks) && i <= |tasks|
    ensures TableAfter(tasks, i).Keys == DepGraph(tasks).Keys
  {
    if i > 0 {
      TableKeys(tasks, i - 1);
      assert GoodDependencies(tasks[i - 1], DepGraph(tasks).Keys);
      PushAllEntries(TableAfter(tasks, i - 1), tasks[i - 1].deps, |tasks[i - 1].deps|, tasks[i - 1].id);
    }
  }

  /** Row `d` of the table lists, in plan order, the first `i` tasks that depend on `d`. */
  function Row(tasks: seq<Task>, i: nat, d: TaskId): seq<TaskId>
    requires i <= |tasks|
  {
    if i == 0 then []
    else Row(tasks, i - 1, d) + if d in tasks[i - 1].deps then [tasks[i - 1].id] else []
  }

  lemma {:induction false} TableRow(tasks: seq<Task>, i: nat, d: TaskId)
    requires WellFormed(tasks) && i <= |tasks| && d in DepGraph(tasks)
    ensures d in TableAfter(tasks, i) && TableAfter(tasks, i)[d] == Row(tasks, i, d)
  {
    if i > 0 {
      var t := tasks[i - 1];
      TableRow(tasks, i - 1, d);
      assert GoodDependencies(t, DepGraph(tasks).Keys);
      PushAllEntries(TableAfter(tasks, i - 1), t.deps, |t.deps|, t.id);
      assert t.deps[..|t.deps|] == t.deps;
    }
  }

  lemma {:induction false} RowMembers(tasks: seq<Task>, i: nat, d: TaskId)
    requires DistinctIds(tasks) && i <= |tasks|
    ensures NoDuplicates(Row(tasks, i, d))
    ensures forall x | x in Row(tasks, i, d) :: exists k | 0 <= k < i :: tasks[k].id == x && d in tasks[k].deps
    ensures forall k | 0 <= k < i && d in tasks[k].deps :: tasks[k].id in Row(tasks, i, d)
  {
    if i > 0 {
      RowMembers(tasks, i - 1, d);
      var id := tasks[i - 1].id;
      var shorter := Row(tasks, i - 1, d);
      forall k | 0 <= k < |shorter| ensures shorter[k] != id {
        assert shorter[k] in shorter;
      }
    }
  }

  lemma {:induction false} TableIsInverse(tasks: seq<Task>)
    requires WellFormed(tasks)
    ensures Inverted(DepGraph(tasks), TableAfter(tasks, |tasks|))
  {
    var g := DepGraph(tasks);
    TableKeys(tasks, |tasks|);
    forall d | d in g
      ensures NoDuplicates(TableAfter(tasks, |tasks|)[d])
      ensures forall x :: x in TableAfter(tasks, |tasks|)[d] <==> x in g && d in g[x]
    {
      TableRow(tasks, |tasks|, d);
      RowMembers(tasks, |tasks|, d);
      forall x ensures x in Row(tasks, |tasks|, d) <==> x in g && d in g[x] {
        if x in g && d in g[x] {
          var k := GraphTask(tasks, x);
        }
        if x in Row(tasks, |tasks|, d) {
          var k :| 0 <= k < |tasks| && tasks[k].id == x && d in tasks[k].deps;
          TaskInGraph(tasks, k);
        }
      }
    }
  }

  lemma {:induction false} PushTargetExists(tasks: seq<Task>, i: nat, j: nat)
    requires WellFormed(tasks) && i < |tasks| && j < |tasks[i].deps|
    ensures tasks[i].deps[j] in PushAll(TableAfter(tasks, i), tasks[i].deps, j, tasks[i].id)
  {
    var t := tasks[i];
    assert GoodDependencies(t, DepGraph(tasks).Keys);
    assert t.deps[j] in DepSet(t.deps);
    TableKeys(tasks, i);
    PushAllEntries(TableAfter(tasks, i), t.deps, j, t.id);
  }

  method BuildDependents(tasks: seq<Task>) returns (dependents: map<TaskId, seq<TaskId>>)
    requires WellFormed(tasks)
    ensures Inverted(DepGraph(tasks), dependents)
  {
    dependents := map d | d in DepGraph(tasks) :: [];
    for i := 0 to |tasks|
      invariant dependents == TableAfter(tasks, i)
    {
      var deps := tasks[i].deps;
      for j := 0 to |deps|
        invariant dependents == PushAll(TableAfter(tasks, i), deps, j, tasks[i].id)
      {
        PushTargetExists(tasks, i, j);
        dependents := dependents[deps[j] := dependents[deps[j]] + [tasks[i].id]];
      }
    }
    TableIsInverse(tasks);
  }

  // ---------------------------------------------------------------- the cycle test

  function Indegrees(tasks: seq<Task>): map<TaskId, int> {
    if tasks == [] then map[]
    else
      var last := tasks[|tasks| - 1];
      Indegrees(tasks[..|tasks| - 1])[last.id := |last.deps|]
  }

  function Roots(tasks: seq<Task>): seq<TaskId> {
    if tasks == [] then []
    else
      var last := tasks[|tasks| - 1];
      Roots(tasks[..|tasks| - 1]) + if last.deps == [] then [last.id] else []
  }

  lemma {:induction false} IndegreesCount(tasks: seq<Task>)
    requires DistinctIds(tasks) && forall i | 0 <= i < |tasks| :: NoDuplicates(tasks[i].deps)
    ensures Indegrees(tasks).Keys == DepGraph(tasks).Keys
    ensures forall x | x in DepGraph(tasks) :: Indegrees(tasks)[x] == |DepGraph(tasks)[x]|
  {
    if tasks != [] {
      IndegreesCount(tasks[..|tasks| - 1]);
      DepSetSize(tasks[|tasks| - 1].deps);
    }
  }

  lemma {:induction false} RootsAreIdle(tasks: seq<Task>)
    requires DistinctIds(tasks)
    ensures NoDuplicates(Roots(tasks))
    ensures forall x :: x in Roots(tasks) <==> x in DepGraph(tasks) && DepGraph(tasks)[x] == {}
  {
    if tasks != [] {
      var shorter := tasks[..|tasks| - 1];
      var last := tasks[|tasks| - 1];
      RootsAreIdle(shorter);
      if last.deps != [] {
        assert last.deps[0] in DepSet(last.deps);
      }
      assert last.id !in DepGraph(shorter) by {
        GraphKeys(shorter);
        assert last.id !in Ids(shorter);
      }
      forall i | 0 <= i < |Roots(shorter)| ensures Roots(shorter)[i] != last.id {
        assert Roots(shorter)[i] in Roots(shorter);
      }
    }
  }

  lemma {:induction false} KahnStarts(tasks: seq<Task>)
    requires WellFormed(tasks)
    ensures KahnState(DepGraph(tasks), {}, Indegrees(tasks), Roots(tasks), {})
    ensures Closed(DepGraph(tasks)) && NoDuplicates(Roots(tasks))
  {
    forall i | 0 <= i < |tasks| ensures NoDuplicates(tasks[i].deps) {
      assert GoodDependencies(tasks[i], DepGraph(tasks).Keys);
    }
    WellFormedIsClosed(tasks);
    IndegreesCount(tasks);
    RootsAreIdle(tasks);
    var g := DepGraph(tasks);
    forall x ensures CountRight(g, {}, Indegrees(tasks), {}, x) && ReadyRight({}, Indegrees(tasks), Roots(tasks), x) {
      if x in g {
        assert g[x] - {} == g[x];
      }
    }
  }

  lemma {:induction false} NoSelfDependency(tasks: seq<Task>, x: TaskId)
    requires WellFormed(tasks) && x in DepGraph(tasks)
    ensures x !in DepGraph(tasks)[x]
  {
    var i := GraphTask(tasks, x);
    assert GoodDependencies(tasks[i], DepGraph(tasks).Keys);
  }

  lemma {:induction false} RestAfter(s: seq<TaskId>, i: nat)
    requires NoDuplicates(s) && i < |s|
    ensures DepSet(s[i..]) - {s[i]} == DepSet(s[i + 1..])
    ensures s[i] in DepSet(s[i..])
  {
    assert s[i..] == [s[i]] + s[i + 1..];
  }

  lemma {:induction false} SnocDistinct(s: seq<TaskId>, x: TaskId)
    requires NoDuplicates(s) && x !in s
    ensures NoDuplicates(s + [x])
  {
    forall i | 0 <= i < |s| ensures s[i] != x {
      assert s[i] in s;
    }
  }

  /** The inner loop: one decrement for every dependent of the task just taken. */
  method PayDependents(
    ghost g: Graph, ghost done: set<TaskId>, row: seq<TaskId>,
    indegree: map<TaskId, int>, ready: seq<TaskId>)
    returns (indegree': map<TaskId, int>, ready': seq<TaskId>)
    requires KahnState(g, done, indegree, ready, DepSet(row))
    requires NoDuplicates(row) && NoDuplicates(ready) && DepSet(row) !! done
    ensures KahnState(g, done, indegree', ready', {}) && NoDuplicates(ready')
  {
    indegree', ready' := indegree, ready;
    assert row[0..] == row;
    for i := 0 to |row|
      invariant NoDuplicates(ready') && KahnState(g, done, indegree', ready', DepSet(row[i..]))
    {
      var dependent := row[i];
      assert dependent in DepSet(row);
      RestAfter(row, i);
      ghost var enlarged := if indegree'[dependent] == 1 then ready' + [dependent] else ready';
      PayOwed(g, done, indegree', ready', DepSet(row[i..]), dependent, enlarged);
      SnocDistinct(ready', dependent);
      indegree' := indegree'[dependent := indegree'[dependent] - 1];
      if indegree'[dependent] == 0 {
        ready' := ready' + [dependent];
      }
    }
    assert DepSet(row[|row|..]) == {};
  }

  lemma {:induction false} LastReady(ready: seq<TaskId>)
    requires NoDuplicates(ready) && ready != []
    ensures NoDuplicates(ready[..|ready| - 1])
    ensures forall y :: y in ready[..|ready| - 1] <==> y in ready && y != ready[|ready| - 1]
  {
    var last := |ready| - 1;
    forall y | y in ready && y != ready[last] ensures y in ready[..last] {
      var i :| 0 <= i < |ready| && ready[i] == y;
      assert ready[..last][i] == y;
    }
  }

  /** A ready task can be ranked next, and none of its dependents was taken before it. */
  lemma {:induction false} ReadyIsNext(
    g: Graph, done: set<TaskId>, indegree: map<TaskId, int>, ready: seq<TaskId>, rank: map<TaskId, nat>,
    x: TaskId, row: seq<TaskId>)
    requires KahnState(g, done, indegree, ready, {}) && PartialRank(g, done, rank)
    requires x in ready && (x in g ==> x !in g[x])
    requires forall y :: y in row <==> y in g && x in g[y]
    ensures x in g && x !in done && PartialRank(g, done + {x}, rank[x := |done|])
    ensures DepSet(row) !! (done + {x})
  {
    assert CountRight(g, done, indegree, {}, x) && ReadyRight(done, indegree, ready, x);
    NothingLeft(g[x], done);
    PeelOne(g, done, rank, x);
    forall y | y in DepSet(row) ensures y !in done + {x} {
      assert y in g && x in g[y];
    }
  }

  /**
   Accepts exactly the plans that have a rank function; rejects exactly those with a cycle. The unvisited
   tasks then contain a cycle, and are exactly those on a cycle or behind one.
   */
  method AssertAcyclic(tasks: seq<Task>) returns (ok: bool, ghost unvisited: set<TaskId>)
    requires WellFormed(tasks)
    ensures ok <==> Acyclic(DepGraph(tasks))
    ensures !ok <==> Cyclic(DepGraph(tasks))
    ensures !ok ==> CycleWithin(DepGraph(tasks), unvisited)
    ensures forall x :: x in unvisited <==> x in DepGraph(tasks) && BehindCycle(DepGraph(tasks), x)
    ensures ok <==> unvisited == {}
  {
    ghost var g := DepGraph(tasks);
    var indegree := Indegrees(tasks);
    var dependents := BuildDependents(tasks);
    var ready := Roots(tasks);
    var visited := 0;
    ghost var done: set<TaskId>, rank: map<TaskId, nat> := {}, map[];
    KahnStarts(tasks);
    while ready != []
      invariant NoDuplicates(ready) && KahnState(g, done, indegree, ready, {})
      invariant PartialRank(g, done, rank)
      invariant visited == |done|
      decreases g.Keys - done
    {
      var id := ready[|ready| - 1];
      assert ReadyRight(done, indegree, ready, id);
      LastReady(ready);
      NoSelfDependency(tasks, id);
      ReadyIsNext(g, done, indegree, ready, rank, id, dependents[id]);
      TakeReady(g, done, indegree, ready, id, ready[..|ready| - 1], DepSet(dependents[id]));
      ready := ready[..|ready| - 1];
      done, rank := done + {id}, rank[id := |done|];
      visited := visited + 1;
      indegree, ready := PayDependents(g, done, dependents[id], indegree, ready);
    }
    NothingReady(g, done, indegree, rank);
    GraphKeys(tasks);
    ok, unvisited := visited == |tasks|, g.Keys - done;
    assert |unvisited| == |tasks| - visited;
  }

  // ---------------------------------------------------------------- plan admission

  lemma {:induction false} RepeatsShrink(deps: seq<TaskId>)
    ensures NoDuplicates(deps) <==> |DepSet(deps)| == |deps|
    ensures |DepSet(deps)| <= |deps|
  {
    if deps != [] {
      var rest := deps[..|deps| - 1];
      var last := deps[|deps| - 1];
      RepeatsShrink(rest);
      assert DepSet(deps) == DepSet(rest) + {last};
      if last in rest {
        assert DepSet(deps) == DepSet(rest);
        assert exists i | 0 <= i < |rest| :: rest[i] == last;
      } else if NoDuplicates(rest) {
        SnocDistinct(rest, last);
        assert rest + [last] == deps;
      } else {
        var i, j :| 0 <= i < j < |rest| && rest[i] == rest[j];
        assert deps[i] == deps[j];
      }
    }
  }

  ghost predicate TaskDefect(t: Task, known: set<TaskId>, error: PlanError) {
    match error
    case RepeatedDependency(id) => t.id == id && !NoDuplicates(t.deps)
    case SelfDependency(id) => t.id == id && id in t.deps
    case UnknownDependency(id) => t.id == id && !(DepSet(t.deps) <= known)
    case _ => false
  }

  ghost predicate UsesFile(tasks: seq<Task>, i: nat, file: Path) {
    exists k | 0 <= k < i && k < |tasks| :: tasks[k].file == file
  }

  /** Each reported reason is a fact about the plan. */
  ghost predicate Justified(tasks: seq<Task>, error: PlanError) {
    match error
    case DuplicateTaskId => !DistinctIds(tasks)
    case SharedPath(file) => exists i | 0 <= i < |tasks| :: UsesFile(tasks, i, file) && tasks[i].file == file
    case CyclicDependencies => DistinctIds(tasks) && Cyclic(DepGraph(tasks))
    case _ => exists i | 0 <= i < |tasks| :: TaskDefect(tasks[i], DepSet(Ids(tasks)), error)
  }

  lemma {:induction false} DistinctIdsByCount(tasks: seq<Task>)
    ensures DistinctIds(tasks) <==> |DepSet(Ids(tasks))| == |tasks|
  {
    RepeatsShrink(Ids(tasks));
    if DistinctIds(tasks) {
      assert NoDuplicates(Ids(tasks));
    } else {
      var i, j :| 0 <= i < j < |tasks| && tasks[i].id == tasks[j].id;
      assert Ids(tasks)[i] == Ids(tasks)[j];
    }
  }

  method CheckDependencies(t: Task, known: set<TaskId>) returns (error: Option<PlanError>)
    ensures error.None? <==> GoodDependencies(t, known)
    ensures error.Some? ==> TaskDefect(t, known, error.value)
  {
    RepeatsShrink(t.deps);
    if |t.deps| != |DepSet(t.deps)| {
      return Some(RepeatedDependency(t.id));
    }
    if t.id in t.deps {
      return Some(SelfDependency(t.id));
    }
    var unknown := DepSet(t.deps) - known;
    if unknown != {} {
      return Some(UnknownDependency(t.id));
    }
    forall d | d in DepSet(t.deps) ensures d in known {
      assert d !in unknown;
    }
    error := None;
  }

  lemma {:induction false} GoodSoFar(tasks: seq<Task>)
    requires DistinctIds(tasks) && DistinctFiles(tasks)
    requires forall k | 0 <= k < |tasks| :: GoodDependencies(tasks[k], DepSet(Ids(tasks)))
    ensures WellFormed(tasks)
  {
    GraphKeys(tasks);
  }

  lemma {:induction false} UsesFileNext(tasks: seq<Task>, i: nat)
    requires i < |tasks|
    ensures forall f :: UsesFile(tasks, i + 1, f) <==> UsesFile(tasks, i, f) || f == tasks[i].file
  {
    forall f ensures UsesFile(tasks, i + 1, f) <==> UsesFile(tasks, i, f) || f == tasks[i].file {
      if f == tasks[i].file {
        assert tasks[i].file == f;
      }
    }
  }

  lemma {:induction false} NoFileTwice(tasks: seq<Task>)
    requires forall k | 0 <= k < |tasks| :: !UsesFile(tasks, k, tasks[k].file)
    ensures DistinctFiles(tasks)
  {
  }

  /** Admits exactly the valid plans; a rejection names a defect the plan really has. */
  method ValidateRefactorPlan(tasks: seq<Task>) returns (r: PlanResult)
    ensures r.Accepted? <==> ValidPlan(tasks)
    ensures r.Accepted? ==> r.tasks == tasks
    ensures r.Rejected? ==> Justified(tasks, r.error)
  {
    var known := DepSet(Ids(tasks));
    DistinctIdsByCount(tasks);
    if |known| != |tasks| {
      return Rejected(DuplicateTaskId);
    }
    GraphKeys(tasks);
    var seen: set<Path> := {};
    for i := 0 to |tasks|
      invariant forall k | 0 <= k < i :: GoodDependencies(tasks[k], known)
      invariant forall f :: f in seen <==> UsesFile(tasks, i, f)
      invariant forall k | 0 <= k < i :: !UsesFile(tasks, k, tasks[k].file)
    {
      var task := tasks[i];
      var error := CheckDependencies(task, known);
      if error.Some? {
        return Rejected(error.value);
      }
      if task.file in seen {
        return Rejected(SharedPath(task.file));
      }
      UsesFileNext(tasks, i);
      seen := seen + {task.file};
    }
    NoFileTwice(tasks);
    GoodSoFar(tasks);
    var acyclic, unvisited := AssertAcyclic(tasks);
    r := if acyclic then Accepted(tasks) else Rejected(CyclicDependencies);
  }

  // ---------------------------------------------------------------- downstream of a set of tasks

  ghost predicate Affected(g: Graph, roots: set<TaskId>, x: TaskId) {
    exists root | root in roots :: Reaches(g, root, x)
  }

  ghost function AffectedSet(g: Graph, roots: set<TaskId>): set<TaskId> {
    set x | x in g && Affected(g, roots, x)
  }

  function Select(ids: seq<TaskId>, keep: set<TaskId>): seq<TaskId> {
    if ids == [] then []
    else Select(ids[..|ids| - 1], keep) + if ids[|ids| - 1] in keep then [ids[|ids| - 1]] else []
  }

  lemma {:induction false} SelectMembers(ids: seq<TaskId>, keep: set<TaskId>)
    ensures forall x :: x in Select(ids, keep) <==> x in ids && x in keep
  {
    if ids != [] {
      SelectMembers(ids[..|ids| - 1], keep);
      assert ids == ids[..|ids| - 1] + [ids[|ids| - 1]];
    }
  }

  lemma {:induction false} SelectSame(ids: seq<TaskId>, keep: set<TaskId>, keep': set<TaskId>)
    requires forall x | x in ids :: x in keep <==> x in keep'
    ensures Select(ids, keep) == Select(ids, keep')
  {
    if ids != [] {
      SelectSame(ids[..|ids| - 1], keep, keep');
    }
  }

  /** The affected tasks, in plan order. */
  ghost function Downstream(tasks: seq<Task>, roots: set<TaskId>): seq<TaskId> {
    Select(Ids(tasks), AffectedSet(DepGraph(tasks), roots))
  }

  lemma {:induction false} RootsAndReachable(g: Graph, roots: set<TaskId>, affected: set<TaskId>)
    requires roots <= affected
    requires forall x | x in affected :: x in roots || (x in g && Affected(g, roots, x))
    requires forall x, d | x in g && d in g[x] && d in affected :: x in affected
    ensures forall x | x in g :: x in affected <==> Affected(g, roots, x)
  {
    forall x | x in g ensures x in affected <==> Affected(g, roots, x) {
      if x in roots {
        ReachesItself(g, x);
      }
      if Affected(g, roots, x) {
        var root :| root in roots && Reaches(g, root, x);
        var c :| ChainBetween(g, c, root, x);
        DownwardClosedContains(g, affected, c);
      }
    }
  }

  ghost predicate OnlyAffected(g: Graph, roots: set<TaskId>, affected: set<TaskId>) {
    roots <= affected && forall x | x in affected :: x in roots || (x in g && Affected(g, roots, x))
  }

  ghost predicate AllSettled(tasks: seq<Task>, i: nat, affected: set<TaskId>)
    requires i <= |tasks|
  {
    forall k | 0 <= k < i :: Settled(tasks[k], affected)
  }

  /** When no task is left to be added, the set is what the roots reach. */
  lemma {:induction false} SettledIsReachable(tasks: seq<Task>, roots: set<TaskId>, affected: set<TaskId>)
    requires WellFormed(tasks) && OnlyAffected(DepGraph(tasks), roots, affected) && AllSettled(tasks, |tasks|, affected)
    ensures Select(Ids(tasks), affected) == Downstream(tasks, roots)
  {
    var g := DepGraph(tasks);
    GraphKeys(tasks);
    forall x, d | x in g && d in g[x] && d in affected ensures x in affected {
      var k := GraphTask(tasks, x);
      assert Settled(tasks[k], affected);
    }
    RootsAndReachable(g, roots, affected);
    SelectSame(Ids(tasks), affected, AffectedSet(g, roots));
  }

  /** The sweeps grow the set until it is exactly what the roots reach. */
  method DownstreamTaskIds(tasks: seq<Task>, roots: set<TaskId>) returns (ids: seq<TaskId>)
    requires WellFormed(tasks)
    ensures ids == Downstream(tasks, roots)
  {
    ghost var g := DepGraph(tasks);
    GraphKeys(tasks);
    var affected := roots;
    var changed := true;
    while changed
      invariant OnlyAffected(g, roots, affected)
      invariant !changed ==> AllSettled(tasks, |tasks|, affected)
      decreases g.Keys - affected, changed
    {
      changed := false;
      ghost var before := affected;
      for i := 0 to |tasks|
        invariant before <= affected && (!changed ==> affected == before)
        invariant changed ==> g.Keys - affected < g.Keys - before
        invariant OnlyAffected(g, roots, affected)
        invariant !changed ==> AllSettled(tasks, i, affected)
      {
        var task := tasks[i];
        TaskInGraph(tasks, i);
        if task.id in affected {
          continue;
        }
        if exists d | d in task.deps :: d in affected {
          ghost var d :| d in task.deps && d in affected;
          AffectedStep(tasks, roots, i, d);
          affected := affected + {task.id};
          changed := true;
        }
      }
    }
    SettledIsReachable(tasks, roots, affected);
    ids := Select(Ids(tasks), affected);
  }

  ghost predicate Settled(t: Task, affected: set<TaskId>) {
    t.id in affected || forall d | d in t.deps :: d !in affected
  }

  lemma {:induction false} AffectedStep(tasks: seq<Task>, roots: set<TaskId>, i: nat, d: TaskId)
    requires WellFormed(tasks) && i < |tasks| && d in tasks[i].deps
    requires d in roots || Affected(DepGraph(tasks), roots, d)
    ensures Affected(DepGraph(tasks), roots, tasks[i].id)
  {
    var g := DepGraph(tasks);
    TaskInGraph(tasks, i);
    assert GoodDependencies(tasks[i], g.Keys);
    assert d in DepSet(tasks[i].deps);
    if d in roots {
      ReachesItself(g, d);
    }
    var root :| root in roots && Reaches(g, root, d);
    ReachesStep(g, root, d, tasks[i].id);
  }

  // ---------------------------------------------------------------- read authority of a task

  ghost function VisibleSet(g: Graph, active: TaskId): set<TaskId> {
    set x | x in g && Reaches(g, x, active)
  }

  ghost predicate Known(g: Graph, active: TaskId, x: TaskId) {
    x in g ==> Reaches(g, x, active)
  }

  /** A set of dependencies of `active` that is closed under dependencies holds all of them. */
  lemma {:induction false} ClosedSetIsVisible(g: Graph, visible: set<TaskId>, active: TaskId)
    requires active in visible && visible <= g.Keys
    requires forall x | x in visible :: Reaches(g, x, active)
    requires forall x, d | x in visible && d in g[x] :: d in visible
    ensures visible == VisibleSet(g, active)
  {
    forall x ensures x in visible <==> x in VisibleSet(g, active) {
      if x in VisibleSet(g, active) {
        var c :| ChainBetween(g, c, x, active);
        UpwardClosedContains(g, visible, c);
      }
    }
  }

  /** Everything visible is a dependency of `active`, and what it needs is visible or pending. */
  ghost predicate Exploring(g: Graph, active: TaskId, visible: set<TaskId>, pending: seq<TaskId>) {
    && active in visible && visible <= g.Keys
    && (forall x | x in visible :: Reaches(g, x, active))
    && (forall x | x in pending :: Known(g, active, x))
    && (forall x | x in visible :: NeedsMet(g, visible, pending, x))
  }

  ghost predicate NeedsMet(g: Graph, visible: set<TaskId>, pending: seq<TaskId>, x: TaskId) {
    x in g ==> forall d | d in g[x] :: d in visible || d in pending
  }

  lemma {:induction false} ExploringSkips(
    g: Graph, active: TaskId, visible: set<TaskId>, pending: seq<TaskId>, rest: seq<TaskId>, id: TaskId)
    requires Closed(g) && Exploring(g, active, visible, pending) && pending == rest + [id]
    requires id in visible || id !in g
    ensures Exploring(g, active, visible, rest)
  {
    forall x | x in visible ensures NeedsMet(g, visible, rest, x) {
      assert NeedsMet(g, visible, pending, x);
    }
  }

  lemma {:induction false} ExploringVisits(
    g: Graph, active: TaskId, visible: set<TaskId>, pending: seq<TaskId>, rest: seq<TaskId>, id: TaskId,
      deps: seq<TaskId>)
    requires Exploring(g, active, visible, pending) && pending == rest + [id] && id in g
    requires forall d :: d in deps <==> d in g[id]
    requires forall d | d in deps :: Known(g, active, d)
    ensures Exploring(g, active, visible + {id}, rest + deps)
  {
    assert Known(g, active, id);
    forall x | x in visible + {id} ensures NeedsMet(g, visible + {id}, rest + deps, x) {
      assert x in visible ==> NeedsMet(g, visible, pending, x);
    }
  }

  /** The worklist turns to a task that is not visible yet. */
  lemma {:induction false} ExploringTask(
    tasks: seq<Task>, active: TaskId, visible: set<TaskId>, pending: seq<TaskId>, rest: seq<TaskId>, id: TaskId)
    requires WellFormed(tasks) && id in DepGraph(tasks) && id in ById(tasks)
    requires Exploring(DepGraph(tasks), active, visible, pending) && pending == rest + [id]
    ensures Exploring(DepGraph(tasks), active, visible + {id}, rest + ById(tasks)[id].deps)
  {
    assert Known(DepGraph(tasks), active, id);
    DependenciesReach(tasks, id, active);
    ExploringVisits(DepGraph(tasks), active, visible, pending, rest, id, ById(tasks)[id].deps);
  }

  lemma {:induction false} ExploringStarts(tasks: seq<Task>, active: TaskId)
    requires WellFormed(tasks) && active in DepGraph(tasks) && active in ById(tasks)
    ensures Exploring(DepGraph(tasks), active, {active}, ById(tasks)[active].deps)
  {
    ReachesItself(DepGraph(tasks), active);
    DependenciesReach(tasks, active, active);
  }

  lemma {:induction false} ExploredIsVisible(g: Graph, active: TaskId, visible: set<TaskId>)
    requires Exploring(g, active, visible, [])
    ensures visible == VisibleSet(g, active)
  {
    forall x, d | x in visible && d in g[x] ensures d in visible {
      assert NeedsMet(g, visible, [], x);
    }
    ClosedSetIsVisible(g, visible, active);
  }

  /** The worklist over the active task and its dependencies ends with everything they depend on. */
  method VisibleTaskIds(tasks: seq<Task>, byId: map<TaskId, Task>, active: TaskId) returns (visible: set<TaskId>)
    requires WellFormed(tasks) && byId == ById(tasks) && active in byId
    ensures visible == VisibleSet(DepGraph(tasks), active)
  {
    ghost var g := DepGraph(tasks);
    GraphKeys(tasks);
    WellFormedIsClosed(tasks);
    ExploringStarts(tasks, active);
    visible := {active};
    var pending := byId[active].deps;
    while pending != []
      invariant Exploring(g, active, visible, pending)
      decreases g.Keys - visible, |pending|
    {
      ghost var before := pending;
      var id := pending[|pending| - 1];
      pending := pending[..|pending| - 1];
      assert before == pending + [id];
      if id in visible || id !in byId {
        ExploringSkips(g, active, visible, before, pending, id);
        continue;
      }
      ExploringTask(tasks, active, visible, before, pending, id);
      visible := visible + {id};
      pending := pending + byId[id].deps;
    }
    ExploredIsVisible(g, active, visible);
  }

  /** `None` leaves reading unrestricted: there is no plan, or no task is active. */
  method AuthorizedTaskPaths(plan: Option<seq<Task>>, active: Option<TaskId>) returns (r: Option<set<Path>>)
    requires plan.Some? ==> WellFormed(plan.value)
    ensures r.None? <==> plan.None? || active.None?
    ensures r.Some? && active.value !in DepGraph(plan.value) ==> r.value == {}
    ensures r.Some? && active.value in DepGraph(plan.value) ==>
              r.value == set x | x in ById(plan.value) && x in VisibleSet(DepGraph(plan.value), active.value)
                           :: ById(plan.value)[x].file
  {
    if plan.None? || active.None? {
      return None;
    }
    var byId := ById(plan.value);
    GraphKeys(plan.value);
    if active.value !in byId {
      return Some({});
    }
    var visible := VisibleTaskIds(plan.value, byId, active.value);
    r := Some(set x | x in byId && x in visible :: byId[x].file);
  }

  lemma {:induction false} DependenciesReach(tasks: seq<Task>, x: TaskId, active: TaskId)
    requires WellFormed(tasks) && x in DepGraph(tasks) && Reaches(DepGraph(tasks), x, active)
    ensures x in ById(tasks) && DepSet(ById(tasks)[x].deps) == DepGraph(tasks)[x]
    ensures forall d | d in ById(tasks)[x].deps :: Known(DepGraph(tasks), active, d)
  {
    var g := DepGraph(tasks);
    var i := GraphTask(tasks, x);
    TaskInGraph(tasks, i);
    forall d | d in tasks[i].deps ensures Known(g, active, d) {
      assert d in g[x];
      if d in g {
        ReachesStepUp(g, d, x, active);
      }
    }
  }
}
