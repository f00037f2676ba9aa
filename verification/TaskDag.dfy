/**
 The plan drawn as a layered graph (frontend/src/composables/useTaskDag.ts). Titles, identifier
 patterns and path rules are one verdict per task; everything the layout computes is modelled.
 */
module TaskDag {
  import Common
  import opened Graphs
  import opened Plans
  import opened DagLevels

  const ARCHITECT := TaskId("architect_task")
  const REVIEWER := TaskId("reviewer_task")

  datatype Node = Node(id: TaskId, x: int, y: int)
  datatype Edge = Edge(source: TaskId, target: TaskId)

  /** One to twenty well-named tasks with distinct files and good dependencies. */
  ghost predicate Admissible(tasks: seq<Task>, wellNamed: seq<bool>) {
    && 1 <= |tasks| <= 20
    && (forall i | 0 <= i < |tasks| :: tasks[i].id != ARCHITECT && tasks[i].id != REVIEWER)
    && (forall i | 0 <= i < |wellNamed| :: wellNamed[i])
    && WellFormed(tasks) && DistinctFiles(tasks)
  }

  /** A plan the frontend shows. */
  ghost predicate Displayable(tasks: seq<Task>, wellNamed: seq<bool>) {
    Admissible(tasks, wellNamed) && Acyclic(DepGraph(tasks))
  }

  function ColumnX(level: int): int { 50 + level * 270 }

  function RowY(index: int): int { 80 + index * 140 }

  // ---------------------------------------------------------------- admission

  lemma {:induction false} Reserved(tasks: seq<Task>, id: TaskId)
    ensures id in DepSet(Ids(tasks)) <==> exists i | 0 <= i < |tasks| :: tasks[i].id == id
  {
    if i :| 0 <= i < |tasks| && tasks[i].id == id {
      assert Ids(tasks)[i] == id;
    }
  }

  ghost predicate TaskFits(tasks: seq<Task>, wellNamed: seq<bool>, taskIds: set<TaskId>, i: nat)
    requires |wellNamed| == |tasks| && i < |tasks|
  {
    GoodDependencies(tasks[i], taskIds) && wellNamed[i] && !UsesFile(tasks, i, tasks[i].file)
  }

  lemma {:induction false} FitIffAdmissible(tasks: seq<Task>, wellNamed: seq<bool>, taskIds: set<TaskId>)
    requires |wellNamed| == |tasks| && 1 <= |tasks| <= 20 && DistinctIds(tasks) && taskIds == DepSet(Ids(tasks))
    requires forall i | 0 <= i < |tasks| :: tasks[i].id != ARCHITECT && tasks[i].id != REVIEWER
    ensures Admissible(tasks, wellNamed) <==> forall i | 0 <= i < |tasks| :: TaskFits(tasks, wellNamed, taskIds, i)
  {
    GraphKeys(tasks);
    if Admissible(tasks, wellNamed) {
      forall i | 0 <= i < |tasks| ensures TaskFits(tasks, wellNamed, taskIds, i) {
        assert GoodDependencies(tasks[i], DepGraph(tasks).Keys);
      }
    }
    if forall i | 0 <= i < |tasks| :: TaskFits(tasks, wellNamed, taskIds, i) {
      forall i | 0 <= i < |tasks|
        ensures GoodDependencies(tasks[i], taskIds) && wellNamed[i] && !UsesFile(tasks, i, tasks[i].file)
      {
        assert TaskFits(tasks, wellNamed, taskIds, i);
      }
    }
  }

  /** Everything but the cycle test. */
  method CheckTasks(tasks: seq<Task>, wellNamed: seq<bool>) returns (ok: bool)
    requires |wellNamed| == |tasks|
    ensures ok <==> Admissible(tasks, wellNamed)
  {
    if |tasks| == 0 || |tasks| > 20 {
      return false;
    }
    var taskIds := DepSet(Ids(tasks));
    DistinctIdsByCount(tasks);
    Reserved(tasks, ARCHITECT);
    Reserved(tasks, REVIEWER);
    if |taskIds| != |tasks| || ARCHITECT in taskIds || REVIEWER in taskIds {
      return false;
    }
    FitIffAdmissible(tasks, wellNamed, taskIds);
    var paths: set<Common.Path> := {};
    for i := 0 to |tasks|
      invariant forall k | 0 <= k < i :: TaskFits(tasks, wellNamed, taskIds, k)
      invariant forall f :: f in paths <==> UsesFile(tasks, i, f)
    {
      var task := tasks[i];
      var error := CheckDependencies(task, taskIds);
      if !wellNamed[i] || task.file in paths || error.Some? {
        assert !TaskFits(tasks, wellNamed, taskIds, i);
        return false;
      }
      UsesFileNext(tasks, i);
      paths := paths + {task.file};
    }
    ok := true;
  }

  // ---------------------------------------------------------------- columns

  /** The first `n` tasks of one level, in plan order. */
  function Column(tasks: seq<Task>, levels: map<TaskId, nat>, n: nat, level: nat): seq<TaskId>
    requires n <= |tasks|
  {
    if n == 0 then []
    else
      var id := tasks[n - 1].id;
      Column(tasks, levels, n - 1, level) + if id in levels && levels[id] == level then [id] else []
  }

  lemma {:induction false} ColumnMembers(tasks: seq<Task>, levels: map<TaskId, nat>, n: nat, level: nat)
    requires DistinctIds(tasks) && n <= |tasks|
    ensures NoDuplicates(Column(tasks, levels, n, level))
    ensures forall x :: x in Column(tasks, levels, n, level) <==>
                        x in levels && levels[x] == level && exists k | 0 <= k < n :: tasks[k].id == x
  {
    if n > 0 {
      ColumnMembers(tasks, levels, n - 1, level);
      var shorter := Column(tasks, levels, n - 1, level);
      forall i | 0 <= i < |shorter| ensures shorter[i] != tasks[n - 1].id {
        assert shorter[i] in shorter;
      }
    }
  }

  /** The columns built from the first `n` tasks, and the levels in the order they first appear. */
  ghost predicate ColumnRight(
    tasks: seq<Task>, levels: map<TaskId, nat>, n: nat, byLevel: map<nat, seq<TaskId>>, order: seq<nat>, level: nat)
    requires n <= |tasks|
  {
    && (level in order <==> level in byLevel)
    && (level in byLevel <==> Column(tasks, levels, n, level) != [])
    && (level in byLevel ==> byLevel[level] == Column(tasks, levels, n, level))
  }

  method GroupByLevel(tasks: seq<Task>, levels: map<TaskId, nat>)
    returns (byLevel: map<nat, seq<TaskId>>, order: seq<nat>)
    requires forall i | 0 <= i < |tasks| :: tasks[i].id in levels
    ensures NoDuplicates(order)
    ensures forall level :: ColumnRight(tasks, levels, |tasks|, byLevel, order, level)
  {
    byLevel, order := map[], [];
    for i := 0 to |tasks|
      invariant NoDuplicates(order)
      invariant forall level :: ColumnRight(tasks, levels, i, byLevel, order, level)
    {
      ghost var before, known, next := byLevel, order, i + 1;
      var level := levels[tasks[i].id];
      assert ColumnRight(tasks, levels, i, before, known, level);
      if level in byLevel {
        byLevel := byLevel[level := byLevel[level] + [tasks[i].id]];
      } else {
        forall k | 0 <= k < |order| ensures order[k] != level {
          assert order[k] in order;
        }
        byLevel, order := byLevel[level := [tasks[i].id]], order + [level];
      }
      forall l ensures ColumnRight(tasks, levels, next, byLevel, order, l) {
        assert ColumnRight(tasks, levels, i, before, known, l);
      }
    }
  }

  // ---------------------------------------------------------------- nodes

  function ColumnNodes(column: seq<TaskId>, level: nat, n: nat): (nodes: seq<Node>)
    requires n <= |column|
  {
    if n == 0 then []
    else ColumnNodes(column, level, n - 1) + [Node(column[n - 1], ColumnX(level), RowY(n - 1))]
  }

  function TaskNodes(byLevel: map<nat, seq<TaskId>>, order: seq<nat>, k: nat): seq<Node>
    requires k <= |order| && forall level | level in order :: level in byLevel
  {
    if k == 0 then []
    else
      TaskNodes(byLevel, order, k - 1)
      + ColumnNodes(byLevel[order[k - 1]], order[k - 1], |byLevel[order[k - 1]]|)
  }

  /** A node stands in the column of its level, in the row given by its place there. */
  ghost predicate InColumn(byLevel: map<nat, seq<TaskId>>, level: nat, n: Node) {
    level in byLevel && exists i | 0 <= i < |byLevel[level]| :: n == Node(byLevel[level][i], ColumnX(level), RowY(i))
  }

  ghost predicate Apart(nodes: seq<Node>) {
    forall i, j | 0 <= i < j < |nodes| :: nodes[i].x != nodes[j].x || nodes[i].y != nodes[j].y
  }

  lemma {:induction false} ColumnNodesAt(column: seq<TaskId>, level: nat, n: nat)
    requires n <= |column|
    ensures |ColumnNodes(column, level, n)| == n
    ensures forall i | 0 <= i < n :: ColumnNodes(column, level, n)[i] == Node(column[i], ColumnX(level), RowY(i))
  {
    if n > 0 {
      ColumnNodesAt(column, level, n - 1);
    }
  }

  lemma {:induction false} TaskNodesInColumns(byLevel: map<nat, seq<TaskId>>, order: seq<nat>, k: nat)
    requires k <= |order| && forall level | level in order :: level in byLevel
    ensures forall n :: n in TaskNodes(byLevel, order, k) <==> exists j | 0 <= j < k :: InColumn(byLevel, order[j], n)
  {
    if k > 0 {
      var level := order[k - 1];
      TaskNodesInColumns(byLevel, order, k - 1);
      ColumnNodesAt(byLevel[level], level, |byLevel[level]|);
      forall n ensures n in TaskNodes(byLevel, order, k) <==> exists j | 0 <= j < k :: InColumn(byLevel, order[j], n) {
        if InColumn(byLevel, level, n) {
          var i :| 0 <= i < |byLevel[level]| && n == Node(byLevel[level][i], ColumnX(level), RowY(i));
          assert ColumnNodes(byLevel[level], level, |byLevel[level]|)[i] == n;
        }
      }
    }
  }

  lemma {:induction false} TaskNodesApart(byLevel: map<nat, seq<TaskId>>, order: seq<nat>, k: nat)
    requires k <= |order| && NoDuplicates(order) && forall level | level in order :: level in byLevel
    ensures Apart(TaskNodes(byLevel, order, k))
  {
    if k > 0 {
      var level := order[k - 1];
      var shorter := TaskNodes(byLevel, order, k - 1);
      TaskNodesApart(byLevel, order, k - 1);
      TaskNodesInColumns(byLevel, order, k - 1);
      ColumnNodesAt(byLevel[level], level, |byLevel[level]|);
      forall i | 0 <= i < |shorter| ensures shorter[i].x != ColumnX(level) {
        assert shorter[i] in shorter;
        var j :| 0 <= j < k - 1 && InColumn(byLevel, order[j], shorter[i]);
      }
    }
  }

  function Highest(s: seq<nat>): (m: nat)
    requires s != []
    ensures m in s && forall v | v in s :: v <= m
  {
    if |s| == 1 then s[0]
    else
      var rest := Highest(s[1..]);
      assert s == [s[0]] + s[1..];
      if s[0] < rest then rest else s[0]
  }

  /** The levels of the tasks, one by one. */
  function LevelValues(tasks: seq<Task>, levels: map<TaskId, nat>): seq<nat>
    requires forall i | 0 <= i < |tasks| :: tasks[i].id in levels
  {
    seq(|tasks|, i requires 0 <= i < |tasks| => levels[tasks[i].id])
  }

  function ColumnSizes(byLevel: map<nat, seq<TaskId>>, order: seq<nat>): seq<nat>
    requires forall level | level in order :: level in byLevel
  {
    seq(|order|, i requires 0 <= i < |order| => |byLevel[order[i]]|)
  }

  ghost predicate SameDepth(g: Graph, x: TaskId, y: TaskId) {
    exists n :: LongestChain(g, x, n) && LongestChain(g, y, n)
  }

  /** How many earlier tasks of the plan share the column of task `k`. */
  ghost function EarlierInColumn(tasks: seq<Task>, k: nat): nat
    requires k < |tasks|
  {
    |set j | 0 <= j < k && SameDepth(DepGraph(tasks), tasks[j].id, tasks[k].id)|
  }

  /** The tasks of a column stand in plan order, without gaps, from the top. */
  ghost predicate RowRight(tasks: seq<Task>, n: Node) {
    forall k | 0 <= k < |tasks| && tasks[k].id == n.id :: n.y == RowY(EarlierInColumn(tasks, k))
  }

  /** Architect and reviewer stand half-way down the tallest column. */
  ghost predicate Centred(nodes: seq<Node>)
    requires |nodes| >= 2
  {
    var centre := nodes[0].y;
    && nodes[|nodes| - 1].y == centre
    && (exists i | 0 < i < |nodes| - 1 :: centre - RowY(0) == nodes[i].y - centre)
    && (forall i | 0 < i < |nodes| - 1 :: nodes[i].y - centre <= centre - RowY(0))
  }

  /** Two different nodes differ in name and place. */
  ghost predicate AllDifferent(nodes: seq<Node>) {
    (forall i, j | 0 <= i < j < |nodes| :: nodes[i].id != nodes[j].id) && Apart(nodes)
  }

  /** The architect comes first, in the leftmost column; the reviewer last, one column after the last task. */
  ghost predicate EndsRight(nodes: seq<Node>) {
    && |nodes| >= 2 && nodes[0].id == ARCHITECT && nodes[0].x == ColumnX(0) && nodes[|nodes| - 1].id == REVIEWER
    && (forall i | 0 <= i < |nodes| - 1 :: nodes[i].x + 270 <= nodes[|nodes| - 1].x)
    && (exists i | 0 <= i < |nodes| - 1 :: nodes[i].x + 270 == nodes[|nodes| - 1].x)
  }

  /** Between them stand the tasks of the plan, all of them and nothing else. */
  ghost predicate TasksShown(g: Graph, nodes: seq<Node>) {
    && (forall x | x in g :: exists i | 0 < i < |nodes| - 1 :: nodes[i].id == x)
    && (forall i | 0 < i < |nodes| - 1 :: TaskNodeRight(g, nodes[i]))
  }

  /** What the node list says about the plan. */
  ghost predicate NodesRight(g: Graph, nodes: seq<Node>) {
    EndsRight(nodes) && TasksShown(g, nodes) && AllDifferent(nodes)
  }

  /** The column of a task is the length of its longest dependency chain. */
  ghost predicate TaskNodeRight(g: Graph, n: Node) {
    n.id in g && exists level: nat :: level >= 1 && LongestChain(g, n.id, level) && n.x == ColumnX(level)
  }

  ghost predicate Levelled(tasks: seq<Task>, levels: map<TaskId, nat>) {
    && DistinctIds(tasks) && tasks != []
    && (forall i | 0 <= i < |tasks| :: tasks[i].id != ARCHITECT && tasks[i].id != REVIEWER)
    && levels.Keys == DepGraph(tasks).Keys
    && forall x | x in levels :: LongestChain(DepGraph(tasks), x, levels[x])
  }

  lemma {:induction false} LevelInGraph(tasks: seq<Task>, levels: map<TaskId, nat>, n: Node)
    requires Levelled(tasks, levels) && n.id in levels && n.x == ColumnX(levels[n.id])
    ensures levels[n.id] >= 1 && TaskNodeRight(DepGraph(tasks), n)
  {
    var g := DepGraph(tasks);
    assert LongestChain(g, n.id, levels[n.id]);
    var c :| ChainTo(g, c, n.id) && |c| == levels[n.id];
  }

  lemma {:induction false} NodeOfColumn(
    tasks: seq<Task>, levels: map<TaskId, nat>, byLevel: map<nat, seq<TaskId>>, order: seq<nat>, level: nat, n: Node)
    requires DistinctIds(tasks) && ColumnRight(tasks, levels, |tasks|, byLevel, order, level)
    requires InColumn(byLevel, level, n)
    ensures n.id in levels && levels[n.id] == level && n.x == ColumnX(level)
    ensures exists k | 0 <= k < |tasks| :: tasks[k].id == n.id
  {
    ColumnMembers(tasks, levels, |tasks|, level);
    assert n.id in Column(tasks, levels, |tasks|, level);
  }

  lemma {:induction false} SameIdSameNode(
    tasks: seq<Task>, levels: map<TaskId, nat>, byLevel: map<nat, seq<TaskId>>, order: seq<nat>,
    level: nat, level': nat, n: Node, n': Node)
    requires Levelled(tasks, levels)
    requires ColumnRight(tasks, levels, |tasks|, byLevel, order, level)
    requires ColumnRight(tasks, levels, |tasks|, byLevel, order, level')
    requires InColumn(byLevel, level, n) && InColumn(byLevel, level', n') && n.id == n'.id
    ensures n == n'
  {
    NodeOfColumn(tasks, levels, byLevel, order, level, n);
    NodeOfColumn(tasks, levels, byLevel, order, level', n');
    ColumnMembers(tasks, levels, |tasks|, level);
  }

  lemma {:induction false} TaskHasNode(
    tasks: seq<Task>, levels: map<TaskId, nat>, byLevel: map<nat, seq<TaskId>>, order: seq<nat>, x: TaskId)
    requires Levelled(tasks, levels) && x in levels
    requires ColumnRight(tasks, levels, |tasks|, byLevel, order, levels[x])
    ensures levels[x] in order && exists n :: InColumn(byLevel, levels[x], n) && n.id == x
  {
    var k := GraphTask(tasks, x);
    ColumnMembers(tasks, levels, |tasks|, levels[x]);
    var column := Column(tasks, levels, |tasks|, levels[x]);
    assert x in column;
    var i :| 0 <= i < |column| && column[i] == x;
    assert InColumn(byLevel, levels[x], Node(x, ColumnX(levels[x]), RowY(i)));
  }

  /** What the task nodes alone say about the plan. */
  ghost predicate InnerRight(g: Graph, inner: seq<Node>, rightmost: int) {
    && (forall i | 0 <= i < |inner| :: InnerNodeRight(g, inner[i], rightmost))
    && (forall i, j | 0 <= i < j < |inner| :: inner[i].id != inner[j].id)
    && (forall x | x in g :: exists i | 0 <= i < |inner| :: inner[i].id == x)
    && (exists i | 0 <= i < |inner| :: inner[i].x == rightmost)
    && Apart(inner)
  }

  ghost predicate InnerNodeRight(g: Graph, n: Node, rightmost: int) {
    n.id != ARCHITECT && n.id != REVIEWER && TaskNodeRight(g, n) && 50 < n.x <= rightmost
  }

  lemma {:induction false} InnerNodeIsRight(
    tasks: seq<Task>, levels: map<TaskId, nat>, byLevel: map<nat, seq<TaskId>>, order: seq<nat>,
    level: nat, n: Node, top: nat)
    requires Levelled(tasks, levels) && ColumnRight(tasks, levels, |tasks|, byLevel, order, level)
    requires InColumn(byLevel, level, n) && level <= top
    ensures InnerNodeRight(DepGraph(tasks), n, ColumnX(top))
  {
    NodeOfColumn(tasks, levels, byLevel, order, level, n);
    LevelInGraph(tasks, levels, n);
  }

  lemma {:induction false} TaskIsPlaced(
    tasks: seq<Task>, levels: map<TaskId, nat>, byLevel: map<nat, seq<TaskId>>, order: seq<nat>, x: TaskId)
    returns (n: Node)
    requires Levelled(tasks, levels) && x in levels
    requires ColumnRight(tasks, levels, |tasks|, byLevel, order, levels[x])
    requires forall level | level in order :: level in byLevel
    ensures n in TaskNodes(byLevel, order, |order|) && n.id == x
  {
    TaskHasNode(tasks, levels, byLevel, order, x);
    TaskNodesInColumns(byLevel, order, |order|);
    n :| InColumn(byLevel, levels[x], n) && n.id == x;
    var j :| 0 <= j < |order| && order[j] == levels[x];
    assert InColumn(byLevel, order[j], n);
  }

  lemma {:induction false} ColumnIsPlaced(byLevel: map<nat, seq<TaskId>>, order: seq<nat>, level: nat) returns (n: Node)
    requires forall l | l in order :: l in byLevel
    requires level in order && byLevel[level] != []
    ensures n in TaskNodes(byLevel, order, |order|) && n.x == ColumnX(level)
  {
    TaskNodesInColumns(byLevel, order, |order|);
    var j :| 0 <= j < |order| && order[j] == level;
    n := Node(byLevel[level][0], ColumnX(level), RowY(0));
    assert InColumn(byLevel, order[j], n);
  }

  lemma {:induction false} PlacedNodeIsRight(
    tasks: seq<Task>, levels: map<TaskId, nat>, byLevel: map<nat, seq<TaskId>>, order: seq<nat>, top: nat, n: Node)
    requires Levelled(tasks, levels)
    requires forall level :: ColumnRight(tasks, levels, |tasks|, byLevel, order, level)
    requires forall level | level in order :: level in byLevel && level <= top
    requires n in TaskNodes(byLevel, order, |order|)
    ensures InnerNodeRight(DepGraph(tasks), n, ColumnX(top))
  {
    TaskNodesInColumns(byLevel, order, |order|);
    var j :| 0 <= j < |order| && InColumn(byLevel, order[j], n);
    assert order[j] in order;
    InnerNodeIsRight(tasks, levels, byLevel, order, order[j], n, top);
  }

  lemma {:induction false} InnerIsRight(
    tasks: seq<Task>, levels: map<TaskId, nat>, byLevel: map<nat, seq<TaskId>>, order: seq<nat>, top: nat)
    requires Levelled(tasks, levels) && NoDuplicates(order)
    requires forall level :: ColumnRight(tasks, levels, |tasks|, byLevel, order, level)
    requires top in order && forall level | level in order :: level in byLevel && level <= top
    ensures InnerRight(DepGraph(tasks), TaskNodes(byLevel, order, |order|), ColumnX(top))
  {
    var g, inner := DepGraph(tasks), TaskNodes(byLevel, order, |order|);
    TaskNodesApart(byLevel, order, |order|);
    forall i | 0 <= i < |inner| ensures InnerNodeRight(g, inner[i], ColumnX(top)) {
      PlacedNodeIsRight(tasks, levels, byLevel, order, top, inner[i]);
    }
    forall i, j | 0 <= i < j < |inner| ensures inner[i].id != inner[j].id {
      InnerIdsDiffer(tasks, levels, byLevel, order, i, j);
    }
    forall x | x in g ensures exists i | 0 <= i < |inner| :: inner[i].id == x {
      var n := TaskIsPlaced(tasks, levels, byLevel, order, x);
    }
    assert ColumnRight(tasks, levels, |tasks|, byLevel, order, top);
    var n := ColumnIsPlaced(byLevel, order, top);
  }

  lemma {:induction false} FramedDifferent(inner: seq<Node>, first: Node, last: Node)
    requires AllDifferent(inner) && first.x < last.x && first.id != last.id
    requires forall n | n in inner :: n.id != first.id && n.id != last.id && first.x < n.x < last.x
    ensures AllDifferent([first] + inner + [last])
  {
    var nodes := [first] + inner + [last];
    assert forall i | 0 < i < |nodes| - 1 :: nodes[i] == inner[i - 1] && nodes[i] in inner;
  }

  function Framed(inner: seq<Node>, first: Node, last: Node): seq<Node> {
    [first] + inner + [last]
  }

  lemma {:induction false} FramedMember(inner: seq<Node>, first: Node, last: Node, i: nat)
    requires i < |inner|
    ensures Framed(inner, first, last)[i + 1] == inner[i]
  {
  }

  lemma {:induction false} FramedCovers(g: Graph, inner: seq<Node>, first: Node, last: Node, x: TaskId)
    requires InnerRight(g, inner, last.x - 270) && x in g
    ensures exists i | 0 < i < |Framed(inner, first, last)| - 1 :: Framed(inner, first, last)[i].id == x
  {
    var i :| 0 <= i < |inner| && inner[i].id == x;
    FramedMember(inner, first, last, i);
  }

  lemma {:induction false} FramedNodeRight(g: Graph, inner: seq<Node>, first: Node, last: Node, i: nat)
    requires InnerRight(g, inner, last.x - 270) && 0 < i < |Framed(inner, first, last)| - 1
    ensures InnerNodeRight(g, Framed(inner, first, last)[i], last.x - 270)
  {
    FramedMember(inner, first, last, i - 1);
    assert InnerNodeRight(g, inner[i - 1], last.x - 270);
  }

  lemma {:induction false} RightmostTask(g: Graph, inner: seq<Node>, rightmost: int) returns (k: nat)
    requires InnerRight(g, inner, rightmost)
    ensures k < |inner| && inner[k].x == rightmost
  {
    k :| 0 <= k < |inner| && inner[k].x == rightmost;
  }

  lemma {:induction false} FramedEnds(g: Graph, inner: seq<Node>, first: Node, last: Node)
    requires InnerRight(g, inner, last.x - 270)
    requires first.id == ARCHITECT && first.x == 50 && last.id == REVIEWER && last.x >= 320
    ensures EndsRight(Framed(inner, first, last))
  {
    var nodes := Framed(inner, first, last);
    var k := RightmostTask(g, inner, last.x - 270);
    FramedMember(inner, first, last, k);
    forall i | 0 < i < |nodes| - 1 ensures nodes[i].x + 270 <= last.x {
      FramedNodeRight(g, inner, first, last, i);
    }
  }

  lemma {:induction false} FramedTasks(g: Graph, inner: seq<Node>, first: Node, last: Node)
    requires InnerRight(g, inner, last.x - 270)
    ensures TasksShown(g, Framed(inner, first, last))
  {
    var nodes := Framed(inner, first, last);
    forall x | x in g ensures exists i | 0 < i < |nodes| - 1 :: nodes[i].id == x {
      FramedCovers(g, inner, first, last, x);
    }
    forall i | 0 < i < |nodes| - 1 ensures TaskNodeRight(g, nodes[i]) {
      FramedNodeRight(g, inner, first, last, i);
    }
  }

  lemma {:induction false} NodesAreRight(g: Graph, inner: seq<Node>, first: Node, last: Node)
    requires InnerRight(g, inner, last.x - 270)
    requires first.id == ARCHITECT && first.x == 50 && last.id == REVIEWER && last.x >= 320
    ensures NodesRight(g, Framed(inner, first, last))
  {
    forall n | n in inner ensures InnerNodeRight(g, n, last.x - 270) {
      var i :| 0 <= i < |inner| && inner[i] == n;
    }
    FramedDifferent(inner, first, last);
    FramedEnds(g, inner, first, last);
    FramedTasks(g, inner, first, last);
  }

  lemma {:induction false} InnerIdsDiffer(
    tasks: seq<Task>, levels: map<TaskId, nat>, byLevel: map<nat, seq<TaskId>>, order: seq<nat>, i: nat, j: nat)
    requires Levelled(tasks, levels) && NoDuplicates(order)
    requires forall level :: ColumnRight(tasks, levels, |tasks|, byLevel, order, level)
    requires forall level | level in order :: level in byLevel
    requires i < j < |TaskNodes(byLevel, order, |order|)|
    ensures TaskNodes(byLevel, order, |order|)[i].id != TaskNodes(byLevel, order, |order|)[j].id
  {
    var inner := TaskNodes(byLevel, order, |order|);
    TaskNodesInColumns(byLevel, order, |order|);
    TaskNodesApart(byLevel, order, |order|);
    assert inner[i] in inner && inner[j] in inner;
    var k :| 0 <= k < |order| && InColumn(byLevel, order[k], inner[i]);
    var k' :| 0 <= k' < |order| && InColumn(byLevel, order[k'], inner[j]);
    if inner[i].id == inner[j].id {
      SameIdSameNode(tasks, levels, byLevel, order, order[k], order[k'], inner[i], inner[j]);
    }
  }

  lemma {:induction false} TaskLevels(tasks: seq<Task>, levels: map<TaskId, nat>)
    requires Levelled(tasks, levels)
    ensures forall i | 0 <= i < |tasks| :: tasks[i].id in levels
  {
    forall i | 0 <= i < |tasks| ensures tasks[i].id in levels {
      TaskInGraph(tasks, i);
    }
  }

  /** Every column is a level of some task, and the highest level has a column. */
  lemma {:induction false} ColumnsAreLevels(
    tasks: seq<Task>, levels: map<TaskId, nat>, byLevel: map<nat, seq<TaskId>>, order: seq<nat>, top: nat)
    requires tasks != [] && DistinctIds(tasks) && forall i | 0 <= i < |tasks| :: tasks[i].id in levels
    requires forall level :: ColumnRight(tasks, levels, |tasks|, byLevel, order, level)
    requires top in LevelValues(tasks, levels) && forall v | v in LevelValues(tasks, levels) :: v <= top
    ensures top in order && forall level | level in order :: level in byLevel && level <= top
  {
    var i :| 0 <= i < |tasks| && LevelValues(tasks, levels)[i] == top;
    ColumnMembers(tasks, levels, |tasks|, top);
    assert tasks[i].id in Column(tasks, levels, |tasks|, top);
    assert ColumnRight(tasks, levels, |tasks|, byLevel, order, top);
    forall level | level in order ensures level in byLevel && level <= top {
      assert ColumnRight(tasks, levels, |tasks|, byLevel, order, level);
      ColumnMembers(tasks, levels, |tasks|, level);
      assert byLevel[level][0] in Column(tasks, levels, |tasks|, level);
      var k :| 0 <= k < |tasks| && tasks[k].id == byLevel[level][0];
      assert LevelValues(tasks, levels)[k] == level;
      assert level in LevelValues(tasks, levels);
    }
  }

  // ---------------------------------------------------------------- rows

  lemma {:induction false} ColumnPrefix(tasks: seq<Task>, levels: map<TaskId, nat>, k: nat, n: nat, level: nat)
    requires k <= n <= |tasks|
    ensures Column(tasks, levels, k, level) <= Column(tasks, levels, n, level)
  {
    if k < n {
      ColumnPrefix(tasks, levels, k, n - 1, level);
    }
  }

  predicate AtLevel(tasks: seq<Task>, levels: map<TaskId, nat>, level: nat, j: nat)
    requires j < |tasks|
  {
    tasks[j].id in levels && levels[tasks[j].id] == level
  }

  lemma {:induction false} ColumnLength(tasks: seq<Task>, levels: map<TaskId, nat>, n: nat, level: nat)
    requires n <= |tasks|
    ensures |Column(tasks, levels, n, level)|
            == |set j | 0 <= j < n && AtLevel(tasks, levels, level, j)|
  {
    if n > 0 {
      ColumnLength(tasks, levels, n - 1, level);
      var before := set j | 0 <= j < n - 1 && AtLevel(tasks, levels, level, j);
      var now := set j | 0 <= j < n && AtLevel(tasks, levels, level, j);
      assert now == if n - 1 in now then before + {n - 1} else before;
    }
  }

  lemma {:induction false} SameDepthIff(g: Graph, levels: map<TaskId, nat>, x: TaskId, y: TaskId)
    requires x in levels && y in levels && LongestChain(g, x, levels[x]) && LongestChain(g, y, levels[y])
    ensures SameDepth(g, x, y) <==> levels[x] == levels[y]
  {
    if n :| LongestChain(g, x, n) && LongestChain(g, y, n) {
      LongestIsUnique(g, x, n, levels[x]);
      LongestIsUnique(g, y, n, levels[y]);
    }
  }

  lemma {:induction false} EarlierAtLevel(tasks: seq<Task>, levels: map<TaskId, nat>, k: nat)
    requires Levelled(tasks, levels) && k < |tasks| && tasks[k].id in levels
    ensures |Column(tasks, levels, k, levels[tasks[k].id])| == EarlierInColumn(tasks, k)
  {
    var level := levels[tasks[k].id];
    var g := DepGraph(tasks);
    ColumnLength(tasks, levels, k, level);
    TaskLevels(tasks, levels);
    forall j | 0 <= j < k ensures SameDepth(g, tasks[j].id, tasks[k].id) <==> levels[tasks[j].id] == level {
      SameDepthIff(g, levels, tasks[j].id, tasks[k].id);
    }
    assert (set j | 0 <= j < k && AtLevel(tasks, levels, level, j))
        == (set j | 0 <= j < k && SameDepth(g, tasks[j].id, tasks[k].id));
  }

  lemma {:induction false} PlaceInColumn(tasks: seq<Task>, levels: map<TaskId, nat>, k: nat, i: nat)
    requires DistinctIds(tasks) && k < |tasks| && tasks[k].id in levels
    requires var column := Column(tasks, levels, |tasks|, levels[tasks[k].id]);
             i < |column| && column[i] == tasks[k].id
    ensures i == |Column(tasks, levels, k, levels[tasks[k].id])|
  {
    var level := levels[tasks[k].id];
    var shorter := Column(tasks, levels, k, level);
    ColumnPrefix(tasks, levels, k + 1, |tasks|, level);
    ColumnMembers(tasks, levels, |tasks|, level);
    assert Column(tasks, levels, k + 1, level)[|shorter|] == tasks[k].id;
  }

  lemma {:induction false} NodeInItsRow(
    tasks: seq<Task>, levels: map<TaskId, nat>, byLevel: map<nat, seq<TaskId>>, order: seq<nat>, level: nat, n: Node)
    requires Levelled(tasks, levels) && ColumnRight(tasks, levels, |tasks|, byLevel, order, level)
    requires InColumn(byLevel, level, n)
    ensures RowRight(tasks, n)
  {
    NodeOfColumn(tasks, levels, byLevel, order, level, n);
    var i :| 0 <= i < |byLevel[level]| && n == Node(byLevel[level][i], ColumnX(level), RowY(i));
    forall k | 0 <= k < |tasks| && tasks[k].id == n.id ensures n.y == RowY(EarlierInColumn(tasks, k)) {
      PlaceInColumn(tasks, levels, k, i);
      EarlierAtLevel(tasks, levels, k);
    }
  }

  lemma {:induction false} TallestColumn(byLevel: map<nat, seq<TaskId>>, order: seq<nat>, maxRows: nat)
    requires order != [] && forall level | level in order :: level in byLevel && byLevel[level] != []
    requires maxRows == Highest(ColumnSizes(byLevel, order))
    ensures forall n | n in TaskNodes(byLevel, order, |order|) :: n.y <= RowY(maxRows - 1)
    ensures exists n | n in TaskNodes(byLevel, order, |order|) :: n.y == RowY(maxRows - 1)
  {
    var sizes := ColumnSizes(byLevel, order);
    TaskNodesInColumns(byLevel, order, |order|);
    forall n | n in TaskNodes(byLevel, order, |order|) ensures n.y <= RowY(maxRows - 1) {
      var j :| 0 <= j < |order| && InColumn(byLevel, order[j], n);
      assert sizes[j] in sizes;
    }
    var j :| 0 <= j < |order| && sizes[j] == maxRows;
    assert order[j] in order;
    var n := Node(byLevel[order[j]][maxRows - 1], ColumnX(order[j]), RowY(maxRows - 1));
    assert InColumn(byLevel, order[j], n);
  }

  /** Rows and centre of the whole picture. */
  ghost predicate RowsRight(tasks: seq<Task>, nodes: seq<Node>) {
    |nodes| >= 2 && Centred(nodes) && forall i | 0 < i < |nodes| - 1 :: RowRight(tasks, nodes[i])
  }

  lemma {:induction false} CentreIsHalfway(maxRows: int, centre: int)
    requires centre == 80 + (maxRows - 1) * 140 / 2
    ensures 2 * centre == RowY(0) + RowY(maxRows - 1)
  {
    var rows := maxRows - 1;
    assert rows * 140 == 2 * (rows * 70);
    HalfOfDouble(rows * 70);
    assert centre == 80 + rows * 70;
  }

  lemma {:induction false} HalfOfDouble(n: int)
    ensures 2 * n / 2 == n
  {
  }

  lemma {:induction false} FramedInner(inner: seq<Node>, first: Node, last: Node, i: nat)
    requires 0 < i < |Framed(inner, first, last)| - 1
    ensures Framed(inner, first, last)[i] in inner
  {
    FramedMember(inner, first, last, i - 1);
  }

  lemma {:induction false} FramedCentre(inner: seq<Node>, first: Node, last: Node, bottom: int)
    requires first.y == last.y && 2 * first.y == RowY(0) + bottom
    requires forall n | n in inner :: n.y <= bottom
    requires exists n | n in inner :: n.y == bottom
    ensures Centred(Framed(inner, first, last))
  {
    var nodes := Framed(inner, first, last);
    forall i | 0 < i < |nodes| - 1 ensures nodes[i].y <= bottom {
      FramedInner(inner, first, last, i);
    }
    var n :| n in inner && n.y == bottom;
    var i :| 0 <= i < |inner| && inner[i] == n;
    FramedMember(inner, first, last, i);
  }

  lemma {:induction false} RowsAreRight(tasks: seq<Task>, inner: seq<Node>, first: Node, last: Node, maxRows: int)
    requires first.y == last.y == 80 + (maxRows - 1) * 140 / 2
    requires forall n | n in inner :: RowRight(tasks, n)
    requires forall n | n in inner :: n.y <= RowY(maxRows - 1)
    requires exists n | n in inner :: n.y == RowY(maxRows - 1)
    ensures RowsRight(tasks, Framed(inner, first, last))
  {
    CentreIsHalfway(maxRows, first.y);
    FramedCentre(inner, first, last, RowY(maxRows - 1));
    forall i | 0 < i < |inner| + 1 ensures RowRight(tasks, Framed(inner, first, last)[i]) {
      FramedInner(inner, first, last, i);
    }
  }

  method PlaceTasks(first: Node, byLevel: map<nat, seq<TaskId>>, order: seq<nat>) returns (nodes: seq<Node>)
    requires forall level | level in order :: level in byLevel
    ensures nodes == [first] + TaskNodes(byLevel, order, |order|)
  {
    nodes := [first];
    for k := 0 to |order|
      invariant nodes == [first] + TaskNodes(byLevel, order, k)
    {
      var level := order[k];
      var column := byLevel[level];
      for i := 0 to |column|
        invariant nodes == [first] + TaskNodes(byLevel, order, k) + ColumnNodes(column, level, i)
      {
        nodes := nodes + [Node(column[i], 50 + level * 270, 80 + i * 140)];
      }
    }
  }

  lemma {:induction false} AllInTheirRows(
    tasks: seq<Task>, levels: map<TaskId, nat>, byLevel: map<nat, seq<TaskId>>, order: seq<nat>)
    requires Levelled(tasks, levels)
    requires forall level :: ColumnRight(tasks, levels, |tasks|, byLevel, order, level)
    requires forall level | level in order :: level in byLevel
    ensures forall n | n in TaskNodes(byLevel, order, |order|) :: RowRight(tasks, n)
  {
    TaskNodesInColumns(byLevel, order, |order|);
    forall n | n in TaskNodes(byLevel, order, |order|) ensures RowRight(tasks, n) {
      var j :| 0 <= j < |order| && InColumn(byLevel, order[j], n);
      NodeInItsRow(tasks, levels, byLevel, order, order[j], n);
    }
  }

  method BuildColumns(tasks: seq<Task>, levels: map<TaskId, nat>)
    returns (byLevel: map<nat, seq<TaskId>>, order: seq<nat>, maxLevel: nat)
    requires Levelled(tasks, levels)
    ensures order != [] && forall level | level in order :: level in byLevel && byLevel[level] != []
    ensures InnerRight(DepGraph(tasks), TaskNodes(byLevel, order, |order|), ColumnX(maxLevel))
    ensures forall n | n in TaskNodes(byLevel, order, |order|) :: RowRight(tasks, n)
  {
    TaskLevels(tasks, levels);
    byLevel, order := GroupByLevel(tasks, levels);
    maxLevel := Highest(LevelValues(tasks, levels));
    ColumnsAreLevels(tasks, levels, byLevel, order, maxLevel);
    InnerIsRight(tasks, levels, byLevel, order, maxLevel);
    AllInTheirRows(tasks, levels, byLevel, order);
    forall level | level in order ensures byLevel[level] != [] {
      assert ColumnRight(tasks, levels, |tasks|, byLevel, order, level);
    }
  }

  lemma {:induction false} PictureIsRight(
    tasks: seq<Task>, byLevel: map<nat, seq<TaskId>>, order: seq<nat>, maxLevel: nat, maxRows: int,
    architect: Node, reviewer: Node)
    requires order != [] && forall level | level in order :: level in byLevel && byLevel[level] != []
    requires InnerRight(DepGraph(tasks), TaskNodes(byLevel, order, |order|), ColumnX(maxLevel))
    requires forall n | n in TaskNodes(byLevel, order, |order|) :: RowRight(tasks, n)
    requires maxRows == Highest(ColumnSizes(byLevel, order))
    requires architect == Node(ARCHITECT, 50, reviewer.y) && reviewer.id == REVIEWER
    requires reviewer.x == 50 + (maxLevel + 1) * 270 && reviewer.y == 80 + (maxRows - 1) * 140 / 2
    ensures var nodes := Framed(TaskNodes(byLevel, order, |order|), architect, reviewer);
            NodesRight(DepGraph(tasks), nodes) && RowsRight(tasks, nodes)
  {
    NodesAreRight(DepGraph(tasks), TaskNodes(byLevel, order, |order|), architect, reviewer);
    TallestColumn(byLevel, order, maxRows);
    RowsAreRight(tasks, TaskNodes(byLevel, order, |order|), architect, reviewer, maxRows);
  }

  method BuildNodes(tasks: seq<Task>, levels: map<TaskId, nat>) returns (nodes: seq<Node>)
    requires Levelled(tasks, levels)
    ensures NodesRight(DepGraph(tasks), nodes) && RowsRight(tasks, nodes)
  {
    var byLevel, order, maxLevel := BuildColumns(tasks, levels);
    var maxRows: int := Highest(ColumnSizes(byLevel, order));
    var centerY := 80 + (maxRows - 1) * 140 / 2;
    var architect := Node(ARCHITECT, 50, centerY);
    var reviewer := Node(REVIEWER, 50 + (maxLevel + 1) * 270, centerY);
    nodes := PlaceTasks(architect, byLevel, order);
    nodes := nodes + [reviewer];
    PictureIsRight(tasks, byLevel, order, maxLevel, maxRows, architect, reviewer);
  }

  /**
   The picture in numbers: a task whose longest chain has `level` members stands 270 to the right of one with
   a member less, the architect at 50; the first row is at 80, each further one 140 lower; and the two outer
   nodes stand half-way between the first row and the lowest one.
   */
  lemma {:induction false} PositionsInNumbers(tasks: seq<Task>, nodes: seq<Node>, i: nat, k: nat, level: nat)
    requires NodesRight(DepGraph(tasks), nodes) && RowsRight(tasks, nodes)
    requires 0 < i < |nodes| - 1 && k < |tasks| && tasks[k].id == nodes[i].id
    requires LongestChain(DepGraph(tasks), nodes[i].id, level)
    ensures nodes[i].x == 50 + 270 * level && nodes[i].y == 80 + 140 * EarlierInColumn(tasks, k)
    ensures nodes[0].x == 50 && nodes[0].y == nodes[|nodes| - 1].y
    ensures 2 * nodes[0].y >= 80 + nodes[i].y
    ensures exists j | 0 < j < |nodes| - 1 :: 2 * nodes[0].y == 80 + nodes[j].y
  {
    assert TaskNodeRight(DepGraph(tasks), nodes[i]) && RowRight(tasks, nodes[i]);
    var n: nat :| n >= 1 && LongestChain(DepGraph(tasks), nodes[i].id, n) && nodes[i].x == ColumnX(n);
    LongestIsUnique(DepGraph(tasks), nodes[i].id, n, level);
  }

  // ---------------------------------------------------------------- edges

  /** The edges drawn for one task. */
  function OwnEdges(t: Task, sink: bool): seq<Edge> {
    (if t.deps == [] then [Edge(ARCHITECT, t.id)]
     else seq(|t.deps|, j requires 0 <= j < |t.deps| => Edge(t.deps[j], t.id)))
    + if sink then [Edge(t.id, REVIEWER)] else []
  }

  predicate IsSink(dependents: map<TaskId, seq<TaskId>>, x: TaskId) {
    x !in dependents || dependents[x] == []
  }

  function AllEdges(tasks: seq<Task>, dependents: map<TaskId, seq<TaskId>>, n: nat): seq<Edge>
    requires n <= |tasks|
  {
    if n == 0 then []
    else
      var t := tasks[n - 1];
      AllEdges(tasks, dependents, n - 1) + OwnEdges(t, IsSink(dependents, t.id))
  }

  /** Dependencies, roots under the architect, sinks over the reviewer: nothing else is drawn. */
  ghost predicate IsEdge(g: Graph, e: Edge) {
    || (e.target in g && e.source in g[e.target])
    || (e.source == ARCHITECT && e.target in g && g[e.target] == {})
    || (e.target == REVIEWER && e.source in g && forall x | x in g :: e.source !in g[x])
  }

  ghost predicate EdgesRight(g: Graph, edges: seq<Edge>) {
    && (forall e :: e in edges <==> IsEdge(g, e))
    && NoDuplicates(edges)
  }

  ghost predicate OwnEdge(t: Task, sink: bool, e: Edge) {
    || (t.deps == [] && e == Edge(ARCHITECT, t.id))
    || (e.target == t.id && e.source in t.deps)
    || (sink && e == Edge(t.id, REVIEWER))
  }

  lemma {:induction false} OwnEdgeMembers(t: Task, sink: bool)
    requires NoDuplicates(t.deps) && t.id != REVIEWER
    ensures forall e :: e in OwnEdges(t, sink) <==> OwnEdge(t, sink, e)
    ensures NoDuplicates(OwnEdges(t, sink))
  {
    forall e | OwnEdge(t, sink, e) ensures e in OwnEdges(t, sink) {
      if e.target == t.id && e.source in t.deps {
        var j :| 0 <= j < |t.deps| && t.deps[j] == e.source;
        assert OwnEdges(t, sink)[j] == e;
      } else {
        assert e == OwnEdges(t, sink)[0] || e == OwnEdges(t, sink)[|OwnEdges(t, sink)| - 1];
      }
    }
  }

  lemma {:induction false} JoinDistinct(a: seq<Edge>, b: seq<Edge>)
    requires NoDuplicates(a) && NoDuplicates(b)
    requires forall i, j | 0 <= i < |a| && 0 <= j < |b| :: a[i] != b[j]
    ensures NoDuplicates(a + b)
  {
  }

  lemma {:induction false} AllEdgeMembers(tasks: seq<Task>, dependents: map<TaskId, seq<TaskId>>, n: nat)
    requires DistinctIds(tasks) && n <= |tasks|
    requires forall i | 0 <= i < |tasks| :: NoDuplicates(tasks[i].deps) && tasks[i].id != REVIEWER
    ensures forall e :: e in AllEdges(tasks, dependents, n) <==>
                        exists k | 0 <= k < n :: OwnEdge(tasks[k], IsSink(dependents, tasks[k].id), e)
    ensures NoDuplicates(AllEdges(tasks, dependents, n))
  {
    if n > 0 {
      AllEdgeMembers(tasks, dependents, n - 1);
      var t := tasks[n - 1];
      var sink := IsSink(dependents, t.id);
      OwnEdgeMembers(t, sink);
      var shorter := AllEdges(tasks, dependents, n - 1);
      forall i, j | 0 <= i < |shorter| && 0 <= j < |OwnEdges(t, sink)| ensures shorter[i] != OwnEdges(t, sink)[j] {
        assert shorter[i] in shorter && OwnEdges(t, sink)[j] in OwnEdges(t, sink);
        var k :| 0 <= k < n - 1 && OwnEdge(tasks[k], IsSink(dependents, tasks[k].id), shorter[i]);
      }
      JoinDistinct(shorter, OwnEdges(t, sink));
    }
  }

  lemma {:induction false} EdgesAreRight(tasks: seq<Task>, dependents: map<TaskId, seq<TaskId>>)
    requires WellFormed(tasks) && Inverted(DepGraph(tasks), dependents)
    requires forall i | 0 <= i < |tasks| :: tasks[i].id != REVIEWER
    ensures EdgesRight(DepGraph(tasks), AllEdges(tasks, dependents, |tasks|))
  {
    var g := DepGraph(tasks);
    forall i | 0 <= i < |tasks| ensures NoDuplicates(tasks[i].deps) {
      assert GoodDependencies(tasks[i], g.Keys);
    }
    AllEdgeMembers(tasks, dependents, |tasks|);
    forall e ensures e in AllEdges(tasks, dependents, |tasks|) <==> IsEdge(g, e) {
      if e in AllEdges(tasks, dependents, |tasks|) {
        var k :| 0 <= k < |tasks| && OwnEdge(tasks[k], IsSink(dependents, tasks[k].id), e);
        EdgeOfTask(tasks, dependents, k, e);
      }
      if IsEdge(g, e) {
        var k := TaskOfEdge(tasks, dependents, e);
      }
    }
  }

  lemma {:induction false} SinkIff(g: Graph, dependents: map<TaskId, seq<TaskId>>, x: TaskId)
    requires Inverted(g, dependents) && x in g
    ensures IsSink(dependents, x) <==> forall y | y in g :: x !in g[y]
  {
    if dependents[x] != [] {
      var y := dependents[x][0];
      assert y in dependents[x];
      assert x in g[y];
    } else {
      forall y | y in g ensures x !in g[y] {
        assert y !in dependents[x];
      }
    }
  }

  lemma {:induction false} EdgeOfTask(tasks: seq<Task>, dependents: map<TaskId, seq<TaskId>>, k: nat, e: Edge)
    requires DistinctIds(tasks) && Inverted(DepGraph(tasks), dependents) && k < |tasks|
    requires OwnEdge(tasks[k], IsSink(dependents, tasks[k].id), e)
    ensures IsEdge(DepGraph(tasks), e)
  {
    TaskInGraph(tasks, k);
    SinkIff(DepGraph(tasks), dependents, tasks[k].id);
  }

  lemma {:induction false} TaskOfEdge(tasks: seq<Task>, dependents: map<TaskId, seq<TaskId>>, e: Edge) returns (k: nat)
    requires DistinctIds(tasks) && Inverted(DepGraph(tasks), dependents) && IsEdge(DepGraph(tasks), e)
    ensures k < |tasks| && OwnEdge(tasks[k], IsSink(dependents, tasks[k].id), e)
  {
    var g := DepGraph(tasks);
    if e.target in g && (e.source in g[e.target] || (e.source == ARCHITECT && g[e.target] == {})) {
      k := GraphTask(tasks, e.target);
      if tasks[k].deps != [] {
        assert tasks[k].deps[0] in DepSet(tasks[k].deps);
      }
    } else {
      k := GraphTask(tasks, e.source);
      SinkIff(g, dependents, e.source);
    }
  }

  method BuildEdges(tasks: seq<Task>, dependents: map<TaskId, seq<TaskId>>) returns (edges: seq<Edge>)
    requires WellFormed(tasks) && Inverted(DepGraph(tasks), dependents)
    requires forall i | 0 <= i < |tasks| :: tasks[i].id != REVIEWER
    ensures EdgesRight(DepGraph(tasks), edges)
  {
    edges := [];
    for i := 0 to |tasks|
      invariant edges == AllEdges(tasks, dependents, i)
    {
      var task := tasks[i];
      ghost var before := edges;
      if task.deps == [] {
        edges := edges + [Edge(ARCHITECT, task.id)];
      } else {
        for j := 0 to |task.deps|
          invariant edges == before + OwnEdges(task, false)[..j]
        {
          edges := edges + [Edge(task.deps[j], task.id)];
        }
      }
      assert edges == before + OwnEdges(task, false);
      if IsSink(dependents, task.id) {
        edges := edges + [Edge(task.id, REVIEWER)];
      }
    }
    EdgesAreRight(tasks, dependents);
  }

  // ---------------------------------------------------------------- the composable

  class TaskDagView {
    var dagNodes: seq<Node>
    var dagEdges: seq<Edge>

    constructor ()
      ensures dagNodes == [] && dagEdges == []
    {
      dagNodes, dagEdges := [], [];
    }

    /** Shows exactly the displayable plans; a rejected plan leaves the picture as it was. */
    method InitializeDagFromPlan(tasks: seq<Task>, wellNamed: seq<bool>) returns (shown: bool)
      requires |wellNamed| == |tasks|
      modifies this
      ensures shown <==> Displayable(tasks, wellNamed)
      ensures shown ==> NodesRight(DepGraph(tasks), dagNodes) && RowsRight(tasks, dagNodes)
      ensures shown ==> EdgesRight(DepGraph(tasks), dagEdges)
      ensures !shown ==> dagNodes == old(dagNodes) && dagEdges == old(dagEdges)
    {
      shown := CheckTasks(tasks, wellNamed);
      if !shown {
        return;
      }
      var dependents := BuildDependents(tasks);
      var acyclic, levels := ComputeLevels(tasks, dependents);
      if !acyclic {
        return false;
      }
      dagNodes := BuildNodes(tasks, levels);
      dagEdges := BuildEdges(tasks, dependents);
    }
  }

  // ---------------------------------------------------------------- main results

  /** Once size, names, files and dependencies are in order, the plan is shown exactly when it has no cycle. */
  lemma {:induction false} ShownUnlessCyclic(tasks: seq<Task>, wellNamed: seq<bool>)
    requires Admissible(tasks, wellNamed)
    ensures Displayable(tasks, wellNamed) <==> !Cyclic(DepGraph(tasks))
    ensures Displayable(tasks, wellNamed) <==> ValidPlan(tasks)
  {
    WellFormedIsClosed(tasks);
    AcyclicIffNoCycle(DepGraph(tasks));
  }

  lemma {:induction false} DependencyIsLower(g: Graph, d: TaskId, x: TaskId, n: int, m: int)
    requires d in g && x in g && d in g[x] && LongestChain(g, d, n) && LongestChain(g, x, m)
    ensures n < m
  {
    var c :| ChainTo(g, c, d) && |c| == n;
    assert ChainTo(g, c + [x], x);
  }

  lemma {:induction false} OuterNodes(nodes: seq<Node>, i: nat)
    requires EndsRight(nodes) && AllDifferent(nodes) && i < |nodes|
    ensures nodes[i].id == ARCHITECT <==> i == 0
    ensures nodes[i].id == REVIEWER <==> i == |nodes| - 1
  {
  }

  /** The column of a task in the picture. */
  lemma {:induction false} ColumnOfTask(g: Graph, nodes: seq<Node>, i: nat) returns (n: nat)
    requires NodesRight(g, nodes) && ARCHITECT !in g && REVIEWER !in g && i < |nodes| && nodes[i].id in g
    ensures n >= 1 && LongestChain(g, nodes[i].id, n) && nodes[i].x == ColumnX(n)
  {
    OuterNodes(nodes, i);
    assert TaskNodeRight(g, nodes[i]);
    n :| n >= 1 && LongestChain(g, nodes[i].id, n) && nodes[i].x == ColumnX(n);
  }

  lemma {:induction false} DependencyPointsRight(g: Graph, nodes: seq<Node>, i: nat, j: nat)
    requires NodesRight(g, nodes) && Closed(g) && ARCHITECT !in g && REVIEWER !in g
    requires i < |nodes| && j < |nodes| && nodes[j].id in g && nodes[i].id in g[nodes[j].id]
    ensures nodes[i].x + 270 <= nodes[j].x
  {
    var n := ColumnOfTask(g, nodes, i);
    var m := ColumnOfTask(g, nodes, j);
    DependencyIsLower(g, nodes[i].id, nodes[j].id, n, m);
  }

  lemma {:induction false} ArchitectPointsRight(g: Graph, nodes: seq<Node>, i: nat, j: nat)
    requires NodesRight(g, nodes) && ARCHITECT !in g && REVIEWER !in g
    requires i < |nodes| && j < |nodes| && nodes[i].id == ARCHITECT && nodes[j].id in g
    ensures nodes[i].x + 270 <= nodes[j].x
  {
    OuterNodes(nodes, i);
    var m := ColumnOfTask(g, nodes, j);
  }

  lemma {:induction false} ReviewerIsReached(nodes: seq<Node>, i: nat, j: nat)
    requires EndsRight(nodes) && AllDifferent(nodes)
    requires i < |nodes| && j < |nodes| && nodes[i].id != REVIEWER && nodes[j].id == REVIEWER
    ensures nodes[i].x + 270 <= nodes[j].x
  {
    OuterNodes(nodes, i);
    OuterNodes(nodes, j);
  }

  /** Every edge of the picture points to the right, at least one column further. */
  lemma {:induction false} EdgesPointRight(g: Graph, nodes: seq<Node>, i: nat, j: nat)
    requires NodesRight(g, nodes) && Closed(g) && ARCHITECT !in g && REVIEWER !in g
    requires i < |nodes| && j < |nodes| && IsEdge(g, Edge(nodes[i].id, nodes[j].id))
    ensures nodes[i].x + 270 <= nodes[j].x
  {
    if nodes[j].id == REVIEWER {
      ReviewerIsReached(nodes, i, j);
    } else if nodes[i].id == ARCHITECT {
      ArchitectPointsRight(g, nodes, i, j);
    } else {
      DependencyPointsRight(g, nodes, i, j);
    }
  }

  ghost predicate EdgePath(g: Graph, p: seq<TaskId>, from: TaskId, to: TaskId) {
    |p| > 0 && p[0] == from && p[|p| - 1] == to && forall i | 0 < i < |p| :: IsEdge(g, Edge(p[i - 1], p[i]))
  }

  lemma {:induction false} PathFromArchitect(g: Graph, rank: map<TaskId, nat>, x: TaskId) returns (p: seq<TaskId>)
    requires Ranked(g, rank) && Closed(g) && x in g
    ensures EdgePath(g, p, ARCHITECT, x)
    decreases rank[x]
  {
    if g[x] == {} {
      p := [ARCHITECT, x];
    } else {
      var d :| d in g[x];
      p := PathFromArchitect(g, rank, d);
      p := p + [x];
    }
  }

  lemma {:induction false} PathToReviewer(
    g: Graph, rank: map<TaskId, nat>, x: TaskId, top: nat) returns (p: seq<TaskId>)
    requires Ranked(g, rank) && x in g && forall y | y in g :: rank[y] <= top
    ensures EdgePath(g, p, x, REVIEWER)
    decreases top - rank[x]
  {
    if forall y | y in g :: x !in g[y] {
      p := [x, REVIEWER];
    } else {
      var y :| y in g && x in g[y];
      p := PathToReviewer(g, rank, y, top);
      p := [x] + p;
    }
  }

  lemma {:induction false} RanksAreBounded(rank: map<TaskId, nat>, keys: set<TaskId>) returns (top: nat)
    requires keys <= rank.Keys
    ensures forall y | y in keys :: rank[y] <= top
  {
    if keys == {} {
      top := 0;
    } else {
      var x :| x in keys;
      top := RanksAreBounded(rank, keys - {x});
      top := if top < rank[x] then rank[x] else top;
    }
  }

  /** Every task of a displayed plan lies on a drawn path from the architect to the reviewer. */
  lemma {:induction false} EveryTaskIsOnAPath(tasks: seq<Task>, wellNamed: seq<bool>, x: TaskId)
    requires Displayable(tasks, wellNamed) && x in DepGraph(tasks)
    ensures exists p :: EdgePath(DepGraph(tasks), p, ARCHITECT, REVIEWER) && x in p
  {
    var g := DepGraph(tasks);
    WellFormedIsClosed(tasks);
    var rank :| Ranked(g, rank);
    var top := RanksAreBounded(rank, g.Keys);
    var up := PathFromArchitect(g, rank, x);
    var down := PathToReviewer(g, rank, x, top);
    var p := up + down[1..];
    forall i | 0 < i < |p| ensures IsEdge(g, Edge(p[i - 1], p[i])) {
      if i >= |up| {
        assert p[i] == down[i - |up| + 1];
        assert p[i - 1] == down[i - |up|];
      }
    }
    assert EdgePath(g, p, ARCHITECT, REVIEWER) && p[|up| - 1] == x;
  }
}
