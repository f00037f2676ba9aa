/**
 Dependency graphs: every task identity is mapped to the set of identities it depends on.
 One notion of dependency chain serves plan admission, scheduling, read authority and the
 layered layout.
 */
module Graphs {

  datatype TaskId = TaskId(name: string)
  type Graph = map<TaskId, set<TaskId>>

  /** Every dependency is itself a task. */
  ghost predicate Closed(g: Graph) {
    forall x | x in g :: g[x] <= g.Keys
  }

  /** A chain runs downstream: each element is a dependency of the next one. */
  ghost predicate Chain(g: Graph, c: seq<TaskId>) {
    && |c| > 0
    && (forall i | 0 <= i < |c| :: c[i] in g)
    && (forall i | 0 < i < |c| :: c[i - 1] in g[c[i]])
  }

  ghost predicate ChainBetween(g: Graph, c: seq<TaskId>, first: TaskId, last: TaskId) {
    Chain(g, c) && c[0] == first && c[|c| - 1] == last
  }

  /** `down` is `up` itself or depends on it, directly or transitively. */
  ghost predicate Reaches(g: Graph, up: TaskId, down: TaskId) {
    exists c :: ChainBetween(g, c, up, down)
  }

  /** A chain that comes back to where it started. */
  ghost predicate Cycle(g: Graph, c: seq<TaskId>) {
    Chain(g, c) && |c| >= 2 && c[0] == c[|c| - 1]
  }

  ghost predicate Cyclic(g: Graph) {
    exists c :: Cycle(g, c)
  }

  /** Some cycle runs through members of `s` alone. */
  ghost predicate CycleWithin(g: Graph, s: set<TaskId>) {
    exists c :: Cycle(g, c) && forall x | x in c :: x in s
  }

  /** `x` lies on a cycle or depends on one, directly or transitively. */
  ghost predicate BehindCycle(g: Graph, x: TaskId) {
    exists c :: Cycle(g, c) && Reaches(g, c[0], x)
  }

  ghost predicate Ranked(g: Graph, rank: map<TaskId, nat>) {
    && g.Keys <= rank.Keys
    && forall x, d | x in g && d in g[x] :: d in rank && rank[d] < rank[x]
  }

  ghost predicate Acyclic(g: Graph) {
    exists rank :: Ranked(g, rank)
  }

  ghost predicate NoDuplicates<T>(s: seq<T>) {
    forall i, j | 0 <= i < j < |s| :: s[i] != s[j]
  }

  // ---------------------------------------------------------------- chains and reachability

  lemma {:induction false} ReachesItself(g: Graph, x: TaskId)
    requires x in g
    ensures Reaches(g, x, x)
  {
    assert ChainBetween(g, [x], x, x);
  }

  lemma {:induction false} ReachesStep(g: Graph, up: TaskId, mid: TaskId, down: TaskId)
    requires Reaches(g, up, mid) && down in g && mid in g[down]
    ensures Reaches(g, up, down)
  {
    var c :| ChainBetween(g, c, up, mid);
    assert ChainBetween(g, c + [down], up, down);
  }

  lemma {:induction false} ReachesStepUp(g: Graph, up: TaskId, mid: TaskId, down: TaskId)
    requires Reaches(g, mid, down) && up in g && up in g[mid]
    ensures Reaches(g, up, down)
  {
    var c :| ChainBetween(g, c, mid, down);
    assert ChainBetween(g, [up] + c, up, down);
  }

  /** A set closed under "depends on a member" holds everything reachable from its members. */
  lemma {:induction false} DownwardClosedContains(g: Graph, s: set<TaskId>, c: seq<TaskId>)
    requires Chain(g, c) && c[0] in s
    requires forall x, d | x in g && d in g[x] && d in s :: x in s
    ensures c[|c| - 1] in s
  {
    if |c| > 1 {
      var shorter := c[..|c| - 1];
      DownwardClosedContains(g, s, shorter);
      assert shorter[|shorter| - 1] in g[c[|c| - 1]];
    }
  }

  /** A set closed under dependencies holds everything its members depend on. */
  lemma {:induction false} UpwardClosedContains(g: Graph, s: set<TaskId>, c: seq<TaskId>)
    requires Chain(g, c) && c[|c| - 1] in s
    requires forall x | x in g && x in s :: g[x] <= s
    ensures c[0] in s
  {
    if |c| > 1 {
      assert c[0] in g[c[1]];
      UpwardClosedContains(g, s, c[1..]);
    }
  }

  // ---------------------------------------------------------------- ranks and cycles

  lemma {:induction false} RankGrowsAlongChain(g: Graph, rank: map<TaskId, nat>, c: seq<TaskId>)
    requires Ranked(g, rank) && Chain(g, c)
    ensures rank[c[0]] + |c| - 1 <= rank[c[|c| - 1]]
  {
    if |c| > 1 {
      RankGrowsAlongChain(g, rank, c[..|c| - 1]);
      assert c[|c| - 2] in g[c[|c| - 1]];
    }
  }

  lemma {:induction false} DistinctElementsFit<T>(c: seq<T>, s: set<T>)
    requires NoDuplicates(c) && forall x | x in c :: x in s
    ensures |c| <= |s|
  {
    if |c| > 0 {
      var last := c[|c| - 1];
      assert last in c;
      var rest := c[..|c| - 1];
      forall x | x in rest ensures x in s - {last} {
        assert x in c;
      }
      DistinctElementsFit(rest, s - {last});
    }
  }

  /** A chain of any length that ends in `x`, upstream through the stuck set. */
  lemma {:induction false} StuckChain(g: Graph, stuck: set<TaskId>, x: TaskId, n: nat) returns (c: seq<TaskId>)
    requires n > 0 && x in stuck && stuck <= g.Keys
    requires forall y | y in stuck :: g[y] * stuck != {}
    ensures Chain(g, c) && |c| == n && c[n - 1] == x && forall y | y in c :: y in stuck
  {
    if n == 1 {
      c := [x];
    } else {
      var shorter := StuckChain(g, stuck, x, n - 1);
      assert shorter[0] in shorter;
      var d :| d in g[shorter[0]] * stuck;
      c := [d] + shorter;
    }
  }

  lemma {:induction false} LongChainRepeats(c: seq<TaskId>, s: set<TaskId>) returns (i: nat, j: nat)
    requires |c| > |s| && forall x | x in c :: x in s
    ensures i < j < |c| && c[i] == c[j]
  {
    if NoDuplicates(c) {
      DistinctElementsFit(c, s);
      assert false;
    }
    i, j :| 0 <= i < j < |c| && c[i] == c[j];
  }

  /** Every member of a set whose members all wait for one another is behind a cycle within the set. */
  lemma {:induction false} StuckBehindCycle(g: Graph, stuck: set<TaskId>, x: TaskId) returns (loop: seq<TaskId>)
    requires x in stuck && stuck <= g.Keys
    requires forall y | y in stuck :: g[y] * stuck != {}
    ensures Cycle(g, loop) && (forall y | y in loop :: y in stuck) && Reaches(g, loop[0], x)
  {
    var c := StuckChain(g, stuck, x, |stuck| + 1);
    var i, j := LongChainRepeats(c, stuck);
    loop := c[i..j + 1];
    assert ChainBetween(g, c[i..], loop[0], x);
    forall y | y in loop ensures y in stuck {
      assert y in c;
    }
  }

  /** Tasks that all wait for one another contain a cycle. */
  lemma {:induction false} StuckSetHasCycle(g: Graph, stuck: set<TaskId>)
    requires stuck != {} && stuck <= g.Keys
    requires forall x | x in stuck :: g[x] * stuck != {}
    ensures CycleWithin(g, stuck) && Cyclic(g)
  {
    var x :| x in stuck;
    var loop := StuckBehindCycle(g, stuck, x);
  }

  /** A rank for the tasks peeled off so far, in the order of peeling. */
  ghost predicate PartialRank(g: Graph, done: set<TaskId>, rank: map<TaskId, nat>) {
    && done <= g.Keys && rank.Keys == done
    && (forall x | x in done :: g[x] <= done && rank[x] < |done|)
    && (forall x, d | x in done && d in g[x] :: d in rank && rank[d] < rank[x])
  }

  lemma {:induction false} PeelOne(g: Graph, done: set<TaskId>, rank: map<TaskId, nat>, x: TaskId)
    requires PartialRank(g, done, rank)
    requires x in g && x !in done && g[x] <= done
    ensures PartialRank(g, done + {x}, rank[x := |done|])
  {
  }

  lemma {:induction false} NextToPeel(g: Graph, done: set<TaskId>) returns (x: TaskId)
    requires Closed(g) && !Cyclic(g) && done <= g.Keys && done != g.Keys
    ensures x in g && x !in done && g[x] <= done
  {
    var waiting := g.Keys - done;
    if forall y | y in waiting :: g[y] * waiting != {} {
      StuckSetHasCycle(g, waiting);
      assert false;
    }
    x :| x in waiting && g[x] * waiting == {};
    forall d | d in g[x] ensures d in done {
      assert d in g.Keys && d !in g[x] * waiting;
    }
  }

  lemma {:induction false} RankByPeeling(g: Graph, done: set<TaskId>, rank: map<TaskId, nat>)
    requires Closed(g) && !Cyclic(g) && PartialRank(g, done, rank)
    ensures Acyclic(g)
    decreases g.Keys - done
  {
    if done == g.Keys {
      assert Ranked(g, rank);
    } else {
      var x := NextToPeel(g, done);
      PeelOne(g, done, rank, x);
      RankByPeeling(g, done + {x}, rank[x := |done|]);
    }
  }

  /** A rank function exists exactly when no cycle does. */
  lemma {:induction false} AcyclicIffNoCycle(g: Graph)
    requires Closed(g)
    ensures Acyclic(g) <==> !Cyclic(g)
  {
    if Acyclic(g) && Cyclic(g) {
      var rank :| Ranked(g, rank);
      var c :| Cycle(g, c);
      RankGrowsAlongChain(g, rank, c);
      assert false;
    }
    if !Cyclic(g) {
      RankByPeeling(g, {}, map[]);
    }
  }

  /** What could be peeled off is exactly what is not behind a cycle, when nothing else can be peeled. */
  lemma {:induction false} PeeledUnlessBehindCycle(g: Graph, done: set<TaskId>, rank: map<TaskId, nat>, x: TaskId)
    requires PartialRank(g, done, rank) && x in g
    requires forall y | y in g && y !in done :: g[y] * (g.Keys - done) != {}
    ensures x !in done <==> BehindCycle(g, x)
  {
    if x !in done {
      var loop := StuckBehindCycle(g, g.Keys - done, x);
    } else if BehindCycle(g, x) {
      var c :| Cycle(g, c) && Reaches(g, c[0], x);
      var up :| ChainBetween(g, up, c[0], x);
      UpwardClosedContains(g, done, up);
      DoneChainIsRanked(g, done, rank, c);
    }
  }

  lemma {:induction false} DoneChainIsRanked(g: Graph, done: set<TaskId>, rank: map<TaskId, nat>, c: seq<TaskId>)
    requires PartialRank(g, done, rank) && Chain(g, c) && c[|c| - 1] in done
    ensures c[0] in done && rank[c[0]] + |c| - 1 <= rank[c[|c| - 1]]
  {
    if |c| > 1 {
      var shorter := c[..|c| - 1];
      assert shorter[|shorter| - 1] in g[c[|c| - 1]];
      DoneChainIsRanked(g, done, rank, shorter);
    }
  }

  /** In an acyclic graph every non-empty set has a member that depends on no other member. */
  lemma {:induction false} FirstAmong(g: Graph, s: set<TaskId>) returns (x: TaskId)
    requires Closed(g) && Acyclic(g) && s != {} && s <= g.Keys
    ensures x in s && g[x] * s == {}
  {
    AcyclicIffNoCycle(g);
    if forall y | y in s :: g[y] * s != {} {
      StuckSetHasCycle(g, s);
      assert false;
    }
    x :| x in s && g[x] * s == {};
  }
}
