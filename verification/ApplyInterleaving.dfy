/**
 However the threads are interleaved, each of them runs the transaction: between the moment at which a
 thread holds the lock and the moment at which it leaves the body, threads of other roots and waiting
 threads of its own root take their steps as if they were not there.
 */
module ApplyInterleaving {
  import opened ApplyTransaction
  import ApplyRecovery
  import ApplyCompareAndSwap
  import opened ApplyConcurrency
  import opened ApplyRefinement

  // ---------------------------------------------------------------- steps from the front

  ghost function RunOn(s: System, actions: seq<Action>): System
    decreases |actions|
  {
    if actions == [] then s else RunOn(Do(s, actions[0]), actions[1..])
  }

  lemma {:induction false} ExecutionRunsOn(trees: map<Root, Tree>, before: seq<Action>, during: seq<Action>)
    ensures Execution(trees, before + during) == RunOn(Execution(trees, before), during)
    decreases |during|
  {
    if during == [] {
      assert before + during == before;
    } else {
      OneMoreStep(trees, before, during[0]);
      ExecutionRunsOn(trees, before + [during[0]], during[1..]);
      assert before + [during[0]] + during[1..] == before + during;
    }
  }

  // ---------------------------------------------------------------- two systems that look alike to a thread

  /** The thread and its root are the same in both systems. */
  ghost predicate SameFor(s: System, lone: System, t: Tid) {
    && t in s.threads && t in lone.threads && s.threads[t] == lone.threads[t]
    && TreeOf(s, s.threads[t].root) == TreeOf(lone, s.threads[t].root)
    && HistoryOf(s, s.threads[t].root) == HistoryOf(lone, s.threads[t].root)
  }

  /** What a step of the thread does to the phase, the tree and the history it sees. */
  datatype Change = Change(phase: Phase, tree: Tree, episodes: seq<Episode>)

  ghost predicate Changes(s: System, s': System, t: Tid, c: Change) {
    t in s.threads && Became(s, s', t, c.phase, c.tree, c.episodes)
  }

  lemma {:induction false} ChangesAlike(s: System, lone: System, s': System, lone': System, t: Tid, c: Change)
    requires SameFor(s, lone, t) && Changes(s, s', t, c) && Changes(lone, lone', t, c)
    ensures SameFor(s', lone', t)
  {
    var r := s.threads[t].root;
    assert TreesBecame(s, s', r, c.tree, c.episodes, r) && TreesBecame(lone, lone', r, c.tree, c.episodes, r);
  }

  lemma {:induction false} CommitAlike(s: System, lone: System, t: Tid, fails: bool) returns (c: Change)
    requires SameFor(s, lone, t) && Enabled(s, CommitNext(t, fails))
    ensures Changes(s, Do(s, CommitNext(t, fails)), t, c) && Changes(lone, Do(lone, CommitNext(t, fails)), t, c)
  {
    var th, tree := s.threads[t], TreeOf(s, s.threads[t].root);
    var Committing(e, started, i) := th.phase;
    if fails || (i < |Changed(th.txn)| && Differs(tree, th.txn, i)) {
      c := Change(RollingBack(e, started, i, false), tree, []);
      CommitStops(s, t, fails);
      CommitStops(lone, t, fails);
    } else if i == |Changed(th.txn)| {
      c := Change(Leaving(e), tree, [Success(th.txn.baseline, th.txn.working, TreeFiles(tree))]);
      CommitFinishes(s, t);
      CommitFinishes(lone, t);
    } else {
      var next, p := i + 1, Changed(th.txn)[i];
      c := Change(Committing(e, started, next), tree[p := Final(th.txn, p)], []);
      CommitReplacesOne(s, t, next);
      CommitReplacesOne(lone, t, next);
    }
  }

  lemma {:induction false} UndoAlike(s: System, lone: System, t: Tid, fails: bool) returns (c: Change)
    requires SameFor(s, lone, t) && Enabled(s, UndoNext(t, fails))
    ensures Changes(s, Do(s, UndoNext(t, fails)), t, c) && Changes(lone, Do(lone, UndoNext(t, fails)), t, c)
  {
    var th, tree := s.threads[t], TreeOf(s, s.threads[t].root);
    var RollingBack(e, started, i, damaged) := th.phase;
    if i == 0 {
      c := Change(Leaving(e), tree, Damages(damaged, tree));
      UndoEnds(s, t, fails);
      UndoEnds(lone, t, fails);
    } else {
      var j := i - 1;
      var p := Changed(th.txn)[j];
      var undone := !fails && Look(tree, p) == Final(th.txn, p);
      c := Change(RollingBack(e, started, j, damaged || !undone),
                  if undone then tree[p := Look(started, p)] else tree, []);
      UndoBecomes(s, t, j, fails);
      UndoBecomes(lone, t, j, fails);
    }
  }

  lemma {:induction false} PreflightAlike(s: System, lone: System, t: Tid) returns (c: Change)
    requires SameFor(s, lone, t) && Enabled(s, Preflight(t))
    ensures Changes(s, Do(s, Preflight(t)), t, c) && Changes(lone, Do(lone, Preflight(t)), t, c)
  {
    var th, tree := s.threads[t], TreeOf(s, s.threads[t].root);
    c := Change(if PreflightOk(th.txn, tree) then Committing(th.phase.entry, tree, 0) else Leaving(th.phase.entry),
                tree, []);
    PreflightBecomes(s, t);
    PreflightBecomes(lone, t);
  }

  lemma {:induction false} StepAlike(s: System, lone: System, a: Action) returns (c: Change)
    requires SameFor(s, lone, a.t) && BodyStep(a) && Enabled(s, a)
    ensures Changes(s, Do(s, a), a.t, c) && Changes(lone, Do(lone, a), a.t, c)
  {
    match a
    case Preflight(t) => c := PreflightAlike(s, lone, t);
    case CommitNext(t, fails) => c := CommitAlike(s, lone, t, fails);
    case UndoNext(t, fails) => c := UndoAlike(s, lone, t, fails);
  }

  /** A step of the thread itself is possible in both systems and does the same in both. */
  lemma {:induction false} OwnStepAlike(s: System, lone: System, a: Action)
    requires SameFor(s, lone, a.t) && BodyStep(a) && Enabled(s, a)
    ensures Enabled(lone, a) && SameFor(Do(s, a), Do(lone, a), a.t)
  {
    var c := StepAlike(s, lone, a);
    ChangesAlike(s, lone, Do(s, a), Do(lone, a), a.t, c);
  }

  /** A replacement or a compensation touches the root of its thread alone. */
  lemma {:induction false} OtherRootsAreSpared(s: System, a: Action, q: Root)
    requires BodyStep(a) && Enabled(s, a) && s.threads[a.t].root != q
    ensures TreeOf(Do(s, a), q) == TreeOf(s, q) && HistoryOf(Do(s, a), q) == HistoryOf(s, q)
  {
    var c := StepAlike(s, s, a);
    assert TreesBecame(s, Do(s, a), s.threads[a.t].root, c.tree, c.episodes, q);
  }

  lemma {:induction false} BodyStepMovesItsThread(s: System, a: Action, t: Tid)
    requires BodyStep(a) && Enabled(s, a) && a.t != t && t in s.threads
    ensures t in Do(s, a).threads && Do(s, a).threads[t] == s.threads[t]
  {
    BodyStaysInside(s, a);
  }

  lemma {:induction false} BodyStepsOfOtherRoots(s: System, a: Action, t: Tid)
    requires LockInvariant(s) && t in s.threads && InBody(s.threads[t].phase)
    requires BodyStep(a) && Enabled(s, a) && a.t != t
    ensures s.threads[a.t].root != s.threads[t].root
  {
    assert ThreadOk(s, t) && ThreadOk(s, a.t);
  }

  /** While a thread is in the body, the steps of all other threads leave it and its root alone. */
  lemma {:induction false} OtherStepAlike(s: System, lone: System, a: Action, t: Tid)
    requires LockInvariant(s) && SameFor(s, lone, t) && InBody(s.threads[t].phase) && a.t != t
    ensures SameFor(Do(s, a), lone, t)
  {
    if Enabled(s, a) && BodyStep(a) {
      BodyStepMovesItsThread(s, a, t);
      BodyStepsOfOtherRoots(s, a, t);
      OtherRootsAreSpared(s, a, s.threads[t].root);
    }
  }

  // ---------------------------------------------------------------- what a thread does after the body

  predicate Past(phase: Phase) { phase.Unlocked? || phase.Finished? }

  lemma {:induction false} StaysPast(s: System, a: Action, t: Tid)
    requires t in s.threads && Past(s.threads[t].phase)
    ensures t in Do(s, a).threads && Past(Do(s, a).threads[t].phase)
  {
    if Enabled(s, a) && BodyStep(a) {
      BodyStepMovesItsThread(s, a, t);
    }
  }

  /** A thread that has released its lock does not come back. */
  lemma {:induction false} NeverBack(s: System, t: Tid, actions: seq<Action>)
    requires t in s.threads && Past(s.threads[t].phase)
    ensures t in RunOn(s, actions).threads && Past(RunOn(s, actions).threads[t].phase)
    decreases |actions|
  {
    if actions != [] {
      StaysPast(s, actions[0], t);
      NeverBack(Do(s, actions[0]), t, actions[1..]);
    }
  }

  // ---------------------------------------------------------------- the failures of one thread, in order

  ghost predicate SameFrom(f: nat -> bool, g: nat -> bool, i: nat) {
    forall k: nat | i <= k :: f(k) == g(k)
  }

  ghost predicate SameBelow(f: nat -> bool, g: nat -> bool, i: nat) {
    forall k: nat | k < i :: f(k) == g(k)
  }

  /** The two patterns of failures agree on all steps that the thread still has to take. */
  ghost predicate AgreeAhead(
    phase: Phase, stop: nat -> bool, fail: nat -> bool, stop': nat -> bool, fail': nat -> bool)
  {
    match phase
    case Holding(_) => SameFrom(stop, stop', 0) && SameFrom(fail, fail', 0)
    case Committing(_, _, i) => SameFrom(stop, stop', i) && SameFrom(fail, fail', 0)
    case RollingBack(_, _, i, _) => SameBelow(fail, fail', i)
    case _ => true
  }

  lemma {:induction false} CommitMovesOn(s: System, t: Tid, fails: bool, next: nat) returns (phase: Phase)
    requires Enabled(s, CommitNext(t, fails)) && next == s.threads[t].phase.i + 1
    ensures t in Do(s, CommitNext(t, fails)).threads && Do(s, CommitNext(t, fails)).threads[t].phase == phase
    ensures phase.Leaving? || phase.RollingBack? || (phase.Committing? && phase.i == next)
  {
    phase := Do(s, CommitNext(t, fails)).threads[t].phase;
  }

  lemma {:induction false} CommitLooksAhead(
    s: System, t: Tid, fails: bool, next: nat,
    stop: nat -> bool, fail: nat -> bool, stop': nat -> bool, fail': nat -> bool)
    requires Enabled(s, CommitNext(t, fails)) && next == s.threads[t].phase.i + 1
    requires SameFrom(stop, stop', next) && SameFrom(fail, fail', 0)
    ensures t in Do(s, CommitNext(t, fails)).threads
    ensures AgreeAhead(Do(s, CommitNext(t, fails)).threads[t].phase, stop, fail, stop', fail')
  {
    var phase := CommitMovesOn(s, t, fails, next);
    if phase.RollingBack? {
      assert SameBelow(fail, fail', phase.i);
    }
  }

  lemma {:induction false} UndoMovesOn(s: System, t: Tid, fails: bool, next: nat) returns (phase: Phase)
    requires Enabled(s, UndoNext(t, fails)) && (s.threads[t].phase.i > 0 ==> s.threads[t].phase.i == next + 1)
    ensures t in Do(s, UndoNext(t, fails)).threads && Do(s, UndoNext(t, fails)).threads[t].phase == phase
    ensures phase.Leaving? || (phase.RollingBack? && phase.i == next)
  {
    phase := Do(s, UndoNext(t, fails)).threads[t].phase;
  }

  lemma {:induction false} UndoLooksAhead(
    s: System, t: Tid, fails: bool, next: nat,
    stop: nat -> bool, fail: nat -> bool, stop': nat -> bool, fail': nat -> bool)
    requires Enabled(s, UndoNext(t, fails)) && (s.threads[t].phase.i > 0 ==> s.threads[t].phase.i == next + 1)
    requires SameBelow(fail, fail', next)
    ensures t in Do(s, UndoNext(t, fails)).threads
    ensures AgreeAhead(Do(s, UndoNext(t, fails)).threads[t].phase, stop, fail, stop', fail')
  {
    var phase := UndoMovesOn(s, t, fails, next);
  }

  /** The step that the patterns agree on, and after it they still agree. */
  lemma {:induction false} StepLooksAhead(
    s: System, t: Tid, stop: nat -> bool, fail: nat -> bool, stop': nat -> bool, fail': nat -> bool)
    returns (a: Action)
    requires AtWork(s, t) && AgreeAhead(s.threads[t].phase, stop, fail, stop', fail')
    ensures a == NextAction(s.threads[t], t, stop, fail) == NextAction(s.threads[t], t, stop', fail')
    ensures t in Do(s, a).threads && AgreeAhead(Do(s, a).threads[t].phase, stop, fail, stop', fail')
  {
    a := NextAction(s.threads[t], t, stop, fail);
    match s.threads[t].phase
    case Committing(_, _, i) => CommitLooksAhead(s, t, stop(i), i + 1, stop, fail, stop', fail');
    case RollingBack(_, _, i, _) =>
      var next := if i > 0 then i - 1 else 0;
      UndoLooksAhead(s, t, i > 0 && fail(next), next, stop, fail, stop', fail');
    case _ =>
  }

  /** A lone run depends only on the failures that are still ahead. */
  lemma {:induction false} AloneLooksAhead(
    s: System, t: Tid, stop: nat -> bool, fail: nat -> bool, stop': nat -> bool, fail': nat -> bool)
    requires t in s.threads && AgreeAhead(s.threads[t].phase, stop, fail, stop', fail')
    ensures Alone(s, t, stop, fail) == Alone(s, t, stop', fail')
    decreases StepsLeft(s.threads[t])
  {
    if AtWork(s, t) {
      var a := StepLooksAhead(s, t, stop, fail, stop', fail');
      StepsAreUsedUp(s, t, stop, fail);
      var s1 := AloneGoesOn(s, t, stop, fail, a);
      var s2 := AloneGoesOn(s, t, stop', fail', a);
      AloneLooksAhead(s1, t, stop, fail, stop', fail');
    } else {
      AloneIsDone(s, t, stop, fail);
      AloneIsDone(s, t, stop', fail');
    }
  }

  function Also(rest: nat -> bool, i: nat, here: bool): nat -> bool {
    (k: nat) => if k == i then here else rest(k)
  }

  lemma {:induction false} CommitFirst(
    s: System, t: Tid, fails: bool, stop1: nat -> bool, fail1: nat -> bool) returns (stop: nat -> bool)
    requires AtWork(s, t) && s.threads[t].phase.Committing?
    ensures t in Do(s, CommitNext(t, fails)).threads
    ensures Alone(s, t, stop, fail1) == Alone(Do(s, CommitNext(t, fails)), t, stop1, fail1)
  {
    stop := Also(stop1, s.threads[t].phase.i, fails);
    var s1 := AloneGoesOn(s, t, stop, fail1, CommitNext(t, fails));
    CommitLooksAhead(s, t, fails, s.threads[t].phase.i + 1, stop, fail1, stop1, fail1);
    AloneLooksAhead(s1, t, stop, fail1, stop1, fail1);
  }

  lemma {:induction false} LastUndoIgnoresFailure(s: System, t: Tid, fails: bool)
    requires t in s.threads && s.threads[t].phase.RollingBack? && s.threads[t].phase.i == 0
    ensures Do(s, UndoNext(t, fails)) == Do(s, UndoNext(t, false))
  {
  }

  lemma {:induction false} UndoFirst(
    s: System, t: Tid, fails: bool, stop1: nat -> bool, fail1: nat -> bool) returns (fail: nat -> bool)
    requires AtWork(s, t) && s.threads[t].phase.RollingBack?
    ensures t in Do(s, UndoNext(t, fails)).threads
    ensures Alone(s, t, stop1, fail) == Alone(Do(s, UndoNext(t, fails)), t, stop1, fail1)
  {
    var i := s.threads[t].phase.i;
    if i == 0 {
      fail := fail1;
      LastUndoIgnoresFailure(s, t, fails);
      var s1 := AloneGoesOn(s, t, stop1, fail, UndoNext(t, false));
    } else {
      var next := i - 1;
      fail := Also(fail1, next, fails);
      var s1 := AloneGoesOn(s, t, stop1, fail, UndoNext(t, fails));
      UndoLooksAhead(s, t, fails, next, stop1, fail, stop1, fail1);
      AloneLooksAhead(s1, t, stop1, fail, stop1, fail1);
    }
  }

  /** A step of the thread, put in front of a lone run, gives a lone run. */
  lemma {:induction false} StepFirst(s: System, a: Action, stop1: nat -> bool, fail1: nat -> bool)
    returns (stop: nat -> bool, fail: nat -> bool)
    requires BodyStep(a) && Enabled(s, a)
    ensures a.t in s.threads && a.t in Do(s, a).threads
    ensures Alone(s, a.t, stop, fail) == Alone(Do(s, a), a.t, stop1, fail1)
  {
    stop, fail := stop1, fail1;
    match a
    case Preflight(t) => var s1 := AloneGoesOn(s, t, stop, fail, a);
    case CommitNext(t, fails) => stop := CommitFirst(s, t, fails, stop1, fail1);
    case UndoNext(t, fails) => fail := UndoFirst(s, t, fails, stop1, fail1);
  }

  // ---------------------------------------------------------------- every interleaving

  /** Whatever the others do meanwhile, the thread ends as it would alone, with the failures it had. */
  lemma {:induction false} InterleavedIsAlone(s: System, lone: System, t: Tid, actions: seq<Action>)
    returns (stop: nat -> bool, fail: nat -> bool)
    requires LockInvariant(s) && SameFor(s, lone, t) && InBody(s.threads[t].phase)
    requires t in RunOn(s, actions).threads && RunOn(s, actions).threads[t].phase.Leaving?
    ensures SameFor(RunOn(s, actions), Alone(lone, t, stop, fail), t)
    decreases |actions|
  {
    if actions == [] {
      stop, fail := (k: nat) => false, (k: nat) => false;
      AloneIsDone(lone, t, stop, fail);
    } else {
      var a := actions[0];
      StepKeepsLocks(s, a);
      if a.t == t && Enabled(s, a) {
        if !BodyStep(a) {
          NeverBack(Do(s, a), t, actions[1..]);
          assert false;
        }
        OwnStepAlike(s, lone, a);
        BodyStaysInside(s, a);
        stop, fail := InterleavedIsAlone(Do(s, a), Do(lone, a), t, actions[1..]);
        stop, fail := StepFirst(lone, a, stop, fail);
      } else {
        if a.t != t {
          OtherStepAlike(s, lone, a, t);
        }
        stop, fail := InterleavedIsAlone(Do(s, a), lone, t, actions[1..]);
      }
    }
  }

  /** The thread has left the body, and its root has gone through the transaction `r`. */
  ghost predicate WentThrough(s: System, s': System, t: Tid, e: nat, r: Result) {
    && t in s.threads && t in s'.threads
    && var th := s.threads[t];
       && s'.threads[t] == th.(phase := Leaving(e))
       && TreeOf(s', th.root) == r.w.tree
       && HistoryOf(s', th.root) == HistoryOf(s, th.root) + EpisodesOf(th.txn, r)
  }

  lemma {:induction false} AloneGoesThrough(s: System, s': System, lone: System, t: Tid, e: nat, r: Result)
    requires t in s.threads && SameFor(s', lone, t)
    requires Became(s, lone, t, Leaving(e), r.w.tree, EpisodesOf(s.threads[t].txn, r))
    ensures WentThrough(s, s', t, e, r)
  {
    assert TreesBecame(s, lone, s.threads[t].root, r.w.tree, EpisodesOf(s.threads[t].txn, r), s.threads[t].root);
  }

  /**
   In every execution, from any moment at which a thread holds the lock to any moment at which it has left
   the body, its root has gone through exactly one transaction: the tree is the one the transaction leaves
   and the history has grown by exactly its outcome, for the failures the thread had.
   */
  lemma {:induction false} EveryBodyIsATransaction(
    trees: map<Root, Tree>, before: seq<Action>, during: seq<Action>, t: Tid, txn: Txn, e: nat, temps: Temps)
    returns (stop: nat -> bool, fail: nat -> bool)
    requires HoldsLock(Execution(trees, before), t, txn, e) && ApplyRecovery.FreshRun(txn, temps)
    requires var s' := Execution(trees, before + during); t in s'.threads && s'.threads[t].phase.Leaving?
    ensures var s, env := Execution(trees, before), FailingAt(stop, fail);
            && ApplyCompareAndSwap.Quiet(env)
            && WentThrough(s, Execution(trees, before + during), t, e,
                           AtomicApply(txn, env, TreeOf(s, s.threads[t].root), temps))
  {
    var s := Execution(trees, before);
    LocksHold(trees, before);
    assert ThreadOk(s, t);
    ExecutionRunsOn(trees, before, during);
    stop, fail := InterleavedIsAlone(s, s, t, during);
    EveryLoneRunIsATransaction(s, t, txn, e, temps, stop, fail);
    AloneGoesThrough(s, RunOn(s, during), Alone(s, t, stop, fail), t, e,
                     AtomicApply(txn, FailingAt(stop, fail), TreeOf(s, s.threads[t].root), temps));
  }
}
