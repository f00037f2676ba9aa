/**
 The threads of ApplyConcurrency run the transaction of ApplyTransaction: from taking the lock to leaving
 the body, a thread that nobody interferes with does to its tree exactly what the transaction does, with
 its prepare phase, its backups and its failures; and every way the steps of the thread can fail is a way
 the transaction can fail.
 */
module ApplyRefinement {
  import opened Common
  import opened ApplyTransaction
  import ApplySafety
  import opened ApplyRecovery
  import opened ApplyCompareAndSwap
  import opened ApplyConcurrency

  // ---------------------------------------------------------------- a thread on its own

  predicate AtWork(s: System, t: Tid) {
    && t in s.threads
    && var phase := s.threads[t].phase;
       phase.Holding? || (Changing(phase) && phase.i <= |Changed(s.threads[t].txn)|)
  }

  function StepsLeft(th: Thread): nat {
    var n := |Changed(th.txn)|;
    match th.phase
    case Holding(_) => 2 * n + 3
    case Committing(_, _, i) => if i <= n then 2 * n + 2 - i else 0
    case RollingBack(_, _, i, _) => i + 1
    case _ => 0
  }

  /** The next step of the thread; `stop` and `fail` say which commit and which compensation steps fail. */
  function NextAction(th: Thread, t: Tid, stop: nat -> bool, fail: nat -> bool): Action {
    match th.phase
    case Committing(_, _, i) => CommitNext(t, stop(i))
    case RollingBack(_, _, i, _) => UndoNext(t, i > 0 && fail(i - 1))
    case _ => Preflight(t)
  }

  lemma {:induction false} CommitUsesAStep(s: System, t: Tid, stopped: bool)
    requires AtWork(s, t) && s.threads[t].phase.Committing?
    ensures var s' := Do(s, CommitNext(t, stopped));
            && t in s'.threads && s'.threads[t].txn == s.threads[t].txn
            && StepsLeft(s'.threads[t]) < StepsLeft(s.threads[t])
  {
    var th := s.threads[t];
    var i, tree := th.phase.i, TreeOf(s, th.root);
    if stopped || (i < |Changed(th.txn)| && Differs(tree, th.txn, i)) {
      CommitStops(s, t, stopped);
    } else if i == |Changed(th.txn)| {
      CommitFinishes(s, t);
    } else {
      CommitReplacesOne(s, t, i + 1);
    }
  }

  lemma {:induction false} UndoUsesAStep(s: System, t: Tid, failed: bool)
    requires AtWork(s, t) && s.threads[t].phase.RollingBack?
    ensures var s' := Do(s, UndoNext(t, failed));
            && t in s'.threads && s'.threads[t].txn == s.threads[t].txn
            && StepsLeft(s'.threads[t]) < StepsLeft(s.threads[t])
  {
    if s.threads[t].phase.i == 0 {
      UndoEnds(s, t, failed);
    } else {
      UndoBecomes(s, t, s.threads[t].phase.i - 1, failed);
    }
  }

  lemma {:induction false} StepsAreUsedUp(s: System, t: Tid, stop: nat -> bool, fail: nat -> bool)
    requires AtWork(s, t)
    ensures var s' := Do(s, NextAction(s.threads[t], t, stop, fail));
            && t in s'.threads && s'.threads[t].txn == s.threads[t].txn
            && StepsLeft(s'.threads[t]) < StepsLeft(s.threads[t])
  {
    match s.threads[t].phase
    case Committing(_, _, i) => CommitUsesAStep(s, t, stop(i));
    case RollingBack(_, _, i, _) => UndoUsesAStep(s, t, i > 0 && fail(i - 1));
    case _ => PreflightBecomes(s, t);
  }

  /** The system after thread `t` alone has run until it leaves the body. */
  ghost function Alone(s: System, t: Tid, stop: nat -> bool, fail: nat -> bool): System
    requires t in s.threads
    decreases StepsLeft(s.threads[t])
  {
    if AtWork(s, t) then
      StepsAreUsedUp(s, t, stop, fail);
      Alone(Do(s, NextAction(s.threads[t], t, stop, fail)), t, stop, fail)
    else s
  }

  lemma {:induction false} AloneGoesOn(
    s: System, t: Tid, stop: nat -> bool, fail: nat -> bool, a: Action)
    returns (s1: System)
    requires AtWork(s, t) && a == NextAction(s.threads[t], t, stop, fail)
    ensures s1 == Do(s, a) && t in s1.threads && Alone(s, t, stop, fail) == Alone(s1, t, stop, fail)
  {
    StepsAreUsedUp(s, t, stop, fail);
    s1 := Do(s, a);
  }

  lemma {:induction false} AloneIsDone(s: System, t: Tid, stop: nat -> bool, fail: nat -> bool)
    requires t in s.threads && !AtWork(s, t)
    ensures Alone(s, t, stop, fail) == s
  {
  }

  lemma {:induction false} OneMoreStep(trees: map<Root, Tree>, before: seq<Action>, a: Action)
    ensures Execution(trees, before + [a]) == Do(Execution(trees, before), a)
  {
    assert (before + [a])[..|before + [a]| - 1] == before;
  }

  lemma {:induction false} AloneExecutes(
    trees: map<Root, Tree>, before: seq<Action>, s: System, t: Tid, stop: nat -> bool, fail: nat -> bool)
    returns (s1: System, a: Action)
    requires s == Execution(trees, before) && AtWork(s, t)
    ensures s1 == Execution(trees, before + [a]) && t in s1.threads
    ensures StepsLeft(s1.threads[t]) < StepsLeft(s.threads[t])
    ensures Alone(s, t, stop, fail) == Alone(s1, t, stop, fail)
  {
    a := NextAction(s.threads[t], t, stop, fail);
    OneMoreStep(trees, before, a);
    StepsAreUsedUp(s, t, stop, fail);
    s1 := AloneGoesOn(s, t, stop, fail, a);
  }

  lemma {:induction false} Regroup(before: seq<Action>, a: Action, more: seq<Action>)
    ensures before + [a] + more == before + ([a] + more)
  {
  }

  /** Such a run is an execution like any other. */
  lemma {:induction false} AloneIsAnExecution(
    trees: map<Root, Tree>, before: seq<Action>, s: System, t: Tid, stop: nat -> bool, fail: nat -> bool)
    returns (after: seq<Action>)
    requires s == Execution(trees, before) && t in s.threads
    ensures Alone(s, t, stop, fail) == Execution(trees, before + after)
    decreases StepsLeft(s.threads[t])
  {
    if AtWork(s, t) {
      var s1, a := AloneExecutes(trees, before, s, t, stop, fail);
      var more := AloneIsAnExecution(trees, before + [a], s1, t, stop, fail);
      Regroup(before, a, more);
      after := [a] + more;
    } else {
      AloneIsDone(s, t, stop, fail);
      assert before + [] == before;
      after := [];
    }
  }

  // ---------------------------------------------------------------- what a thread does to the system

  ghost predicate TreesBecame(s: System, s': System, root: Root, tree: Tree, episodes: seq<Episode>, q: Root) {
    && TreeOf(s', q) == (if q == root then tree else TreeOf(s, q))
    && HistoryOf(s', q) == (if q == root then HistoryOf(s, q) + episodes else HistoryOf(s, q))
  }

  /** Thread `t` is in `phase`, its tree is `tree`, `episodes` were recorded, and nothing else has changed. */
  ghost predicate Became(s: System, s': System, t: Tid, phase: Phase, tree: Tree, episodes: seq<Episode>)
    requires t in s.threads
  {
    && s'.threads == s.threads[t := s.threads[t].(phase := phase)]
    && s'.table == s.table && s'.entries == s.entries && TreeOf(s', s.threads[t].root) == tree
    && (forall q :: TreesBecame(s, s', s.threads[t].root, tree, episodes, q))
  }

  lemma {:induction false} BecameTwice(
    s: System, s1: System, s2: System, t: Tid, phase1: Phase, phase2: Phase, tree1: Tree, tree2: Tree,
    episodes: seq<Episode>)
    requires t in s.threads && Became(s, s1, t, phase1, tree1, []) && Became(s1, s2, t, phase2, tree2, episodes)
    ensures Became(s, s2, t, phase2, tree2, episodes)
  {
    var root := s.threads[t].root;
    forall q ensures TreesBecame(s, s2, root, tree2, episodes, q) {
      assert TreesBecame(s, s1, root, tree1, [], q) && TreesBecame(s1, s2, root, tree2, episodes, q);
      assert HistoryOf(s, q) + [] == HistoryOf(s, q);
    }
  }

  lemma {:induction false} TurnBecomes(s: System, t: Tid, phase: Phase)
    requires t in s.threads
    ensures Became(s, Turn(s, t, phase), t, phase, TreeOf(s, s.threads[t].root), [])
  {
    forall q ensures HistoryOf(s, q) + [] == HistoryOf(s, q) {
    }
  }

  lemma {:induction false} WriteBecomes(s: System, t: Tid, phase: Phase, tree: Tree)
    requires t in s.threads
    ensures Became(s, Turn(s, t, phase).(trees := s.trees[s.threads[t].root := tree]), t, phase, tree, [])
  {
    forall q ensures HistoryOf(s, q) + [] == HistoryOf(s, q) {
    }
  }

  lemma {:induction false} RecordBecomes(s: System, t: Tid, phase: Phase, e: Episode)
    requires t in s.threads
    ensures Became(s, Record(Turn(s, t, phase), s.threads[t].root, e), t, phase, TreeOf(s, s.threads[t].root), [e])
  {
  }

  // ---------------------------------------------------------------- the failures that correspond

  /** The commit phase of the transaction stops when `i` files have been replaced. */
  predicate Stops(env: Environment, prepared: bool, n: nat, i: nat) {
    StopsBefore(env, prepared, i) || (i < n && StopsAt(env, i))
  }

  /** It stops before it turns to the next file. */
  predicate StopsBefore(env: Environment, prepared: bool, i: nat) {
    if i == 0 then env.raises(AfterPreflight) || !prepared || env.raises(BeforeCommit)
    else env.raises(AfterReplace(i - 1))
  }

  /** It stops at the next file. */
  predicate StopsAt(env: Environment, i: nat) {
    env.raises(BeforeReplace(i)) || env.faults(Inspect(i)) || env.faults(ReadTarget(i)) || env.faults(Replace(i))
  }

  predicate UndoFails(env: Environment, i: nat) {
    env.raises(BeforeRollback(i)) || env.faults(InspectAgain(i)) || env.faults(Compensate(i))
  }

  ghost predicate Corresponds(env: Environment, prepared: bool, n: nat, stop: nat -> bool, fail: nat -> bool) {
    (forall i | 0 <= i <= n :: stop(i) <==> Stops(env, prepared, n, i)) && UndosCorrespond(env, n, fail)
  }

  ghost predicate UndosCorrespond(env: Environment, n: nat, fail: nat -> bool) {
    forall i | 0 <= i < n :: fail(i) <==> UndoFails(env, i)
  }

  // ---------------------------------------------------------------- compensation

  /** One compensation without interference, as far as the tree and the error count go. */
  lemma {:induction false} QuietUndo(txn: Txn, env: Environment, r: Compensation, p: Path, i: nat)
    requires Quiet(env) && BackupIs(txn, r.w.temps, p, Expected(txn, p))
    ensures var r' := CompensateOne(txn, env, r, p, i);
            var undone := !UndoFails(env, i) && Look(r.w.tree, p) == Final(txn, p);
            && r'.w.tree == (if undone then r.w.tree[p := Expected(txn, p)] else r.w.tree)
            && (r'.errors > 0 <==> r.errors > 0 || !undone)
  {
    assert env.edits(BeforeRollback(i)) == None;
  }

  /** What the compensation of the changed path `k` relies on; its own path has no earlier place. */
  ghost predicate UndoReady(txn: Txn, env: Environment, started: Tree, fail: nat -> bool, temps: Temps, k: nat)
    requires k < |Changed(txn)|
  {
    var p := Changed(txn)[k];
    && BackupIs(txn, temps, p, Expected(txn, p)) && Look(started, p) == Expected(txn, p)
    && (fail(k) <==> UndoFails(env, k)) && p !in Changed(txn)[..k]
  }

  lemma {:induction false} UndosReady(
    txn: Txn, env: Environment, started: Tree, fail: nat -> bool, temps: Temps, n: nat)
    requires ValidTxn(txn) && n <= |Changed(txn)| && AtBaseline(txn, started, Changed(txn))
    requires HoldBaseline(txn, temps, Changed(txn), n) && UndosCorrespond(env, |Changed(txn)|, fail)
    ensures forall k | 0 <= k < n :: UndoReady(txn, env, started, fail, temps, k)
  {
    ApplySafety.ChangedMembers(txn, txn.order);
    forall k | 0 <= k < n ensures UndoReady(txn, env, started, fail, temps, k) {
      EarlierDiffers(Changed(txn), n, k);
    }
  }

  /** The compensation of a later path leaves the backups of the earlier ones alone. */
  lemma {:induction false} StaysReady(
    txn: Txn, env: Environment, started: Tree, fail: nat -> bool, r: Compensation, r1: Compensation, i: nat, k: nat)
    requires k < i < |Changed(txn)| && OnlyAffects(txn, r, r1, Changed(txn)[i])
    requires UndoReady(txn, env, started, fail, r.w.temps, i) && UndoReady(txn, env, started, fail, r.w.temps, k)
    ensures UndoReady(txn, env, started, fail, r1.w.temps, k)
  {
    assert Changed(txn)[..i][k] == Changed(txn)[k];
    assert Unaffected(txn, r, r1, Changed(txn)[k]);
  }

  lemma {:induction false} QuietUndoStep(
    txn: Txn, env: Environment, started: Tree, fail: nat -> bool, r: Compensation, i: nat, j: nat)
    returns (r1: Compensation)
    requires Quiet(env) && i == j + 1 <= |Changed(txn)| && UndoReady(txn, env, started, fail, r.w.temps, j)
    ensures CompensateAll(txn, env, Changed(txn), i, r) == CompensateAll(txn, env, Changed(txn), j, r1)
    ensures OnlyAffects(txn, r, r1, Changed(txn)[j])
    ensures var p := Changed(txn)[j];
            var undone := !fail(j) && Look(r.w.tree, p) == Final(txn, p);
            && r1.w.tree == (if undone then r.w.tree[p := Look(started, p)] else r.w.tree)
            && (r1.errors > 0 <==> r.errors > 0 || !undone)
  {
    var p := Changed(txn)[j];
    r1 := CompensateOnce(txn, env, r, p, j);
    CompensateUnfolds(txn, env, Changed(txn), i, r, r1);
    QuietUndo(txn, env, r, p, j);
  }

  /** One compensation step of the thread. */
  lemma {:induction false} UndoBecomes(s: System, t: Tid, j: nat, failed: bool)
    requires t in s.threads && s.threads[t].phase.RollingBack?
             && s.threads[t].phase.i == j + 1 <= |Changed(s.threads[t].txn)|
    ensures var th := s.threads[t];
            var RollingBack(e, started, i, damaged) := th.phase;
            var p := Changed(th.txn)[j];
            var tree := TreeOf(s, th.root);
            var undone := !failed && Look(tree, p) == Final(th.txn, p);
            Became(s, Do(s, UndoNext(t, failed)), t, RollingBack(e, started, j, damaged || !undone),
                   if undone then tree[p := Look(started, p)] else tree, [])
  {
    var th := s.threads[t];
    var RollingBack(e, started, i, damaged) := th.phase;
    var p := Changed(th.txn)[j];
    assert Do(s, UndoNext(t, failed)) == DoUndo(s, t, failed);
    TurnBecomes(s, t, RollingBack(e, started, j, true));
    WriteBecomes(s, t, RollingBack(e, started, j, damaged), TreeOf(s, th.root)[p := Look(started, p)]);
  }

  function Damages(damaged: bool, tree: Tree): seq<Episode> {
    if damaged then [Damage(TreeFiles(tree))] else []
  }

  lemma {:induction false} UndoEnds(s: System, t: Tid, failed: bool)
    requires t in s.threads && s.threads[t].phase.RollingBack? && s.threads[t].phase.i == 0
    ensures var th := s.threads[t];
            Became(s, Do(s, UndoNext(t, failed)), t, Leaving(th.phase.entry), TreeOf(s, th.root),
                   Damages(th.phase.damaged, TreeOf(s, th.root)))
  {
    var th := s.threads[t];
    TurnBecomes(s, t, Leaving(th.phase.entry));
    RecordBecomes(s, t, Leaving(th.phase.entry), Damage(TreeFiles(TreeOf(s, th.root))));
  }

  /** The thread has still to undo what the compensation `r` of the transaction has still to undo. */
  ghost predicate RollsBackLike(
    s: System, t: Tid, txn: Txn, env: Environment, e: nat, started: Tree, fail: nat -> bool, r: Compensation, i: nat)
  {
    && t in s.threads && s.threads[t].txn == txn && i <= |Changed(txn)|
    && s.threads[t].phase == RollingBack(e, started, i, r.errors > 0)
    && TreeOf(s, s.threads[t].root) == r.w.tree
    && (forall k | 0 <= k < i :: UndoReady(txn, env, started, fail, r.w.temps, k))
  }

  lemma {:induction false} LoneUndo(
    s: System, t: Tid, txn: Txn, env: Environment, e: nat, started: Tree, fail: nat -> bool,
    r: Compensation, i: nat, j: nat)
    returns (r1: Compensation)
    requires Quiet(env) && i == j + 1 && RollsBackLike(s, t, txn, env, e, started, fail, r, i)
    ensures var s1 := Do(s, UndoNext(t, fail(j)));
            && RollsBackLike(s1, t, txn, env, e, started, fail, r1, j)
            && Became(s, s1, t, RollingBack(e, started, j, r1.errors > 0), r1.w.tree, [])
    ensures CompensateAll(txn, env, Changed(txn), i, r) == CompensateAll(txn, env, Changed(txn), j, r1)
  {
    assert UndoReady(txn, env, started, fail, r.w.temps, j);
    r1 := QuietUndoStep(txn, env, started, fail, r, i, j);
    UndoBecomes(s, t, j, fail(j));
    forall k | 0 <= k < j ensures UndoReady(txn, env, started, fail, r1.w.temps, k) {
      StaysReady(txn, env, started, fail, r, r1, j, k);
    }
  }

  /** Where a compensation ends: the body is left, and the damage is recorded if there is any. */
  ghost predicate RollbackEndsLike(s: System, s': System, t: Tid, e: nat, r: Compensation)
    requires t in s.threads
  {
    Became(s, s', t, Leaving(e), r.w.tree, Damages(r.errors > 0, r.w.tree))
  }

  /** What becomes of `r` when the first `i` replacements are compensated. */
  function Undone(txn: Txn, env: Environment, r: Compensation, i: nat): Compensation
    requires i <= |Changed(txn)|
  {
    CompensateAll(txn, env, Changed(txn), i, r)
  }

  lemma {:induction false} LoneRollbackEnds(
    s: System, t: Tid, txn: Txn, env: Environment, e: nat, started: Tree, stop: nat -> bool, fail: nat -> bool,
    r: Compensation)
    returns (s': System)
    requires RollsBackLike(s, t, txn, env, e, started, fail, r, 0)
    ensures RollbackEndsLike(s, s', t, e, Undone(txn, env, r, 0))
    ensures s' == Alone(s, t, stop, fail)
  {
    s' := AloneGoesOn(s, t, stop, fail, UndoNext(t, false));
    UndoEnds(s, t, false);
    AloneIsDone(s', t, stop, fail);
  }

  lemma {:induction false} LoneRollbackStep(
    s: System, t: Tid, txn: Txn, env: Environment, e: nat, started: Tree, stop: nat -> bool, fail: nat -> bool,
    r: Compensation, i: nat)
    returns (s1: System, r1: Compensation, j: nat)
    requires Quiet(env) && i > 0 && RollsBackLike(s, t, txn, env, e, started, fail, r, i)
    ensures j == i - 1 && RollsBackLike(s1, t, txn, env, e, started, fail, r1, j)
    ensures Became(s, s1, t, RollingBack(e, started, j, r1.errors > 0), r1.w.tree, [])
    ensures Alone(s, t, stop, fail) == Alone(s1, t, stop, fail)
    ensures Undone(txn, env, r, i) == Undone(txn, env, r1, j)
  {
    j := i - 1;
    s1 := AloneGoesOn(s, t, stop, fail, UndoNext(t, fail(j)));
    r1 := LoneUndo(s, t, txn, env, e, started, fail, r, i, j);
  }

  lemma {:induction false} LoneRollbackGoesOn(
    s: System, s1: System, s2: System, t: Tid, e: nat, started: Tree, i: nat, r1: Compensation, r2: Compensation)
    requires t in s.threads && Became(s, s1, t, RollingBack(e, started, i, r1.errors > 0), r1.w.tree, [])
    requires RollbackEndsLike(s1, s2, t, e, r2)
    ensures RollbackEndsLike(s, s2, t, e, r2)
  {
    BecameTwice(s, s1, s2, t, RollingBack(e, started, i, r1.errors > 0), Leaving(e), r1.w.tree, r2.w.tree,
                Damages(r2.errors > 0, r2.w.tree));
  }

  lemma {:induction false} LoneRollback(
    s: System, t: Tid, txn: Txn, env: Environment, e: nat, started: Tree, stop: nat -> bool, fail: nat -> bool,
    r: Compensation, i: nat)
    returns (s': System)
    requires Quiet(env) && RollsBackLike(s, t, txn, env, e, started, fail, r, i)
    ensures RollbackEndsLike(s, s', t, e, Undone(txn, env, r, i))
    ensures s' == Alone(s, t, stop, fail)
    decreases i
  {
    if i == 0 {
      s' := LoneRollbackEnds(s, t, txn, env, e, started, stop, fail, r);
    } else {
      var s1, r1, j := LoneRollbackStep(s, t, txn, env, e, started, stop, fail, r, i);
      s' := LoneRollback(s1, t, txn, env, e, started, stop, fail, r1, j);
      LoneRollbackGoesOn(s, s1, s', t, e, started, j, r1, Undone(txn, env, r1, j));
    }
  }

  // ---------------------------------------------------------------- commit

  /** One replacement without interference. */
  lemma {:induction false} QuietReplace(txn: Txn, env: Environment, c: Commitment, p: Path, i: nat)
    requires Quiet(env) && c.applied == i
    ensures var c' := CommitOne(txn, env, c, p, i);
            if StopsAt(env, i) || Look(c.w.tree, p) != Expected(txn, p) then
              !c'.ok && c'.applied == i && c'.w.tree == c.w.tree
            else
              && (c'.ok <==> !env.raises(AfterReplace(i))) && c'.applied == i + 1
              && c'.w.tree == c.w.tree[p := Final(txn, p)]
  {
    assert env.edits(BeforeReplace(i)) == None && env.edits(AfterReplace(i)) == None;
  }

  lemma {:induction false} QuietReplaceStep(txn: Txn, env: Environment, c: Commitment, i: nat) returns (c1: Commitment)
    requires Quiet(env) && c.applied == i < |Changed(txn)| && c.ok
    ensures CommitAll(txn, env, Changed(txn), i, c) == CommitAll(txn, env, Changed(txn), i + 1, c1)
    ensures var p := Changed(txn)[i];
            if StopsAt(env, i) || Look(c.w.tree, p) != Expected(txn, p) then
              !c1.ok && c1.applied == i && c1.w.tree == c.w.tree
            else
              && (c1.ok <==> !env.raises(AfterReplace(i))) && c1.applied == i + 1
              && c1.w.tree == c.w.tree[p := Final(txn, p)]
  {
    c1 := CommitOne(txn, env, c, Changed(txn)[i], i);
    QuietReplace(txn, env, c, Changed(txn)[i], i);
  }

  lemma {:induction false} StoppedCommit(txn: Txn, env: Environment, i: nat, c: Commitment)
    requires i <= |Changed(txn)| && (!c.ok || i == |Changed(txn)|)
    ensures CommitAll(txn, env, Changed(txn), i, c) == c
  {
  }

  /** The file to be replaced next is not the baseline's any more. */
  predicate Differs(tree: Tree, txn: Txn, i: nat)
    requires i < |Changed(txn)|
  {
    Look(tree, Changed(txn)[i]) != Expected(txn, Changed(txn)[i])
  }

  /** The commit step of the thread when it fails, or finds another file than the baseline's. */
  lemma {:induction false} CommitStops(s: System, t: Tid, stopped: bool)
    requires t in s.threads && s.threads[t].phase.Committing? && s.threads[t].phase.i <= |Changed(s.threads[t].txn)|
    requires var th := s.threads[t];
             stopped || (th.phase.i < |Changed(th.txn)| && Differs(TreeOf(s, th.root), th.txn, th.phase.i))
    ensures var th := s.threads[t];
            Became(s, Do(s, CommitNext(t, stopped)), t,
                   RollingBack(th.phase.entry, th.phase.started, th.phase.i, false), TreeOf(s, th.root), [])
  {
    var phase := s.threads[t].phase;
    TurnBecomes(s, t, RollingBack(phase.entry, phase.started, phase.i, false));
  }

  /** The commit step that ends the body. */
  lemma {:induction false} CommitFinishes(s: System, t: Tid)
    requires t in s.threads && s.threads[t].phase.Committing? && s.threads[t].phase.i == |Changed(s.threads[t].txn)|
    ensures var th := s.threads[t];
            var tree := TreeOf(s, th.root);
            Became(s, Do(s, CommitNext(t, false)), t, Leaving(th.phase.entry), tree,
                   [Success(th.txn.baseline, th.txn.working, TreeFiles(tree))])
  {
    var th := s.threads[t];
    var success := Success(th.txn.baseline, th.txn.working, TreeFiles(TreeOf(s, th.root)));
    RecordBecomes(s, t, Leaving(th.phase.entry), success);
  }

  /** The commit step that replaces a file. */
  lemma {:induction false} CommitReplacesOne(s: System, t: Tid, next: nat)
    requires t in s.threads && s.threads[t].phase.Committing? && s.threads[t].phase.i < |Changed(s.threads[t].txn)|
    requires var th := s.threads[t];
             Look(TreeOf(s, th.root), Changed(th.txn)[th.phase.i]) == Expected(th.txn, Changed(th.txn)[th.phase.i])
             && next == th.phase.i + 1
    ensures var th := s.threads[t];
            var p := Changed(th.txn)[th.phase.i];
            Became(s, Do(s, CommitNext(t, false)), t, Committing(th.phase.entry, th.phase.started, next),
                   TreeOf(s, th.root)[p := Final(th.txn, p)], [])
  {
    var th := s.threads[t];
    var p := Changed(th.txn)[th.phase.i];
    WriteBecomes(s, t, Committing(th.phase.entry, th.phase.started, next), TreeOf(s, th.root)[p := Final(th.txn, p)]);
  }

  /** The thread has replaced what the commit phase `c` of the transaction has replaced. */
  ghost predicate CommitsLike(
    s: System, t: Tid, txn: Txn, e: nat, started: Tree, env: Environment, prepared: bool, c: Commitment)
  {
    && t in s.threads && s.threads[t].txn == txn && c.applied <= |Changed(txn)|
    && s.threads[t].phase == Committing(e, started, c.applied)
    && TreeOf(s, s.threads[t].root) == c.w.tree
    && (c.ok <==> !StopsBefore(env, prepared, c.applied))
  }

  /** Where the commit phase ends: the body is left after a success, or the rollback begins. */
  ghost predicate CommitEndsLike(s: System, s': System, t: Tid, txn: Txn, e: nat, started: Tree, c: Commitment)
    requires t in s.threads
  {
    if c.ok then Became(s, s', t, Leaving(e), c.w.tree, [Success(txn.baseline, txn.working, TreeFiles(c.w.tree))])
    else Became(s, s', t, RollingBack(e, started, c.applied, false), c.w.tree, [])
  }

  lemma {:induction false} LoneCommitEnds(
    s: System, t: Tid, txn: Txn, e: nat, started: Tree, env: Environment, prepared: bool,
    stopped: bool, c: Commitment)
    requires Quiet(env) && CommitsLike(s, t, txn, e, started, env, prepared, c)
    requires stopped <==> Stops(env, prepared, |Changed(txn)|, c.applied)
    requires stopped || c.applied == |Changed(txn)| || Differs(c.w.tree, txn, c.applied)
    ensures CommitEndsLike(s, Do(s, CommitNext(t, stopped)), t, txn, e, started,
                           CommitAll(txn, env, Changed(txn), c.applied, c))
  {
    if stopped || c.applied < |Changed(txn)| {
      CommitStops(s, t, stopped);
    } else {
      CommitFinishes(s, t);
    }
    if !c.ok || c.applied == |Changed(txn)| {
      StoppedCommit(txn, env, c.applied, c);
    } else {
      var c1 := QuietReplaceStep(txn, env, c, c.applied);
      StoppedCommit(txn, env, c.applied + 1, c1);
    }
  }

  /** Neither the thread nor the transaction stops at the next file. */
  lemma {:induction false} LoneReplace(
    s: System, t: Tid, txn: Txn, e: nat, started: Tree, env: Environment, prepared: bool, c: Commitment)
    returns (c1: Commitment)
    requires Quiet(env) && CommitsLike(s, t, txn, e, started, env, prepared, c)
    requires c.applied < |Changed(txn)| && !Stops(env, prepared, |Changed(txn)|, c.applied)
    requires Look(c.w.tree, Changed(txn)[c.applied]) == Expected(txn, Changed(txn)[c.applied])
    ensures var s1 := Do(s, CommitNext(t, false));
            && CommitsLike(s1, t, txn, e, started, env, prepared, c1)
            && Became(s, s1, t, Committing(e, started, c1.applied), c1.w.tree, [])
    ensures c1.applied == c.applied + 1
    ensures CommitAll(txn, env, Changed(txn), c.applied, c) == CommitAll(txn, env, Changed(txn), c1.applied, c1)
  {
    c1 := QuietReplaceStep(txn, env, c, c.applied);
    CommitReplacesOne(s, t, c1.applied);
  }

  lemma {:induction false} LoneCommit(
    s: System, t: Tid, txn: Txn, e: nat, started: Tree, env: Environment, prepared: bool,
    stop: nat -> bool, fail: nat -> bool, c: Commitment)
    returns (s': System)
    requires Quiet(env) && CommitsLike(s, t, txn, e, started, env, prepared, c)
    requires Corresponds(env, prepared, |Changed(txn)|, stop, fail)
    ensures CommitEndsLike(s, s', t, txn, e, started, CommitAll(txn, env, Changed(txn), c.applied, c))
    ensures t in s'.threads && Alone(s, t, stop, fail) == Alone(s', t, stop, fail)
    decreases |Changed(txn)| - c.applied
  {
    var i := c.applied;
    var s1 := AloneGoesOn(s, t, stop, fail, CommitNext(t, stop(i)));
    if stop(i) || i == |Changed(txn)| || Look(c.w.tree, Changed(txn)[i]) != Expected(txn, Changed(txn)[i]) {
      LoneCommitEnds(s, t, txn, e, started, env, prepared, stop(i), c);
      s' := s1;
    } else {
      var c1 := LoneReplace(s, t, txn, e, started, env, prepared, c);
      s' := LoneCommit(s1, t, txn, e, started, env, prepared, stop, fail, c1);
      LoneCommitGoesOn(s, s1, s', t, txn, e, started, c1, CommitAll(txn, env, Changed(txn), i, c));
    }
  }

  lemma {:induction false} LoneCommitGoesOn(
    s: System, s1: System, s2: System, t: Tid, txn: Txn, e: nat, started: Tree, c1: Commitment, c2: Commitment)
    requires t in s.threads && Became(s, s1, t, Committing(e, started, c1.applied), c1.w.tree, [])
    requires CommitEndsLike(s1, s2, t, txn, e, started, c2)
    ensures CommitEndsLike(s, s2, t, txn, e, started, c2)
  {
    var phase := if c2.ok then Leaving(e) else RollingBack(e, started, c2.applied, false);
    var episodes := if c2.ok then [Success(txn.baseline, txn.working, TreeFiles(c2.w.tree))] else [];
    BecameTwice(s, s1, s2, t, Committing(e, started, c1.applied), phase, c1.w.tree, c2.w.tree, episodes);
  }

  // ---------------------------------------------------------------- the whole transaction

  /** What the history of the root remembers of a transaction. */
  function EpisodesOf(txn: Txn, r: Result): seq<Episode> {
    match r.outcome
    case Applied => [Success(txn.baseline, txn.working, TreeFiles(r.w.tree))]
    case RolledBack(status, _, _) => Damages(status.Partial?, r.w.tree)
    case _ => []
  }

  ghost predicate HoldsLock(s: System, t: Tid, txn: Txn, e: nat) {
    t in s.threads && s.threads[t].txn == txn && s.threads[t].phase == Holding(e)
  }

  function ReadyToCommit(txn: Txn, env: Environment, tree: Tree, temps: Temps): bool {
    Prepared(txn, env, World(tree, temps, [])).ok
  }

  /** Nothing has been replaced when the preparation ends. */
  lemma {:induction false} QuietStart(txn: Txn, env: Environment, tree: Tree, temps: Temps)
    requires Quiet(env)
    ensures Prepared(txn, env, World(tree, temps, [])).w.tree == tree
  {
    assert env.edits(AfterPreflight) == None;
    ApplySafety.PrepareTouchesNoTarget(txn, env, Changed(txn), 0, Preparation(World(tree, temps, []), {}, {}, true));
  }

  /** The commit phase of a quiet transaction, as a continuation of its start. */
  function StartOfCommit(txn: Txn, env: Environment, tree: Tree, temps: Temps): Commitment {
    var prep := Prepared(txn, env, World(tree, temps, []));
    if prep.ok then Commitment(AtHook(prep.w, env, BeforeCommit), 0, !env.raises(BeforeCommit), None)
    else Commitment(prep.w, 0, false, None)
  }

  lemma {:induction false} CommittedFromStart(txn: Txn, env: Environment, tree: Tree, temps: Temps)
    requires Quiet(env)
    ensures Committed(txn, env, Prepared(txn, env, World(tree, temps, [])))
            == CommitAll(txn, env, Changed(txn), 0, StartOfCommit(txn, env, tree, temps))
    ensures StartOfCommit(txn, env, tree, temps).w.tree == tree
  {
    QuietStart(txn, env, tree, temps);
    assert env.edits(BeforeCommit) == None;
  }

  /** At the end of a quiet commit phase every backup holds the baseline. */
  lemma {:induction false} QuietBackups(txn: Txn, env: Environment, tree: Tree, temps: Temps)
    requires ValidTxn(txn) && FreshRun(txn, temps) && Quiet(env) && PreflightOk(txn, tree)
    ensures AtBaseline(txn, tree, Changed(txn))
    ensures var c := Committed(txn, env, Prepared(txn, env, World(tree, temps, [])));
            c.applied <= |Changed(txn)| && HoldBaseline(txn, c.w.temps, Changed(txn), c.applied)
  {
    QuietCommitted(txn, env, tree, temps);
    CommittedFacts(txn, env, tree, temps);
    assert env.edits(AfterPreflight) == None;
    var c := Committed(txn, env, Prepared(txn, env, World(tree, temps, [])));
    forall k | 0 <= k < c.applied ensures BackupIs(txn, c.w.temps, Changed(txn)[k], Expected(txn, Changed(txn)[k])) {
      assert Saved(txn, tree, Changed(txn)[k]) == Expected(txn, Changed(txn)[k]);
    }
  }

  /** How the transaction ends, in terms of its commit phase and its compensation. */
  ghost predicate EndsAs(txn: Txn, env: Environment, c: Commitment, r: Result)
    requires c.applied <= |Changed(txn)|
  {
    var r' := CompensateAll(txn, env, Changed(txn), c.applied, StartOfRollback(c));
    if c.ok then r.outcome == Applied && r.w.tree == c.w.tree
    else r.outcome.RolledBack? && r.w.tree == r'.w.tree && (r.outcome.status == Partial <==> r'.errors > 0)
  }

  lemma {:induction false} TransactionEnds(txn: Txn, env: Environment, tree: Tree, temps: Temps)
    returns (start: Commitment, c: Commitment)
    requires ValidTxn(txn) && FreshRun(txn, temps) && Quiet(env) && PreflightOk(txn, tree)
             && !env.raises(AfterPreflight)
    ensures AtBaseline(txn, tree, Changed(txn))
    ensures start.applied == 0 && start.w.tree == tree
    ensures start.ok <==> !StopsBefore(env, ReadyToCommit(txn, env, tree, temps), 0)
    ensures c == CommitAll(txn, env, Changed(txn), 0, start)
    ensures c.applied <= |Changed(txn)| && HoldBaseline(txn, c.w.temps, Changed(txn), c.applied)
    ensures EndsAs(txn, env, c, AtomicApply(txn, env, tree, temps))
  {
    QuietBackups(txn, env, tree, temps);
    CommittedFromStart(txn, env, tree, temps);
    start := StartOfCommit(txn, env, tree, temps);
    c := Committed(txn, env, Prepared(txn, env, World(tree, temps, [])));
  }

  lemma {:induction false} PreflightBecomes(s: System, t: Tid)
    requires t in s.threads && s.threads[t].phase.Holding?
    ensures var th := s.threads[t];
            var tree := TreeOf(s, th.root);
            Became(s, Do(s, Preflight(t)), t,
                   if PreflightOk(th.txn, tree) then Committing(th.phase.entry, tree, 0) else Leaving(th.phase.entry),
                   tree, [])
  {
    var th := s.threads[t];
    var tree := TreeOf(s, th.root);
    assert Do(s, Preflight(t)) == DoPreflight(s, t);
    var phase := if PreflightOk(th.txn, tree) then Committing(th.phase.entry, tree, 0) else Leaving(th.phase.entry);
    TurnBecomes(s, t, phase);
  }

  lemma {:induction false} LoneSuccess(
    s: System, s1: System, t: Tid, txn: Txn, e: nat, started: Tree, env: Environment,
    stop: nat -> bool, fail: nat -> bool, c: Commitment, r: Result)
    requires t in s.threads && c.ok && CommitEndsLike(s, s1, t, txn, e, started, c)
    requires c.applied <= |Changed(txn)| && EndsAs(txn, env, c, r)
    ensures t in s1.threads && Became(s, Alone(s1, t, stop, fail), t, Leaving(e), r.w.tree, EpisodesOf(txn, r))
  {
    AloneIsDone(s1, t, stop, fail);
  }

  lemma {:induction false} LoneAbortEnds(
    s: System, s1: System, s2: System, t: Tid, txn: Txn, e: nat, started: Tree,
    c: Commitment, r': Compensation, r: Result)
    requires t in s.threads && !c.ok && CommitEndsLike(s, s1, t, txn, e, started, c)
    requires RollbackEndsLike(s1, s2, t, e, r')
    requires r.outcome.RolledBack? && r.w.tree == r'.w.tree && (r.outcome.status == Partial <==> r'.errors > 0)
    ensures Became(s, s2, t, Leaving(e), r.w.tree, EpisodesOf(txn, r))
  {
    BecameTwice(s, s1, s2, t, RollingBack(e, started, c.applied, false), Leaving(e),
                c.w.tree, r.w.tree, Damages(r'.errors > 0, r'.w.tree));
  }

  lemma {:induction false} LoneAbort(
    s: System, s1: System, t: Tid, txn: Txn, e: nat, started: Tree, env: Environment,
    stop: nat -> bool, fail: nat -> bool, c: Commitment, r: Result)
    requires Quiet(env) && ValidTxn(txn) && AtBaseline(txn, started, Changed(txn))
    requires t in s.threads && s.threads[t].txn == txn && !c.ok && CommitEndsLike(s, s1, t, txn, e, started, c)
    requires c.applied <= |Changed(txn)| && HoldBaseline(txn, c.w.temps, Changed(txn), c.applied)
    requires EndsAs(txn, env, c, r)
    requires UndosCorrespond(env, |Changed(txn)|, fail)
    ensures t in s1.threads && Became(s, Alone(s1, t, stop, fail), t, Leaving(e), r.w.tree, EpisodesOf(txn, r))
  {
    var undo := StartOfRollback(c);
    UndosReady(txn, env, started, fail, c.w.temps, c.applied);
    var s2 := LoneRollback(s1, t, txn, env, e, started, stop, fail, undo, c.applied);
    LoneAbortEnds(s, s1, s2, t, txn, e, started, c, Undone(txn, env, undo, c.applied), r);
  }

  /** The transaction once its preflight has passed. */
  lemma {:induction false} LoneAttempt(
    s: System, t: Tid, txn: Txn, e: nat, env: Environment, prepared: bool, stop: nat -> bool, fail: nat -> bool,
    start: Commitment, c: Commitment, r: Result)
    requires ValidTxn(txn) && Quiet(env) && AtBaseline(txn, start.w.tree, Changed(txn))
    requires CommitsLike(s, t, txn, e, start.w.tree, env, prepared, start) && start.applied == 0
    requires c == CommitAll(txn, env, Changed(txn), 0, start)
    requires c.applied <= |Changed(txn)| && HoldBaseline(txn, c.w.temps, Changed(txn), c.applied)
    requires EndsAs(txn, env, c, r)
    requires Corresponds(env, prepared, |Changed(txn)|, stop, fail)
    ensures Became(s, Alone(s, t, stop, fail), t, Leaving(e), r.w.tree, EpisodesOf(txn, r))
  {
    var s1 := LoneCommit(s, t, txn, e, start.w.tree, env, prepared, stop, fail, start);
    if c.ok {
      LoneSuccess(s, s1, t, txn, e, start.w.tree, env, stop, fail, c, r);
    } else {
      LoneAbort(s, s1, t, txn, e, start.w.tree, env, stop, fail, c, r);
    }
  }

  /** The hook after the preflight raises: the transaction touches nothing, and neither does the thread. */
  lemma {:induction false} LoneInterruption(
    s: System, t: Tid, txn: Txn, e: nat, started: Tree, stop: nat -> bool, fail: nat -> bool)
    requires t in s.threads && s.threads[t].txn == txn && s.threads[t].phase == Committing(e, started, 0) && stop(0)
    ensures Became(s, Alone(s, t, stop, fail), t, Leaving(e), TreeOf(s, s.threads[t].root), [])
  {
    var tree := TreeOf(s, s.threads[t].root);
    var s1 := AloneGoesOn(s, t, stop, fail, CommitNext(t, true));
    CommitStops(s, t, true);
    var s2 := AloneGoesOn(s1, t, stop, fail, UndoNext(t, false));
    UndoEnds(s1, t, false);
    AloneIsDone(s2, t, stop, fail);
    BecameTwice(s, s1, s2, t, RollingBack(e, started, 0, false), Leaving(e), tree, tree, []);
  }

  /** The preflight finds another tree than the baseline, and that is all. */
  lemma {:induction false} LoneRejection(s: System, t: Tid, txn: Txn, e: nat, stop: nat -> bool, fail: nat -> bool)
    requires HoldsLock(s, t, txn, e) && !PreflightOk(txn, TreeOf(s, s.threads[t].root))
    ensures Became(s, Alone(s, t, stop, fail), t, Leaving(e), TreeOf(s, s.threads[t].root), [])
  {
    var s1 := AloneGoesOn(s, t, stop, fail, Preflight(t));
    PreflightBecomes(s, t);
    AloneIsDone(s1, t, stop, fail);
  }

  /**
   Whatever fails, a thread that holds the lock does to its tree, until it leaves the body, exactly what
   the transaction does, and records exactly what became of it; it changes nothing else.
   */
  lemma {:induction false} AloneIsTheTransaction(
    s: System, t: Tid, txn: Txn, e: nat, env: Environment, temps: Temps, stop: nat -> bool, fail: nat -> bool)
    requires HoldsLock(s, t, txn, e) && ValidTxn(txn) && FreshRun(txn, temps) && Quiet(env)
    requires Corresponds(env, ReadyToCommit(txn, env, TreeOf(s, s.threads[t].root), temps), |Changed(txn)|, stop, fail)
    ensures var r := AtomicApply(txn, env, TreeOf(s, s.threads[t].root), temps);
            Became(s, Alone(s, t, stop, fail), t, Leaving(e), r.w.tree, EpisodesOf(txn, r))
  {
    var tree := TreeOf(s, s.threads[t].root);
    var r := AtomicApply(txn, env, tree, temps);
    if PreflightOk(txn, tree) {
      var s1 := AloneGoesOn(s, t, stop, fail, Preflight(t));
      PreflightBecomes(s, t);
      if env.raises(AfterPreflight) {
        assert env.edits(AfterPreflight) == None && stop(0);
        LoneInterruption(s1, t, txn, e, tree, stop, fail);
      } else {
        var start, c := TransactionEnds(txn, env, tree, temps);
        LoneAttempt(s1, t, txn, e, env, ReadyToCommit(txn, env, tree, temps), stop, fail, start, c, r);
      }
      BecameTwice(s, s1, Alone(s1, t, stop, fail), t, Committing(e, tree, 0), Leaving(e), tree, r.w.tree,
                  EpisodesOf(txn, r));
    } else {
      LoneRejection(s, t, txn, e, stop, fail);
    }
  }

  /** The environment in which the transaction fails where the thread does. */
  function FailingAt(stop: nat -> bool, fail: nat -> bool): Environment {
    Environment(
      (point: HookPoint) => None,
      (point: HookPoint) => match point
        case BeforeCommit => stop(0)
        case AfterReplace(i) => stop(i + 1)
        case BeforeRollback(i) => fail(i)
        case _ => false,
      (op: Operation) => false)
  }

  lemma {:induction false} FailingCorresponds(txn: Txn, tree: Tree, temps: Temps, stop: nat -> bool, fail: nat -> bool)
    requires ValidTxn(txn) && PreflightOk(txn, tree)
    ensures var env := FailingAt(stop, fail);
            Corresponds(env, ReadyToCommit(txn, env, tree, temps), |Changed(txn)|, stop, fail)
  {
    var env := FailingAt(stop, fail);
    assert AtBaseline(txn, tree, Changed(txn));
    assert env.edits(AfterPreflight) == None;
    QuietPrepare(txn, env, Changed(txn), 0, Preparation(World(tree, temps, []), {}, {}, true));
  }

  /** Every way in which the steps of a lone thread can fail is a way in which the transaction can fail. */
  lemma {:induction false} EveryLoneRunIsATransaction(
    s: System, t: Tid, txn: Txn, e: nat, temps: Temps, stop: nat -> bool, fail: nat -> bool)
    requires HoldsLock(s, t, txn, e) && ValidTxn(txn) && FreshRun(txn, temps)
    ensures var env := FailingAt(stop, fail);
            var r := AtomicApply(txn, env, TreeOf(s, s.threads[t].root), temps);
            Quiet(env) && Became(s, Alone(s, t, stop, fail), t, Leaving(e), r.w.tree, EpisodesOf(txn, r))
  {
    var tree := TreeOf(s, s.threads[t].root);
    if PreflightOk(txn, tree) {
      FailingCorresponds(txn, tree, temps, stop, fail);
      AloneIsTheTransaction(s, t, txn, e, FailingAt(stop, fail), temps, stop, fail);
    } else {
      LoneRejection(s, t, txn, e, stop, fail);
    }
  }
}
