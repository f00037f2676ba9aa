/**
 No lost update: whatever the interleaving of concurrent applies on a root, each successful one starts
 from exactly the files the previous one left.
 */
module ApplyHistory {
  import opened ApplyTransaction
  import ApplySafety
  import opened ApplyCompareAndSwap
  import opened ApplyConcurrency

  /** The managed files after the last recorded episode. */
  function FilesAfter(initial: Snapshot, h: seq<Episode>): Snapshot {
    if h == [] then initial else h[|h| - 1].files
  }

  function InitialFiles(initial: map<Root, Tree>, r: Root): Snapshot {
    TreeFiles(if r in initial then initial[r] else map[])
  }

  /** Every success replaced exactly the files left by the episode before it with its working copy. */
  ghost predicate Linked(initial: Snapshot, h: seq<Episode>) {
    h == [] ||
    (Linked(initial, h[..|h| - 1]) &&
     (h[|h| - 1].Success? ==>
        h[|h| - 1].baseline == FilesAfter(initial, h[..|h| - 1]) && h[|h| - 1].files == h[|h| - 1].working))
  }

  lemma {:induction false} LinkedSnoc(initial: Snapshot, h: seq<Episode>, e: Episode)
    requires Linked(initial, h)
    requires e.Success? ==> e.baseline == FilesAfter(initial, h) && e.files == e.working
    ensures Linked(initial, h + [e]) && FilesAfter(initial, h + [e]) == e.files
  {
    assert (h + [e])[..|h + [e]| - 1] == h;
  }

  ghost predicate AtRest(s: System, r: Root) {
    forall t :: t in s.threads && s.threads[t].root == r ==> !Changing(s.threads[t].phase)
  }

  function FilesOf(s: System, r: Root): Snapshot { TreeFiles(TreeOf(s, r)) }

  ghost predicate HistoryOk(initial: map<Root, Tree>, s: System, r: Root) {
    var files := InitialFiles(initial, r);
    Linked(files, HistoryOf(s, r)) && (AtRest(s, r) ==> FilesOf(s, r) == FilesAfter(files, HistoryOf(s, r)))
  }

  /** What a thread in the middle of its replacements knows about the tree of its root. */
  ghost predicate BodyOk(initial: map<Root, Tree>, s: System, t: Tid) {
    t in s.threads && Changing(s.threads[t].phase) ==>
      var th := s.threads[t];
      var files := InitialFiles(initial, th.root);
      && th.phase.i <= |Changed(th.txn)|
      && PreflightOk(th.txn, th.phase.started)
      && TreeFiles(th.phase.started) == FilesAfter(files, HistoryOf(s, th.root))
      && (th.phase.Committing? || !th.phase.damaged ==>
            Mixed(th.txn, th.phase.started, TreeOf(s, th.root), Changed(th.txn), th.phase.i))
  }

  ghost predicate HistoryInvariant(initial: map<Root, Tree>, s: System) {
    && LockInvariant(s)
    && (forall r :: HistoryOk(initial, s, r))
    && (forall t :: BodyOk(initial, s, t))
  }

  lemma {:induction false} SameFiles(a: Tree, b: Tree)
    requires SameTargets(a, b)
    ensures TreeFiles(a) == TreeFiles(b)
  {
    forall p ensures p in TreeFiles(a) <==> p in TreeFiles(b)
             ensures p in TreeFiles(a) && p in TreeFiles(b) ==> TreeFiles(a)[p] == TreeFiles(b)[p]
    {
      assert Look(a, p) == Look(b, p);
    }
  }

  /** While one thread is in the body, no other thread of the root is changing the tree. */
  lemma {:induction false} AloneInBody(s: System, t: Tid, u: Tid)
    requires LockInvariant(s) && t in s.threads && u in s.threads && t != u
    requires InBody(s.threads[t].phase) && s.threads[u].root == s.threads[t].root
    ensures !Changing(s.threads[u].phase)
  {
    assert ThreadOk(s, t) && ThreadOk(s, u);
  }

  lemma {:induction false} RestBefore(s: System, s': System, t: Tid, q: Root)
    requires t in s'.threads && s'.threads == s.threads[t := s'.threads[t]]
    requires t in s.threads ==> s.threads[t].root != q || !Changing(s.threads[t].phase)
    requires AtRest(s', q)
    ensures AtRest(s, q)
  {
    forall u | u in s.threads && s.threads[u].root == q ensures !Changing(s.threads[u].phase) {
      assert u in s'.threads;
    }
  }

  /** A step that neither enters nor leaves the changing phases and touches no tree keeps everything. */
  lemma {:induction false} QuietStep(initial: map<Root, Tree>, s: System, s': System, t: Tid)
    requires HistoryInvariant(initial, s) && LockInvariant(s')
    requires t in s'.threads && s'.threads == s.threads[t := s'.threads[t]]
    requires t in s.threads ==> !Changing(s.threads[t].phase)
    requires !Changing(s'.threads[t].phase)
    requires s'.trees == s.trees && s'.history == s.history
    requires t in s.threads ==> s'.threads[t].root == s.threads[t].root
    ensures HistoryInvariant(initial, s')
  {
    forall r ensures HistoryOk(initial, s', r) {
      assert HistoryOk(initial, s, r);
      if AtRest(s', r) {
        RestBefore(s, s', t, r);
      }
    }
    forall u ensures BodyOk(initial, s', u) {
      assert BodyOk(initial, s, u);
    }
  }

  /** While a thread holds the lock and has not begun to change the tree, nobody is changing it. */
  lemma {:induction false} HolderFindsRest(s: System, t: Tid)
    requires LockInvariant(s) && t in s.threads && s.threads[t].phase.Holding?
    ensures AtRest(s, s.threads[t].root)
  {
    var r := s.threads[t].root;
    forall u | u in s.threads && s.threads[u].root == r ensures !Changing(s.threads[u].phase) {
      if u != t {
        AloneInBody(s, t, u);
      }
    }
  }

  lemma {:induction false} PreflightBody(initial: map<Root, Tree>, s: System, t: Tid)
    requires HistoryInvariant(initial, s) && Enabled(s, Preflight(t)) && AtRest(s, s.threads[t].root)
    ensures BodyOk(initial, DoPreflight(s, t), t)
  {
    assert HistoryOk(initial, s, s.threads[t].root) && BodyOk(initial, s, t);
    assert Changed(s.threads[t].txn)[..0] == [];
  }

  lemma {:induction false} PreflightKeepsHistory(initial: map<Root, Tree>, s: System, t: Tid)
    requires HistoryInvariant(initial, s) && Enabled(s, Preflight(t)) && LockInvariant(DoPreflight(s, t))
    ensures HistoryInvariant(initial, DoPreflight(s, t))
  {
    var s' := DoPreflight(s, t);
    HolderFindsRest(s, t);
    forall q ensures HistoryOk(initial, s', q) {
      assert HistoryOk(initial, s, q);
      if AtRest(s', q) {
        RestBefore(s, s', t, q);
      }
    }
    PreflightBody(initial, s, t);
    forall u ensures BodyOk(initial, s', u) {
      assert BodyOk(initial, s, u);
    }
  }

  /** How a step of the changing thread `t` affects only its own root. */
  lemma {:induction false} ChangingStep(initial: map<Root, Tree>, s: System, s': System, t: Tid)
    requires HistoryInvariant(initial, s) && LockInvariant(s')
    requires t in s.threads && Changing(s.threads[t].phase) && t in s'.threads
    requires s'.threads == s.threads[t := s.threads[t].(phase := s'.threads[t].phase)]
    requires forall q | q != s.threads[t].root :: TreeOf(s', q) == TreeOf(s, q) && HistoryOf(s', q) == HistoryOf(s, q)
    requires BodyOk(initial, s', t)
    requires HistoryOk(initial, s', s.threads[t].root)
    ensures HistoryInvariant(initial, s')
  {
    var r := s.threads[t].root;
    forall q ensures HistoryOk(initial, s', q) {
      assert HistoryOk(initial, s, q);
      if q != r && AtRest(s', q) {
        RestBefore(s, s', t, q);
      }
    }
    forall u ensures BodyOk(initial, s', u) {
      assert BodyOk(initial, s, u);
      if u != t && u in s.threads && s.threads[u].root == r {
        AloneInBody(s, t, u);
      }
    }
  }

  lemma {:induction false} StillChanging(initial: map<Root, Tree>, s: System, s': System, t: Tid)
    requires t in s'.threads && Changing(s'.threads[t].phase)
    requires HistoryOk(initial, s, s'.threads[t].root)
    requires HistoryOf(s', s'.threads[t].root) == HistoryOf(s, s'.threads[t].root)
    ensures HistoryOk(initial, s', s'.threads[t].root)
  {
    assert !AtRest(s', s'.threads[t].root);
  }

  /** Without outside editors the re-check before a replacement never finds a conflict. */
  lemma {:induction false} RecheckAlwaysPasses(initial: map<Root, Tree>, s: System, t: Tid)
    requires HistoryInvariant(initial, s) && Enabled(s, CommitNext(t, false))
    requires s.threads[t].phase.i < |Changed(s.threads[t].txn)|
    ensures var th := s.threads[t];
            Look(TreeOf(s, th.root), Changed(th.txn)[th.phase.i]) == Expected(th.txn, Changed(th.txn)[th.phase.i])
  {
    var th := s.threads[t];
    assert BodyOk(initial, s, t) && ThreadOk(s, t);
    ApplySafety.ChangedMembers(th.txn, th.txn.order);
    MixedNext(th.txn, th.phase.started, TreeOf(s, th.root), Changed(th.txn), th.phase.i);
    assert Changed(th.txn)[th.phase.i] in Changed(th.txn);
  }

  /** The thread has replaced every path and records its success. */
  ghost predicate Succeeded(s: System, s': System, t: Tid) {
    t in s.threads && s.threads[t].phase.Committing? && s.threads[t].phase.i == |Changed(s.threads[t].txn)| &&
    var th := s.threads[t];
    && s'.threads == s.threads[t := th.(phase := Leaving(th.phase.entry))]
    && s'.trees == s.trees
    && s'.history == s.history[th.root := HistoryOf(s, th.root)
                                          + [Success(th.txn.baseline, th.txn.working, FilesOf(s, th.root))]]
  }

  lemma {:induction false} CommitEnds(initial: map<Root, Tree>, s: System, s': System, t: Tid)
    requires HistoryInvariant(initial, s) && LockInvariant(s') && Succeeded(s, s', t)
    ensures HistoryInvariant(initial, s')
  {
    var th := s.threads[t];
    var tree := TreeOf(s, th.root);
    assert BodyOk(initial, s, t) && HistoryOk(initial, s, th.root) && ThreadOk(s, t);
    SwapIsComplete(th.txn, th.phase.started, tree);
    LinkedSnoc(InitialFiles(initial, th.root), HistoryOf(s, th.root),
               Success(th.txn.baseline, th.txn.working, TreeFiles(tree)));
    assert HistoryOk(initial, s', th.root);
    ChangingStep(initial, s, s', t);
  }

  /** The next path was replaced. */
  ghost predicate WroteOne(s: System, s': System, t: Tid) {
    t in s.threads && s.threads[t].phase.Committing? && s.threads[t].phase.i < |Changed(s.threads[t].txn)| &&
    var th := s.threads[t];
    var Committing(e, started, i) := th.phase;
    var p := Changed(th.txn)[i];
    && s'.threads == s.threads[t := th.(phase := Committing(e, started, i + 1))]
    && s'.history == s.history
    && s'.trees == s.trees[th.root := TreeOf(s, th.root)[p := Final(th.txn, p)]]
  }

  lemma {:induction false} WroteBody(initial: map<Root, Tree>, s: System, s': System, t: Tid)
    requires BodyOk(initial, s, t) && ThreadOk(s, t) && WroteOne(s, s', t)
    ensures BodyOk(initial, s', t)
  {
    var th := s.threads[t];
    ApplySafety.ChangedMembers(th.txn, th.txn.order);
    MixedNext(th.txn, th.phase.started, TreeOf(s, th.root), Changed(th.txn), th.phase.i);
  }

  lemma {:induction false} CommitWrites(initial: map<Root, Tree>, s: System, s': System, t: Tid)
    requires HistoryInvariant(initial, s) && LockInvariant(s') && WroteOne(s, s', t)
    ensures HistoryInvariant(initial, s')
  {
    assert BodyOk(initial, s, t) && HistoryOk(initial, s, s.threads[t].root) && ThreadOk(s, t);
    WroteBody(initial, s, s', t);
    StillChanging(initial, s, s', t);
    ChangingStep(initial, s, s', t);
  }

  lemma {:induction false} CommitFails(initial: map<Root, Tree>, s: System, t: Tid)
    requires HistoryInvariant(initial, s) && Enabled(s, CommitNext(t, true)) && LockInvariant(DoCommit(s, t, true))
    ensures HistoryInvariant(initial, DoCommit(s, t, true))
  {
    var s' := DoCommit(s, t, true);
    var th := s.threads[t];
    assert BodyOk(initial, s, t) && HistoryOk(initial, s, th.root);
    StillChanging(initial, s, s', t);
    assert BodyOk(initial, s', t);
    ChangingStep(initial, s, s', t);
  }

  lemma {:induction false} CommitKeepsHistory(initial: map<Root, Tree>, s: System, t: Tid, fails: bool)
    requires HistoryInvariant(initial, s) && Enabled(s, CommitNext(t, fails)) && LockInvariant(DoCommit(s, t, fails))
    ensures HistoryInvariant(initial, DoCommit(s, t, fails))
  {
    if fails {
      CommitFails(initial, s, t);
    } else if s.threads[t].phase.i == |Changed(s.threads[t].txn)| {
      CommitEnds(initial, s, DoCommit(s, t, fails), t);
    } else {
      RecheckAlwaysPasses(initial, s, t);
      CommitWrites(initial, s, DoCommit(s, t, fails), t);
    }
  }

  /** The last step of a rollback. */
  ghost predicate Undone(s: System, s': System, t: Tid) {
    t in s.threads && s.threads[t].phase.RollingBack? && s.threads[t].phase.i == 0 &&
    var th := s.threads[t];
    && s'.threads == s.threads[t := th.(phase := Leaving(th.phase.entry))]
    && s'.trees == s.trees
    && s'.history == if th.phase.damaged then
                       s.history[th.root := HistoryOf(s, th.root) + [Damage(FilesOf(s, th.root))]]
                     else s.history
  }

  /** An undamaged rollback has restored the tree it started from; a damaged one leaves a record. */
  lemma {:induction false} UndoneHistory(initial: map<Root, Tree>, s: System, s': System, t: Tid)
    requires Undone(s, s', t) && BodyOk(initial, s, t) && HistoryOk(initial, s, s.threads[t].root)
    ensures HistoryOk(initial, s', s.threads[t].root)
  {
    var th := s.threads[t];
    if th.phase.damaged {
      LinkedSnoc(InitialFiles(initial, th.root), HistoryOf(s, th.root), Damage(FilesOf(s, th.root)));
    } else {
      assert Changed(th.txn)[..0] == [];
      SameFiles(TreeOf(s, th.root), th.phase.started);
    }
  }

  lemma {:induction false} UndoEnds(initial: map<Root, Tree>, s: System, s': System, t: Tid)
    requires HistoryInvariant(initial, s) && LockInvariant(s') && Undone(s, s', t)
    ensures HistoryInvariant(initial, s')
  {
    assert BodyOk(initial, s, t) && HistoryOk(initial, s, s.threads[t].root);
    UndoneHistory(initial, s, s', t);
    ChangingStep(initial, s, s', t);
  }

  /** One path was put back, or the rollback became damaged. */
  ghost predicate UndoneOne(s: System, s': System, t: Tid, restored: bool) {
    t in s.threads && s.threads[t].phase.RollingBack? && 0 < s.threads[t].phase.i <= |Changed(s.threads[t].txn)| &&
    var th := s.threads[t];
    var RollingBack(e, started, i, damaged) := th.phase;
    var p := Changed(th.txn)[i - 1];
    && s'.threads == s.threads[t := th.(phase := RollingBack(e, started, i - 1, damaged || !restored))]
    && s'.history == s.history
    && s'.trees == if restored then s.trees[th.root := TreeOf(s, th.root)[p := Look(started, p)]] else s.trees
  }

  lemma {:induction false} UndoneBody(initial: map<Root, Tree>, s: System, s': System, t: Tid, restored: bool)
    requires BodyOk(initial, s, t) && ThreadOk(s, t) && UndoneOne(s, s', t, restored)
    ensures BodyOk(initial, s', t)
  {
    var th := s.threads[t];
    ApplySafety.ChangedMembers(th.txn, th.txn.order);
    if !th.phase.damaged {
      MixedPrevious(th.txn, th.phase.started, TreeOf(s, th.root), Changed(th.txn), th.phase.i - 1);
    }
  }

  lemma {:induction false} UndoOne(initial: map<Root, Tree>, s: System, s': System, t: Tid, restored: bool)
    requires HistoryInvariant(initial, s) && LockInvariant(s') && UndoneOne(s, s', t, restored)
    ensures HistoryInvariant(initial, s')
  {
    assert BodyOk(initial, s, t) && HistoryOk(initial, s, s.threads[t].root) && ThreadOk(s, t);
    UndoneBody(initial, s, s', t, restored);
    StillChanging(initial, s, s', t);
    ChangingStep(initial, s, s', t);
  }

  lemma {:induction false} UndoKeepsHistory(initial: map<Root, Tree>, s: System, t: Tid, fails: bool)
    requires HistoryInvariant(initial, s) && Enabled(s, UndoNext(t, fails)) && LockInvariant(DoUndo(s, t, fails))
    ensures HistoryInvariant(initial, DoUndo(s, t, fails))
  {
    var th := s.threads[t];
    if th.phase.i == 0 {
      UndoEnds(initial, s, DoUndo(s, t, fails), t);
    } else {
      var p := Changed(th.txn)[th.phase.i - 1];
      UndoOne(initial, s, DoUndo(s, t, fails), t, !fails && Look(TreeOf(s, th.root), p) == Final(th.txn, p));
    }
  }

  lemma {:induction false} StepKeepsHistory(initial: map<Root, Tree>, s: System, a: Action)
    requires HistoryInvariant(initial, s)
    ensures HistoryInvariant(initial, Do(s, a))
  {
    StepKeepsLocks(s, a);
    if Enabled(s, a) {
      match a
      case Preflight(t) => PreflightKeepsHistory(initial, s, t);
      case CommitNext(t, fails) => CommitKeepsHistory(initial, s, t, fails);
      case UndoNext(t, fails) => UndoKeepsHistory(initial, s, t, fails);
      case _ => QuietStep(initial, s, Do(s, a), a.t);
    }
  }

  lemma {:induction false} HistoryHolds(initial: map<Root, Tree>, actions: seq<Action>)
    ensures HistoryInvariant(initial, Execution(initial, actions))
  {
    if actions == [] {
      LocksHold(initial, []);
    } else {
      HistoryHolds(initial, actions[..|actions| - 1]);
      StepKeepsHistory(initial, Execution(initial, actions[..|actions| - 1]), actions[|actions| - 1]);
    }
  }

  /**
   No lost update. In every execution and for every root: the baseline of each successful apply is
   exactly the set of files left by the episode before it, it leaves exactly its working copy, and
   whenever no thread is in the middle of its replacements the tree holds the files of the last
   episode. Without damaged rollbacks the episodes are the successful applies alone.
   */
  lemma {:induction false} NoLostUpdate(initial: map<Root, Tree>, actions: seq<Action>, r: Root)
    ensures var s := Execution(initial, actions);
            var files := InitialFiles(initial, r);
            && Linked(files, HistoryOf(s, r))
            && (AtRest(s, r) ==> FilesOf(s, r) == FilesAfter(files, HistoryOf(s, r)))
  {
    HistoryHolds(initial, actions);
    assert HistoryOk(initial, Execution(initial, actions), r);
  }
}
