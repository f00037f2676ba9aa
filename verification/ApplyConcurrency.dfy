/**
 Any number of threads applying to any number of roots (backend/agent/workspace.py,
 _apply_critical_section around the transaction): the reference-counted lock table as a protocol of
 atomic steps, and the transactions it serializes, one file at a time. There are no outside editors
 here; every replacement and every compensation may fail.
 */
module ApplyConcurrency {
  import opened Common
  import opened ApplyTransaction

  type Tid = nat

  datatype Root = Root(key: string)

  datatype Phase =
    | Idle
    | Waiting(entry: nat)
    | Holding(entry: nat)
    | Committing(entry: nat, started: Tree, i: nat)
    | RollingBack(entry: nat, started: Tree, i: nat, damaged: bool)
    | Leaving(entry: nat)
    | Unlocked(entry: nat)
    | Finished

  datatype Thread = Thread(root: Root, txn: Txn, phase: Phase)

  datatype LockEntry = LockEntry(owner: Option<Tid>, references: int)

  /** What became of the files of a root: an apply succeeded, or a rollback failed half-way. */
  datatype Episode = Success(baseline: Snapshot, working: Snapshot, files: Snapshot) | Damage(files: Snapshot)

  datatype System = System(
    threads: map<Tid, Thread>,
    table: map<Root, nat>,
    entries: map<nat, LockEntry>,
    trees: map<Root, Tree>,
    history: map<Root, seq<Episode>>)

  predicate HasEntry(p: Phase) {
    !p.Idle? && !p.Finished?
  }

  predicate InBody(p: Phase) {
    p.Holding? || p.Committing? || p.RollingBack? || p.Leaving?
  }

  predicate Changing(p: Phase) {
    p.Committing? || p.RollingBack?
  }

  function TreeOf(s: System, r: Root): Tree { if r in s.trees then s.trees[r] else map[] }

  function HistoryOf(s: System, r: Root): seq<Episode> { if r in s.history then s.history[r] else [] }

  function Turn(s: System, t: Tid, phase: Phase): System
    requires t in s.threads
  {
    s.(threads := s.threads[t := s.threads[t].(phase := phase)])
  }

  function Record(s: System, r: Root, e: Episode): System {
    s.(history := s.history[r := HistoryOf(s, r) + [e]])
  }

  // ---------------------------------------------------------------- steps

  datatype Action =
    | Arrive(t: Tid, root: Root, txn: Txn)
    | Register(t: Tid, entry: nat)           // `entry` names the object a new table row would hold
    | Acquire(t: Tid)
    | Preflight(t: Tid)
    | CommitNext(t: Tid, fails: bool)
    | UndoNext(t: Tid, fails: bool)
    | Release(t: Tid)
    | Deregister(t: Tid)

  ghost predicate Enabled(s: System, a: Action) {
    match a
    case Arrive(t, _, txn) => t !in s.threads && ValidTxn(txn)
    case Register(t, entry) => t in s.threads && s.threads[t].phase.Idle? && entry !in s.entries
    case Acquire(t) =>
      && t in s.threads && s.threads[t].phase.Waiting?
      && s.threads[t].phase.entry in s.entries && s.entries[s.threads[t].phase.entry].owner == None
    case Preflight(t) => t in s.threads && s.threads[t].phase.Holding?
    case CommitNext(t, _) =>
      t in s.threads && s.threads[t].phase.Committing? && s.threads[t].phase.i <= |Changed(s.threads[t].txn)|
    case UndoNext(t, _) =>
      t in s.threads && s.threads[t].phase.RollingBack? && s.threads[t].phase.i <= |Changed(s.threads[t].txn)|
    case Release(t) => t in s.threads && s.threads[t].phase.Leaving? && s.threads[t].phase.entry in s.entries
    case Deregister(t) => t in s.threads && s.threads[t].phase.Unlocked? && s.threads[t].phase.entry in s.entries
  }

  /** Look the key up or create its entry, and count the caller, under the guard. */
  function DoRegister(s: System, t: Tid, unused: nat): System
    requires t in s.threads
  {
    var r := s.threads[t].root;
    var e := if r in s.table then s.table[r] else unused;
    var entry := if e in s.entries then s.entries[e] else LockEntry(None, 0);
    Turn(s, t, Waiting(e)).(
      table := s.table[r := e],
      entries := s.entries[e := entry.(references := entry.references + 1)])
  }

  /** Uncount the caller, under the guard, and drop the row with its last user. */
  function DoDeregister(s: System, t: Tid): System
    requires t in s.threads && s.threads[t].phase.Unlocked? && s.threads[t].phase.entry in s.entries
  {
    var r := s.threads[t].root;
    var e := s.threads[t].phase.entry;
    var left := s.entries[e].references - 1;
    Turn(s, t, Finished).(
      entries := s.entries[e := s.entries[e].(references := left)],
      table := if left == 0 && r in s.table && s.table[r] == e then s.table - {r} else s.table)
  }

  function DoPreflight(s: System, t: Tid): System
    requires t in s.threads && s.threads[t].phase.Holding?
  {
    var th := s.threads[t];
    var tree := TreeOf(s, th.root);
    Turn(s, t, if PreflightOk(th.txn, tree) then Committing(th.phase.entry, tree, 0) else Leaving(th.phase.entry))
  }

  function DoCommit(s: System, t: Tid, fails: bool): System
    requires t in s.threads && s.threads[t].phase.Committing? && s.threads[t].phase.i <= |Changed(s.threads[t].txn)|
  {
    var th := s.threads[t];
    var Committing(e, started, i) := th.phase;
    var tree := TreeOf(s, th.root);
    if fails then Turn(s, t, RollingBack(e, started, i, false))
    else if i == |Changed(th.txn)| then
      Record(Turn(s, t, Leaving(e)), th.root, Success(th.txn.baseline, th.txn.working, TreeFiles(tree)))
    else
      var p := Changed(th.txn)[i];
      if Look(tree, p) != Expected(th.txn, p) then Turn(s, t, RollingBack(e, started, i, false))
      else Turn(s, t, Committing(e, started, i + 1)).(trees := s.trees[th.root := tree[p := Final(th.txn, p)]])
  }

  function DoUndo(s: System, t: Tid, fails: bool): System
    requires t in s.threads && s.threads[t].phase.RollingBack? && s.threads[t].phase.i <= |Changed(s.threads[t].txn)|
  {
    var th := s.threads[t];
    var RollingBack(e, started, i, damaged) := th.phase;
    var tree := TreeOf(s, th.root);
    if i == 0 then
      if damaged then Record(Turn(s, t, Leaving(e)), th.root, Damage(TreeFiles(tree))) else Turn(s, t, Leaving(e))
    else
      var p := Changed(th.txn)[i - 1];
      if fails || Look(tree, p) != Final(th.txn, p) then Turn(s, t, RollingBack(e, started, i - 1, true))
      else
        var undone := s.trees[th.root := tree[p := Look(started, p)]];
        Turn(s, t, RollingBack(e, started, i - 1, damaged)).(trees := undone)
  }

  function SetOwner(s: System, e: nat, owner: Option<Tid>): System
    requires e in s.entries
  {
    s.(entries := s.entries[e := s.entries[e].(owner := owner)])
  }

  ghost function Do(s: System, a: Action): System {
    if !Enabled(s, a) then s
    else
      match a
      case Arrive(t, root, txn) => s.(threads := s.threads[t := Thread(root, txn, Idle)])
      case Register(t, entry) => DoRegister(s, t, entry)
      case Acquire(t) => SetOwner(Turn(s, t, Holding(s.threads[t].phase.entry)), s.threads[t].phase.entry, Some(t))
      case Preflight(t) => DoPreflight(s, t)
      case CommitNext(t, fails) => DoCommit(s, t, fails)
      case UndoNext(t, fails) => DoUndo(s, t, fails)
      case Release(t) => SetOwner(Turn(s, t, Unlocked(s.threads[t].phase.entry)), s.threads[t].phase.entry, None)
      case Deregister(t) => DoDeregister(s, t)
  }

  function Initial(trees: map<Root, Tree>): System {
    System(map[], map[], map[], trees, map[])
  }

  ghost function Execution(trees: map<Root, Tree>, actions: seq<Action>): System {
    if actions == [] then Initial(trees)
    else Do(Execution(trees, actions[..|actions| - 1]), actions[|actions| - 1])
  }

  // ---------------------------------------------------------------- the lock protocol

  ghost function Registered(s: System, r: Root): set<Tid> {
    set t | t in s.threads && s.threads[t].root == r && HasEntry(s.threads[t].phase)
  }

  /** Every registered thread uses the entry of the table row of its root; the body belongs to the owner. */
  ghost predicate ThreadOk(s: System, t: Tid) {
    t in s.threads ==>
      var th := s.threads[t];
      && ValidTxn(th.txn)
      && (HasEntry(th.phase) ==>
            && th.root in s.table && s.table[th.root] == th.phase.entry && th.phase.entry in s.entries
            && (InBody(th.phase) <==> s.entries[th.phase.entry].owner == Some(t)))
  }

  /** A row exists exactly while its root has registered threads, and counts them. */
  ghost predicate RowOk(s: System, r: Root) {
    && (r in s.table <==> Registered(s, r) != {})
    && (r in s.table ==> s.table[r] in s.entries && s.entries[s.table[r]].references == |Registered(s, r)|)
  }

  ghost predicate RowsDistinct(s: System, r1: Root, r2: Root) {
    r1 in s.table && r2 in s.table && r1 != r2 ==> s.table[r1] != s.table[r2]
  }

  /** The owner of a lock is a thread that is in the body with it. */
  ghost predicate OwnerOk(s: System, e: nat) {
    e in s.entries && s.entries[e].owner.Some? ==>
      var t := s.entries[e].owner.value;
      t in s.threads && InBody(s.threads[t].phase) && s.threads[t].phase.entry == e
  }

  ghost predicate LockInvariant(s: System) {
    && (forall t :: ThreadOk(s, t))
    && (forall r :: RowOk(s, r))
    && (forall r1, r2 :: RowsDistinct(s, r1, r2))
    && (forall e :: OwnerOk(s, e))
  }

  lemma {:induction false} RegisterCounts(s: System, t: Tid, unused: nat, q: Root)
    requires LockInvariant(s) && Enabled(s, Register(t, unused))
    ensures var r := s.threads[t].root;
            && t !in Registered(s, r)
            && Registered(DoRegister(s, t, unused), q) == if q == r then Registered(s, r) + {t} else Registered(s, q)
  {
  }

  lemma {:induction false} RegisterKeepsRows(s: System, t: Tid, unused: nat)
    requires LockInvariant(s) && Enabled(s, Register(t, unused))
    ensures forall q :: RowOk(DoRegister(s, t, unused), q)
    ensures forall r1, r2 :: RowsDistinct(DoRegister(s, t, unused), r1, r2)
  {
    var s' := DoRegister(s, t, unused);
    var r := s.threads[t].root;
    assert RowOk(s, r);
    forall q ensures RowOk(s', q) {
      RegisterCounts(s, t, unused, q);
      assert RowOk(s, q) && RowsDistinct(s, q, r);
    }
    forall r1, r2 ensures RowsDistinct(s', r1, r2) {
      assert RowsDistinct(s, r1, r2) && RowOk(s, r1) && RowOk(s, r2);
    }
  }

  lemma {:induction false} RegisterKeepsLocks(s: System, t: Tid, unused: nat)
    requires LockInvariant(s) && Enabled(s, Register(t, unused))
    ensures LockInvariant(DoRegister(s, t, unused))
  {
    var s' := DoRegister(s, t, unused);
    var r := s.threads[t].root;
    RegisterKeepsRows(s, t, unused);
    assert RowOk(s, r) && ThreadOk(s, t);
    assert r in s.table ==> OwnerOk(s, s.table[r]);
    forall x ensures ThreadOk(s', x) {
      assert ThreadOk(s, x);
      if x in s.threads && x != t && HasEntry(s.threads[x].phase) {
        assert x in Registered(s, s.threads[x].root) && RowsDistinct(s, s.threads[x].root, r);
      }
    }
    forall e ensures OwnerOk(s', e) {
      assert OwnerOk(s, e);
    }
  }

  lemma {:induction false} DeregisterKeepsLocks(s: System, t: Tid)
    requires LockInvariant(s) && Enabled(s, Deregister(t))
    ensures LockInvariant(DoDeregister(s, t))
  {
    var s' := DoDeregister(s, t);
    var r := s.threads[t].root;
    assert RowOk(s, r) && ThreadOk(s, t);
    assert t in Registered(s, r);
    forall q ensures Registered(s', q) == if q == r then Registered(s, r) - {t} else Registered(s, q) {
    }
    assert |Registered(s', r)| == |Registered(s, r)| - 1;
    forall x ensures ThreadOk(s', x) {
      assert ThreadOk(s, x);
      if x in s.threads && x != t && HasEntry(s.threads[x].phase) {
        assert RowsDistinct(s, s.threads[x].root, r);
        assert s.threads[x].root == r ==> x in Registered(s', r);
      }
    }
    forall q ensures RowOk(s', q) {
      assert RowOk(s, q) && RowsDistinct(s, q, r);
    }
    forall r1, r2 ensures RowsDistinct(s', r1, r2) {
      assert RowsDistinct(s, r1, r2);
    }
    forall e ensures OwnerOk(s', e) {
      assert OwnerOk(s, e);
    }
  }

  /** A thread moves between phases that use the same entry, and takes or gives up its lock accordingly. */
  lemma {:induction false} MoveKeepsLocks(s: System, t: Tid, s': System)
    requires LockInvariant(s) && t in s.threads && t in s'.threads && HasEntry(s.threads[t].phase)
    requires HasEntry(s'.threads[t].phase) && s'.threads[t].phase.entry == s.threads[t].phase.entry
    requires s.threads[t].phase.entry in s.entries
    requires s'.threads == s.threads[t := s.threads[t].(phase := s'.threads[t].phase)]
    requires s'.table == s.table
    requires var e := s.threads[t].phase.entry;
             s'.entries == if InBody(s'.threads[t].phase) == InBody(s.threads[t].phase) then s.entries
                           else
                             var owner := if InBody(s'.threads[t].phase) then Some(t) else None;
                             s.entries[e := s.entries[e].(owner := owner)]
    requires InBody(s'.threads[t].phase) && !InBody(s.threads[t].phase) ==>
               s.entries[s.threads[t].phase.entry].owner == None
    ensures LockInvariant(s')
  {
    var r := s.threads[t].root;
    assert ThreadOk(s, t);
    forall q ensures Registered(s', q) == Registered(s, q) {
    }
    forall x ensures ThreadOk(s', x) {
      assert ThreadOk(s, x);
    }
    forall q ensures RowOk(s', q) {
      assert RowOk(s, q);
    }
    forall r1, r2 ensures RowsDistinct(s', r1, r2) {
      assert RowsDistinct(s, r1, r2);
    }
    forall e ensures OwnerOk(s', e) {
      assert OwnerOk(s, e) && OwnerOk(s, s.threads[t].phase.entry);
    }
  }

  lemma {:induction false} ArriveKeepsLocks(s: System, t: Tid, root: Root, txn: Txn)
    requires LockInvariant(s) && Enabled(s, Arrive(t, root, txn))
    ensures LockInvariant(Do(s, Arrive(t, root, txn)))
  {
    var s' := Do(s, Arrive(t, root, txn));
    forall q ensures Registered(s', q) == Registered(s, q) {
    }
    forall x ensures ThreadOk(s', x) {
      assert ThreadOk(s, x);
    }
    forall q ensures RowOk(s', q) {
      assert RowOk(s, q);
    }
    forall r1, r2 ensures RowsDistinct(s', r1, r2) {
      assert RowsDistinct(s, r1, r2);
    }
    forall e ensures OwnerOk(s', e) {
      assert OwnerOk(s, e);
    }
  }

  lemma {:induction false} LockOpKeepsLocks(s: System, a: Action)
    requires LockInvariant(s) && (a.Acquire? || a.Release?) && Enabled(s, a)
    ensures LockInvariant(Do(s, a))
  {
    assert ThreadOk(s, a.t);
    MoveKeepsLocks(s, a.t, Do(s, a));
  }

  predicate BodyStep(a: Action) {
    a.Preflight? || a.CommitNext? || a.UndoNext?
  }

  /** The lock table is left alone and the thread stays in the body with its entry. */
  predicate StaysInside(s: System, s': System, t: Tid) {
    && t in s.threads && t in s'.threads && InBody(s'.threads[t].phase) && InBody(s.threads[t].phase)
    && s'.threads[t].phase.entry == s.threads[t].phase.entry
    && s'.threads == s.threads[t := s.threads[t].(phase := s'.threads[t].phase)]
    && s'.table == s.table && s'.entries == s.entries
  }

  lemma {:induction false} TurnStaysInside(s: System, t: Tid, phase: Phase)
    requires t in s.threads && InBody(s.threads[t].phase) && InBody(phase) && phase.entry == s.threads[t].phase.entry
    ensures StaysInside(s, Turn(s, t, phase), t)
  {
  }

  lemma {:induction false} CommitStaysInside(s: System, t: Tid, fails: bool)
    requires Enabled(s, CommitNext(t, fails))
    ensures StaysInside(s, DoCommit(s, t, fails), t)
  {
    var Committing(e, started, i) := s.threads[t].phase;
    TurnStaysInside(s, t, RollingBack(e, started, i, false));
    if i == |Changed(s.threads[t].txn)| {
      TurnStaysInside(s, t, Leaving(e));
    } else {
      TurnStaysInside(s, t, Committing(e, started, i + 1));
    }
  }

  lemma {:induction false} UndoStaysInside(s: System, t: Tid, fails: bool)
    requires Enabled(s, UndoNext(t, fails))
    ensures StaysInside(s, DoUndo(s, t, fails), t)
  {
    var RollingBack(e, started, i, damaged) := s.threads[t].phase;
    TurnStaysInside(s, t, Leaving(e));
    if i > 0 {
      TurnStaysInside(s, t, RollingBack(e, started, i - 1, true));
      TurnStaysInside(s, t, RollingBack(e, started, i - 1, damaged));
    }
  }

  lemma {:induction false} BodyStaysInside(s: System, a: Action)
    requires BodyStep(a) && Enabled(s, a)
    ensures StaysInside(s, Do(s, a), a.t)
  {
    match a
    case Preflight(t) =>
    case CommitNext(t, fails) => CommitStaysInside(s, t, fails);
    case UndoNext(t, fails) => UndoStaysInside(s, t, fails);
  }

  lemma {:induction false} BodyKeepsLocks(s: System, a: Action)
    requires LockInvariant(s) && BodyStep(a) && Enabled(s, a)
    ensures LockInvariant(Do(s, a))
  {
    assert ThreadOk(s, a.t);
    BodyStaysInside(s, a);
    MoveKeepsLocks(s, a.t, Do(s, a));
  }

  lemma {:induction false} StepKeepsLocks(s: System, a: Action)
    requires LockInvariant(s)
    ensures LockInvariant(Do(s, a))
  {
    if Enabled(s, a) {
      match a
      case Arrive(t, root, txn) => ArriveKeepsLocks(s, t, root, txn);
      case Register(t, entry) => RegisterKeepsLocks(s, t, entry);
      case Deregister(t) => DeregisterKeepsLocks(s, t);
      case Acquire(_) => LockOpKeepsLocks(s, a);
      case Release(_) => LockOpKeepsLocks(s, a);
      case _ => BodyKeepsLocks(s, a);
    }
  }

  lemma {:induction false} LocksHold(trees: map<Root, Tree>, actions: seq<Action>)
    ensures LockInvariant(Execution(trees, actions))
  {
    if actions == [] {
      var s := Initial(trees);
      forall r ensures RowOk(s, r) {
        assert Registered(s, r) == {};
      }
    } else {
      LocksHold(trees, actions[..|actions| - 1]);
      StepKeepsLocks(Execution(trees, actions[..|actions| - 1]), actions[|actions| - 1]);
    }
  }

  predicate BothInBody(s: System, t1: Tid, t2: Tid) {
    && t1 in s.threads && t2 in s.threads && s.threads[t1].root == s.threads[t2].root
    && InBody(s.threads[t1].phase) && InBody(s.threads[t2].phase)
  }

  /**
   Per-root mutual exclusion over any number of threads: two threads of one root are never both in the
   body, all threads registered for a root share one lock object, the table row of a root exists
   exactly while some thread is registered for it and counts those threads.
   */
  lemma {:induction false} MutualExclusion(trees: map<Root, Tree>, actions: seq<Action>, t1: Tid, t2: Tid, r: Root)
    ensures var s := Execution(trees, actions);
            && (BothInBody(s, t1, t2) ==> t1 == t2)
            && (t1 in Registered(s, r) && t2 in Registered(s, r) ==>
                  s.threads[t1].phase.entry == s.threads[t2].phase.entry)
            && (r in s.table <==> Registered(s, r) != {})
            && (r in s.table ==> s.table[r] in s.entries && s.entries[s.table[r]].references == |Registered(s, r)|)
  {
    LocksHold(trees, actions);
    var s := Execution(trees, actions);
    assert ThreadOk(s, t1) && ThreadOk(s, t2) && RowOk(s, r);
  }
}
