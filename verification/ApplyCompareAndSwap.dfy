/**
 Without third parties the multi-file transaction is one compare-and-swap on the whole tree; with
 them, a rollback reported complete can still miss the baseline.
 */
module ApplyCompareAndSwap {
  import opened Common
  import Graphs
  import opened ApplyTransaction
  import ApplySafety
  import opened ApplyRecovery

  ghost predicate Quiet(env: Environment) {
    forall point :: env.edits(point) == None
  }

  ghost predicate PrepareRunsSmoothly(env: Environment) {
    forall i :: !env.faults(MakeParent(i)) && !env.faults(WritePrepared(i)) && !env.faults(WriteBackup(i))
  }

  /** No hook and no operation of prepare and commit raises. */
  ghost predicate CommitRunsSmoothly(env: Environment) {
    && !env.raises(AfterPreflight) && !env.raises(BeforeCommit)
    && (forall i :: !env.raises(BeforeReplace(i)) && !env.raises(AfterReplace(i)))
    && PrepareRunsSmoothly(env)
    && (forall i :: !env.faults(Inspect(i)) && !env.faults(ReadTarget(i)) && !env.faults(Replace(i)))
  }

  ghost predicate RollbackRunsSmoothly(env: Environment) {
    forall i :: !env.raises(BeforeRollback(i)) && !env.faults(InspectAgain(i)) && !env.faults(Compensate(i))
  }

  /** The first `n` changed paths hold their final state, everything else is as at the start. */
  ghost predicate Mixed(txn: Txn, start: Tree, tree: Tree, changed: seq<Path>, n: nat)
    requires n <= |changed|
  {
    forall p :: Look(tree, p) == if p in changed[..n] then Final(txn, p) else Look(start, p)
  }

  ghost predicate SameTargets(a: Tree, b: Tree) {
    forall p :: Look(a, p) == Look(b, p)
  }

  lemma {:induction false} MixedNext(txn: Txn, start: Tree, tree: Tree, changed: seq<Path>, n: nat)
    requires Graphs.NoDuplicates(changed) && n < |changed| && Mixed(txn, start, tree, changed, n)
    ensures Look(tree, changed[n]) == Look(start, changed[n])
    ensures Mixed(txn, start, tree[changed[n] := Final(txn, changed[n])], changed, n + 1)
  {
    assert changed[..n + 1] == changed[..n] + [changed[n]];
    assert changed[n] !in changed[..n];
  }

  lemma {:induction false} MixedPrevious(txn: Txn, start: Tree, tree: Tree, changed: seq<Path>, n: nat)
    requires Graphs.NoDuplicates(changed) && n < |changed| && Mixed(txn, start, tree, changed, n + 1)
    ensures Look(tree, changed[n]) == Final(txn, changed[n])
    ensures Mixed(txn, start, tree[changed[n] := Look(start, changed[n])], changed, n)
  {
    assert changed[..n + 1] == changed[..n] + [changed[n]];
    assert changed[n] !in changed[..n];
  }

  ghost predicate AtBaseline(txn: Txn, start: Tree, changed: seq<Path>) {
    forall k | 0 <= k < |changed| :: Look(start, changed[k]) == Expected(txn, changed[k])
  }

  lemma {:induction false} QuietPrepare(txn: Txn, env: Environment, changed: seq<Path>, i: nat, r: Preparation)
    requires PrepareRunsSmoothly(env) && AtBaseline(txn, r.w.tree, changed) && i <= |changed| && r.ok
    ensures PrepareAll(txn, env, changed, i, r).ok
    decreases |changed| - i
  {
    if i < |changed| {
      QuietPrepare(txn, env, changed, i + 1, PrepareOne(txn, env, r, changed[i], i));
    }
  }

  lemma {:induction false} QuietCommit(
    txn: Txn, env: Environment, start: Tree, changed: seq<Path>, i: nat, c: Commitment)
    requires Quiet(env) && Graphs.NoDuplicates(changed) && AtBaseline(txn, start, changed)
    requires i <= |changed| && c.applied <= i && (c.ok ==> c.applied == i)
    requires Mixed(txn, start, c.w.tree, changed, c.applied)
    ensures var c' := CommitAll(txn, env, changed, i, c);
            && c'.applied <= |changed|
            && Mixed(txn, start, c'.w.tree, changed, c'.applied)
            && (CommitRunsSmoothly(env) && c.ok ==> c'.ok)
    decreases |changed| - i
  {
    if i < |changed| && c.ok {
      MixedNext(txn, start, c.w.tree, changed, i);
      CommitAtBaseline(txn, env, c, changed[i], i);
      QuietCommit(txn, env, start, changed, i + 1, CommitOne(txn, env, c, changed[i], i));
    }
  }

  /** With the baseline in place and nobody interfering, a step either replaces the file or fails before it. */
  lemma {:induction false} CommitAtBaseline(txn: Txn, env: Environment, c: Commitment, p: Path, i: nat)
    requires Quiet(env) && Look(c.w.tree, p) == Expected(txn, p) && c.applied == i
    ensures var c' := CommitOne(txn, env, c, p, i);
            && ((c'.applied == i && !c'.ok && c'.w.tree == c.w.tree) ||
                (c'.applied == i + 1 && c'.w.tree == c.w.tree[p := Final(txn, p)]))
            && (CommitRunsSmoothly(env) ==> c'.ok)
  {
    assert env.edits(BeforeReplace(i)) == None && env.edits(AfterReplace(i)) == None;
  }

  lemma {:induction false} QuietCompensation(txn: Txn, env: Environment, r: Compensation, p: Path, i: nat)
    requires Quiet(env) && RollbackRunsSmoothly(env) && Look(r.w.tree, p) == Final(txn, p)
    requires BackupIs(txn, r.w.temps, p, Expected(txn, p))
    ensures var r1 := CompensateOne(txn, env, r, p, i);
            r1.w.tree == r.w.tree[p := Expected(txn, p)] && r1.errors == r.errors
  {
    assert env.edits(BeforeRollback(i)) == None;
  }

  /** The backups of the first `n` changed paths hold the baseline. */
  ghost predicate HoldBaseline(txn: Txn, temps: Temps, changed: seq<Path>, n: nat)
    requires n <= |changed|
  {
    forall k | 0 <= k < n :: BackupIs(txn, temps, changed[k], Expected(txn, changed[k]))
  }

  lemma {:induction false} QuietRollbackStep(
    txn: Txn, env: Environment, start: Tree, changed: seq<Path>, i: nat, j: nat, r: Compensation)
    returns (r1: Compensation)
    requires Quiet(env) && RollbackRunsSmoothly(env) && Graphs.NoDuplicates(changed) && AtBaseline(txn, start, changed)
    requires i == j + 1 <= |changed| && Mixed(txn, start, r.w.tree, changed, i)
    requires HoldBaseline(txn, r.w.temps, changed, i)
    ensures CompensateAll(txn, env, changed, i, r) == CompensateAll(txn, env, changed, j, r1)
    ensures Mixed(txn, start, r1.w.tree, changed, j) && HoldBaseline(txn, r1.w.temps, changed, j)
    ensures r1.errors == r.errors
  {
    var p := changed[j];
    MixedPrevious(txn, start, r.w.tree, changed, j);
    QuietCompensation(txn, env, r, p, j);
    r1 := CompensateOnce(txn, env, r, p, j);
    CompensateUnfolds(txn, env, changed, i, r, r1);
    forall k | 0 <= k < j ensures BackupIs(txn, r1.w.temps, changed[k], Expected(txn, changed[k])) {
      EarlierDiffers(changed, i, k);
      assert Unaffected(txn, r, r1, changed[k]);
    }
  }

  lemma {:induction false} QuietRollback(
    txn: Txn, env: Environment, start: Tree, changed: seq<Path>, i: nat, r: Compensation)
    requires Quiet(env) && RollbackRunsSmoothly(env) && Graphs.NoDuplicates(changed) && AtBaseline(txn, start, changed)
    requires i <= |changed| && Mixed(txn, start, r.w.tree, changed, i) && HoldBaseline(txn, r.w.temps, changed, i)
    ensures var r' := CompensateAll(txn, env, changed, i, r);
            SameTargets(r'.w.tree, start) && r'.errors == r.errors
  {
    if i > 0 {
      var j := i - 1;
      var r1 := QuietRollbackStep(txn, env, start, changed, i, j, r);
      QuietRollback(txn, env, start, changed, j, r1);
    } else {
      assert changed[..0] == [];
    }
  }

  /** Writing every changed path turns a tree that holds the baseline into one that holds the working copy. */
  lemma {:induction false} SwapIsComplete(txn: Txn, start: Tree, tree: Tree)
    requires ValidTxn(txn) && TreeFiles(start) == txn.baseline
    requires Mixed(txn, start, tree, Changed(txn), |Changed(txn)|)
    ensures TreeFiles(tree) == txn.working
  {
    var changed := Changed(txn);
    ApplySafety.ChangedMembers(txn, txn.order);
    assert changed[..|changed|] == changed;
    forall p ensures p in TreeFiles(tree) <==> p in txn.working
             ensures p in txn.working && p in TreeFiles(tree) ==> TreeFiles(tree)[p] == txn.working[p]
    {
      assert p in TreeFiles(start) <==> p in txn.baseline;
      assert p in txn.baseline ==> TreeFiles(start)[p] == txn.baseline[p];
      assert Look(tree, p) == if p in changed then Final(txn, p) else Look(start, p);
    }
  }

  lemma {:induction false} QuietCommitted(txn: Txn, env: Environment, tree: Tree, temps: Temps)
    requires ValidTxn(txn) && Quiet(env) && PreflightOk(txn, tree)
    ensures AtBaseline(txn, tree, Changed(txn)) && Graphs.NoDuplicates(Changed(txn))
    ensures var c := Committed(txn, env, Prepared(txn, env, World(tree, temps, [])));
            && c.applied <= |Changed(txn)|
            && Mixed(txn, tree, c.w.tree, Changed(txn), c.applied)
            && (c.ok ==> c.applied == |Changed(txn)|)
            && (CommitRunsSmoothly(env) ==> c.ok)
  {
    var w := World(tree, temps, []);
    var changed := Changed(txn);
    ApplySafety.ChangedMembers(txn, txn.order);
    assert env.edits(AfterPreflight) == None && env.edits(BeforeCommit) == None;
    assert changed[..0] == [];
    var start := Preparation(w, {}, {}, true);
    ApplySafety.PrepareTouchesNoTarget(txn, env, changed, 0, start);
    if CommitRunsSmoothly(env) {
      QuietPrepare(txn, env, changed, 0, start);
    }
    var prep := Prepared(txn, env, w);
    if prep.ok {
      var c0 := Commitment(prep.w, 0, !env.raises(BeforeCommit), None);
      AppliedWithin(txn, env, changed, 0, c0);
      QuietCommit(txn, env, tree, changed, 0, c0);
    }
  }

  /**
   The transaction refines one compare-and-swap. If nobody interferes: success means the managed files
   were the baseline and are now the working copy; a failure whose rollback runs through leaves every
   target and every temporary as they were and never reports a partial rollback; and when no operation
   fails, success happens exactly when the comparison does.
   */
  lemma {:induction false} AppliesAsOneCompareAndSwap(txn: Txn, env: Environment, tree: Tree, temps: Temps)
    requires ValidTxn(txn) && FreshRun(txn, temps) && Quiet(env)
    ensures var r := AtomicApply(txn, env, tree, temps);
            && (r.outcome.Applied? ==>
                  TreeFiles(tree) == txn.baseline && TreeFiles(r.w.tree) == txn.working && r.w.temps == temps)
            && (!r.outcome.Applied? && RollbackRunsSmoothly(env) ==>
                  SameTargets(r.w.tree, tree) && r.w.temps == temps &&
                  (r.outcome.RolledBack? ==> r.outcome.status != Partial))
            && (CommitRunsSmoothly(env) ==> (r.outcome.Applied? <==> PreflightOk(txn, tree)))
  {
    var r := AtomicApply(txn, env, tree, temps);
    NothingIsLeftBehind(txn, env, tree, temps);
    assert env.edits(AfterPreflight) == None;
    if PreflightOk(txn, tree) {
      QuietCommitted(txn, env, tree, temps);
      var c := Committed(txn, env, Prepared(txn, env, World(tree, temps, [])));
      if r.outcome.Applied? {
        SwapIsComplete(txn, tree, c.w.tree);
      } else if r.outcome.RolledBack? && RollbackRunsSmoothly(env) {
        CommittedFacts(txn, env, tree, temps);
        forall k | 0 <= k < c.applied
          ensures BackupIs(txn, c.w.temps, Changed(txn)[k], Expected(txn, Changed(txn)[k]))
        {
          assert Saved(txn, tree, Changed(txn)[k]) == Expected(txn, Changed(txn)[k]);
        }
        QuietRollback(txn, env, tree, Changed(txn), c.applied, StartOfRollback(c));
      }
    }
  }

  // ---------------------------------------------------------------- a complete rollback that misses the baseline

  const A := Path("a.py")
  const B := Path("b.py")
  const OLD := Content([0])
  const NEW := Content([1])
  const FOREIGN := Content([2])

  const TWO_FILES := Txn(0, map[A := OLD, B := OLD], map[A := NEW, B := NEW], [A, B])

  const SOURCE: Tree := map[A := File(OLD), B := File(OLD)]

  /** Another editor saves the first file before it is backed up, takes that back, then edits the second. */
  function Editor(point: HookPoint): Option<Tree> {
    match point
    case AfterPreflight => Some(map[A := File(FOREIGN), B := File(OLD)])
    case BeforeReplace(i) =>
      if i == 0 then Some(SOURCE) else Some(map[A := File(NEW), B := File(FOREIGN)])
    case _ => None
  }

  function Undisturbed(point: HookPoint): bool { false }

  function Faultless(op: Operation): bool { false }

  const INTERFERENCE := Environment(Editor, Undisturbed, Faultless)

  lemma {:induction false} TwoFilesChange()
    ensures ValidTxn(TWO_FILES) && Changed(TWO_FILES) == [A, B] && PreflightOk(TWO_FILES, SOURCE)
  {
    assert [A, B][..1] == [A] && [A][..0] == [];
    assert ChangedIn(TWO_FILES, []) == [];
    assert ChangedIn(TWO_FILES, [A]) == [A];
    assert ChangedIn(TWO_FILES, [A, B]) == [A, B];
    assert TreeFiles(SOURCE) == TWO_FILES.baseline;
  }

  ghost predicate HoldsForeignBackup(w: World) {
    BackupOf(TWO_FILES, A) in w.temps && w.temps[BackupOf(TWO_FILES, A)] == FOREIGN
  }

  lemma {:induction false} ForeignContentIsBackedUp()
    ensures var prep := Prepared(TWO_FILES, INTERFERENCE, World(SOURCE, map[], []));
            prep.ok && HoldsForeignBackup(prep.w)
  {
    TwoFilesChange();
    var w := AtHook(World(SOURCE, map[], []), INTERFERENCE, AfterPreflight);
    var start := Preparation(w, {}, {}, true);
    var first := PrepareOne(TWO_FILES, INTERFERENCE, start, A, 0);
    var second := PrepareOne(TWO_FILES, INTERFERENCE, first, B, 1);
    assert first.ok && second.ok && second.w.temps[BackupOf(TWO_FILES, A)] == FOREIGN;
    assert PrepareAll(TWO_FILES, INTERFERENCE, [A, B], 1, first)
           == PrepareAll(TWO_FILES, INTERFERENCE, [A, B], 2, second) == second;
  }

  lemma {:induction false} FirstFileIsReplaced(start: Commitment) returns (first: Commitment)
    requires HoldsForeignBackup(start.w)
    ensures first == CommitOne(TWO_FILES, INTERFERENCE, start, A, 0)
    ensures first.ok && first.applied == 1 && HoldsForeignBackup(first.w)
  {
    first := CommitOne(TWO_FILES, INTERFERENCE, start, A, 0);
  }

  lemma {:induction false} SecondFileIsForeign(first: Commitment) returns (second: Commitment)
    requires HoldsForeignBackup(first.w)
    ensures second == CommitOne(TWO_FILES, INTERFERENCE, first, B, 1)
    ensures second.applied == 1 && !second.ok && second.conflict == Some(B)
    ensures Look(second.w.tree, A) == File(NEW) && HoldsForeignBackup(second.w)
  {
    second := CommitOne(TWO_FILES, INTERFERENCE, first, B, 1);
  }

  lemma {:induction false} SecondFileConflicts()
    ensures var prep := Prepared(TWO_FILES, INTERFERENCE, World(SOURCE, map[], []));
            var c := Committed(TWO_FILES, INTERFERENCE, prep);
            && c.applied == 1 && !c.ok && c.conflict == Some(B) && Look(c.w.tree, A) == File(NEW)
            && HoldsForeignBackup(c.w)
  {
    TwoFilesChange();
    ForeignContentIsBackedUp();
    var prep := Prepared(TWO_FILES, INTERFERENCE, World(SOURCE, map[], []));
    var first := FirstFileIsReplaced(Commitment(prep.w, 0, true, None));
    var second := SecondFileIsForeign(first);
    assert CommitAll(TWO_FILES, INTERFERENCE, [A, B], 1, first)
           == CommitAll(TWO_FILES, INTERFERENCE, [A, B], 2, second) == second;
  }

  /**
   The rollback is reported complete, the second file is left to its editor, and yet the first file
   does not hold the baseline: its backup was taken while the other editor's content was there.
   */
  lemma {:induction false} CompleteRollbackMayMissTheBaseline()
    ensures ValidTxn(TWO_FILES)
    ensures var r := AtomicApply(TWO_FILES, INTERFERENCE, SOURCE, map[]);
            && r.outcome == RolledBack(Complete, [B], [])
            && Look(r.w.tree, A) == File(FOREIGN) && Expected(TWO_FILES, A) == File(OLD)
  {
    TwoFilesChange();
    SecondFileConflicts();
    var c := Committed(TWO_FILES, INTERFERENCE, Prepared(TWO_FILES, INTERFERENCE, World(SOURCE, map[], [])));
    var start := Compensation(c.w, 0, [B], {}, []);
    var done := CompensateOne(TWO_FILES, INTERFERENCE, start, A, 0);
    assert done.errors == 0 && Look(done.w.tree, A) == File(FOREIGN);
    assert CompensateAll(TWO_FILES, INTERFERENCE, [A, B], 1, start)
           == CompensateAll(TWO_FILES, INTERFERENCE, [A, B], 0, done) == done;
  }
}
