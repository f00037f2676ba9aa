/**
 Why an apply transaction ends as it does. Each outcome, each replaced path and each path that is put back
 has its exact cause in what third parties left in the tree and in which operations failed.
 */
module ApplyOutcome {
  import opened Common
  import opened Graphs
  import opened ApplyTransaction
  import opened ApplySafety
  import opened ApplyRecovery

  // ---------------------------------------------------------------- what the preflight finds

  /** The managed files differ from the baseline at `p`, or a change of `p` would not start from the baseline. */
  predicate OffBaseline(txn: Txn, tree: Tree, p: Path) {
    || InSnapshot(TreeFiles(tree), p) != InSnapshot(txn.baseline, p)
    || (InSnapshot(txn.baseline, p) != InSnapshot(txn.working, p) && Look(tree, p) != InSnapshot(txn.baseline, p))
  }

  lemma {:induction false} PreflightLooksEverywhere(txn: Txn, tree: Tree)
    requires ValidTxn(txn)
    ensures PreflightOk(txn, tree) <==> forall p :: !OffBaseline(txn, tree, p)
  {
    ChangedMembers(txn, txn.order);
    if forall p :: !OffBaseline(txn, tree, p) {
      var files := TreeFiles(tree);
      forall p
        ensures p in files <==> p in txn.baseline
        ensures p in files && p in txn.baseline ==> files[p] == txn.baseline[p]
      {
        assert !OffBaseline(txn, tree, p);
      }
      forall p | p in Changed(txn) ensures Look(tree, p) == Expected(txn, p) {
        assert !OffBaseline(txn, tree, p);
      }
    }
  }

  // ---------------------------------------------------------------- what third parties left in the tree

  /** The tree after a hook point. */
  function Edited(env: Environment, point: HookPoint, before: Tree): Tree {
    match env.edits(point)
    case None => before
    case Some(tree) => tree
  }

  /** The tree as third parties last left it when the commit phase turns to its file `i`. */
  function SeenAt(env: Environment, tree: Tree, i: nat): Tree {
    if i == 0 then
      Edited(env, BeforeReplace(0), Edited(env, BeforeCommit, Edited(env, AfterPreflight, tree)))
    else
      Edited(env, BeforeReplace(i), Edited(env, AfterReplace(i - 1), SeenAt(env, tree, i - 1)))
  }

  // ---------------------------------------------------------------- prepare

  /** File `i` is staged and, if it was there at the start, backed up. */
  predicate PreparesAt(txn: Txn, env: Environment, tree: Tree, p: Path, i: nat) {
    && !env.faults(MakeParent(i))
    && (p in txn.working ==> !env.faults(WritePrepared(i)))
    && (p in txn.baseline ==> !env.faults(WriteBackup(i)) && Look(Edited(env, AfterPreflight, tree), p).File?)
  }

  lemma {:induction false} PrepareOneIff(txn: Txn, env: Environment, tree: Tree, r: Preparation, p: Path, i: nat)
    returns (r': Preparation)
    requires r.ok && r.w.tree == Edited(env, AfterPreflight, tree)
    ensures r' == PrepareOne(txn, env, r, p, i) && r'.w.tree == r.w.tree
    ensures r'.ok <==> PreparesAt(txn, env, tree, p, i)
  {
    r' := PrepareOne(txn, env, r, p, i);
  }

  lemma {:induction false} PrepareIff(
    txn: Txn, env: Environment, tree: Tree, changed: seq<Path>, i: nat, r: Preparation)
    requires i <= |changed| && (r.ok ==> r.w.tree == Edited(env, AfterPreflight, tree))
    ensures PrepareAll(txn, env, changed, i, r).ok <==>
            r.ok && forall k | i <= k < |changed| :: PreparesAt(txn, env, tree, changed[k], k)
    decreases |changed| - i
  {
    if i < |changed| && r.ok {
      var r' := PrepareOneIff(txn, env, tree, r, changed[i], i);
      PrepareIff(txn, env, tree, changed, i + 1, r');
    }
  }

  // ---------------------------------------------------------------- commit

  /** File `i` is replaced once the commit phase turns to it: nothing fails, and it is found as in the baseline. */
  predicate ReplacesAt(txn: Txn, env: Environment, tree: Tree, p: Path, i: nat) {
    && !env.raises(BeforeReplace(i)) && !env.faults(Inspect(i)) && !env.faults(ReadTarget(i))
    && Look(SeenAt(env, tree, i), p) == InSnapshot(txn.baseline, p)
    && !env.faults(Replace(i))
  }

  /** What the commit phase finds at the files it has not replaced yet is what third parties left there. */
  ghost predicate Untouched(tree: Tree, seen: Tree, changed: seq<Path>, i: nat)
    requires i <= |changed|
  {
    forall k | i <= k < |changed| :: Look(tree, changed[k]) == Look(seen, changed[k])
  }

  lemma {:induction false} HookLeavesTree(w: World, env: Environment, point: HookPoint)
    ensures AtHook(w, env, point).tree == Edited(env, point, w.tree)
  {
  }

  lemma {:induction false} EditedUntouched(
    env: Environment, point: HookPoint, tree: Tree, seen: Tree, changed: seq<Path>, i: nat)
    requires i <= |changed| && Untouched(tree, seen, changed, i)
    ensures Untouched(Edited(env, point, tree), Edited(env, point, seen), changed, i)
  {
  }

  lemma {:induction false} PutUntouched(
    txn: Txn, w: World, seen: Tree, changed: seq<Path>, i: nat, next: nat)
    requires NoDuplicates(changed) && next == i + 1 <= |changed| && Untouched(w.tree, seen, changed, i)
    ensures Untouched(Put(txn, w, changed[i]).tree, seen, changed, next)
  {
  }

  /** One turn of the commit loop, by what it finds. */
  lemma {:induction false} CommitOneIff(
    txn: Txn, env: Environment, tree: Tree, changed: seq<Path>, i: nat, next: nat, c: Commitment)
    returns (c': Commitment)
    requires NoDuplicates(changed) && next == i + 1 <= |changed| && c.ok
    requires Untouched(Edited(env, BeforeReplace(i), c.w.tree), SeenAt(env, tree, i), changed, i)
    ensures c' == CommitOne(txn, env, c, changed[i], i)
    ensures c'.applied == if ReplacesAt(txn, env, tree, changed[i], i) then next else i
    ensures c'.ok <==> ReplacesAt(txn, env, tree, changed[i], i) && !env.raises(AfterReplace(i))
    ensures ReplacesAt(txn, env, tree, changed[i], i) ==>
              Untouched(Edited(env, BeforeReplace(next), c'.w.tree), SeenAt(env, tree, next), changed, next)
  {
    var p := changed[i];
    var w := AtHook(c.w, env, BeforeReplace(i));
    HookLeavesTree(c.w, env, BeforeReplace(i));
    assert Look(w.tree, p) == Look(SeenAt(env, tree, i), p);
    c' := CommitOne(txn, env, c, p, i);
    if ReplacesAt(txn, env, tree, p, i) {
      PutUntouched(txn, w, SeenAt(env, tree, i), changed, i, next);
      HookLeavesTree(Put(txn, w, p), env, AfterReplace(i));
      EditedUntouched(env, AfterReplace(i), Put(txn, w, p).tree, SeenAt(env, tree, i), changed, next);
      EditedUntouched(env, BeforeReplace(next), c'.w.tree, Edited(env, AfterReplace(i), SeenAt(env, tree, i)),
                      changed, next);
    }
  }

  /** Everything the commit phase needs before it has replaced file `k`. */
  ghost predicate GetsThrough(txn: Txn, env: Environment, tree: Tree, changed: seq<Path>, from: nat, k: nat)
    requires k < |changed|
  {
    && (forall i | from <= i <= k :: ReplacesAt(txn, env, tree, changed[i], i))
    && (forall i | from <= i < k :: !env.raises(AfterReplace(i)))
  }

  lemma {:induction false} GetsThroughUnfolds(
    txn: Txn, env: Environment, tree: Tree, changed: seq<Path>, i: nat, next: nat, k: nat)
    requires next == i + 1 && i <= k < |changed|
    ensures GetsThrough(txn, env, tree, changed, i, k) <==>
            ReplacesAt(txn, env, tree, changed[i], i) &&
            (k == i || (!env.raises(AfterReplace(i)) && GetsThrough(txn, env, tree, changed, next, k)))
  {
  }

  ghost predicate AllReplaced(txn: Txn, env: Environment, tree: Tree, changed: seq<Path>, i: nat) {
    forall k | i <= k < |changed| :: ReplacesAt(txn, env, tree, changed[k], k) && !env.raises(AfterReplace(k))
  }

  /** How far a commit phase gets, from its file `i` on. */
  ghost predicate ReachesAsFar(
    txn: Txn, env: Environment, tree: Tree, changed: seq<Path>, i: nat, applied: nat, ok: bool)
  {
    && i <= applied <= |changed|
    && (forall k | i <= k < |changed| :: k < applied <==> GetsThrough(txn, env, tree, changed, i, k))
    && (ok <==> AllReplaced(txn, env, tree, changed, i))
  }

  lemma {:induction false} StopsAt(
    txn: Txn, env: Environment, tree: Tree, changed: seq<Path>, i: nat, next: nat, applied: nat)
    requires next == i + 1 <= |changed|
    requires applied == if ReplacesAt(txn, env, tree, changed[i], i) then next else i
    requires !(ReplacesAt(txn, env, tree, changed[i], i) && !env.raises(AfterReplace(i)))
    ensures ReachesAsFar(txn, env, tree, changed, i, applied, false)
  {
    forall k | i <= k < |changed| ensures k < applied <==> GetsThrough(txn, env, tree, changed, i, k) {
      GetsThroughUnfolds(txn, env, tree, changed, i, next, k);
    }
  }

  lemma {:induction false} GoesOnFrom(
    txn: Txn, env: Environment, tree: Tree, changed: seq<Path>, i: nat, next: nat, applied: nat, ok: bool)
    requires next == i + 1 <= |changed| && ReachesAsFar(txn, env, tree, changed, next, applied, ok)
    requires ReplacesAt(txn, env, tree, changed[i], i) && !env.raises(AfterReplace(i))
    ensures ReachesAsFar(txn, env, tree, changed, i, applied, ok)
  {
    forall k | i <= k < |changed| ensures k < applied <==> GetsThrough(txn, env, tree, changed, i, k) {
      GetsThroughUnfolds(txn, env, tree, changed, i, next, k);
    }
  }

  lemma {:induction false} CommitIff(
    txn: Txn, env: Environment, tree: Tree, changed: seq<Path>, i: nat, c: Commitment)
    requires NoDuplicates(changed) && i <= |changed| && c.ok && c.applied == i
    requires Untouched(Edited(env, BeforeReplace(i), c.w.tree), SeenAt(env, tree, i), changed, i)
    ensures var c' := CommitAll(txn, env, changed, i, c);
            ReachesAsFar(txn, env, tree, changed, i, c'.applied, c'.ok)
    decreases |changed| - i
  {
    if i < |changed| {
      var next := i + 1;
      var c' := CommitOneIff(txn, env, tree, changed, i, next, c);
      CommitUnfolds(txn, env, changed, i, next, c, c');
      if c'.ok {
        CommitIff(txn, env, tree, changed, next, c');
        var done := CommitAll(txn, env, changed, next, c');
        GoesOnFrom(txn, env, tree, changed, i, next, done.applied, done.ok);
      } else {
        StopsAt(txn, env, tree, changed, i, next, c'.applied);
      }
    }
  }

  // ---------------------------------------------------------------- staged files

  function StagedOf(txn: Txn, p: Path): Temp { Temp(txn.id, PreparedRole, p) }

  /** The new content of `p` lies ready in its staged file. */
  predicate Staged(txn: Txn, temps: Temps, p: Path) {
    p in txn.working && StagedOf(txn, p) in temps && temps[StagedOf(txn, p)] == txn.working[p]
  }

  lemma {:induction false} StagedByPrepare(
    txn: Txn, env: Environment, changed: seq<Path>, i: nat, r: Preparation, k: nat)
    requires NoDuplicates(changed) && i <= |changed| && k < |changed| && changed[k] in txn.working
    requires k < i ==> Staged(txn, r.w.temps, changed[k])
    requires PrepareAll(txn, env, changed, i, r).ok
    ensures Staged(txn, PrepareAll(txn, env, changed, i, r).w.temps, changed[k])
    decreases |changed| - i
  {
    if i < |changed| {
      StagedByPrepare(txn, env, changed, i + 1, PrepareOne(txn, env, r, changed[i], i), k);
    }
  }

  /** A file waits staged until its turn, and its replacement uses the staged file up. */
  ghost predicate StagedRight(txn: Txn, changed: seq<Path>, c: Commitment, k: nat)
    requires k < |changed|
  {
    && (k >= c.applied && changed[k] in txn.working ==> Staged(txn, c.w.temps, changed[k]))
    && (k < c.applied ==> StagedOf(txn, changed[k]) !in c.w.temps)
  }

  lemma {:induction false} StagedInTurn(
    txn: Txn, env: Environment, changed: seq<Path>, i: nat, c: Commitment, k: nat) returns (c': Commitment)
    requires NoDuplicates(changed) && i < |changed| && k < |changed| && c.applied == i
    requires StagedRight(txn, changed, c, k)
    requires changed[k] !in txn.working ==> StagedOf(txn, changed[k]) !in c.w.temps
    ensures c' == CommitOne(txn, env, c, changed[i], i) && StagedRight(txn, changed, c', k)
    ensures changed[k] !in txn.working ==> StagedOf(txn, changed[k]) !in c'.w.temps
    ensures c'.applied <= i + 1 && (c'.ok ==> c'.applied == i + 1)
  {
    c' := CommitOne(txn, env, c, changed[i], i);
    assert i != k ==> changed[i] != changed[k];
  }

  lemma {:induction false} StagedInCommit(
    txn: Txn, env: Environment, changed: seq<Path>, i: nat, c: Commitment, k: nat)
    requires NoDuplicates(changed) && i <= |changed| && k < |changed| && (c.ok ==> c.applied == i)
    requires StagedRight(txn, changed, c, k)
    requires changed[k] !in txn.working ==> StagedOf(txn, changed[k]) !in c.w.temps
    ensures StagedRight(txn, changed, CommitAll(txn, env, changed, i, c), k)
    decreases |changed| - i
  {
    if i < |changed| && c.ok {
      var next := i + 1;
      var c' := StagedInTurn(txn, env, changed, i, c, k);
      CommitUnfolds(txn, env, changed, i, next, c, c');
      StagedInCommit(txn, env, changed, next, c', k);
    }
  }

  lemma {:induction false} NothingElseStaged(
    txn: Txn, env: Environment, changed: seq<Path>, i: nat, r: Preparation, p: Path)
    requires i <= |changed| && p !in txn.working && StagedOf(txn, p) !in r.w.temps
    ensures StagedOf(txn, p) !in PrepareAll(txn, env, changed, i, r).w.temps
    decreases |changed| - i
  {
    if i < |changed| && r.ok {
      NothingElseStaged(txn, env, changed, i + 1, PrepareOne(txn, env, r, changed[i], i), p);
    }
  }

  /**
   What a replacement writes was staged before: when the commit phase ends after `applied` files, the new
   content of each file still to come lies ready in its staged file, and that of each replaced one was used up.
   */
  lemma {:induction false} StagedFilesAreUsedUp(txn: Txn, env: Environment, tree: Tree, temps: Temps, k: nat)
    requires ValidTxn(txn) && FreshRun(txn, temps) && k < |Changed(txn)|
    requires Prepared(txn, env, World(tree, temps, [])).ok
    ensures var c := Committed(txn, env, Prepared(txn, env, World(tree, temps, [])));
            StagedRight(txn, Changed(txn), c, k)
  {
    var changed := Changed(txn);
    ChangedMembers(txn, txn.order);
    var w := World(tree, temps, []);
    var start := Preparation(AtHook(w, env, AfterPreflight), {}, {}, true);
    if changed[k] in txn.working {
      StagedByPrepare(txn, env, changed, 0, start, k);
    } else {
      NothingElseStaged(txn, env, changed, 0, start, changed[k]);
    }
    var prep := Prepared(txn, env, w);
    var c := Commitment(AtHook(prep.w, env, BeforeCommit), 0, !env.raises(BeforeCommit), None);
    StagedInCommit(txn, env, changed, 0, c, k);
  }

  // ---------------------------------------------------------------- bare names

  /** The bare name of a file is what follows the last slash. */
  lemma {:induction false} BareNameFollowsLastSlash(name: string)
    ensures var bare := LastComponent(name);
            && '/' !in bare && |bare| <= |name| && name[|name| - |bare|..] == bare
            && (|bare| < |name| ==> name[|name| - |bare| - 1] == '/')
  {
    if name != [] && name[|name| - 1] != '/' {
      var shorter := name[..|name| - 1];
      BareNameFollowsLastSlash(shorter);
      var bare := LastComponent(name);
      assert name == shorter + [name[|name| - 1]];
      assert name[|name| - |bare|..] == shorter[|shorter| - |LastComponent(shorter)|..] + [name[|name| - 1]];
    }
  }

  // ---------------------------------------------------------------- the outcome

  ghost predicate AllPrepared(txn: Txn, env: Environment, tree: Tree) {
    forall k | 0 <= k < |Changed(txn)| :: PreparesAt(txn, env, tree, Changed(txn)[k], k)
  }

  lemma {:induction false} CommittedIff(txn: Txn, env: Environment, tree: Tree, temps: Temps)
    requires ValidTxn(txn)
    ensures var prep := Prepared(txn, env, World(tree, temps, []));
            var c := Committed(txn, env, prep);
            && (prep.ok <==> AllPrepared(txn, env, tree))
            && (prep.ok && !env.raises(BeforeCommit) ==>
                  ReachesAsFar(txn, env, tree, Changed(txn), 0, c.applied, c.ok))
            && (!prep.ok || env.raises(BeforeCommit) ==> c.applied == 0 && !c.ok)
  {
    var w := World(tree, temps, []);
    var changed := Changed(txn);
    ChangedMembers(txn, txn.order);
    HookLeavesTree(w, env, AfterPreflight);
    var start := Preparation(AtHook(w, env, AfterPreflight), {}, {}, true);
    PrepareIff(txn, env, tree, changed, 0, start);
    PrepareTouchesNoTarget(txn, env, changed, 0, start);
    var prep := Prepared(txn, env, w);
    if prep.ok {
      HookLeavesTree(prep.w, env, BeforeCommit);
      var c := Commitment(AtHook(prep.w, env, BeforeCommit), 0, !env.raises(BeforeCommit), None);
      if c.ok {
        CommitIff(txn, env, tree, changed, 0, c);
      }
    }
  }

  /** Nothing stands against the transaction before it touches anything. */
  ghost predicate Starts(txn: Txn, env: Environment, tree: Tree) {
    (forall p :: !OffBaseline(txn, tree, p)) && !env.raises(AfterPreflight)
  }

  /**
   Each of the four outcomes has its cause, and exactly one of them is given. A conflict: some path is off the
   baseline when the transaction starts; nothing was touched. Interrupted: none is, and the first hook
   raised; nothing but that hook changed the tree. Applied: besides, every changed file could be staged, was
   found as in the baseline when its turn came, and was replaced without a failure. Otherwise rolled back.
   */
  lemma {:induction false} OutcomeHasItsCause(txn: Txn, env: Environment, tree: Tree, temps: Temps)
    requires ValidTxn(txn)
    ensures var r := AtomicApply(txn, env, tree, temps);
            && (r.outcome == Conflict <==> exists p :: OffBaseline(txn, tree, p))
            && (r.outcome == Interrupted <==> (forall p :: !OffBaseline(txn, tree, p)) && env.raises(AfterPreflight))
            && (r.outcome == Applied <==>
                  Starts(txn, env, tree) && AllPrepared(txn, env, tree) && !env.raises(BeforeCommit)
                  && AllReplaced(txn, env, tree, Changed(txn), 0))
            && (r.outcome == Conflict ==> r.w == World(tree, temps, []))
            && (r.outcome == Interrupted ==>
                  r.w.tree == Edited(env, AfterPreflight, tree) && r.w.temps == temps
                  && forall p :: !WasReplaced(r.w.log, p))
  {
    PreflightLooksEverywhere(txn, tree);
    CommittedIff(txn, env, tree, temps);
    var w := World(tree, temps, []);
    HookLeavesTree(w, env, AfterPreflight);
    forall p ensures !WasReplaced(AtHook(w, env, AfterPreflight).log, p) {
      HookReplacesNothing(w, env, AfterPreflight, p);
    }
  }

  /**
   A changed file is replaced exactly if the transaction starts, every changed file could be staged, and up to
   this one each was found as in the baseline and nothing failed; no other path is ever replaced.
   */
  lemma {:induction false} ReplacedIff(txn: Txn, env: Environment, tree: Tree, temps: Temps, p: Path)
    requires ValidTxn(txn) && FreshRun(txn, temps)
    ensures WasReplaced(AtomicApply(txn, env, tree, temps).w.log, p) <==>
            && Starts(txn, env, tree) && AllPrepared(txn, env, tree) && !env.raises(BeforeCommit)
            && exists k | 0 <= k < |Changed(txn)| ::
                 Changed(txn)[k] == p && GetsThrough(txn, env, tree, Changed(txn), 0, k)
  {
    var changed := Changed(txn);
    OutcomeHasItsCause(txn, env, tree, temps);
    CommittedIff(txn, env, tree, temps);
    var r := AtomicApply(txn, env, tree, temps);
    if Starts(txn, env, tree) {
      PreflightLooksEverywhere(txn, tree);
      var c := Committed(txn, env, Prepared(txn, env, World(tree, temps, [])));
      CommittedFacts(txn, env, tree, temps);
      if r.outcome.RolledBack? {
        ReplacedPaths(txn, env, tree, temps, p);
      }
      assert WasReplaced(r.w.log, p) <==> p in changed[..c.applied];
      assert p in changed[..c.applied] <==> exists k | 0 <= k < c.applied :: changed[k] == p;
    }
  }

  // ---------------------------------------------------------------- what the rollback finds

  /** The latest of these edits, if third parties made one. */
  function Later(env: Environment, point: HookPoint, before: Option<Tree>): Option<Tree> {
    match env.edits(point)
    case None => before
    case Some(tree) => Some(tree)
  }

  /** The latest edit between the replacement of file `k` and the end of the turn of file `m - 1`. */
  function EditSince(env: Environment, k: nat, m: nat): Option<Tree>
    requires k < m
  {
    if m == k + 1 then Later(env, AfterReplace(k), None)
    else Later(env, AfterReplace(m - 1), Later(env, BeforeReplace(m - 1), EditSince(env, k, m - 1)))
  }

  /** The same when the commit phase ends with `n` of `total` files replaced; it may have turned to one more. */
  function EditInCommit(env: Environment, total: nat, k: nat, n: nat): Option<Tree>
    requires k < n
  {
    if n < total && !env.raises(AfterReplace(n - 1)) then Later(env, BeforeReplace(n), EditSince(env, k, n))
    else EditSince(env, k, n)
  }

  /** The same when the rollback of `n` files has come down to file `i`. */
  function EditInRollback(env: Environment, n: nat, i: nat, before: Option<Tree>): Option<Tree>
    decreases n - i
  {
    if i >= n then before else Later(env, BeforeRollback(i), EditInRollback(env, n, i + 1, before))
  }

  /** A replaced file holds what was written there, unless third parties came after that. */
  function FoundIn(txn: Txn, edit: Option<Tree>, p: Path): Target {
    match edit
    case None => InSnapshot(txn.working, p)
    case Some(tree) => Look(tree, p)
  }

  /** What the rollback of `n` files finds at its file `k`. */
  function FoundAt(txn: Txn, env: Environment, n: nat, k: nat): Target
    requires k < n <= |Changed(txn)|
  {
    FoundIn(txn, EditInRollback(env, n, k, EditInCommit(env, |Changed(txn)|, k, n)), Changed(txn)[k])
  }

  predicate Foreign(txn: Txn, env: Environment, n: nat, k: nat)
    requires k < n <= |Changed(txn)|
  {
    && !env.raises(BeforeRollback(k)) && !env.faults(InspectAgain(k))
    && FoundAt(txn, env, n, k) != InSnapshot(txn.working, Changed(txn)[k])
  }

  predicate PutsBack(txn: Txn, env: Environment, n: nat, k: nat)
    requires k < n <= |Changed(txn)|
  {
    && !env.raises(BeforeRollback(k)) && !env.faults(InspectAgain(k)) && !env.faults(Compensate(k))
    && FoundAt(txn, env, n, k) == InSnapshot(txn.working, Changed(txn)[k])
  }

  /** The file in which the saved content of file `k` survives when it is not put back. */
  predicate KeepsIn(txn: Txn, env: Environment, tree: Tree, n: nat, k: nat, t: Temp)
    requires k < n <= |Changed(txn)|
  {
    && !PutsBack(txn, env, n, k)
    && Saved(txn, CaptureTree(env, tree), Changed(txn)[k]).File?
    && t == if Foreign(txn, env, n, k) && !env.faults(KeepBackup(k)) then RecoveryOf(txn, Changed(txn)[k])
            else BackupOf(txn, Changed(txn)[k])
  }

  // ---------------------------------------------------------------- the commit phase, seen from one replaced file

  lemma {:induction false} TurnFound(
    txn: Txn, env: Environment, changed: seq<Path>, i: nat, next: nat, c: Commitment, k: nat)
    returns (c': Commitment)
    requires NoDuplicates(changed) && k <= i < next == i + 1 <= |changed| && c.ok
    requires k < i ==> !env.raises(AfterReplace(i - 1))
                       && Look(c.w.tree, changed[k]) == FoundIn(txn, EditSince(env, k, i), changed[k])
    ensures c' == CommitOne(txn, env, c, changed[i], i) && c'.applied in {i, next}
    ensures k < c'.applied == next ==>
              Look(c'.w.tree, changed[k]) == FoundIn(txn, EditSince(env, k, next), changed[k])
              && (c'.ok <==> !env.raises(AfterReplace(i)))
    ensures k < c'.applied == i ==>
              Look(c'.w.tree, changed[k]) == FoundIn(txn, EditInCommit(env, |changed|, k, i), changed[k]) && !c'.ok
  {
    c' := CommitOne(txn, env, c, changed[i], i);
  }

  lemma {:induction false} CommitFound(
    txn: Txn, env: Environment, changed: seq<Path>, i: nat, c: Commitment, k: nat)
    requires NoDuplicates(changed) && k < i <= |changed| && c.applied <= i && k < c.applied
    requires c.ok ==> c.applied == i && !env.raises(AfterReplace(i - 1))
                      && Look(c.w.tree, changed[k]) == FoundIn(txn, EditSince(env, k, i), changed[k])
    requires !c.ok ==>
               Look(c.w.tree, changed[k]) == FoundIn(txn, EditInCommit(env, |changed|, k, c.applied), changed[k])
    ensures var c' := CommitAll(txn, env, changed, i, c);
            k < c'.applied &&
            (!c'.ok ==> Look(c'.w.tree, changed[k])
                        == FoundIn(txn, EditInCommit(env, |changed|, k, c'.applied), changed[k]))
    decreases |changed| - i
  {
    if i < |changed| && c.ok {
      var next := i + 1;
      var c' := TurnFound(txn, env, changed, i, next, c, k);
      CommitUnfolds(txn, env, changed, i, next, c, c');
      CommitFound(txn, env, changed, next, c', k);
    }
  }

  lemma {:induction false} CommitOneCounts(txn: Txn, env: Environment, c: Commitment, p: Path, i: nat)
    returns (c': Commitment)
    ensures c' == CommitOne(txn, env, c, p, i) && c'.applied <= i + 1 && (c'.ok ==> c'.applied == i + 1)
  {
    c' := CommitOne(txn, env, c, p, i);
  }

  lemma {:induction false} CommitFoundFrom(
    txn: Txn, env: Environment, changed: seq<Path>, i: nat, c: Commitment, k: nat)
    requires NoDuplicates(changed) && i <= k < |changed| && c.applied <= i
    requires k < CommitAll(txn, env, changed, i, c).applied && !CommitAll(txn, env, changed, i, c).ok
    ensures var c' := CommitAll(txn, env, changed, i, c);
            Look(c'.w.tree, changed[k]) == FoundIn(txn, EditInCommit(env, |changed|, k, c'.applied), changed[k])
    decreases |changed| - i
  {
    assert c.ok;
    var next := i + 1;
    if i == k {
      var c' := TurnFound(txn, env, changed, i, next, c, k);
      CommitUnfolds(txn, env, changed, i, next, c, c');
      if c'.applied == next {
        CommitFound(txn, env, changed, next, c', k);
      }
    } else {
      var c' := CommitOneCounts(txn, env, c, changed[i], i);
      CommitUnfolds(txn, env, changed, i, next, c, c');
      CommitFoundFrom(txn, env, changed, next, c', k);
    }
  }

  lemma {:induction false} CommittedFound(txn: Txn, env: Environment, tree: Tree, temps: Temps, k: nat)
    requires ValidTxn(txn)
    requires var c := Committed(txn, env, Prepared(txn, env, World(tree, temps, [])));
             k < c.applied <= |Changed(txn)| && !c.ok
    ensures var c := Committed(txn, env, Prepared(txn, env, World(tree, temps, [])));
            Look(c.w.tree, Changed(txn)[k])
            == FoundIn(txn, EditInCommit(env, |Changed(txn)|, k, c.applied), Changed(txn)[k])
  {
    ChangedMembers(txn, txn.order);
    var prep := Prepared(txn, env, World(tree, temps, []));
    var start := Commitment(AtHook(prep.w, env, BeforeCommit), 0, !env.raises(BeforeCommit), None);
    CommitFoundFrom(txn, env, Changed(txn), 0, start, k);
  }

  // ---------------------------------------------------------------- one compensation

  lemma {:induction false} CompensateOneIff(
    txn: Txn, env: Environment, r: Compensation, p: Path, i: nat, saved: Target) returns (r': Compensation)
    requires BackupIs(txn, r.w.temps, p, saved) && RestoredTo(r.w.log, p) == None
    ensures r' == CompensateOne(txn, env, r, p, i)
    ensures var found := Look(Edited(env, BeforeRollback(i), r.w.tree), p);
            var inspected := !env.raises(BeforeRollback(i)) && !env.faults(InspectAgain(i));
            var foreign := inspected && found != InSnapshot(txn.working, p);
            var back := inspected && found == InSnapshot(txn.working, p) && !env.faults(Compensate(i));
            && RestoredTo(r'.w.log, p) == (if back then Some(saved) else None)
            && (forall q :: q in r'.conflicts <==> q in r.conflicts || (q == p && foreign))
            && (forall t :: t in r'.artifacts <==>
                  || t in r.artifacts
                  || (!back && saved.File?
                      && t == if foreign && !env.faults(KeepBackup(i)) then RecoveryOf(txn, p) else BackupOf(txn, p)))
  {
    HookRestoresNothing(r.w, env, BeforeRollback(i), p);
    HookLeavesTree(r.w, env, BeforeRollback(i));
    var w := AtHook(r.w, env, BeforeRollback(i));
    FrontOfSnoc(w.log, Restored(p, Look(w.tree, p), saved));
    r' := CompensateOne(txn, env, r, p, i);
  }

  /** A compensation leaves the other paths as third parties left them. */
  lemma {:induction false} CompensateLeavesOthers(
    txn: Txn, env: Environment, r: Compensation, p: Path, i: nat, q: Path)
    requires p != q
    ensures Look(CompensateOne(txn, env, r, p, i).w.tree, q) == Look(Edited(env, BeforeRollback(i), r.w.tree), q)
  {
    HookLeavesTree(r.w, env, BeforeRollback(i));
  }

  // ---------------------------------------------------------------- the whole rollback

  /** Before the rollback comes to file `k`. */
  ghost predicate Awaits(txn: Txn, env: Environment, tree: Tree, n: nat, i: nat, r: Compensation, k: nat)
    requires k < i <= n <= |Changed(txn)|
  {
    var p := Changed(txn)[k];
    && Look(r.w.tree, p) == FoundIn(txn, EditInRollback(env, n, i, EditInCommit(env, |Changed(txn)|, k, n)), p)
    && BackupIs(txn, r.w.temps, p, Saved(txn, CaptureTree(env, tree), p))
    && RestoredTo(r.w.log, p) == None
  }

  ghost predicate AllAwait(txn: Txn, env: Environment, tree: Tree, n: nat, i: nat, r: Compensation)
    requires i <= n <= |Changed(txn)|
  {
    forall k | 0 <= k < i :: Awaits(txn, env, tree, n, i, r, k)
  }

  lemma {:induction false} OthersStillAwait(
    txn: Txn, env: Environment, tree: Tree, n: nat, i: nat, j: nat, r: Compensation, r1: Compensation, k: nat)
    requires NoDuplicates(Changed(txn)) && k < j && i == j + 1 <= n <= |Changed(txn)|
    requires Awaits(txn, env, tree, n, i, r, k) && r1 == CompensateOne(txn, env, r, Changed(txn)[j], j)
    ensures Awaits(txn, env, tree, n, j, r1, k)
  {
    var changed := Changed(txn);
    EarlierDiffers(changed, i, k);
    CompensateLeavesOthers(txn, env, r, changed[j], j, changed[k]);
    CompensateOneElsewhere(txn, env, r, changed[j], j, changed[k]);
  }

  lemma {:induction false} RollbackStep(
    txn: Txn, env: Environment, tree: Tree, n: nat, i: nat, j: nat, r: Compensation) returns (r1: Compensation)
    requires NoDuplicates(Changed(txn)) && i == j + 1 <= n <= |Changed(txn)| && AllAwait(txn, env, tree, n, i, r)
    ensures CompensateAll(txn, env, Changed(txn), i, r) == CompensateAll(txn, env, Changed(txn), j, r1)
    ensures AllAwait(txn, env, tree, n, j, r1)
    ensures var p := Changed(txn)[j];
            && RestoredTo(r1.w.log, p)
               == (if PutsBack(txn, env, n, j) then Some(Saved(txn, CaptureTree(env, tree), p)) else None)
            && (forall q :: q in r1.conflicts <==> q in r.conflicts || (q == p && Foreign(txn, env, n, j)))
            && (forall t :: t in r1.artifacts <==> t in r.artifacts || KeepsIn(txn, env, tree, n, j, t))
  {
    var p := Changed(txn)[j];
    assert Awaits(txn, env, tree, n, i, r, j);
    assert Look(Edited(env, BeforeRollback(j), r.w.tree), p) == FoundAt(txn, env, n, j);
    r1 := CompensateOneIff(txn, env, r, p, j, Saved(txn, CaptureTree(env, tree), p));
    CompensateUnfolds(txn, env, Changed(txn), i, r, r1);
    forall k | 0 <= k < j ensures Awaits(txn, env, tree, n, j, r1, k) {
      assert Awaits(txn, env, tree, n, i, r, k);
      OthersStillAwait(txn, env, tree, n, i, j, r, r1, k);
    }
  }

  lemma {:induction false} RollbackReports(
    txn: Txn, env: Environment, tree: Tree, n: nat, i: nat, r: Compensation, q: Path, t: Temp)
    requires NoDuplicates(Changed(txn)) && i <= n <= |Changed(txn)| && AllAwait(txn, env, tree, n, i, r)
    ensures var r' := CompensateAll(txn, env, Changed(txn), i, r);
            && (q in r'.conflicts <==>
                  q in r.conflicts || exists k | 0 <= k < i :: Changed(txn)[k] == q && Foreign(txn, env, n, k))
            && (t in r'.artifacts <==>
                  t in r.artifacts || exists k | 0 <= k < i :: KeepsIn(txn, env, tree, n, k, t))
  {
    if i > 0 {
      var r1 := RollbackStep(txn, env, tree, n, i, i - 1, r);
      RollbackReports(txn, env, tree, n, i - 1, r1, q, t);
    }
  }

  lemma {:induction false} RestoringStep(
    txn: Txn, env: Environment, tree: Tree, n: nat, i: nat, j: nat, r: Compensation) returns (r1: Compensation)
    requires NoDuplicates(Changed(txn)) && i == j + 1 <= n <= |Changed(txn)| && AllAwait(txn, env, tree, n, i, r)
    ensures CompensateAll(txn, env, Changed(txn), i, r) == CompensateAll(txn, env, Changed(txn), j, r1)
    ensures AllAwait(txn, env, tree, n, j, r1)
    ensures var p := Changed(txn)[j];
            RestoredTo(r1.w.log, p)
            == if PutsBack(txn, env, n, j) then Some(Saved(txn, CaptureTree(env, tree), p)) else None
  {
    r1 := RollbackStep(txn, env, tree, n, i, j, r);
  }

  lemma {:induction false} RollbackRestores(
    txn: Txn, env: Environment, tree: Tree, n: nat, i: nat, r: Compensation, k: nat)
    requires NoDuplicates(Changed(txn)) && k < i <= n <= |Changed(txn)| && AllAwait(txn, env, tree, n, i, r)
    ensures var p := Changed(txn)[k];
            RestoredTo(CompensateAll(txn, env, Changed(txn), i, r).w.log, p)
            == if PutsBack(txn, env, n, k) then Some(Saved(txn, CaptureTree(env, tree), p)) else None
  {
    var j := i - 1;
    var r1 := RestoringStep(txn, env, tree, n, i, j, r);
    if k == j {
      EarlierDiffers(Changed(txn), i, k);
      FateIsSettled(txn, env, Changed(txn), k, r1, Changed(txn)[k]);
    } else {
      RollbackRestores(txn, env, tree, n, j, r1, k);
    }
  }

  lemma {:induction false} OneMoreConflict(txn: Txn, env: Environment, r: Compensation, p: Path, i: nat)
    returns (r1: Compensation)
    requires NoDuplicates(r.conflicts)
    ensures r1 == CompensateOne(txn, env, r, p, i) && NoDuplicates(r1.conflicts)
  {
    r1 := CompensateOne(txn, env, r, p, i);
  }

  lemma {:induction false} ConflictsStayDistinct(
    txn: Txn, env: Environment, changed: seq<Path>, i: nat, r: Compensation)
    requires i <= |changed| && NoDuplicates(r.conflicts)
    ensures NoDuplicates(CompensateAll(txn, env, changed, i, r).conflicts)
  {
    if i > 0 {
      var r1 := OneMoreConflict(txn, env, r, changed[i - 1], i - 1);
      CompensateUnfolds(txn, env, changed, i, r, r1);
      ConflictsStayDistinct(txn, env, changed, i - 1, r1);
    }
  }

  /** No conflict is reported twice. */
  lemma {:induction false} ConflictsAreDistinct(txn: Txn, env: Environment, tree: Tree, temps: Temps)
    requires ValidTxn(txn) && FreshRun(txn, temps) && AtomicApply(txn, env, tree, temps).outcome.RolledBack?
    ensures NoDuplicates(AtomicApply(txn, env, tree, temps).outcome.conflicts)
  {
    var c := RollbackStart(txn, env, tree, temps);
    ConflictsStayDistinct(txn, env, Changed(txn), c.applied, StartOfRollback(c));
  }

  lemma {:induction false} RollbackStart(txn: Txn, env: Environment, tree: Tree, temps: Temps) returns (c: Commitment)
    requires ValidTxn(txn) && FreshRun(txn, temps) && AtomicApply(txn, env, tree, temps).outcome.RolledBack?
    ensures c == Committed(txn, env, Prepared(txn, env, World(tree, temps, []))) && c.applied <= |Changed(txn)|
    ensures AllAwait(txn, env, tree, c.applied, c.applied, StartOfRollback(c)) && NoDuplicates(Changed(txn))
    ensures AtomicApply(txn, env, tree, temps)
            == Abort(txn, env, Prepared(txn, env, World(tree, temps, [])), c)
    ensures forall p :: WasReplaced(AtomicApply(txn, env, tree, temps).w.log, p) <==> p in Changed(txn)[..c.applied]
  {
    AbortFacts(txn, env, tree, temps);
    CommittedFacts(txn, env, tree, temps);
    ChangedMembers(txn, txn.order);
    c := Committed(txn, env, Prepared(txn, env, World(tree, temps, [])));
    forall k | 0 <= k < c.applied ensures Awaits(txn, env, tree, c.applied, c.applied, StartOfRollback(c), k) {
      CommittedFound(txn, env, tree, temps, k);
    }
    forall p ensures WasReplaced(AtomicApply(txn, env, tree, temps).w.log, p) <==> p in Changed(txn)[..c.applied] {
      ReplacedPaths(txn, env, tree, temps, p);
    }
  }

  /** The first `n` changed files are the replaced ones. */
  ghost predicate ReplacedFirst(txn: Txn, log: seq<Event>, n: nat)
    requires n <= |Changed(txn)|
  {
    forall k | 0 <= k < |Changed(txn)| :: WasReplaced(log, Changed(txn)[k]) <==> k < n
  }

  lemma {:induction false} InPrefix(changed: seq<Path>, n: nat, k: nat)
    requires NoDuplicates(changed) && n <= |changed| && k < |changed|
    ensures changed[k] in changed[..n] <==> k < n
  {
    if k < n {
      assert changed[..n][k] == changed[k];
    }
  }

  lemma {:induction false} ReplacedCount(txn: Txn, log: seq<Event>, applied: nat, n: nat)
    requires NoDuplicates(Changed(txn)) && applied <= |Changed(txn)| && n <= |Changed(txn)|
    requires forall p :: WasReplaced(log, p) <==> p in Changed(txn)[..applied]
    requires ReplacedFirst(txn, log, n)
    ensures n == applied
  {
    if n < |Changed(txn)| {
      InPrefix(Changed(txn), applied, n);
    }
    if applied < |Changed(txn)| {
      InPrefix(Changed(txn), applied, applied);
    }
  }

  /**
   A replaced file is put back exactly if its rollback raises nothing and finds there what the transaction
   wrote, that is, if third parties last left the tree so, or did not touch it since.
   */
  lemma {:induction false} PutBackIff(txn: Txn, env: Environment, tree: Tree, temps: Temps, n: nat, k: nat)
    requires ValidTxn(txn) && FreshRun(txn, temps) && AtomicApply(txn, env, tree, temps).outcome.RolledBack?
    requires k < n <= |Changed(txn)| && ReplacedFirst(txn, AtomicApply(txn, env, tree, temps).w.log, n)
    ensures var p := Changed(txn)[k];
            RestoredTo(AtomicApply(txn, env, tree, temps).w.log, p)
            == if PutsBack(txn, env, n, k) then Some(Saved(txn, CaptureTree(env, tree), p)) else None
  {
    var c := RollbackStart(txn, env, tree, temps);
    ReplacedCount(txn, AtomicApply(txn, env, tree, temps).w.log, c.applied, n);
    RollbackRestores(txn, env, tree, n, n, StartOfRollback(c), k);
  }

  /**
   The reports of a rollback are exact, whatever fails. The conflicts are what stopped the commit and the
   replaced files in which a completed inspection found something foreign; the artifacts are, for each
   file not put back that had content, the recovery copy if it was foreign and could be kept so, and
   otherwise the backup where it is.
   */
  lemma {:induction false} ReportsAreExact(
    txn: Txn, env: Environment, tree: Tree, temps: Temps, n: nat, q: Path, t: Temp)
    requires ValidTxn(txn) && FreshRun(txn, temps) && AtomicApply(txn, env, tree, temps).outcome.RolledBack?
    requires n <= |Changed(txn)| && ReplacedFirst(txn, AtomicApply(txn, env, tree, temps).w.log, n)
    ensures var outcome := AtomicApply(txn, env, tree, temps).outcome;
            && (q in outcome.conflicts <==>
                  || Committed(txn, env, Prepared(txn, env, World(tree, temps, []))).conflict == Some(q)
                  || exists k | 0 <= k < n :: Changed(txn)[k] == q && Foreign(txn, env, n, k))
            && (t in outcome.artifacts <==> exists k | 0 <= k < n :: KeepsIn(txn, env, tree, n, k, t))
  {
    var c := RollbackStart(txn, env, tree, temps);
    ReplacedCount(txn, AtomicApply(txn, env, tree, temps).w.log, c.applied, n);
    RollbackReports(txn, env, tree, n, n, StartOfRollback(c), q, t);
  }
}
