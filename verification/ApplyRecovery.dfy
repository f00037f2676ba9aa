/**
 What the apply transaction keeps when it has to compensate: every replaced file is either put back
 or preserved and reported, the status says which, and no other temporary file survives.
 */
module ApplyRecovery {
  import opened Common
  import opened Graphs
  import opened ApplyTransaction
  import opened ApplySafety

  // ---------------------------------------------------------------- what a backup holds

  ghost predicate FreshRun(txn: Txn, temps: Temps) {
    forall t | t in temps :: t.run != txn.id
  }

  function BackupOf(txn: Txn, p: Path): Temp { Temp(txn.id, BackupRole, p) }

  function RecoveryOf(txn: Txn, p: Path): Temp { Temp(txn.id, RecoveryRole, p) }

  /** The backup of `p` is there with the file `t`, or absent when there was nothing to back up. */
  ghost predicate BackupIs(txn: Txn, temps: Temps, p: Path, t: Target) {
    if BackupOf(txn, p) in temps then t == File(temps[BackupOf(txn, p)]) else t == Missing
  }

  /** The tree whose files are copied into the backups. */
  function CaptureTree(env: Environment, tree: Tree): Tree {
    match env.edits(AfterPreflight)
    case None => tree
    case Some(edited) => edited
  }

  function Captured(txn: Txn, capture: Tree, p: Path): Target {
    if p in txn.baseline then Look(capture, p) else Missing
  }

  /**
   What compensation brings back: a modified file as it was captured, a deleted file as it was when
   it was moved away (the checked baseline), nothing for a created file.
   */
  function Saved(txn: Txn, capture: Tree, p: Path): Target {
    if p in txn.working then Captured(txn, capture, p) else Expected(txn, p)
  }

  // ---------------------------------------------------------------- prepare and commit

  lemma {:induction false} PrepareElsewhere(
    txn: Txn, env: Environment, changed: seq<Path>, i: nat, r: Preparation, t: Temp)
    requires i <= |changed|
    requires t.run != txn.id || t.path !in changed[i..]
    ensures var r' := PrepareAll(txn, env, changed, i, r);
            && (t in r'.w.temps <==> t in r.w.temps)
            && (t in r.w.temps ==> r'.w.temps[t] == r.w.temps[t])
    decreases |changed| - i
  {
    if i < |changed| && r.ok {
      assert changed[i..] == [changed[i]] + changed[i + 1..];
      PrepareElsewhere(txn, env, changed, i + 1, PrepareOne(txn, env, r, changed[i], i), t);
    }
  }

  lemma {:induction false} LaterDiffers(changed: seq<Path>, i: nat)
    requires NoDuplicates(changed) && i < |changed|
    ensures changed[i] !in changed[i + 1..]
    ensures changed[i..] == [changed[i]] + changed[i + 1..]
  {
  }

  lemma {:induction false} PrepareBacksUp(
    txn: Txn, env: Environment, changed: seq<Path>, i: nat, r: Preparation, j: nat)
    requires NoDuplicates(changed) && i <= j < |changed|
    requires BackupOf(txn, changed[j]) !in r.w.temps
    requires PrepareAll(txn, env, changed, i, r).ok
    ensures var r' := PrepareAll(txn, env, changed, i, r);
            && BackupIs(txn, r'.w.temps, changed[j], Captured(txn, r.w.tree, changed[j]))
            && (changed[j] in txn.baseline ==> changed[j] in r'.backups)
    decreases |changed| - i
  {
    var r1 := PrepareOne(txn, env, r, changed[i], i);
    if i == j {
      LaterDiffers(changed, i);
      PrepareElsewhere(txn, env, changed, i + 1, r1, BackupOf(txn, changed[j]));
      BackupsGrow(txn, env, changed, i + 1, r1);
    } else {
      PrepareBacksUp(txn, env, changed, i + 1, r1, j);
    }
  }

  lemma {:induction false} BackupsGrow(txn: Txn, env: Environment, changed: seq<Path>, i: nat, r: Preparation)
    requires i <= |changed|
    ensures r.backups <= PrepareAll(txn, env, changed, i, r).backups
    decreases |changed| - i
  {
    if i < |changed| && r.ok {
      BackupsGrow(txn, env, changed, i + 1, PrepareOne(txn, env, r, changed[i], i));
    }
  }

  /** Before its replacement the backup of `j` holds the captured file, afterwards what is to be restored. */
  ghost predicate BackupReady(txn: Txn, capture: Tree, changed: seq<Path>, j: nat, c: Commitment)
    requires j < |changed|
  {
    BackupIs(txn, c.w.temps, changed[j],
             if j < c.applied then Saved(txn, capture, changed[j]) else Captured(txn, capture, changed[j]))
  }

  lemma {:induction false} CommitOneBacksUp(
    txn: Txn, env: Environment, capture: Tree, changed: seq<Path>, i: nat, c: Commitment, j: nat)
    requires NoDuplicates(changed) && i < |changed| && j < |changed| && c.applied == i
    requires BackupReady(txn, capture, changed, j, c)
    ensures BackupReady(txn, capture, changed, j, CommitOne(txn, env, c, changed[i], i))
  {
    assert i != j ==> changed[i] != changed[j];
  }

  lemma {:induction false} CommitBacksUp(
    txn: Txn, env: Environment, capture: Tree, changed: seq<Path>, i: nat, c: Commitment, j: nat)
    requires NoDuplicates(changed) && i <= |changed| && j < |changed| && c.applied <= i && (c.ok ==> c.applied == i)
    requires BackupReady(txn, capture, changed, j, c)
    ensures BackupReady(txn, capture, changed, j, CommitAll(txn, env, changed, i, c))
    decreases |changed| - i
  {
    if i < |changed| && c.ok {
      CommitOneBacksUp(txn, env, capture, changed, i, c, j);
      CommitBacksUp(txn, env, capture, changed, i + 1, CommitOne(txn, env, c, changed[i], i), j);
    }
  }

  // ---------------------------------------------------------------- the fate of one replaced path

  /** What compensation last brought back at `p`, if it did. */
  function RestoredTo(log: seq<Event>, p: Path): Option<Target> {
    if log == [] then None
    else
      match log[|log| - 1]
      case Restored(q, _, written) => if p == q then Some(written) else RestoredTo(Front(log), p)
      case _ => RestoredTo(Front(log), p)
  }

  lemma {:induction false} HookRestoresNothing(w: World, env: Environment, point: HookPoint, p: Path)
    ensures RestoredTo(AtHook(w, env, point).log, p) == RestoredTo(w.log, p)
    ensures AtHook(w, env, point).temps == w.temps
  {
    match env.edits(point)
    case None =>
    case Some(tree) => FrontOfSnoc(w.log, ThirdParty(w.tree, tree));
  }

  lemma {:induction false} PutRestoresNothing(txn: Txn, w: World, q: Path, p: Path)
    ensures RestoredTo(Put(txn, w, q).log, p) == RestoredTo(w.log, p)
  {
    FrontOfSnoc(w.log, Replaced(q, Look(w.tree, q), Final(txn, q)));
  }

  lemma {:induction false} CommitOneRestoresNothing(
    txn: Txn, env: Environment, c: Commitment, q: Path, i: nat, p: Path) returns (c1: Commitment)
    ensures c1 == CommitOne(txn, env, c, q, i) && RestoredTo(c1.w.log, p) == RestoredTo(c.w.log, p)
  {
    HookRestoresNothing(c.w, env, BeforeReplace(i), p);
    var w := AtHook(c.w, env, BeforeReplace(i));
    PutRestoresNothing(txn, w, q, p);
    HookRestoresNothing(Put(txn, w, q), env, AfterReplace(i), p);
    c1 := CommitOne(txn, env, c, q, i);
  }

  lemma {:induction false} CommitRestoresNothing(
    txn: Txn, env: Environment, changed: seq<Path>, i: nat, c: Commitment, p: Path)
    requires i <= |changed| && RestoredTo(c.w.log, p) == None
    ensures RestoredTo(CommitAll(txn, env, changed, i, c).w.log, p) == None
    decreases |changed| - i
  {
    if i < |changed| && c.ok {
      var c1 := CommitOneRestoresNothing(txn, env, c, changed[i], i, p);
      CommitRestoresNothing(txn, env, changed, i + 1, c1, p);
    }
  }

  ghost predicate Reported(r: Compensation, t: Temp, content: Content) {
    t in r.preserved && t in r.artifacts && t in r.w.temps && r.w.temps[t] == content
  }

  /** The bytes of the replaced file survive in a reported file. */
  ghost predicate HeldFor(txn: Txn, r: Compensation, p: Path, content: Content) {
    Reported(r, BackupOf(txn, p), content) || Reported(r, RecoveryOf(txn, p), content)
  }

  ghost predicate PutBack(r: Compensation, p: Path, saved: Target) {
    RestoredTo(r.w.log, p) == Some(saved)
  }

  ghost predicate SetAside(txn: Txn, r: Compensation, p: Path, saved: Target) {
    RestoredTo(r.w.log, p) == None && r.errors > 0 && (saved.File? ==> HeldFor(txn, r, p, saved.content))
  }

  /** A temporary file and its place in the reports are as before, or reported in addition. */
  ghost predicate SameTemp(r: Compensation, r': Compensation, t: Temp) {
    && (t in r'.w.temps <==> t in r.w.temps)
    && (t in r.w.temps ==> r'.w.temps[t] == r.w.temps[t])
    && (t in r.preserved ==> t in r'.preserved)
    && (t in r.artifacts ==> t in r'.artifacts)
  }

  /** Nothing that matters for the fate of `p` has changed. */
  ghost predicate Unaffected(txn: Txn, r: Compensation, r': Compensation, p: Path) {
    && RestoredTo(r'.w.log, p) == RestoredTo(r.w.log, p) && r'.errors >= r.errors
    && SameTemp(r, r', BackupOf(txn, p)) && SameTemp(r, r', RecoveryOf(txn, p))
  }

  lemma {:induction false} KeepInPlaceElsewhere(txn: Txn, r: Compensation, q: Path, p: Path)
    requires p != q
    ensures Unaffected(txn, r, KeepInPlace(txn, r, q), p)
  {
  }

  lemma {:induction false} KeepForRecoveryElsewhere(
    txn: Txn, env: Environment, r: Compensation, q: Path, i: nat, p: Path)
    requires p != q
    ensures Unaffected(txn, r, KeepForRecovery(txn, env, r, q, i), p)
  {
  }

  lemma {:induction false} UndoElsewhere(txn: Txn, r: Compensation, q: Path, p: Path)
    requires p != q
    ensures Unaffected(txn, r, r.(w := Undo(txn, r.w, q)), p)
  {
    FrontOfSnoc(r.w.log, Restored(q, Look(r.w.tree, q), SavedIn(txn, r.w.temps, q)));
  }

  lemma {:induction false} HookAffectsNothing(txn: Txn, env: Environment, r: Compensation, i: nat, p: Path)
    returns (r0: Compensation)
    ensures r0 == r.(w := AtHook(r.w, env, BeforeRollback(i))) && Unaffected(txn, r, r0, p)
  {
    HookRestoresNothing(r.w, env, BeforeRollback(i), p);
    r0 := r.(w := AtHook(r.w, env, BeforeRollback(i)));
  }

  lemma {:induction false} UnaffectedTwice(txn: Txn, r: Compensation, r1: Compensation, r2: Compensation, p: Path)
    requires Unaffected(txn, r, r1, p) && Unaffected(txn, r1, r2, p)
    ensures Unaffected(txn, r, r2, p)
  {
  }

  lemma {:induction false} CompensateOneElsewhere(txn: Txn, env: Environment, r: Compensation, q: Path, i: nat, p: Path)
    requires p != q
    ensures Unaffected(txn, r, CompensateOne(txn, env, r, q, i), p)
  {
    var r0 := HookAffectsNothing(txn, env, r, i, p);
    KeepInPlaceElsewhere(txn, r0, q, p);
    KeepForRecoveryElsewhere(txn, env, r0, q, i, p);
    UndoElsewhere(txn, r0, q, p);
    UnaffectedTwice(txn, r, r0, CompensateOne(txn, env, r, q, i), p);
  }

  function SavedIn(txn: Txn, temps: Temps, p: Path): Target {
    if BackupOf(txn, p) in temps then File(temps[BackupOf(txn, p)]) else Missing
  }

  ghost predicate OnlyAffects(txn: Txn, r: Compensation, r': Compensation, q: Path) {
    forall p | p != q :: Unaffected(txn, r, r', p)
  }

  ghost predicate FateDecided(txn: Txn, r: Compensation, r': Compensation, p: Path, saved: Target) {
    (PutBack(r', p, saved) && r'.errors == r.errors) || SetAside(txn, r', p, saved)
  }

  lemma {:induction false} KeepInPlaceFate(txn: Txn, r: Compensation, p: Path, saved: Target)
    requires BackupIs(txn, r.w.temps, p, saved) && RestoredTo(r.w.log, p) == None
    ensures SetAside(txn, KeepInPlace(txn, r, p), p, saved)
  {
  }

  lemma {:induction false} KeepForRecoveryFate(
    txn: Txn, env: Environment, r: Compensation, p: Path, i: nat, saved: Target)
    requires BackupIs(txn, r.w.temps, p, saved) && RestoredTo(r.w.log, p) == None
    ensures SetAside(txn, KeepForRecovery(txn, env, r, p, i), p, saved)
  {
  }

  lemma {:induction false} UndoFate(txn: Txn, r: Compensation, p: Path, saved: Target)
    requires BackupIs(txn, r.w.temps, p, saved)
    ensures PutBack(r.(w := Undo(txn, r.w, p)), p, saved)
  {
    FrontOfSnoc(r.w.log, Restored(p, Look(r.w.tree, p), saved));
  }

  lemma {:induction false} CompensateOneFate(
    txn: Txn, env: Environment, r: Compensation, p: Path, i: nat, saved: Target)
    requires BackupIs(txn, r.w.temps, p, saved) && RestoredTo(r.w.log, p) == None
    ensures FateDecided(txn, r, CompensateOne(txn, env, r, p, i), p, saved)
  {
    var r0 := HookAffectsNothing(txn, env, r, i, p);
    KeepInPlaceFate(txn, r0, p, saved);
    KeepForRecoveryFate(txn, env, r0, p, i, saved);
    UndoFate(txn, r0, p, saved);
  }

  lemma {:induction false} CompensateOnlyAffects(
    txn: Txn, env: Environment, r: Compensation, q: Path, i: nat, r1: Compensation)
    requires r1 == CompensateOne(txn, env, r, q, i)
    ensures OnlyAffects(txn, r, r1, q)
  {
    forall p | p != q ensures Unaffected(txn, r, r1, p) {
      CompensateOneElsewhere(txn, env, r, q, i, p);
    }
  }

  lemma {:induction false} CompensateOnce(
    txn: Txn, env: Environment, r: Compensation, p: Path, i: nat) returns (r1: Compensation)
    ensures r1 == CompensateOne(txn, env, r, p, i)
    ensures OnlyAffects(txn, r, r1, p)
    ensures RestoredTo(r.w.log, p) == None ==> FateDecided(txn, r, r1, p, SavedIn(txn, r.w.temps, p))
  {
    r1 := CompensateOne(txn, env, r, p, i);
    CompensateOnlyAffects(txn, env, r, p, i, r1);
    if RestoredTo(r.w.log, p) == None {
      CompensateOneFate(txn, env, r, p, i, SavedIn(txn, r.w.temps, p));
    }
  }

  /** One compensation: it settles the fate of its own path and no other one. */
  lemma {:induction false} CompensateStep(
    txn: Txn, env: Environment, changed: seq<Path>, i: nat, r: Compensation) returns (r1: Compensation)
    requires 0 < i <= |changed|
    ensures CompensateAll(txn, env, changed, i, r) == CompensateAll(txn, env, changed, i - 1, r1)
    ensures OnlyAffects(txn, r, r1, changed[i - 1])
    ensures RestoredTo(r.w.log, changed[i - 1]) == None ==>
              FateDecided(txn, r, r1, changed[i - 1], SavedIn(txn, r.w.temps, changed[i - 1]))
  {
    r1 := CompensateOnce(txn, env, r, changed[i - 1], i - 1);
    CompensateUnfolds(txn, env, changed, i, r, r1);
  }

  /** Steps on other paths change nothing about the fate of `p`. */
  lemma {:induction false} FateIsSettled(
    txn: Txn, env: Environment, changed: seq<Path>, i: nat, r: Compensation, p: Path)
    requires i <= |changed| && p !in changed[..i]
    ensures Unaffected(txn, r, CompensateAll(txn, env, changed, i, r), p)
  {
    if i > 0 {
      assert changed[..i] == changed[..i - 1] + [changed[i - 1]];
      var r1 := CompensateStep(txn, env, changed, i, r);
      assert Unaffected(txn, r, r1, p);
      FateIsSettled(txn, env, changed, i - 1, r1, p);
    }
  }

  lemma {:induction false} EarlierDiffers(changed: seq<Path>, i: nat, j: nat)
    requires NoDuplicates(changed) && j < i <= |changed|
    ensures changed[j] !in changed[..j]
    ensures j < i - 1 ==> changed[j] != changed[i - 1]
  {
  }

  lemma {:induction false} FateIsKept(
    txn: Txn, r: Compensation, r1: Compensation, r2: Compensation, p: Path, saved: Target)
    requires FateDecided(txn, r, r1, p, saved) && Unaffected(txn, r1, r2, p)
    ensures PutBack(r2, p, saved) || SetAside(txn, r2, p, saved)
  {
  }

  lemma {:induction false} CompensateFate(
    txn: Txn, env: Environment, changed: seq<Path>, i: nat, r: Compensation, j: nat, saved: Target)
    requires NoDuplicates(changed) && j < i <= |changed|
    requires BackupIs(txn, r.w.temps, changed[j], saved) && RestoredTo(r.w.log, changed[j]) == None
    ensures var r' := CompensateAll(txn, env, changed, i, r);
            PutBack(r', changed[j], saved) || SetAside(txn, r', changed[j], saved)
  {
    EarlierDiffers(changed, i, j);
    var r1 := CompensateStep(txn, env, changed, i, r);
    if j == i - 1 {
      FateIsSettled(txn, env, changed, j, r1, changed[j]);
      FateIsKept(txn, r, r1, CompensateAll(txn, env, changed, j, r1), changed[j], saved);
    } else {
      assert Unaffected(txn, r, r1, changed[j]);
      CompensateFate(txn, env, changed, i - 1, r1, j, saved);
    }
  }

  /** If every replaced path was put back, no error was counted. */
  lemma {:induction false} ErrorHasAPath(
    txn: Txn, env: Environment, capture: Tree, changed: seq<Path>, i: nat, r: Compensation)
    returns (j: nat)
    requires NoDuplicates(changed) && i <= |changed|
    requires forall k | 0 <= k < i ::
               BackupIs(txn, r.w.temps, changed[k], Saved(txn, capture, changed[k]))
                 && RestoredTo(r.w.log, changed[k]) == None
    requires CompensateAll(txn, env, changed, i, r).errors > r.errors
    ensures j < i && RestoredTo(CompensateAll(txn, env, changed, i, r).w.log, changed[j]) == None
  {
    EarlierDiffers(changed, i, i - 1);
    var r1 := CompensateStep(txn, env, changed, i, r);
    if r1.errors > r.errors {
      j := i - 1;
      FateIsSettled(txn, env, changed, j, r1, changed[j]);
    } else {
      forall k | 0 <= k < i - 1
        ensures BackupIs(txn, r1.w.temps, changed[k], Saved(txn, capture, changed[k]))
        ensures RestoredTo(r1.w.log, changed[k]) == None
      {
        EarlierDiffers(changed, i, k);
        assert Unaffected(txn, r, r1, changed[k]);
      }
      j := ErrorHasAPath(txn, env, capture, changed, i - 1, r1);
    }
  }

  // ---------------------------------------------------------------- which paths were replaced

  function WasReplaced(log: seq<Event>, p: Path): bool {
    if log == [] then false
    else
      match log[|log| - 1]
      case Replaced(q, _, _) => p == q || WasReplaced(Front(log), p)
      case _ => WasReplaced(Front(log), p)
  }

  lemma {:induction false} HookReplacesNothing(w: World, env: Environment, point: HookPoint, p: Path)
    ensures WasReplaced(AtHook(w, env, point).log, p) == WasReplaced(w.log, p)
  {
    match env.edits(point)
    case None =>
    case Some(tree) => FrontOfSnoc(w.log, ThirdParty(w.tree, tree));
  }

  lemma {:induction false} PutReplaces(txn: Txn, w: World, q: Path, p: Path)
    ensures WasReplaced(Put(txn, w, q).log, p) <==> p == q || WasReplaced(w.log, p)
  {
    FrontOfSnoc(w.log, Replaced(q, Look(w.tree, q), Final(txn, q)));
  }

  /** One commit step either adds its own path to the replaced ones and counts it, or does neither. */
  lemma {:induction false} CommitOneReplaces(txn: Txn, env: Environment, c: Commitment, q: Path, i: nat, p: Path)
    requires c.applied == i
    ensures var c' := CommitOne(txn, env, c, q, i);
            || (c'.applied == i && !c'.ok && (WasReplaced(c'.w.log, p) <==> WasReplaced(c.w.log, p)))
            || (c'.applied == i + 1 && (WasReplaced(c'.w.log, p) <==> p == q || WasReplaced(c.w.log, p)))
  {
    HookReplacesNothing(c.w, env, BeforeReplace(i), p);
    var w := AtHook(c.w, env, BeforeReplace(i));
    PutReplaces(txn, w, q, p);
    HookReplacesNothing(Put(txn, w, q), env, AfterReplace(i), p);
  }

  lemma {:induction false} CommitStepReplaces(
    txn: Txn, env: Environment, changed: seq<Path>, i: nat, c: Commitment, p: Path) returns (c1: Commitment)
    requires i < |changed| && c.ok && c.applied == i && (WasReplaced(c.w.log, p) <==> p in changed[..i])
    ensures CommitAll(txn, env, changed, i, c) == CommitAll(txn, env, changed, i + 1, c1)
    ensures c1.applied <= i + 1 && (c1.ok ==> c1.applied == i + 1)
    ensures WasReplaced(c1.w.log, p) <==> p in changed[..c1.applied]
  {
    c1 := CommitOne(txn, env, c, changed[i], i);
    CommitOneReplaces(txn, env, c, changed[i], i, p);
    assert changed[..i + 1] == changed[..i] + [changed[i]];
  }

  lemma {:induction false} CommitReplaces(
    txn: Txn, env: Environment, changed: seq<Path>, i: nat, c: Commitment, p: Path)
    requires i <= |changed| && c.applied <= i && (c.ok ==> c.applied == i)
    requires WasReplaced(c.w.log, p) <==> p in changed[..c.applied]
    ensures var c' := CommitAll(txn, env, changed, i, c);
            c'.applied <= |changed| && (WasReplaced(c'.w.log, p) <==> p in changed[..c'.applied])
    decreases |changed| - i
  {
    if i < |changed| && c.ok {
      var c1 := CommitStepReplaces(txn, env, changed, i, c, p);
      CommitReplaces(txn, env, changed, i + 1, c1, p);
    }
  }

  lemma {:induction false} CompensateStepReplacesNothing(
    txn: Txn, env: Environment, changed: seq<Path>, i: nat, r: Compensation, p: Path) returns (r1: Compensation)
    requires 0 < i <= |changed|
    ensures CompensateAll(txn, env, changed, i, r) == CompensateAll(txn, env, changed, i - 1, r1)
    ensures WasReplaced(r1.w.log, p) == WasReplaced(r.w.log, p)
  {
    var q := changed[i - 1];
    r1 := CompensateOne(txn, env, r, q, i - 1);
    CompensateUnfolds(txn, env, changed, i, r, r1);
    HookReplacesNothing(r.w, env, BeforeRollback(i - 1), p);
    var w := AtHook(r.w, env, BeforeRollback(i - 1));
    FrontOfSnoc(w.log, Restored(q, Look(w.tree, q), SavedIn(txn, w.temps, q)));
  }

  lemma {:induction false} CompensateReplacesNothing(
    txn: Txn, env: Environment, changed: seq<Path>, i: nat, r: Compensation, p: Path)
    requires i <= |changed|
    ensures WasReplaced(CompensateAll(txn, env, changed, i, r).w.log, p) == WasReplaced(r.w.log, p)
  {
    if i > 0 {
      var r1 := CompensateStepReplacesNothing(txn, env, changed, i, r, p);
      CompensateReplacesNothing(txn, env, changed, i - 1, r1, p);
    }
  }

  // ---------------------------------------------------------------- every temporary is accounted for

  datatype Books = Books(prepared: set<Path>, backups: set<Path>, preserved: set<Temp>)

  /** A file of another run is untouched; a file of this run will be unlinked or is preserved. */
  ghost predicate AccountedAt(txn: Txn, before: Temps, now: Temps, books: Books, t: Temp) {
    if t.run != txn.id then
      (t in now <==> t in before) && (t in now ==> now[t] == before[t])
    else
      t in now ==> t in books.preserved || (t.role == PreparedRole && t.path in books.prepared)
                   || (t.role == BackupRole && t.path in books.backups)
  }

  ghost predicate Accounted(txn: Txn, before: Temps, now: Temps, books: Books) {
    forall t :: AccountedAt(txn, before, now, books, t)
  }

  lemma {:induction false} PrepareAccounted(
    txn: Txn, env: Environment, before: Temps, changed: seq<Path>, i: nat, r: Preparation)
    requires i <= |changed| && Accounted(txn, before, r.w.temps, Books(r.prepared, r.backups, {}))
    ensures var r' := PrepareAll(txn, env, changed, i, r);
            Accounted(txn, before, r'.w.temps, Books(r'.prepared, r'.backups, {}))
    decreases |changed| - i
  {
    if i < |changed| && r.ok {
      var r1 := PrepareOne(txn, env, r, changed[i], i);
      forall t ensures AccountedAt(txn, before, r1.w.temps, Books(r1.prepared, r1.backups, {}), t) {
        assert AccountedAt(txn, before, r.w.temps, Books(r.prepared, r.backups, {}), t);
      }
      PrepareAccounted(txn, env, before, changed, i + 1, r1);
    }
  }

  ghost predicate BackedUp(txn: Txn, changed: seq<Path>, backups: set<Path>) {
    forall k | 0 <= k < |changed| && changed[k] in txn.baseline :: changed[k] in backups
  }

  lemma {:induction false} CommitAccounted(
    txn: Txn, env: Environment, before: Temps, changed: seq<Path>, i: nat, c: Commitment, books: Books)
    requires i <= |changed| && Accounted(txn, before, c.w.temps, books) && BackedUp(txn, changed, books.backups)
    ensures Accounted(txn, before, CommitAll(txn, env, changed, i, c).w.temps, books)
    decreases |changed| - i
  {
    if i < |changed| && c.ok {
      var c1 := CommitOne(txn, env, c, changed[i], i);
      forall t ensures AccountedAt(txn, before, c1.w.temps, books, t) {
        assert AccountedAt(txn, before, c.w.temps, books, t);
      }
      CommitAccounted(txn, env, before, changed, i + 1, c1, books);
    }
  }

  ghost predicate ReportsMatch(r: Compensation) {
    forall t :: t in r.preserved <==> t in r.artifacts
  }

  /** The temporary files are accounted for, and errors are counted for everything that is reported. */
  ghost predicate InOrder(txn: Txn, before: Temps, books: Books, r: Compensation) {
    Accounted(txn, before, r.w.temps, books.(preserved := r.preserved)) && ReportsMatch(r)
  }

  lemma {:induction false} CompensateOneAccounted(
    txn: Txn, env: Environment, before: Temps, r: Compensation, p: Path, i: nat, books: Books)
    returns (r': Compensation)
    requires InOrder(txn, before, books, r)
    ensures r' == CompensateOne(txn, env, r, p, i) && InOrder(txn, before, books, r')
    ensures (r'.errors == r.errors ==> r'.artifacts == r.artifacts) && r'.errors >= r.errors
  {
    r' := CompensateOne(txn, env, r, p, i);
    forall t ensures AccountedAt(txn, before, r'.w.temps, books.(preserved := r'.preserved), t) {
      assert AccountedAt(txn, before, r.w.temps, books.(preserved := r.preserved), t);
    }
  }

  lemma {:induction false} CompensateAccounted(
    txn: Txn, env: Environment, before: Temps, changed: seq<Path>, i: nat, r: Compensation, books: Books)
    requires i <= |changed| && InOrder(txn, before, books, r)
    ensures var r' := CompensateAll(txn, env, changed, i, r);
            && InOrder(txn, before, books, r')
            && (r'.errors == r.errors ==> r'.artifacts == r.artifacts) && r'.errors >= r.errors
  {
    if i > 0 {
      var r1 := CompensateOneAccounted(txn, env, before, r, changed[i - 1], i - 1, books);
      CompensateUnfolds(txn, env, changed, i, r, r1);
      CompensateAccounted(txn, env, before, changed, i - 1, r1, books);
    }
  }

  // ---------------------------------------------------------------- the transaction up to the end of its commit

  ghost predicate CommitFacts(txn: Txn, env: Environment, tree: Tree, temps: Temps, prep: Preparation, c: Commitment) {
    var changed := Changed(txn);
    && c.applied <= |changed|
    && Accounted(txn, temps, c.w.temps, Books(prep.prepared, prep.backups, {}))
    && (forall p :: WasReplaced(c.w.log, p) <==> p in changed[..c.applied])
    && (forall p :: RestoredTo(c.w.log, p) == None)
    && (forall k | 0 <= k < c.applied ::
          BackupIs(txn, c.w.temps, changed[k], Saved(txn, CaptureTree(env, tree), changed[k])))
  }

  lemma {:induction false} StartCommitment(txn: Txn, env: Environment, tree: Tree, temps: Temps)
    requires ValidTxn(txn) && FreshRun(txn, temps)
    requires Prepared(txn, env, World(tree, temps, [])).ok
    ensures var prep := Prepared(txn, env, World(tree, temps, []));
            && BackedUp(txn, Changed(txn), prep.backups)
            && forall k | 0 <= k < |Changed(txn)| ::
                 BackupIs(txn, prep.w.temps, Changed(txn)[k], Captured(txn, CaptureTree(env, tree), Changed(txn)[k]))
  {
    var w := World(tree, temps, []);
    var changed := Changed(txn);
    ChangedMembers(txn, txn.order);
    var start := Preparation(AtHook(w, env, AfterPreflight), {}, {}, true);
    forall k | 0 <= k < |changed|
      ensures BackupIs(txn, Prepared(txn, env, w).w.temps, changed[k],
                       Captured(txn, CaptureTree(env, tree), changed[k]))
      ensures changed[k] in txn.baseline ==> changed[k] in Prepared(txn, env, w).backups
    {
      PrepareBacksUp(txn, env, changed, 0, start, k);
    }
  }

  lemma {:induction false} PreparedFacts(txn: Txn, env: Environment, tree: Tree, temps: Temps)
    requires ValidTxn(txn) && FreshRun(txn, temps)
    ensures var prep := Prepared(txn, env, World(tree, temps, []));
            && Accounted(txn, temps, prep.w.temps, Books(prep.prepared, prep.backups, {}))
            && forall p :: !WasReplaced(prep.w.log, p) && RestoredTo(prep.w.log, p) == None
  {
    var w := World(tree, temps, []);
    var start := Preparation(AtHook(w, env, AfterPreflight), {}, {}, true);
    forall p ensures !WasReplaced(start.w.log, p) && RestoredTo(start.w.log, p) == None {
      HookReplacesNothing(w, env, AfterPreflight, p);
      HookRestoresNothing(w, env, AfterPreflight, p);
    }
    PrepareTouchesNoTarget(txn, env, Changed(txn), 0, start);
    PrepareAccounted(txn, env, temps, Changed(txn), 0, start);
  }

  lemma {:induction false} CommittedFacts(txn: Txn, env: Environment, tree: Tree, temps: Temps)
    requires ValidTxn(txn) && FreshRun(txn, temps)
    ensures var prep := Prepared(txn, env, World(tree, temps, []));
            CommitFacts(txn, env, tree, temps, prep, Committed(txn, env, prep))
  {
    var changed := Changed(txn);
    var capture := CaptureTree(env, tree);
    var prep := Prepared(txn, env, World(tree, temps, []));
    PreparedFacts(txn, env, tree, temps);
    if prep.ok {
      ChangedMembers(txn, txn.order);
      StartCommitment(txn, env, tree, temps);
      var start := Commitment(AtHook(prep.w, env, BeforeCommit), 0, !env.raises(BeforeCommit), None);
      AppliedWithin(txn, env, changed, 0, start);
      CommitAccounted(txn, env, temps, changed, 0, start, Books(prep.prepared, prep.backups, {}));
      forall p
        ensures WasReplaced(CommitAll(txn, env, changed, 0, start).w.log, p)
                <==> p in changed[..CommitAll(txn, env, changed, 0, start).applied]
        ensures RestoredTo(CommitAll(txn, env, changed, 0, start).w.log, p) == None
      {
        HookReplacesNothing(prep.w, env, BeforeCommit, p);
        HookRestoresNothing(prep.w, env, BeforeCommit, p);
        CommitReplaces(txn, env, changed, 0, start, p);
        CommitRestoresNothing(txn, env, changed, 0, start, p);
      }
      forall k | 0 <= k < CommitAll(txn, env, changed, 0, start).applied
        ensures BackupIs(txn, CommitAll(txn, env, changed, 0, start).w.temps, changed[k],
                         Saved(txn, capture, changed[k]))
      {
        HookRestoresNothing(prep.w, env, BeforeCommit, changed[k]);
        CommitBacksUp(txn, env, capture, changed, 0, start, k);
      }
    }
  }

  // ---------------------------------------------------------------- main results

  ghost predicate RestoredAs(txn: Txn, env: Environment, tree: Tree, log: seq<Event>, p: Path) {
    RestoredTo(log, p) == Some(Saved(txn, CaptureTree(env, tree), p))
  }

  lemma {:induction false} AbortFacts(txn: Txn, env: Environment, tree: Tree, temps: Temps)
    requires ValidTxn(txn) && FreshRun(txn, temps)
    requires AtomicApply(txn, env, tree, temps).outcome.RolledBack?
    ensures var prep := Prepared(txn, env, World(tree, temps, []));
            var c := Committed(txn, env, prep);
            && PreflightOk(txn, tree) && !env.raises(AfterPreflight) && !c.ok && c.applied <= |Changed(txn)|
            && AtomicApply(txn, env, tree, temps) == Abort(txn, env, prep, c)
  {
    CommittedFacts(txn, env, tree, temps);
  }

  /** The compensation run of an aborted transaction. */
  ghost function CompensationOf(txn: Txn, env: Environment, c: Commitment): Compensation
    requires c.applied <= |Changed(txn)|
  {
    CompensateAll(txn, env, Changed(txn), c.applied, StartOfRollback(c))
  }

  /**
   Nothing is lost: every replaced path is either put back, by an event of the log, to what was saved
   for it, or the rollback is partial and the saved bytes are in a surviving file that is reported.
   */
  lemma {:induction false} NothingIsLost(txn: Txn, env: Environment, tree: Tree, temps: Temps, p: Path)
    requires ValidTxn(txn) && FreshRun(txn, temps)
    requires AtomicApply(txn, env, tree, temps).outcome.RolledBack?
    requires WasReplaced(AtomicApply(txn, env, tree, temps).w.log, p)
    ensures var r := AtomicApply(txn, env, tree, temps);
            var saved := Saved(txn, CaptureTree(env, tree), p);
            RestoredAs(txn, env, tree, r.w.log, p) ||
            (r.outcome.status == Partial && RestoredTo(r.w.log, p) == None &&
             (saved.File? ==> exists t :: t in r.outcome.artifacts && t in r.w.temps && r.w.temps[t] == saved.content))
  {
    AbortFacts(txn, env, tree, temps);
    CommittedFacts(txn, env, tree, temps);
    ChangedMembers(txn, txn.order);
    var c := Committed(txn, env, Prepared(txn, env, World(tree, temps, [])));
    var start := StartOfRollback(c);
    CompensateReplacesNothing(txn, env, Changed(txn), c.applied, start, p);
    var j :| 0 <= j < c.applied && Changed(txn)[..c.applied][j] == p;
    var saved := Saved(txn, CaptureTree(env, tree), p);
    CompensateFate(txn, env, Changed(txn), c.applied, start, j, saved);
    var done := CompensationOf(txn, env, c);
    if SetAside(txn, done, p, saved) && saved.File? {
      if Reported(done, BackupOf(txn, p), saved.content) {
        assert BackupOf(txn, p) in AtomicApply(txn, env, tree, temps).w.temps;
      } else {
        assert RecoveryOf(txn, p) in AtomicApply(txn, env, tree, temps).w.temps;
      }
    }
  }

  /**
   Whatever third parties do, a successful transaction has replaced every changed path and no other one;
   what each replacement wrote is the final state of its path.
   */
  lemma {:induction false} AppliedReplacesEveryChange(txn: Txn, env: Environment, tree: Tree, temps: Temps, p: Path)
    requires ValidTxn(txn) && FreshRun(txn, temps)
    requires AtomicApply(txn, env, tree, temps).outcome.Applied?
    ensures WasReplaced(AtomicApply(txn, env, tree, temps).w.log, p) <==> Expected(txn, p) != Final(txn, p)
  {
    CommittedFacts(txn, env, tree, temps);
    ChangedMembers(txn, txn.order);
    var changed := Changed(txn);
    var prep := Prepared(txn, env, World(tree, temps, []));
    AppliedWithin(txn, env, changed, 0,
                  Commitment(AtHook(prep.w, env, BeforeCommit), 0, !env.raises(BeforeCommit), None));
    assert changed[..|changed|] == changed;
    assert Committed(txn, env, prep).applied == |changed|;
  }

  /** The log of an aborted transaction shows exactly the first `applied` changed paths as replaced. */
  lemma {:induction false} ReplacedPaths(txn: Txn, env: Environment, tree: Tree, temps: Temps, p: Path)
    requires ValidTxn(txn) && FreshRun(txn, temps)
    requires AtomicApply(txn, env, tree, temps).outcome.RolledBack?
    ensures var c := Committed(txn, env, Prepared(txn, env, World(tree, temps, [])));
            c.applied <= |Changed(txn)| &&
            (WasReplaced(AtomicApply(txn, env, tree, temps).w.log, p) <==> p in Changed(txn)[..c.applied])
  {
    AbortFacts(txn, env, tree, temps);
    CommittedFacts(txn, env, tree, temps);
    var c := Committed(txn, env, Prepared(txn, env, World(tree, temps, [])));
    var start := StartOfRollback(c);
    CompensateReplacesNothing(txn, env, Changed(txn), c.applied, start, p);
  }

  /** A partial rollback has a replaced path that was not put back. */
  lemma {:induction false} PartialHasAPath(txn: Txn, env: Environment, tree: Tree, temps: Temps) returns (p: Path)
    requires ValidTxn(txn) && FreshRun(txn, temps)
    requires AtomicApply(txn, env, tree, temps).outcome.RolledBack?
    requires AtomicApply(txn, env, tree, temps).outcome.status == Partial
    ensures var r := AtomicApply(txn, env, tree, temps);
            WasReplaced(r.w.log, p) && RestoredTo(r.w.log, p) == None
  {
    AbortFacts(txn, env, tree, temps);
    CommittedFacts(txn, env, tree, temps);
    ChangedMembers(txn, txn.order);
    var changed := Changed(txn);
    var c := Committed(txn, env, Prepared(txn, env, World(tree, temps, [])));
    var start := StartOfRollback(c);
    var j := ErrorHasAPath(txn, env, CaptureTree(env, tree), changed, c.applied, start);
    p := changed[j];
    assert changed[..c.applied][j] == p;
    ReplacedPaths(txn, env, tree, temps, p);
  }

  /** The status is exact, in terms of what the log shows was replaced and put back. */
  lemma {:induction false} StatusIsExact(txn: Txn, env: Environment, tree: Tree, temps: Temps)
    requires ValidTxn(txn) && FreshRun(txn, temps)
    requires AtomicApply(txn, env, tree, temps).outcome.RolledBack?
    ensures var r := AtomicApply(txn, env, tree, temps);
            && (r.outcome.status == NotRequired <==> forall p :: !WasReplaced(r.w.log, p))
            && (r.outcome.status == Complete <==>
                  && (exists p :: WasReplaced(r.w.log, p))
                  && (forall p | WasReplaced(r.w.log, p) :: RestoredAs(txn, env, tree, r.w.log, p)))
  {
    var r := AtomicApply(txn, env, tree, temps);
    AbortFacts(txn, env, tree, temps);
    var c := Committed(txn, env, Prepared(txn, env, World(tree, temps, [])));
    if c.applied > 0 {
      ReplacedPaths(txn, env, tree, temps, Changed(txn)[0]);
      assert Changed(txn)[0] in Changed(txn)[..c.applied];
      assert WasReplaced(r.w.log, Changed(txn)[0]);
    } else {
      assert r.outcome.status != Complete;
      forall p ensures !WasReplaced(r.w.log, p) {
        ReplacedPaths(txn, env, tree, temps, p);
      }
    }
    if r.outcome.status == Partial {
      var p := PartialHasAPath(txn, env, tree, temps);
      assert WasReplaced(r.w.log, p) && !RestoredAs(txn, env, tree, r.w.log, p);
    } else {
      forall p | WasReplaced(r.w.log, p) ensures RestoredAs(txn, env, tree, r.w.log, p) {
        NothingIsLost(txn, env, tree, temps, p);
      }
    }
  }

  /** Temporary files that are accounted for leave nothing behind when all but the preserved ones are unlinked. */
  lemma {:induction false} UnlinkedAt(txn: Txn, before: Temps, now: Temps, books: Books, t: Temp)
    requires AccountedAt(txn, before, now, books, t)
    ensures var left := Unlink(txn, now, books.prepared, books.backups, books.preserved);
            && (t in left ==> t in before || t in books.preserved)
            && (t.run != txn.id && t in before ==> t in left && left[t] == before[t])
  {
  }

  lemma {:induction false} UnlinkedUnlessPreserved(txn: Txn, before: Temps, now: Temps, books: Books)
    requires FreshRun(txn, before) && Accounted(txn, before, now, books)
    ensures var left := Unlink(txn, now, books.prepared, books.backups, books.preserved);
            && (forall t | t in left && t !in before :: t in books.preserved)
            && (forall t | t in before :: t in left && left[t] == before[t])
            && (books.preserved == {} ==> left == before)
  {
    var left := Unlink(txn, now, books.prepared, books.backups, books.preserved);
    forall t
      ensures t in left ==> t in before || t in books.preserved
      ensures t in before ==> t in left && left[t] == before[t]
    {
      UnlinkedAt(txn, before, now, books, t);
    }
  }

  lemma {:induction false} AbortAccounted(txn: Txn, env: Environment, tree: Tree, temps: Temps)
    returns (done: Compensation)
    requires ValidTxn(txn) && FreshRun(txn, temps)
    requires AtomicApply(txn, env, tree, temps).outcome.RolledBack?
    ensures var r := AtomicApply(txn, env, tree, temps);
            var prep := Prepared(txn, env, World(tree, temps, []));
            && r.w.temps == Unlink(txn, done.w.temps, prep.prepared, prep.backups, done.preserved)
            && Accounted(txn, temps, done.w.temps, Books(prep.prepared, prep.backups, done.preserved))
            && r.outcome.artifacts == done.artifacts && ReportsMatch(done)
            && (r.outcome.status != Partial ==> done.artifacts == [])
  {
    var prep := Prepared(txn, env, World(tree, temps, []));
    var c := Committed(txn, env, prep);
    CommittedFacts(txn, env, tree, temps);
    AbortFacts(txn, env, tree, temps);
    done := CompensationOf(txn, env, c);
    CompensateAccounted(txn, env, temps, Changed(txn), c.applied, StartOfRollback(c),
                        Books(prep.prepared, prep.backups, {}));
  }

  /** No temporary file of the run survives unreported, and no file of another run is touched. */
  lemma {:induction false} NothingIsLeftBehind(txn: Txn, env: Environment, tree: Tree, temps: Temps)
    requires ValidTxn(txn) && FreshRun(txn, temps)
    ensures var r := AtomicApply(txn, env, tree, temps);
            && (forall t | t in r.w.temps && t !in temps :: r.outcome.RolledBack? && t in r.outcome.artifacts)
            && (forall t | t in temps :: t in r.w.temps && r.w.temps[t] == temps[t])
            && (!r.outcome.RolledBack? || r.outcome.status != Partial ==> r.w.temps == temps)
  {
    var r := AtomicApply(txn, env, tree, temps);
    var prep := Prepared(txn, env, World(tree, temps, []));
    if r.outcome.Applied? {
      CommittedFacts(txn, env, tree, temps);
      UnlinkedUnlessPreserved(txn, temps, Committed(txn, env, prep).w.temps, Books(prep.prepared, prep.backups, {}));
    } else if r.outcome.RolledBack? {
      var done := AbortAccounted(txn, env, tree, temps);
      UnlinkedUnlessPreserved(txn, temps, done.w.temps, Books(prep.prepared, prep.backups, done.preserved));
      if r.outcome.status != Partial {
        assert done.preserved == {};
      }
    }
  }

  /**
   A path that was put back holds the baseline exactly when its backup did: always for a deleted or
   created file, and for a modified file when the target still held the baseline at capture.
   */
  lemma {:induction false} RestoredToBaselineIff(txn: Txn, env: Environment, tree: Tree, temps: Temps, p: Path)
    requires ValidTxn(txn) && FreshRun(txn, temps)
    requires AtomicApply(txn, env, tree, temps).outcome.RolledBack?
    requires WasReplaced(AtomicApply(txn, env, tree, temps).w.log, p)
    requires RestoredTo(AtomicApply(txn, env, tree, temps).w.log, p).Some?
    ensures RestoredTo(AtomicApply(txn, env, tree, temps).w.log, p).value == Expected(txn, p)
            <==> (p in txn.baseline && p in txn.working ==> Look(CaptureTree(env, tree), p) == Expected(txn, p))
  {
    NothingIsLost(txn, env, tree, temps, p);
  }

  // ---------------------------------------------------------------- reported conflicts

  ghost predicate RollbackRaisesNothing(env: Environment) {
    forall i :: !env.raises(BeforeRollback(i)) && !env.faults(InspectAgain(i))
                && !env.faults(KeepBackup(i)) && !env.faults(Compensate(i))
  }

  lemma {:induction false} ConflictOnlyIfForeign(txn: Txn, env: Environment, r: Compensation, p: Path, i: nat)
    requires RollbackRaisesNothing(env) && RestoredTo(r.w.log, p) == None
    ensures var r' := CompensateOne(txn, env, r, p, i);
            p in r'.conflicts <==> p in r.conflicts || RestoredTo(r'.w.log, p) == None
  {
    HookRestoresNothing(r.w, env, BeforeRollback(i), p);
    var w := AtHook(r.w, env, BeforeRollback(i));
    var written := SavedIn(txn, w.temps, p);
    FrontOfSnoc(w.log, Restored(p, Look(w.tree, p), written));
  }

  lemma {:induction false} ConflictElsewhere(txn: Txn, env: Environment, r: Compensation, p: Path, i: nat, q: Path)
    requires p != q
    ensures q in CompensateOne(txn, env, r, p, i).conflicts <==> q in r.conflicts
  {
  }

  lemma {:induction false} ConflictOnce(
    txn: Txn, env: Environment, r: Compensation, p: Path, i: nat, q: Path) returns (r1: Compensation)
    requires RollbackRaisesNothing(env) && (q == p ==> RestoredTo(r.w.log, q) == None)
    ensures r1 == CompensateOne(txn, env, r, p, i)
    ensures q != p ==> RestoredTo(r1.w.log, q) == RestoredTo(r.w.log, q)
    ensures q in r1.conflicts <==> q in r.conflicts || (q == p && RestoredTo(r1.w.log, q) == None)
  {
    if q == p {
      ConflictOnlyIfForeign(txn, env, r, p, i);
    } else {
      CompensateOneElsewhere(txn, env, r, p, i, q);
      ConflictElsewhere(txn, env, r, p, i, q);
    }
    r1 := CompensateOne(txn, env, r, p, i);
  }

  lemma {:induction false} ConflictStep(
    txn: Txn, env: Environment, changed: seq<Path>, i: nat, r: Compensation, q: Path)
    returns (r1: Compensation)
    requires RollbackRaisesNothing(env) && 0 < i <= |changed|
    requires q == changed[i - 1] ==> RestoredTo(r.w.log, q) == None
    ensures CompensateAll(txn, env, changed, i, r) == CompensateAll(txn, env, changed, i - 1, r1)
    ensures q != changed[i - 1] ==> RestoredTo(r1.w.log, q) == RestoredTo(r.w.log, q)
    ensures q in r1.conflicts <==> q in r.conflicts || (q == changed[i - 1] && RestoredTo(r1.w.log, q) == None)
  {
    r1 := ConflictOnce(txn, env, r, changed[i - 1], i - 1, q);
    CompensateUnfolds(txn, env, changed, i, r, r1);
  }

  lemma {:induction false} ConflictsGrowExactly(
    txn: Txn, env: Environment, changed: seq<Path>, i: nat, r: Compensation, q: Path)
    requires RollbackRaisesNothing(env) && NoDuplicates(changed) && i <= |changed|
    requires q in changed[..i] ==> RestoredTo(r.w.log, q) == None
    ensures var r' := CompensateAll(txn, env, changed, i, r);
            q in r'.conflicts <==> q in r.conflicts || (q in changed[..i] && RestoredTo(r'.w.log, q) == None)
  {
    if i > 0 {
      assert changed[..i] == changed[..i - 1] + [changed[i - 1]];
      var r1 := ConflictStep(txn, env, changed, i, r, q);
      if q == changed[i - 1] {
        EarlierDiffers(changed, i, i - 1);
        FateIsSettled(txn, env, changed, i - 1, r1, q);
      }
      ConflictsGrowExactly(txn, env, changed, i - 1, r1, q);
    }
  }

  /** What the re-check of one file reports when it stops the commit. */
  function CheckReports(txn: Txn, env: Environment, tree: Tree, p: Path, i: nat): Option<Path> {
    if env.raises(BeforeReplace(i)) || env.faults(Inspect(i)) then None
    else if env.faults(ReadTarget(i)) then Some(BareName(p))
    else if Look(tree, p) != Expected(txn, p) then Some(p)
    else None
  }

  /** Nothing stopped the commit phase before it turned to the file. */
  predicate TurnedTo(env: Environment, prepared: bool, i: nat) {
    if i == 0 then prepared && !env.raises(BeforeCommit) else !env.raises(AfterReplace(i - 1))
  }

  /** The conflict with which a commit phase that got through `i` files can end. */
  ghost predicate ConflictRight(txn: Txn, env: Environment, changed: seq<Path>, prepared: bool, c: Commitment) {
    c.conflict == if !c.ok && c.applied < |changed| && TurnedTo(env, prepared, c.applied) then
                    CheckReports(txn, env, c.w.tree, changed[c.applied], c.applied)
                  else None
  }

  lemma {:induction false} CommitOneReports(
    txn: Txn, env: Environment, changed: seq<Path>, prepared: bool, i: nat, next: nat, c: Commitment)
    returns (c': Commitment)
    requires i < |changed| && next == i + 1 && c.ok && c.applied == i && TurnedTo(env, prepared, i)
    ensures c' == CommitOne(txn, env, c, changed[i], i) && ConflictRight(txn, env, changed, prepared, c')
    ensures c'.ok ==> c'.applied == next && TurnedTo(env, prepared, next)
    ensures c'.applied <= next
  {
    c' := CommitOne(txn, env, c, changed[i], i);
  }

  lemma {:induction false} CommitReports(
    txn: Txn, env: Environment, changed: seq<Path>, prepared: bool, i: nat, c: Commitment)
    requires i <= |changed| && ConflictRight(txn, env, changed, prepared, c)
    requires c.ok ==> c.applied == i && TurnedTo(env, prepared, i)
    ensures ConflictRight(txn, env, changed, prepared, CommitAll(txn, env, changed, i, c))
    decreases |changed| - i
  {
    if i < |changed| && c.ok {
      var next := i + 1;
      var c' := CommitOneReports(txn, env, changed, prepared, i, next, c);
      CommitReports(txn, env, changed, prepared, next, c');
    }
  }

  /**
   The conflict of a commit phase: the path at which a re-check found something else than the baseline,
   the bare name of a file that could not be read there, and nothing in all other cases.
   */
  lemma {:induction false} CommitConflictIsExact(txn: Txn, env: Environment, tree: Tree, temps: Temps)
    ensures var prep := Prepared(txn, env, World(tree, temps, []));
            ConflictRight(txn, env, Changed(txn), prep.ok, Committed(txn, env, prep))
  {
    var prep := Prepared(txn, env, World(tree, temps, []));
    if prep.ok {
      var start := Commitment(AtHook(prep.w, env, BeforeCommit), 0, !env.raises(BeforeCommit), None);
      CommitReports(txn, env, Changed(txn), prep.ok, 0, start);
    }
  }

  /**
   When compensation itself raises nothing, the reported conflicts are exactly what the re-check that
   stopped the commit reported and the replaced paths that could not be put back.
   */
  lemma {:induction false} ConflictsAreExact(txn: Txn, env: Environment, tree: Tree, temps: Temps, p: Path)
    requires ValidTxn(txn) && FreshRun(txn, temps) && RollbackRaisesNothing(env)
    requires AtomicApply(txn, env, tree, temps).outcome.RolledBack?
    ensures var r := AtomicApply(txn, env, tree, temps);
            p in r.outcome.conflicts <==>
            Committed(txn, env, Prepared(txn, env, World(tree, temps, []))).conflict == Some(p)
            || (WasReplaced(r.w.log, p) && RestoredTo(r.w.log, p) == None)
  {
    AbortFacts(txn, env, tree, temps);
    CommittedFacts(txn, env, tree, temps);
    ChangedMembers(txn, txn.order);
    ReplacedPaths(txn, env, tree, temps, p);
    var c := Committed(txn, env, Prepared(txn, env, World(tree, temps, [])));
    ConflictsGrowExactly(txn, env, Changed(txn), c.applied, StartOfRollback(c), p);
  }
}
