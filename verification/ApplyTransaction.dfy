/**
 The multi-file apply transaction (backend/agent/workspace.py, _atomic_apply_workspace_locked):
 preflight, prepare, per-file commit with a re-check, compensation in reverse order, final unlink.

 Third parties change the tree exactly at the hook points, and any operation may fail; both arrive as
 an `Environment`. A check and the replacement that follows it are one step.
 */
module ApplyTransaction {
  import opened Common
  import Graphs

  datatype Content = Content(bytes: seq<bv8>)

  /** What can be found at a path; equal digests stand for equal contents. */
  datatype Target = Missing | File(content: Content) | Directory | Special

  type Tree = map<Path, Target>
  type Snapshot = map<Path, Content>

  function Look(tree: Tree, p: Path): Target {
    if p in tree then tree[p] else Missing
  }

  function InSnapshot(s: Snapshot, p: Path): Target {
    if p in s then File(s[p]) else Missing
  }

  /** The managed files of a tree. */
  function TreeFiles(tree: Tree): Snapshot {
    map p | p in tree && tree[p].File? :: tree[p].content
  }

  // ---------------------------------------------------------------- one transaction

  /** `order` enumerates the paths of both snapshots; the source sorts them. */
  datatype Txn = Txn(id: nat, baseline: Snapshot, working: Snapshot, order: seq<Path>)

  ghost predicate ValidTxn(txn: Txn) {
    && Graphs.NoDuplicates(txn.order)
    && forall p :: p in txn.order <==> p in txn.baseline || p in txn.working
  }

  function Expected(txn: Txn, p: Path): Target { InSnapshot(txn.baseline, p) }

  function Final(txn: Txn, p: Path): Target { InSnapshot(txn.working, p) }

  function ChangedIn(txn: Txn, order: seq<Path>): seq<Path> {
    if order == [] then []
    else
      var p := order[|order| - 1];
      ChangedIn(txn, order[..|order| - 1]) + if Expected(txn, p) != Final(txn, p) then [p] else []
  }

  function Changed(txn: Txn): seq<Path> { ChangedIn(txn, txn.order) }

  // ---------------------------------------------------------------- temporaries and the environment

  datatype Role = PreparedRole | BackupRole | RecoveryRole

  /** Temporary files are named after the transaction, their role and the target. */
  datatype Temp = Temp(run: nat, role: Role, path: Path)

  type Temps = map<Temp, Content>

  datatype HookPoint =
    | AfterPreflight | BeforeCommit | BeforeReplace(i: nat) | AfterReplace(i: nat) | BeforeRollback(i: nat)

  datatype Operation =
    | MakeParent(i: nat) | WritePrepared(i: nat) | WriteBackup(i: nat)
    | Inspect(i: nat) | ReadTarget(i: nat) | Replace(i: nat)
    | InspectAgain(i: nat) | KeepBackup(i: nat) | Compensate(i: nat)

  /** What third parties do at each hook point, and which hooks and operations raise. */
  datatype Environment = Environment(
    edits: HookPoint -> Option<Tree>, raises: HookPoint -> bool, faults: Operation -> bool)

  /** What happened to the tree, oldest first. */
  datatype Event =
    | ThirdParty(before: Tree, after: Tree)
    | Replaced(path: Path, seen: Target, written: Target)
    | Restored(path: Path, seen: Target, written: Target)

  datatype World = World(tree: Tree, temps: Temps, log: seq<Event>)

  function AtHook(w: World, env: Environment, point: HookPoint): World {
    match env.edits(point)
    case None => w
    case Some(tree) => World(tree, w.temps, w.log + [ThirdParty(w.tree, tree)])
  }

  // ---------------------------------------------------------------- preflight

  predicate PreflightOk(txn: Txn, tree: Tree) {
    TreeFiles(tree) == txn.baseline && forall p | p in Changed(txn) :: Look(tree, p) == Expected(txn, p)
  }

  // ---------------------------------------------------------------- prepare

  datatype Preparation = Preparation(w: World, prepared: set<Path>, backups: set<Path>, ok: bool)

  function PrepareOne(txn: Txn, env: Environment, r: Preparation, p: Path, i: nat): Preparation {
    var r1 := if p in txn.working && !env.faults(WritePrepared(i))
              then r.(w := r.w.(temps := r.w.temps[Temp(txn.id, PreparedRole, p) := txn.working[p]]),
                      prepared := r.prepared + {p})
              else r;
    if env.faults(MakeParent(i)) then r.(ok := false)
    else if p in txn.working && env.faults(WritePrepared(i)) then r.(ok := false)
    else if p !in txn.baseline then r1
    else if env.faults(WriteBackup(i)) || !Look(r.w.tree, p).File? then r1.(ok := false)
    else r1.(w := r1.w.(temps := r1.w.temps[Temp(txn.id, BackupRole, p) := Look(r.w.tree, p).content]),
             backups := r1.backups + {p})
  }

  function PrepareAll(txn: Txn, env: Environment, changed: seq<Path>, i: nat, r: Preparation): Preparation
    requires i <= |changed|
    decreases |changed| - i
  {
    if i == |changed| || !r.ok then r
    else PrepareAll(txn, env, changed, i + 1, PrepareOne(txn, env, r, changed[i], i))
  }

  // ---------------------------------------------------------------- commit

  datatype Commitment = Commitment(w: World, applied: nat, ok: bool, conflict: Option<Path>)

  function Put(txn: Txn, w: World, p: Path): World {
    if p in txn.working then
      World(w.tree[p := Final(txn, p)], w.temps - {Temp(txn.id, PreparedRole, p)},
            w.log + [Replaced(p, Look(w.tree, p), Final(txn, p))])
    else
      // the deleted file itself becomes the backup
      World(w.tree[p := Missing],
            if Look(w.tree, p).File? then w.temps[Temp(txn.id, BackupRole, p) := Look(w.tree, p).content] else w.temps,
            w.log + [Replaced(p, Look(w.tree, p), Missing)])
  }

  function LastComponent(name: string): string {
    if name == [] || name[|name| - 1] == '/' then [] else LastComponent(name[..|name| - 1]) + [name[|name| - 1]]
  }

  function BareName(p: Path): Path { Path(LastComponent(p.name)) }

  /** A file that cannot be read is reported too, though under its bare name. */
  function CommitOne(txn: Txn, env: Environment, c: Commitment, p: Path, i: nat): Commitment {
    var w := AtHook(c.w, env, BeforeReplace(i));
    if env.raises(BeforeReplace(i)) || env.faults(Inspect(i)) then Commitment(w, i, false, None)
    else if env.faults(ReadTarget(i)) then Commitment(w, i, false, Some(BareName(p)))
    else if Look(w.tree, p) != Expected(txn, p) then Commitment(w, i, false, Some(p))
    else if env.faults(Replace(i)) then Commitment(w, i, false, None)
    else Commitment(AtHook(Put(txn, w, p), env, AfterReplace(i)), i + 1, !env.raises(AfterReplace(i)), None)
  }

  function CommitAll(txn: Txn, env: Environment, changed: seq<Path>, i: nat, c: Commitment): Commitment
    requires i <= |changed|
    decreases |changed| - i
  {
    if i == |changed| || !c.ok then c
    else CommitAll(txn, env, changed, i + 1, CommitOne(txn, env, c, changed[i], i))
  }

  // ---------------------------------------------------------------- compensation

  datatype Compensation = Compensation(
    w: World, errors: nat, conflicts: seq<Path>, preserved: set<Temp>, artifacts: seq<Temp>)

  function KeepInPlace(txn: Txn, r: Compensation, p: Path): Compensation {
    var backup := Temp(txn.id, BackupRole, p);
    if backup in r.w.temps then
      r.(errors := r.errors + 1, preserved := r.preserved + {backup}, artifacts := r.artifacts + [backup])
    else r.(errors := r.errors + 1)
  }

  function KeepForRecovery(txn: Txn, env: Environment, r: Compensation, p: Path, i: nat): Compensation {
    var backup := Temp(txn.id, BackupRole, p);
    var recovery := Temp(txn.id, RecoveryRole, p);
    var r1 := r.(errors := r.errors + 1, conflicts := if p in r.conflicts then r.conflicts else r.conflicts + [p]);
    if backup !in r.w.temps then r1
    else if env.faults(KeepBackup(i)) then KeepInPlace(txn, r1, p)
    else r1.(w := r.w.(temps := (r.w.temps - {backup})[recovery := r.w.temps[backup]]),
             preserved := r.preserved + {recovery}, artifacts := r.artifacts + [recovery])
  }

  /** Puts the backup back, or removes the file the transaction created. */
  function Undo(txn: Txn, w: World, p: Path): World {
    var backup := Temp(txn.id, BackupRole, p);
    var saved := if backup in w.temps then File(w.temps[backup]) else Missing;
    World(w.tree[p := saved], w.temps - {backup}, w.log + [Restored(p, Look(w.tree, p), saved)])
  }

  function CompensateOne(txn: Txn, env: Environment, r: Compensation, p: Path, i: nat): Compensation {
    var r0 := r.(w := AtHook(r.w, env, BeforeRollback(i)));
    if env.raises(BeforeRollback(i)) || env.faults(InspectAgain(i)) then KeepInPlace(txn, r0, p)
    else if Look(r0.w.tree, p) != Final(txn, p) then KeepForRecovery(txn, env, r0, p, i)
    else if env.faults(Compensate(i)) then KeepInPlace(txn, r0, p)
    else r0.(w := Undo(txn, r0.w, p))
  }

  /** Undoes the first `i` replacements, the latest first. */
  function CompensateAll(txn: Txn, env: Environment, changed: seq<Path>, i: nat, r: Compensation): Compensation
    requires i <= |changed|
  {
    if i == 0 then r
    else CompensateAll(txn, env, changed, i - 1, CompensateOne(txn, env, r, changed[i - 1], i - 1))
  }

  lemma {:induction false} CompensateUnfolds(
    txn: Txn, env: Environment, changed: seq<Path>, i: nat, r: Compensation, r1: Compensation)
    requires 0 < i <= |changed| && r1 == CompensateOne(txn, env, r, changed[i - 1], i - 1)
    ensures CompensateAll(txn, env, changed, i, r) == CompensateAll(txn, env, changed, i - 1, r1)
  {
  }

  // ---------------------------------------------------------------- the whole transaction

  datatype RollbackStatus = NotRequired | Complete | Partial

  datatype Outcome =
    | Applied
    | Conflict                     // the preflight found another tree than the baseline
    | Interrupted                  // the hook after the preflight raised
    | RolledBack(status: RollbackStatus, conflicts: seq<Path>, artifacts: seq<Temp>)

  datatype Result = Result(w: World, outcome: Outcome)

  /** The final unlink of prepared and backup files that are not preserved. */
  function Unlink(txn: Txn, temps: Temps, prepared: set<Path>, backups: set<Path>, preserved: set<Temp>): Temps {
    map t | t in temps && !(t.run == txn.id && t !in preserved
                            && ((t.role == PreparedRole && t.path in prepared)
                                || (t.role == BackupRole && t.path in backups)))
      :: temps[t]
  }

  function StatusOf(errors: nat, applied: nat): RollbackStatus {
    if errors > 0 then Partial else if applied > 0 then Complete else NotRequired
  }

  function StartOfRollback(c: Commitment): Compensation {
    Compensation(c.w, 0, if c.conflict.Some? then [c.conflict.value] else [], {}, [])
  }

  function Abort(txn: Txn, env: Environment, prep: Preparation, c: Commitment): Result
    requires c.applied <= |Changed(txn)|
  {
    var r := CompensateAll(txn, env, Changed(txn), c.applied, StartOfRollback(c));
    Result(
      r.w.(temps := Unlink(txn, r.w.temps, prep.prepared, prep.backups, r.preserved)),
      RolledBack(StatusOf(r.errors, c.applied), r.conflicts, r.artifacts))
  }

  function Prepared(txn: Txn, env: Environment, w: World): Preparation {
    PrepareAll(txn, env, Changed(txn), 0, Preparation(AtHook(w, env, AfterPreflight), {}, {}, true))
  }

  function Committed(txn: Txn, env: Environment, prep: Preparation): Commitment {
    if !prep.ok then Commitment(prep.w, 0, false, None)
    else
      var start := Commitment(AtHook(prep.w, env, BeforeCommit), 0, !env.raises(BeforeCommit), None);
      CommitAll(txn, env, Changed(txn), 0, start)
  }

  lemma {:induction false} AppliedWithin(txn: Txn, env: Environment, changed: seq<Path>, i: nat, c: Commitment)
    requires i <= |changed| && c.applied <= i && (c.ok ==> c.applied == i)
    ensures CommitAll(txn, env, changed, i, c).applied <= |changed|
    ensures CommitAll(txn, env, changed, i, c).ok ==> CommitAll(txn, env, changed, i, c).applied == |changed|
    decreases |changed| - i
  {
    if i < |changed| && c.ok {
      AppliedWithin(txn, env, changed, i + 1, CommitOne(txn, env, c, changed[i], i));
    }
  }

  function AtomicApply(txn: Txn, env: Environment, tree: Tree, temps: Temps): Result {
    var w := World(tree, temps, []);
    if !PreflightOk(txn, tree) then Result(w, Conflict)
    else if env.raises(AfterPreflight) then Result(AtHook(w, env, AfterPreflight), Interrupted)
    else
      var prep := Prepared(txn, env, w);
      var c := Committed(txn, env, prep);
      if c.ok then
        Result(c.w.(temps := Unlink(txn, c.w.temps, prep.prepared, prep.backups, {})), Applied)
      else
        assert c.applied <= |Changed(txn)| by {
          if prep.ok {
            AppliedWithin(txn, env, Changed(txn), 0,
                          Commitment(AtHook(prep.w, env, BeforeCommit), 0, !env.raises(BeforeCommit), None));
          }
        }
        Abort(txn, env, prep, c)
  }

  // ---------------------------------------------------------------- the tree and its transaction in place

  class SourceTree {
    var tree: Tree
    var temps: Temps
    ghost var log: seq<Event>

    ghost function State(): World
      reads this
    {
      World(tree, temps, log)
    }

    constructor (tree: Tree)
      ensures State() == World(tree, map[], [])
    {
      this.tree, temps, log := tree, map[], [];
    }

    method CallHook(env: Environment, point: HookPoint) returns (ok: bool)
      modifies this
      ensures State() == AtHook(old(State()), env, point) && ok == !env.raises(point)
    {
      match env.edits(point) {
        case None =>
        case Some(edited) =>
          log := log + [ThirdParty(tree, edited)];
          tree := edited;
      }
      ok := !env.raises(point);
    }

    method Prepare(txn: Txn, env: Environment, changed: seq<Path>)
      returns (ok: bool, prepared: set<Path>, backups: set<Path>)
      modifies this
      ensures Preparation(State(), prepared, backups, ok)
              == PrepareAll(txn, env, changed, 0, Preparation(old(State()), {}, {}, true))
    {
      ok, prepared, backups := true, {}, {};
      var i := 0;
      while i < |changed| && ok
        invariant i <= |changed|
        invariant PrepareAll(txn, env, changed, i, Preparation(State(), prepared, backups, ok))
                  == PrepareAll(txn, env, changed, 0, Preparation(old(State()), {}, {}, true))
      {
        var p := changed[i];
        if env.faults(MakeParent(i)) {
          ok := false;
        } else if p in txn.working && env.faults(WritePrepared(i)) {
          ok := false;
        } else {
          if p in txn.working {
            temps := temps[Temp(txn.id, PreparedRole, p) := txn.working[p]];
            prepared := prepared + {p};
          }
          if p in txn.baseline {
            if env.faults(WriteBackup(i)) || !Look(tree, p).File? {
              ok := false;
            } else {
              temps := temps[Temp(txn.id, BackupRole, p) := Look(tree, p).content];
              backups := backups + {p};
            }
          }
        }
        i := i + 1;
      }
    }

    method Commit(txn: Txn, env: Environment, changed: seq<Path>, start: bool)
      returns (ok: bool, applied: nat, conflict: Option<Path>)
      modifies this
      ensures Commitment(State(), applied, ok, conflict)
              == CommitAll(txn, env, changed, 0, Commitment(old(State()), 0, start, None))
    {
      ok, applied, conflict := start, 0, None;
      var i := 0;
      while i < |changed| && ok
        invariant i <= |changed| && (ok ==> conflict.None?)
        invariant CommitAll(txn, env, changed, i, Commitment(State(), applied, ok, conflict))
                  == CommitAll(txn, env, changed, 0, Commitment(old(State()), 0, start, None))
      {
        var p := changed[i];
        ghost var before := Commitment(State(), applied, ok, conflict);
        applied := i;
        ok := CallHook(env, BeforeReplace(i));
        if !ok || env.faults(Inspect(i)) {
          ok := false;
        } else if env.faults(ReadTarget(i)) {
          ok, conflict := false, Some(BareName(p));
        } else if Look(tree, p) != Expected(txn, p) {
          ok, conflict := false, Some(p);
        } else if env.faults(Replace(i)) {
          ok := false;
        } else {
          ghost var checked := State();
          log := log + [Replaced(p, Look(tree, p), Final(txn, p))];
          if p in txn.working {
            temps := temps - {Temp(txn.id, PreparedRole, p)};
          } else if Look(tree, p).File? {
            temps := temps[Temp(txn.id, BackupRole, p) := Look(tree, p).content];
          }
          tree := tree[p := Final(txn, p)];
          assert State() == Put(txn, checked, p);
          applied := i + 1;
          ok := CallHook(env, AfterReplace(i));
        }
        assert Commitment(State(), applied, ok, conflict) == CommitOne(txn, env, before, p, i);
        i := i + 1;
      }
    }

    method PutBack(txn: Txn, p: Path)
      modifies this
      ensures State() == Undo(txn, old(State()), p)
    {
      var backup := Temp(txn.id, BackupRole, p);
      var content := if backup in temps then File(temps[backup]) else Missing;
      log := log + [Restored(p, Look(tree, p), content)];
      tree := tree[p := content];
      temps := temps - {backup};
    }

    /** Compensates one file; the parameters and results are the books kept over all files. */
    method CompensateFile(txn: Txn, env: Environment, p: Path, i: nat,
                          errors0: nat, conflicts0: seq<Path>, preserved0: set<Temp>, artifacts0: seq<Temp>)
      returns (errors: nat, conflicts: seq<Path>, preserved: set<Temp>, artifacts: seq<Temp>)
      modifies this
      ensures Compensation(State(), errors, conflicts, preserved, artifacts)
              == CompensateOne(txn, env, Compensation(old(State()), errors0, conflicts0, preserved0, artifacts0), p, i)
    {
      errors, conflicts, preserved, artifacts := errors0, conflicts0, preserved0, artifacts0;
      var backup := Temp(txn.id, BackupRole, p);
      var failed := false;
      var ok := CallHook(env, BeforeRollback(i));
      if !ok || env.faults(InspectAgain(i)) {
        failed := true;
      } else if Look(tree, p) != Final(txn, p) {
        if p !in conflicts {
          conflicts := conflicts + [p];
        }
        errors := errors + 1;
        if backup in temps {
          if env.faults(KeepBackup(i)) {
            failed := true;
          } else {
            var recovery := Temp(txn.id, RecoveryRole, p);
            temps := (temps - {backup})[recovery := temps[backup]];
            preserved := preserved + {recovery};
            artifacts := artifacts + [recovery];
          }
        }
      } else if env.faults(Compensate(i)) {
        failed := true;
      } else {
        PutBack(txn, p);
      }
      if failed {
        errors := errors + 1;
        if backup in temps {
          preserved := preserved + {backup};
          artifacts := artifacts + [backup];
        }
      }
    }

    method Rollback(txn: Txn, env: Environment, changed: seq<Path>, applied: nat, cause: seq<Path>)
      returns (errors: nat, conflicts: seq<Path>, preserved: set<Temp>, artifacts: seq<Temp>)
      requires applied <= |changed|
      modifies this
      ensures Compensation(State(), errors, conflicts, preserved, artifacts)
              == CompensateAll(txn, env, changed, applied, Compensation(old(State()), 0, cause, {}, []))
    {
      errors, conflicts, preserved, artifacts := 0, cause, {}, [];
      var i := applied;
      while i > 0
        invariant 0 <= i <= |changed|
        invariant CompensateAll(txn, env, changed, i, Compensation(State(), errors, conflicts, preserved, artifacts))
                  == CompensateAll(txn, env, changed, applied, Compensation(old(State()), 0, cause, {}, []))
      {
        i := i - 1;
        ghost var before := Compensation(State(), errors, conflicts, preserved, artifacts);
        errors, conflicts, preserved, artifacts :=
          CompensateFile(txn, env, changed[i], i, errors, conflicts, preserved, artifacts);
        ghost var after := Compensation(State(), errors, conflicts, preserved, artifacts);
        CompensateUnfolds(txn, env, changed, i + 1, before, after);
      }
    }

    /** Runs one transaction in place; `log` tells what happened to the tree meanwhile. */
    method ApplyLocked(txn: Txn, env: Environment) returns (outcome: Outcome)
      modifies this
      ensures Result(State(), outcome) == AtomicApply(txn, env, old(tree), old(temps))
    {
      log := [];
      var changed := Changed(txn);
      if !PreflightOk(txn, tree) {
        return Conflict;
      }
      var ok := CallHook(env, AfterPreflight);
      if !ok {
        return Interrupted;
      }
      var prepared, backups, applied, conflict := {}, {}, 0, None;
      ok, prepared, backups := Prepare(txn, env, changed);
      if ok {
        ok := CallHook(env, BeforeCommit);
        ok, applied, conflict := Commit(txn, env, changed, ok);
        if ok {
          temps := Unlink(txn, temps, prepared, backups, {});
          return Applied;
        }
        AppliedWithin(txn, env, changed, 0,
                      Commitment(AtHook(Prepared(txn, env, World(old(tree), old(temps), [])).w, env, BeforeCommit),
                                 0, !env.raises(BeforeCommit), None));
      }
      var cause := if conflict.Some? then [conflict.value] else [];
      var errors, conflicts, preserved, artifacts := Rollback(txn, env, changed, applied, cause);
      temps := Unlink(txn, temps, prepared, backups, preserved);
      outcome := RolledBack(StatusOf(errors, applied), conflicts, artifacts);
    }
  }
}
