/**
 What the apply transaction never does, under arbitrary third-party changes and failures: overwrite
 or remove content it neither checked against the baseline nor wrote itself.
 */
module ApplySafety {
  import opened Common
  import opened Graphs
  import opened ApplyTransaction

  // ---------------------------------------------------------------- reading the log

  function Front(log: seq<Event>): seq<Event>
    requires log != []
  {
    log[..|log| - 1]
  }

  function TreeAfter(start: Tree, log: seq<Event>): Tree {
    if log == [] then start
    else
      match log[|log| - 1]
      case ThirdParty(_, after) => after
      case Replaced(p, _, written) => TreeAfter(start, Front(log))[p := written]
      case Restored(p, _, written) => TreeAfter(start, Front(log))[p := written]
  }

  /** What the transaction itself last wrote at `p`. */
  function OwnWrite(log: seq<Event>, p: Path): Option<Target> {
    if log == [] then None
    else
      match log[|log| - 1]
      case ThirdParty(_, _) => OwnWrite(Front(log), p)
      case Replaced(q, _, written) => if p == q then Some(written) else OwnWrite(Front(log), p)
      case Restored(q, _, written) => if p == q then Some(written) else OwnWrite(Front(log), p)
  }

  /** Each event records what was really in the tree when it happened. */
  ghost predicate Honest(start: Tree, log: seq<Event>) {
    log == [] ||
    (Honest(start, Front(log)) &&
     match log[|log| - 1]
     case ThirdParty(before, _) => before == TreeAfter(start, Front(log))
     case Replaced(p, seen, _) => seen == Look(TreeAfter(start, Front(log)), p)
     case Restored(p, seen, _) => seen == Look(TreeAfter(start, Front(log)), p))
  }

  /** A replacement consumes the baseline; a compensation consumes what the transaction wrote there. */
  ghost predicate Careful(txn: Txn, log: seq<Event>) {
    log == [] ||
    (Careful(txn, Front(log)) &&
     match log[|log| - 1]
     case ThirdParty(_, _) => true
     case Replaced(p, seen, written) => seen == Expected(txn, p) && written == Final(txn, p)
     case Restored(p, seen, _) => OwnWrite(Front(log), p) == Some(seen))
  }

  ghost predicate Sound(txn: Txn, start: Tree, w: World) {
    Honest(start, w.log) && Careful(txn, w.log) && TreeAfter(start, w.log) == w.tree
  }

  lemma {:induction false} FrontOfSnoc(log: seq<Event>, e: Event)
    ensures Front(log + [e]) == log && (log + [e])[|log + [e]| - 1] == e
  {
  }

  // ---------------------------------------------------------------- single steps

  lemma {:induction false} HookSound(txn: Txn, start: Tree, w: World, env: Environment, point: HookPoint)
    requires Sound(txn, start, w)
    ensures Sound(txn, start, AtHook(w, env, point))
    ensures forall p :: OwnWrite(AtHook(w, env, point).log, p) == OwnWrite(w.log, p)
  {
    match env.edits(point)
    case None =>
    case Some(tree) => FrontOfSnoc(w.log, ThirdParty(w.tree, tree));
  }

  lemma {:induction false} PutSound(txn: Txn, start: Tree, w: World, p: Path)
    requires Sound(txn, start, w) && Look(w.tree, p) == Expected(txn, p)
    ensures Sound(txn, start, Put(txn, w, p))
    ensures forall q :: OwnWrite(Put(txn, w, p).log, q) == if q == p then Some(Final(txn, p)) else OwnWrite(w.log, q)
  {
    FrontOfSnoc(w.log, Replaced(p, Look(w.tree, p), Final(txn, p)));
  }

  lemma {:induction false} UndoSound(txn: Txn, start: Tree, w: World, p: Path)
    requires Sound(txn, start, w) && OwnWrite(w.log, p) == Some(Look(w.tree, p))
    ensures Sound(txn, start, Undo(txn, w, p))
    ensures forall q | q != p :: OwnWrite(Undo(txn, w, p).log, q) == OwnWrite(w.log, q)
  {
    var backup := Temp(txn.id, BackupRole, p);
    var saved := if backup in w.temps then File(w.temps[backup]) else Missing;
    FrontOfSnoc(w.log, Restored(p, Look(w.tree, p), saved));
  }

  // ---------------------------------------------------------------- phases

  lemma {:induction false} PrepareTouchesNoTarget(
    txn: Txn, env: Environment, changed: seq<Path>, i: nat, r: Preparation)
    requires i <= |changed|
    ensures var r' := PrepareAll(txn, env, changed, i, r);
            r'.w.tree == r.w.tree && r'.w.log == r.w.log
    decreases |changed| - i
  {
    if i < |changed| && r.ok {
      PrepareTouchesNoTarget(txn, env, changed, i + 1, PrepareOne(txn, env, r, changed[i], i));
    }
  }

  /** The first `n` changed paths hold what the transaction wrote, as far as its own log goes. */
  ghost predicate WroteFirst(txn: Txn, changed: seq<Path>, n: nat, log: seq<Event>)
    requires n <= |changed|
  {
    forall k | 0 <= k < n :: OwnWrite(log, changed[k]) == Some(Final(txn, changed[k]))
  }

  lemma {:induction false} HookKeepsWrites(
    txn: Txn, env: Environment, start: Tree, changed: seq<Path>, n: nat, w: World, point: HookPoint)
    requires n <= |changed| && Sound(txn, start, w) && WroteFirst(txn, changed, n, w.log)
    ensures Sound(txn, start, AtHook(w, env, point)) && WroteFirst(txn, changed, n, AtHook(w, env, point).log)
  {
    HookSound(txn, start, w, env, point);
  }

  lemma {:induction false} PutWritesOneMore(txn: Txn, start: Tree, changed: seq<Path>, i: nat, w: World)
    requires NoDuplicates(changed) && i < |changed|
    requires Sound(txn, start, w) && WroteFirst(txn, changed, i, w.log)
    requires Look(w.tree, changed[i]) == Expected(txn, changed[i])
    ensures Sound(txn, start, Put(txn, w, changed[i])) && WroteFirst(txn, changed, i + 1, Put(txn, w, changed[i]).log)
  {
    PutSound(txn, start, w, changed[i]);
  }

  /** One turn of the commit loop stops before its replacement, or makes it. */
  lemma {:induction false} CommitOneWorld(txn: Txn, env: Environment, c: Commitment, p: Path, i: nat)
    returns (c': Commitment)
    ensures c' == CommitOne(txn, env, c, p, i)
    ensures var w := AtHook(c.w, env, BeforeReplace(i));
            || (c'.w == w && c'.applied == i && !c'.ok)
            || (Look(w.tree, p) == Expected(txn, p)
                && c'.w == AtHook(Put(txn, w, p), env, AfterReplace(i)) && c'.applied == i + 1)
  {
    c' := CommitOne(txn, env, c, p, i);
  }

  lemma {:induction false} CommitUnfolds(
    txn: Txn, env: Environment, changed: seq<Path>, i: nat, next: nat, c: Commitment, c': Commitment)
    requires next == i + 1 <= |changed| && c.ok && c' == CommitOne(txn, env, c, changed[i], i)
    ensures CommitAll(txn, env, changed, i, c) == CommitAll(txn, env, changed, next, c')
  {
  }

  lemma {:induction false} CommitOneSound(
    txn: Txn, env: Environment, start: Tree, changed: seq<Path>, i: nat, next: nat, c: Commitment)
    returns (c': Commitment)
    requires NoDuplicates(changed) && next == i + 1 <= |changed| && c.applied == i && c.ok
    requires Sound(txn, start, c.w) && WroteFirst(txn, changed, i, c.w.log)
    ensures CommitAll(txn, env, changed, i, c) == CommitAll(txn, env, changed, next, c')
    ensures Sound(txn, start, c'.w) && c'.applied <= next && (c'.ok ==> c'.applied == next)
    ensures WroteFirst(txn, changed, c'.applied, c'.w.log)
  {
    var p := changed[i];
    var w := AtHook(c.w, env, BeforeReplace(i));
    c' := CommitOneWorld(txn, env, c, p, i);
    CommitUnfolds(txn, env, changed, i, next, c, c');
    HookKeepsWrites(txn, env, start, changed, i, c.w, BeforeReplace(i));
    if Look(w.tree, p) == Expected(txn, p) {
      PutWritesOneMore(txn, start, changed, i, w);
      HookKeepsWrites(txn, env, start, changed, next, Put(txn, w, p), AfterReplace(i));
    }
  }

  lemma {:induction false} CommitSound(
    txn: Txn, env: Environment, start: Tree, changed: seq<Path>, i: nat, c: Commitment)
    requires NoDuplicates(changed) && i <= |changed| && c.applied <= i && (c.ok ==> c.applied == i)
    requires Sound(txn, start, c.w) && WroteFirst(txn, changed, c.applied, c.w.log)
    ensures var c' := CommitAll(txn, env, changed, i, c);
            Sound(txn, start, c'.w) && c'.applied <= |changed| && WroteFirst(txn, changed, c'.applied, c'.w.log)
    decreases |changed| - i
  {
    if i < |changed| && c.ok {
      var next := i + 1;
      var c' := CommitOneSound(txn, env, start, changed, i, next, c);
      CommitSound(txn, env, start, changed, next, c');
    }
  }

  /** As far as tree and log go, a compensation does nothing or undoes the transaction's own write. */
  lemma {:induction false} CompensateOneTree(txn: Txn, env: Environment, r: Compensation, p: Path, i: nat)
    returns (r': Compensation)
    ensures r' == CompensateOne(txn, env, r, p, i)
    ensures var w := AtHook(r.w, env, BeforeRollback(i));
            || (r'.w.tree == w.tree && r'.w.log == w.log)
            || (Look(w.tree, p) == Final(txn, p) && r'.w == Undo(txn, w, p))
  {
    r' := CompensateOne(txn, env, r, p, i);
  }

  lemma {:induction false} CompensateOneSound(
    txn: Txn, env: Environment, start: Tree, changed: seq<Path>, i: nat, r: Compensation)
    returns (r': Compensation)
    requires NoDuplicates(changed) && 0 < i <= |changed|
    requires Sound(txn, start, r.w) && WroteFirst(txn, changed, i, r.w.log)
    ensures CompensateAll(txn, env, changed, i, r) == CompensateAll(txn, env, changed, i - 1, r')
    ensures Sound(txn, start, r'.w) && WroteFirst(txn, changed, i - 1, r'.w.log)
  {
    var p := changed[i - 1];
    r' := CompensateOneTree(txn, env, r, p, i - 1);
    var w := AtHook(r.w, env, BeforeRollback(i - 1));
    HookSound(txn, start, r.w, env, BeforeRollback(i - 1));
    assert OwnWrite(w.log, p) == Some(Final(txn, p));
    if Look(w.tree, p) == Final(txn, p) {
      UndoSound(txn, start, w, p);
    }
  }

  lemma {:induction false} CompensateSound(
    txn: Txn, env: Environment, start: Tree, changed: seq<Path>, i: nat, r: Compensation)
    requires NoDuplicates(changed) && i <= |changed|
    requires Sound(txn, start, r.w) && WroteFirst(txn, changed, i, r.w.log)
    ensures Sound(txn, start, CompensateAll(txn, env, changed, i, r).w)
  {
    if i > 0 {
      var r' := CompensateOneSound(txn, env, start, changed, i, r);
      CompensateSound(txn, env, start, changed, i - 1, r');
    }
  }

  lemma {:induction false} ChangedMembers(txn: Txn, order: seq<Path>)
    requires NoDuplicates(order)
    ensures NoDuplicates(ChangedIn(txn, order))
    ensures forall p :: p in ChangedIn(txn, order) <==> p in order && Expected(txn, p) != Final(txn, p)
  {
    if order != [] {
      var rest := order[..|order| - 1];
      var last := order[|order| - 1];
      ChangedMembers(txn, rest);
      assert order == rest + [last];
      assert last !in rest;
      var earlier := ChangedIn(txn, rest);
      forall i | 0 <= i < |earlier| ensures earlier[i] != last {
        assert earlier[i] in earlier;
      }
    }
  }

  /** The state of the transaction when its commit phase ends, one way or the other. */
  lemma {:induction false} CommittedSound(txn: Txn, env: Environment, tree: Tree, temps: Temps)
    requires ValidTxn(txn)
    ensures var prep := Prepared(txn, env, World(tree, temps, []));
            var c := Committed(txn, env, prep);
            && Sound(txn, tree, c.w) && c.applied <= |Changed(txn)|
            && WroteFirst(txn, Changed(txn), c.applied, c.w.log)
  {
    var w := World(tree, temps, []);
    ChangedMembers(txn, txn.order);
    HookSound(txn, tree, w, env, AfterPreflight);
    PrepareTouchesNoTarget(txn, env, Changed(txn), 0, Preparation(AtHook(w, env, AfterPreflight), {}, {}, true));
    var prep := Prepared(txn, env, w);
    assert Sound(txn, tree, prep.w);
    if prep.ok {
      HookSound(txn, tree, prep.w, env, BeforeCommit);
      CommitSound(txn, env, tree, Changed(txn), 0,
                  Commitment(AtHook(prep.w, env, BeforeCommit), 0, !env.raises(BeforeCommit), None));
    }
  }

  /**
   Whatever third parties do at the hook points and whatever fails: the log accounts for the whole
   change of the tree, and each time the transaction overwrote or removed a target, that path held
   either the run's baseline or exactly what the transaction had last written there.
   */
  lemma {:induction false} ThirdPartyContentIsNeverDestroyed(txn: Txn, env: Environment, tree: Tree, temps: Temps)
    requires ValidTxn(txn)
    ensures var r := AtomicApply(txn, env, tree, temps);
            && Honest(tree, r.w.log) && TreeAfter(tree, r.w.log) == r.w.tree
            && Careful(txn, r.w.log)
  {
    var w := World(tree, temps, []);
    if PreflightOk(txn, tree) {
      HookSound(txn, tree, w, env, AfterPreflight);
      CommittedSound(txn, env, tree, temps);
      ChangedMembers(txn, txn.order);
      var c := Committed(txn, env, Prepared(txn, env, w));
      if !env.raises(AfterPreflight) && !c.ok {
        CompensateSound(txn, env, tree, Changed(txn), c.applied, StartOfRollback(c));
      }
    }
  }
}
