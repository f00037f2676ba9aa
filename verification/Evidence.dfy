/**
 The evidence gate: from a test run (backend/agent/tools.py) through the review evidence
 (backend/agent/state.py, nodes.py) and the approval to the applied tree (backend/agent/workspace.py).
 Any actions may follow each other in any order, including foreign edits of every directory.
 */
module Evidence {
  import opened Common
  import Graphs
  import opened ApplyTransaction
  import ApplySafety
  import opened ApplyRecovery
  import opened ApplyCompareAndSwap
  import opened Manifest

  const MAX_RECORDS: nat := 12

  datatype ChangeRecord = ChangeRecord(path: Path, before: Digest, after: Digest)

  datatype ChangeSetDigest = Sha256OfRecords(records: seq<ChangeRecord>)

  datatype TestRecord = TestRecord(
    success: bool, exitCode: int, changeSet: ChangeSetDigest, snapshot: Option<SnapshotDigest>,
    stable: bool, contractIncluded: bool, markerPresent: bool)

  type Hashes = map<Path, Digest>

  function HashSnapshot(files: Snapshot): Hashes { map p | p in files :: Sha256(files[p]) }

  /** Appends and keeps the latest twelve records; an empty update clears them. */
  function MergeRecords<T>(existing: seq<T>, updates: seq<T>): (merged: seq<T>)
    ensures updates == [] ==> merged == []
    ensures updates != [] ==>
              var all := existing + updates;
              && |merged| <= |all| && merged == all[|all| - |merged|..]
              && |merged| <= 12 && (|merged| < 12 ==> merged == all)
  {
    if updates == [] then []
    else
      var all := existing + updates;
      if |all| <= MAX_RECORDS then all else all[|all| - MAX_RECORDS..]
  }

  // ---------------------------------------------------------------- the state of a run

  /** A test process that ran to its end, with the files before and after it. */
  datatype TestRun = TestRun(before: Snapshot, after: Snapshot, exitCode: int, contract: bool)

  datatype RunFiles = RunFiles(
    baseline: Snapshot, working: Snapshot, source: Tree, temps: Temps,
    changeRecords: seq<ChangeRecord>, testRecords: seq<TestRecord>, reviewed: Option<SnapshotDigest>,
    baselineHashes: Hashes, finalHashes: Hashes, finalDigest: Option<SnapshotDigest>,
    applied: bool, log: seq<Event>, tests: seq<TestRun>)

  function NewRun(source: Tree, temps: Temps): RunFiles {
    var files := TreeFiles(source);
    RunFiles(files, files, source, temps, [], [], None, HashSnapshot(files), map[], None, false, [], [])
  }

  datatype EvidenceError =
    | NoSuccessfulWrite | NoTestRun | ChangesNotTested | TestNotPassed | TestsChangedSources
    | ContractNotIncluded | MarkerMissing | WorkspaceDrifted | WorkspaceUnreadable

  /** What the gate demands of the latest test record and of the files as they are now. */
  ghost predicate EvidenceOk(s: RunFiles, listing: seq<ListedFile>) {
    && s.changeRecords != [] && s.testRecords != []
    && var latest := s.testRecords[|s.testRecords| - 1];
       && latest.changeSet == Sha256OfRecords(s.changeRecords)
       && latest.success && latest.exitCode == 0 && latest.stable && latest.contractIncluded && latest.markerPresent
       && ManifestOf(listing).Some? && latest.snapshot == Some(ManifestOf(listing).value.digest)
  }

  /** The error names a demand that the latest test record, or the directory as it is now, does not meet. */
  ghost predicate Unmet(s: RunFiles, listing: seq<ListedFile>, error: EvidenceError)
    requires s.testRecords != []
  {
    var latest := s.testRecords[|s.testRecords| - 1];
    match error
    case ChangesNotTested => latest.changeSet != Sha256OfRecords(s.changeRecords)
    case TestNotPassed => latest.exitCode != 0 || !latest.success
    case TestsChangedSources => !latest.stable
    case ContractNotIncluded => !latest.contractIncluded
    case MarkerMissing => !latest.markerPresent
    case WorkspaceUnreadable => ManifestOf(listing).None?
    case WorkspaceDrifted =>
      ManifestOf(listing).Some? && latest.snapshot != Some(ManifestOf(listing).value.digest)
    case _ => false
  }

  /** No error is reported exactly when every demand is met, and each reported one names a demand that is not. */
  method ReviewEvidenceErrors(s: RunFiles, listing: seq<ListedFile>) returns (errors: seq<EvidenceError>)
    ensures errors == [] <==> EvidenceOk(s, listing)
    ensures s.changeRecords == [] ==> errors == [NoSuccessfulWrite]
    ensures s.changeRecords != [] && s.testRecords == [] ==> errors == [NoTestRun]
    ensures s.changeRecords != [] && s.testRecords != [] ==>
              forall error :: error in errors <==> Unmet(s, listing, error)
  {
    if s.changeRecords == [] {
      return [NoSuccessfulWrite];
    }
    if s.testRecords == [] {
      return [NoTestRun];
    }
    var latest := s.testRecords[|s.testRecords| - 1];
    errors := [];
    if latest.changeSet != Sha256OfRecords(s.changeRecords) {
      errors := errors + [ChangesNotTested];
    }
    if latest.exitCode != 0 || !latest.success {
      errors := errors + [TestNotPassed];
    }
    if !latest.stable {
      errors := errors + [TestsChangedSources];
    }
    if !latest.contractIncluded {
      errors := errors + [ContractNotIncluded];
    }
    if !latest.markerPresent {
      errors := errors + [MarkerMissing];
    }
    var current := BuildSnapshotManifest(listing);
    if current.None? {
      errors := errors + [WorkspaceUnreadable];
    } else if latest.snapshot != Some(current.value.digest) {
      errors := errors + [WorkspaceDrifted];
    }
  }

  // ---------------------------------------------------------------- actions

  datatype Action =
    | WriteFile(path: Path, content: Content)
    | TamperWorking(files: Snapshot)
    | TamperBaseline(files: Snapshot)
    | EditSource(tree: Tree)
    | RunTests(contract: bool, first: seq<ListedFile>, second: seq<ListedFile>, after: Snapshot,
               exit: Option<int>, printsMarker: bool)
    | FinalizeReview(listing: seq<ListedFile>, marksSuccess: bool)
    | PrepareApproval(listing: seq<ListedFile>, refused: bool)
    | Apply(listing: seq<ListedFile>, approved: bool, id: nat, order: seq<Path>, env: Environment)

  function TxnOf(s: RunFiles, id: nat, order: seq<Path>): Txn { Txn(id, s.baseline, s.working, order) }

  /** Listings enumerate the directory they are taken from; a transaction id is new. */
  ghost predicate ActionOk(s: RunFiles, a: Action) {
    match a
    case RunTests(_, first, second, after, _, _) => Lists(first, s.working) && Lists(second, after)
    case FinalizeReview(listing, _) => Lists(listing, s.working)
    case PrepareApproval(listing, _) => Lists(listing, s.working)
    case Apply(listing, _, id, order, _) =>
      Lists(listing, s.working) && ValidTxn(TxnOf(s, id, order)) && FreshRun(TxnOf(s, id, order), s.temps)
    case _ => true
  }

  function DoWrite(s: RunFiles, p: Path, content: Content): RunFiles {
    var before := if p in s.working then s.working[p] else Content([]);
    s.(working := s.working[p := content],
       changeRecords := MergeRecords(s.changeRecords, [ChangeRecord(p, Sha256(before), Sha256(content))]),
       testRecords := [])
  }

  function Recorded(s: RunFiles, r: TestRecord): RunFiles {
    s.(testRecords := MergeRecords(s.testRecords, [r]))
  }

  function FailedTest(s: RunFiles, snapshot: Option<SnapshotDigest>, contract: bool, printsMarker: bool): TestRecord {
    TestRecord(false, -1, Sha256OfRecords(s.changeRecords), snapshot, false, contract, printsMarker)
  }

  function EndedTest(
    s: RunFiles, snapshot: SnapshotDigest, stable: bool, exit: int, contract: bool, printsMarker: bool): TestRecord
  {
    var success := exit == 0 && stable;
    TestRecord(success, exit, Sha256OfRecords(s.changeRecords), Some(snapshot), stable, contract,
               success || printsMarker)
  }

  /** A run with the manifests taken before and after it; any exception is recorded as a failed run. */
  function AfterTests(
    s: RunFiles, before: Option<SnapshotManifest>, after: Option<SnapshotManifest>, files: Snapshot,
    contract: bool, exit: Option<int>, printsMarker: bool): RunFiles
  {
    if before.None? then Recorded(s, FailedTest(s, None, contract, printsMarker))
    else
      var ran := s.(working := files);
      var digest := Some(before.value.digest);
      if exit.None? || after.None? then Recorded(ran, FailedTest(s, digest, contract, printsMarker))
      else
        var stable := before.value.digest == after.value.digest;
        Recorded(ran, EndedTest(s, digest.value, stable, exit.value, contract, printsMarker))
          .(tests := s.tests + [TestRun(s.working, files, exit.value, contract)])
  }

  /** Snapshot, run the process, snapshot again. */
  function DoRunTests(s: RunFiles, a: Action): RunFiles
    requires a.RunTests?
  {
    AfterTests(s, ManifestOf(a.first), ManifestOf(a.second), a.after, a.contract, a.exit, a.printsMarker)
  }

  ghost function DoFinalize(s: RunFiles, listing: seq<ListedFile>, marksSuccess: bool): RunFiles {
    if EvidenceOk(s, listing) && marksSuccess then s.(reviewed := s.testRecords[|s.testRecords| - 1].snapshot)
    else s.(reviewed := None)
  }

  /** Files that are as they were leave nothing to approve. */
  ghost function DoPrepare(s: RunFiles, listing: seq<ListedFile>, refused: bool): RunFiles {
    if refused || !EvidenceOk(s, listing) || s.working == s.baseline then s
    else s.(finalHashes := HashSnapshot(s.working), finalDigest := Some(ManifestOf(listing).value.digest))
  }

  predicate NoCaseConflict(paths: seq<Path>) {
    forall i, j | 0 <= i < j < |paths| :: Fold(paths[i]) != Fold(paths[j])
  }

  /** The checks before the source tree is looked at. */
  predicate GateOpen(s: RunFiles, a: Action)
    requires a.Apply?
  {
    && HashSnapshot(s.baseline) == s.baselineHashes
    && HashSnapshot(s.working) == s.finalHashes
    && ManifestOf(a.listing).Some?
    && s.reviewed == Some(ManifestOf(a.listing).value.digest)
    && s.finalDigest == Some(ManifestOf(a.listing).value.digest)
    && NoCaseConflict(Changed(TxnOf(s, a.id, a.order)))
  }

  function DoApply(s: RunFiles, a: Action): RunFiles
    requires a.Apply?
  {
    if !a.approved || !GateOpen(s, a) then s.(applied := false)
    else
      var r := AtomicApply(TxnOf(s, a.id, a.order), a.env, s.source, s.temps);
      s.(source := r.w.tree, temps := r.w.temps, log := r.w.log, applied := r.outcome.Applied?)
  }

  ghost function Do(s: RunFiles, a: Action): RunFiles {
    match a
    case WriteFile(p, content) => DoWrite(s, p, content)
    case TamperWorking(files) => s.(working := files)
    case TamperBaseline(files) => s.(baseline := files)
    case EditSource(tree) => s.(source := tree)
    case RunTests(_, _, _, _, _, _) => DoRunTests(s, a)
    case FinalizeReview(listing, marks) => DoFinalize(s, listing, marks)
    case PrepareApproval(listing, refused) => DoPrepare(s, listing, refused)
    case Apply(_, _, _, _, _) => DoApply(s, a)
  }

  ghost function After(s: RunFiles, actions: seq<Action>): RunFiles {
    if actions == [] then s else Do(After(s, actions[..|actions| - 1]), actions[|actions| - 1])
  }

  ghost predicate ActionsOk(s: RunFiles, actions: seq<Action>) {
    actions == [] ||
    (ActionsOk(s, actions[..|actions| - 1]) && ActionOk(After(s, actions[..|actions| - 1]), actions[|actions| - 1]))
  }

  // ---------------------------------------------------------------- the chain

  /** The digest is the identity of these files, under some enumeration of them. */
  ghost predicate Identifies(d: SnapshotDigest, files: Snapshot) {
    exists listing :: Lists(listing, files) && ManifestOf(listing).Some? && ManifestOf(listing).value.digest == d
  }

  /** A passing run of the behaviour contract on exactly these files, before and after. */
  ghost predicate PassedOn(t: TestRun, files: Snapshot) {
    t.before == t.after == files && t.exitCode == 0 && t.contract
  }

  ghost predicate Tested(d: SnapshotDigest, tests: seq<TestRun>) {
    exists k :: 0 <= k < |tests| && PassedOn(tests[k], tests[k].after) && Identifies(d, tests[k].after)
  }

  ghost predicate RecordBacked(r: TestRecord, tests: seq<TestRun>) {
    r.success && r.contractIncluded && r.snapshot.Some? ==> Tested(r.snapshot.value, tests)
  }

  ghost predicate ChainHolds(s: RunFiles) {
    && (forall i | 0 <= i < |s.testRecords| :: RecordBacked(s.testRecords[i], s.tests))
    && (s.reviewed.Some? ==> Tested(s.reviewed.value, s.tests))
  }

  lemma {:induction false} IdentityIsUnique(d: SnapshotDigest, a: Snapshot, b: Snapshot)
    requires Identifies(d, a) && Identifies(d, b)
    ensures a == b
  {
    var la :| Lists(la, a) && ManifestOf(la).Some? && ManifestOf(la).value.digest == d;
    var lb :| Lists(lb, b) && ManifestOf(lb).Some? && ManifestOf(lb).value.digest == d;
    DigestDeterminesFiles(la, lb, a, b);
  }

  lemma {:induction false} TestedPersists(d: SnapshotDigest, tests: seq<TestRun>, t: TestRun)
    requires Tested(d, tests)
    ensures Tested(d, tests + [t])
  {
    var k :| 0 <= k < |tests| && PassedOn(tests[k], tests[k].after) && Identifies(d, tests[k].after);
    assert (tests + [t])[k] == tests[k];
  }

  lemma {:induction false} MergeKeepsBacking(existing: seq<TestRecord>, r: TestRecord, tests: seq<TestRun>)
    requires forall i | 0 <= i < |existing| :: RecordBacked(existing[i], tests)
    requires RecordBacked(r, tests)
    ensures forall i | 0 <= i < |MergeRecords(existing, [r])| :: RecordBacked(MergeRecords(existing, [r])[i], tests)
  {
    var all := existing + [r];
    assert forall i | 0 <= i < |all| :: RecordBacked(all[i], tests);
  }

  lemma {:induction false} RecordsPersist(s: RunFiles, run: TestRun)
    requires ChainHolds(s)
    ensures forall i | 0 <= i < |s.testRecords| :: RecordBacked(s.testRecords[i], s.tests + [run])
    ensures s.reviewed.Some? ==> Tested(s.reviewed.value, s.tests + [run])
  {
    forall i | 0 <= i < |s.testRecords| ensures RecordBacked(s.testRecords[i], s.tests + [run]) {
      var r := s.testRecords[i];
      if r.success && r.contractIncluded && r.snapshot.Some? {
        TestedPersists(r.snapshot.value, s.tests, run);
      }
    }
    if s.reviewed.Some? {
      TestedPersists(s.reviewed.value, s.tests, run);
    }
  }

  /** Equal digests before and after a passing run mean the run changed no file. */
  lemma {:induction false} PassingRunIsBacked(
    first: seq<ListedFile>, second: seq<ListedFile>, before: Snapshot, after: Snapshot, tests: seq<TestRun>)
    requires Lists(first, before) && Lists(second, after) && ManifestOf(first).Some? && ManifestOf(second).Some?
    requires ManifestOf(first).value.digest == ManifestOf(second).value.digest
    ensures Tested(ManifestOf(first).value.digest, tests + [TestRun(before, after, 0, true)])
  {
    var d := ManifestOf(first).value.digest;
    assert Identifies(d, before) && Identifies(d, after);
    IdentityIsUnique(d, before, after);
    var run := TestRun(before, after, 0, true);
    assert (tests + [run])[|tests|] == run && PassedOn(run, after);
  }

  predicate Completes(a: Action)
    requires a.RunTests?
  {
    ManifestOf(a.first).Some? && a.exit.Some? && ManifestOf(a.second).Some?
  }

  /** The record of a run, backed by the tests so far, is added to the records. */
  lemma {:induction false} RecordKeepsChain(s: RunFiles, s': RunFiles, record: TestRecord, run: TestRun)
    requires ChainHolds(s) && RecordBacked(record, s.tests + [run])
    requires s'.testRecords == MergeRecords(s.testRecords, [record])
    requires s'.tests == s.tests + [run] && s'.reviewed == s.reviewed
    ensures ChainHolds(s')
  {
    RecordsPersist(s, run);
    MergeKeepsBacking(s.testRecords, record, s'.tests);
  }

  lemma {:induction false} EndedTestIsBacked(s: RunFiles, a: Action) returns (record: TestRecord, run: TestRun)
    requires a.RunTests? && ActionOk(s, a) && Completes(a)
    ensures record == EndedTest(s, ManifestOf(a.first).value.digest,
                                ManifestOf(a.first).value.digest == ManifestOf(a.second).value.digest,
                                a.exit.value, a.contract, a.printsMarker)
    ensures run == TestRun(s.working, a.after, a.exit.value, a.contract)
    ensures RecordBacked(record, s.tests + [run])
  {
    var digest := ManifestOf(a.first).value.digest;
    var stable := digest == ManifestOf(a.second).value.digest;
    record := EndedTest(s, digest, stable, a.exit.value, a.contract, a.printsMarker);
    run := TestRun(s.working, a.after, a.exit.value, a.contract);
    if stable && a.exit.value == 0 && a.contract {
      PassingRunIsBacked(a.first, a.second, s.working, a.after, s.tests);
    }
  }

  lemma {:induction false} CompletedRunKeepsChain(s: RunFiles, a: Action)
    requires ChainHolds(s) && a.RunTests? && ActionOk(s, a) && Completes(a)
    ensures ChainHolds(DoRunTests(s, a))
  {
    var record, run := EndedTestIsBacked(s, a);
    RecordKeepsChain(s, DoRunTests(s, a), record, run);
  }

  /** A run that raised adds no test, and a record that claims nothing. */
  lemma {:induction false} FailureKeepsChain(s: RunFiles, s': RunFiles, record: TestRecord)
    requires ChainHolds(s) && !record.success && s'.testRecords == MergeRecords(s.testRecords, [record])
    requires s'.tests == s.tests && s'.reviewed == s.reviewed
    ensures ChainHolds(s')
  {
    MergeKeepsBacking(s.testRecords, record, s.tests);
  }

  lemma {:induction false} UnlistedRunKeepsChain(s: RunFiles, a: Action)
    requires ChainHolds(s) && a.RunTests? && ManifestOf(a.first).None?
    ensures ChainHolds(DoRunTests(s, a))
  {
    FailureKeepsChain(s, DoRunTests(s, a), FailedTest(s, None, a.contract, a.printsMarker));
  }

  lemma {:induction false} BrokenRunKeepsChain(s: RunFiles, a: Action, digest: SnapshotDigest)
    requires ChainHolds(s) && a.RunTests? && ManifestOf(a.first).Some? && ManifestOf(a.first).value.digest == digest
    requires a.exit.None? || ManifestOf(a.second).None?
    ensures ChainHolds(DoRunTests(s, a))
  {
    FailureKeepsChain(s, DoRunTests(s, a), FailedTest(s, Some(digest), a.contract, a.printsMarker));
  }

  lemma {:induction false} RunTestsKeepsChain(s: RunFiles, a: Action)
    requires ChainHolds(s) && a.RunTests? && ActionOk(s, a)
    ensures ChainHolds(DoRunTests(s, a))
  {
    if Completes(a) {
      CompletedRunKeepsChain(s, a);
    } else if ManifestOf(a.first).None? {
      UnlistedRunKeepsChain(s, a);
    } else {
      BrokenRunKeepsChain(s, a, ManifestOf(a.first).value.digest);
    }
  }

  lemma {:induction false} FinalizeKeepsChain(s: RunFiles, listing: seq<ListedFile>, marksSuccess: bool)
    requires ChainHolds(s)
    ensures ChainHolds(DoFinalize(s, listing, marksSuccess))
  {
    if EvidenceOk(s, listing) {
      assert RecordBacked(s.testRecords[|s.testRecords| - 1], s.tests);
    }
  }

  ghost predicate Forgets(s: RunFiles, s': RunFiles) {
    && s'.tests == s.tests && s'.reviewed == s.reviewed
    && (s'.testRecords == s.testRecords || s'.testRecords == [])
  }

  lemma {:induction false} ApplyForgets(s: RunFiles, a: Action)
    requires a.Apply?
    ensures Forgets(s, DoApply(s, a))
  {
  }

  /** Whatever else an action does, it leaves the test runs and the review alone, and at most forgets records. */
  lemma {:induction false} OtherActionsForget(s: RunFiles, a: Action)
    requires !a.RunTests? && !a.FinalizeReview?
    ensures Forgets(s, Do(s, a))
  {
    match a
    case Apply(_, _, _, _, _) => ApplyForgets(s, a);
    case WriteFile(p, content) => assert Do(s, a) == DoWrite(s, p, content);
    case PrepareApproval(listing, refused) => assert Do(s, a) == DoPrepare(s, listing, refused);
    case _ =>
  }

  lemma {:induction false} ForgettingKeepsChain(s: RunFiles, s': RunFiles)
    requires ChainHolds(s) && Forgets(s, s')
    ensures ChainHolds(s')
  {
  }

  lemma {:induction false} StepKeepsChain(s: RunFiles, a: Action)
    requires ChainHolds(s) && ActionOk(s, a)
    ensures ChainHolds(Do(s, a))
  {
    if a.RunTests? {
      RunTestsKeepsChain(s, a);
    } else if a.FinalizeReview? {
      FinalizeKeepsChain(s, a.listing, a.marksSuccess);
    } else {
      OtherActionsForget(s, a);
      ForgettingKeepsChain(s, Do(s, a));
    }
  }

  lemma {:induction false} ChainAlwaysHolds(source: Tree, temps: Temps, actions: seq<Action>)
    requires ActionsOk(NewRun(source, temps), actions)
    ensures ChainHolds(After(NewRun(source, temps), actions))
  {
    if actions != [] {
      ChainAlwaysHolds(source, temps, actions[..|actions| - 1]);
      StepKeepsChain(After(NewRun(source, temps), actions[..|actions| - 1]), actions[|actions| - 1]);
    }
  }

  lemma {:induction false} GatePassesOnlyTested(s: RunFiles, a: Action) returns (k: nat)
    requires ChainHolds(s) && a.Apply? && ActionOk(s, a) && GateOpen(s, a)
    ensures k < |s.tests| && PassedOn(s.tests[k], s.working)
  {
    var d := ManifestOf(a.listing).value.digest;
    assert Identifies(d, s.working);
    k :| 0 <= k < |s.tests| && PassedOn(s.tests[k], s.tests[k].after) && Identifies(d, s.tests[k].after);
    IdentityIsUnique(d, s.tests[k].after, s.working);
  }

  lemma {:induction false} AppliedTree(s: RunFiles, a: Action)
    requires a.Apply? && ActionOk(s, a) && DoApply(s, a).applied
    ensures ApplySafety.Careful(TxnOf(s, a.id, a.order), DoApply(s, a).log)
    ensures forall p :: WasReplaced(DoApply(s, a).log, p) <==> InSnapshot(s.baseline, p) != InSnapshot(s.working, p)
    ensures Quiet(a.env) ==> TreeFiles(DoApply(s, a).source) == s.working
  {
    var txn := TxnOf(s, a.id, a.order);
    ApplySafety.ThirdPartyContentIsNeverDestroyed(txn, a.env, s.source, s.temps);
    forall p ensures WasReplaced(DoApply(s, a).log, p) <==> InSnapshot(s.baseline, p) != InSnapshot(s.working, p) {
      AppliedReplacesEveryChange(txn, a.env, s.source, s.temps, p);
    }
    if Quiet(a.env) {
      AppliesAsOneCompareAndSwap(txn, a.env, s.source, s.temps);
    }
  }

  /**
   What is applied was approved and is what was tested. In every history that ends with a successful apply,
   the aggregate diff was approved and some test run of the behaviour contract passed, and the files before
   and after it are exactly the files the transaction wrote: whatever third parties did meanwhile, exactly
   the paths in which baseline and tested files differ were replaced, each with the tested content; and if
   no third party interfered the managed source files are now the tested files.
   */
  lemma {:induction false} WhatIsAppliedWasTested(source: Tree, temps: Temps, actions: seq<Action>, a: Action)
    requires ActionsOk(NewRun(source, temps), actions) && ActionOk(After(NewRun(source, temps), actions), a)
    requires a.Apply? && DoApply(After(NewRun(source, temps), actions), a).applied
    ensures var s := After(NewRun(source, temps), actions);
            && a.approved
            && (exists k :: 0 <= k < |s.tests| && PassedOn(s.tests[k], s.working))
            && ApplySafety.Careful(TxnOf(s, a.id, a.order), DoApply(s, a).log)
            && (forall p ::
                  WasReplaced(DoApply(s, a).log, p) <==> InSnapshot(s.baseline, p) != InSnapshot(s.working, p))
            && (Quiet(a.env) ==> TreeFiles(DoApply(s, a).source) == s.working)
  {
    ChainAlwaysHolds(source, temps, actions);
    AppliedTree(After(NewRun(source, temps), actions), a);
    var k := GatePassesOnlyTested(After(NewRun(source, temps), actions), a);
  }

  // ---------------------------------------------------------------- the gate is not always closed

  datatype Write = Write(path: Path, content: Content)

  function FilesAfter(files: Snapshot, writes: seq<Write>): Snapshot {
    if writes == [] then files
    else
      var last := writes[|writes| - 1];
      FilesAfter(files, writes[..|writes| - 1])[last.path := last.content]
  }

  function Written(s: RunFiles, writes: seq<Write>): RunFiles {
    if writes == [] then s
    else DoWrite(Written(s, writes[..|writes| - 1]), writes[|writes| - 1].path, writes[|writes| - 1].content)
  }

  /** Everything but the working files and the change records is as at the start of the run. */
  ghost predicate Drafted(source: Tree, temps: Temps, files: Snapshot, s: RunFiles) {
    s == NewRun(source, temps).(working := files, changeRecords := s.changeRecords)
  }

  lemma {:induction false} WritesOnlyDraft(source: Tree, temps: Temps, writes: seq<Write>)
    ensures var s := Written(NewRun(source, temps), writes);
            Drafted(source, temps, FilesAfter(TreeFiles(source), writes), s) && (writes != [] ==> s.changeRecords != [])
  {
    if writes != [] {
      WritesOnlyDraft(source, temps, writes[..|writes| - 1]);
    }
  }

  /** No write removes a file, and what differs from the start was written. */
  lemma {:induction false} WritesOnlyAdd(files: Snapshot, writes: seq<Write>, p: Path)
    ensures p in files ==> p in FilesAfter(files, writes)
    ensures InSnapshot(FilesAfter(files, writes), p) != InSnapshot(files, p) ==>
              exists i :: 0 <= i < |writes| && writes[i].path == p
  {
    if writes != [] {
      var before := writes[..|writes| - 1];
      WritesOnlyAdd(files, before, p);
      if i :| 0 <= i < |before| && before[i].path == p {
        assert writes[i].path == p;
      }
    }
  }

  /** Changed paths that are all listed have no two that differ only by case. */
  lemma {:induction false} ListedPathsDiffer(listing: seq<ListedFile>, files: Snapshot, paths: seq<Path>)
    requires Lists(listing, files) && !CaseConflict(listing)
    requires Graphs.NoDuplicates(paths) && forall p | p in paths :: p in files
    ensures NoCaseConflict(paths)
  {
    forall i, j | 0 <= i < j < |paths| ensures Fold(paths[i]) != Fold(paths[j]) {
      var p, q := paths[i], paths[j];
      assert p in paths && q in paths && p != q;
      var k :| 0 <= k < |listing| && listing[k] == ListedFile(p, files[p]);
      var l :| 0 <= l < |listing| && listing[l] == ListedFile(q, files[q]);
    }
  }

  lemma {:induction false} LatestRecord(existing: seq<TestRecord>, r: TestRecord)
    ensures MergeRecords(existing, [r]) != [] && MergeRecords(existing, [r])[|MergeRecords(existing, [r])| - 1] == r
  {
  }

  /** A passing test run, a successful review and the preparation, one after the other. */
  ghost function Approved(
    s: RunFiles, first: seq<ListedFile>, second: seq<ListedFile>, third: seq<ListedFile>, fourth: seq<ListedFile>):
    RunFiles
  {
    var tested := DoRunTests(s, RunTests(true, first, second, s.working, Some(0), false));
    DoPrepare(DoFinalize(tested, third, true), fourth, false)
  }

  lemma {:induction false} TestedState(s: RunFiles, first: seq<ListedFile>, second: seq<ListedFile>)
    returns (t: RunFiles)
    requires s.changeRecords != [] && ManifestOf(first).Some? && ManifestOf(first) == ManifestOf(second)
    ensures t == DoRunTests(s, RunTests(true, first, second, s.working, Some(0), false))
    ensures EvidenceOk(t, first) && t.testRecords[|t.testRecords| - 1].snapshot == Some(ManifestOf(first).value.digest)
    ensures t == s.(testRecords := t.testRecords, tests := t.tests)
  {
    var digest := ManifestOf(first).value.digest;
    LatestRecord(s.testRecords, EndedTest(s, digest, true, 0, true, false));
    t := DoRunTests(s, RunTests(true, first, second, s.working, Some(0), false));
  }

  lemma {:induction false} ApprovedState(
    s: RunFiles, first: seq<ListedFile>, second: seq<ListedFile>, third: seq<ListedFile>, fourth: seq<ListedFile>)
    requires s.changeRecords != [] && ManifestOf(first).Some? && s.working != s.baseline
    requires ManifestOf(first) == ManifestOf(second) == ManifestOf(third) == ManifestOf(fourth)
    ensures var t := Approved(s, first, second, third, fourth);
            && t.baseline == s.baseline && t.working == s.working && t.source == s.source && t.temps == s.temps
            && t.baselineHashes == s.baselineHashes && t.finalHashes == HashSnapshot(s.working)
            && t.reviewed == t.finalDigest == Some(ManifestOf(first).value.digest)
  {
    var tested := TestedState(s, first, second);
    assert EvidenceOk(tested, third);
    assert EvidenceOk(DoFinalize(tested, third, true), fourth);
  }

  /** No file has changed since the start of the run, and nothing was prepared. */
  ghost predicate Unchanged(s: RunFiles, source: Tree) {
    s.working == s.baseline && s.finalDigest == None && s.source == source
  }

  lemma {:induction false} ReviewLeavesUnchanged(s: RunFiles, source: Tree, listing: seq<ListedFile>)
    requires Unchanged(s, source)
    ensures Unchanged(DoFinalize(s, listing, true), source)
  {
  }

  lemma {:induction false} PreparationIsRefused(s: RunFiles, source: Tree, listing: seq<ListedFile>)
    requires Unchanged(s, source)
    ensures Unchanged(DoPrepare(s, listing, false), source)
  {
  }

  lemma {:induction false} GateStaysClosed(s: RunFiles, source: Tree, a: Action)
    requires Unchanged(s, source) && a.Apply?
    ensures !DoApply(s, a).applied && DoApply(s, a).source == source
  {
    assert !GateOpen(s, a);
  }

  /** Without a change of the files the preparation is refused, and the gate stays closed. */
  lemma {:induction false} NothingToApprove(
    s: RunFiles, first: seq<ListedFile>, second: seq<ListedFile>, third: seq<ListedFile>, fourth: seq<ListedFile>,
    a: Action)
    requires s.working == s.baseline && s.finalDigest == None && a.Apply?
    requires s.changeRecords != [] && ManifestOf(first).Some? && ManifestOf(first) == ManifestOf(second)
    ensures var t := DoApply(Approved(s, first, second, third, fourth), a);
            !t.applied && t.source == s.source
  {
    var tested := TestedState(s, first, second);
    ReviewLeavesUnchanged(tested, s.source, third);
    PreparationIsRefused(DoFinalize(tested, third, true), s.source, fourth);
    GateStaysClosed(Approved(s, first, second, third, fourth), s.source, a);
  }

  /** The source still is the baseline, and no path that is to change is occupied by anything but a file. */
  ghost predicate SourceIsReady(s: RunFiles) {
    && s.baseline == TreeFiles(s.source) && s.baselineHashes == HashSnapshot(s.baseline)
    && forall p | InSnapshot(s.working, p) != InSnapshot(s.baseline, p) ::
         Look(s.source, p) == InSnapshot(s.baseline, p)
  }

  /** The files carry the approved identity, the source is ready, and nobody interferes. */
  lemma {:induction false} ApprovedFilesAreApplied(s: RunFiles, a: Action)
    requires a.Apply? && a.approved && ActionOk(s, a) && SourceIsReady(s)
    requires s.finalHashes == HashSnapshot(s.working) && s.baseline.Keys <= s.working.Keys
    requires ManifestOf(a.listing).Some? && s.reviewed == s.finalDigest == Some(ManifestOf(a.listing).value.digest)
    requires Quiet(a.env) && CommitRunsSmoothly(a.env)
    ensures DoApply(s, a).applied && TreeFiles(DoApply(s, a).source) == s.working
  {
    var txn := TxnOf(s, a.id, a.order);
    ApplySafety.ChangedMembers(txn, txn.order);
    ListedPathsDiffer(a.listing, s.working, Changed(txn));
    assert PreflightOk(txn, s.source);
    AppliesAsOneCompareAndSwap(txn, a.env, s.source, s.temps);
  }

  /** What the written files need, so that nothing stands in the way of the apply. */
  ghost predicate CanBeWritten(source: Tree, writes: seq<Write>) {
    forall i | 0 <= i < |writes| :: Look(source, writes[i].path).Missing? || Look(source, writes[i].path).File?
  }

  lemma {:induction false} WrittenIsReady(source: Tree, temps: Temps, writes: seq<Write>) returns (s: RunFiles)
    requires CanBeWritten(source, writes) && writes != []
    ensures s == Written(NewRun(source, temps), writes) && s.changeRecords != []
    ensures SourceIsReady(s) && s.working == FilesAfter(TreeFiles(source), writes) && s.baseline.Keys <= s.working.Keys
    ensures s.source == source && s.temps == temps && s.finalDigest == None
  {
    s := Written(NewRun(source, temps), writes);
    WritesOnlyDraft(source, temps, writes);
    forall p
      ensures p in s.baseline ==> p in s.working
      ensures InSnapshot(s.working, p) != InSnapshot(s.baseline, p) ==> Look(source, p) == InSnapshot(s.baseline, p)
    {
      WritesOnlyAdd(TreeFiles(source), writes, p);
    }
  }

  ghost predicate Readable(listing: seq<ListedFile>, files: Snapshot) {
    Lists(listing, files) && ManifestOf(listing).Some?
  }

  /**
   A run that does everything right is applied exactly if it changes anything: whatever it writes, and in
   whatever order its directories are enumerated, after a passing test run, a successful review and an
   approval the managed source files are the written ones; if these are the files it started from, the
   preparation has refused it.
   */
  lemma {:induction false} AnHonestRunIsApplied(
    source: Tree, temps: Temps, writes: seq<Write>,
    first: seq<ListedFile>, second: seq<ListedFile>, third: seq<ListedFile>, fourth: seq<ListedFile>, a: Action)
    requires writes != [] && CanBeWritten(source, writes)
    requires var files := FilesAfter(TreeFiles(source), writes);
             && Readable(first, files) && Readable(second, files) && Readable(third, files) && Readable(fourth, files)
             && a.Apply? && a.approved && Readable(a.listing, files)
             && ValidTxn(Txn(a.id, TreeFiles(source), files, a.order))
             && FreshRun(Txn(a.id, TreeFiles(source), files, a.order), temps)
    requires Quiet(a.env) && CommitRunsSmoothly(a.env)
    ensures var s := DoApply(Approved(Written(NewRun(source, temps), writes), first, second, third, fourth), a);
            && (s.applied <==> FilesAfter(TreeFiles(source), writes) != TreeFiles(source))
            && TreeFiles(s.source) == FilesAfter(TreeFiles(source), writes)
  {
    var files := FilesAfter(TreeFiles(source), writes);
    ManifestIgnoresOrder(first, second, files);
    ManifestIgnoresOrder(first, third, files);
    ManifestIgnoresOrder(first, fourth, files);
    ManifestIgnoresOrder(first, a.listing, files);
    var s := WrittenIsReady(source, temps, writes);
    if s.working == s.baseline {
      NothingToApprove(s, first, second, third, fourth, a);
    } else {
      ApprovedState(s, first, second, third, fourth);
      ApprovedFilesAreApplied(Approved(s, first, second, third, fourth), a);
    }
  }

  // ---------------------------------------------------------------- the gate in front of the real tree

  /**
   Asks for the approval and checks the evidence chain, then runs the transaction in place. A rejected diff
   touches nothing, and neither does a closed gate.
   */
  method AtomicApplyWorkspace(place: SourceTree, s: RunFiles, a: Action) returns (applied: bool)
    requires a.Apply?
    requires s.source == place.tree && s.temps == place.temps && s.log == place.log
    modifies place
    ensures place.tree == DoApply(s, a).source && place.temps == DoApply(s, a).temps
    ensures place.log == DoApply(s, a).log && applied == DoApply(s, a).applied
    ensures !a.approved || !GateOpen(s, a) ==> !applied && place.State() == old(place.State())
  {
    if !a.approved {
      return false;
    }
    if HashSnapshot(s.baseline) != s.baselineHashes {
      return false;
    }
    if HashSnapshot(s.working) != s.finalHashes {
      return false;
    }
    var current := BuildSnapshotManifest(a.listing);
    if current.None? || s.reviewed != Some(current.value.digest) {
      return false;
    }
    if s.finalDigest != Some(current.value.digest) {
      return false;
    }
    var txn := TxnOf(s, a.id, a.order);
    if !NoCaseConflict(Changed(txn)) {
      return false;
    }
    var outcome := place.ApplyLocked(txn, a.env);
    applied := outcome.Applied?;
  }
}
