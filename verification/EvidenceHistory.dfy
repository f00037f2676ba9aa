/**
 What the evidence gate stands for, told by the actions of a run: which test run the evidence comes from,
 which review and which preparation it was, that the diff was approved, and that nothing has changed since.
 */
module EvidenceHistory {
  import opened Common
  import opened ApplyTransaction
  import ApplySafety
  import opened Manifest
  import opened Evidence

  /** The run does its action `j`. */
  ghost predicate Does(actions: seq<Action>, states: seq<RunFiles>, j: nat)
    requires j < |actions| && |states| == |actions| + 1
  {
    states[j + 1] == Do(states[j], actions[j]) && ActionOk(states[j], actions[j])
  }

  /** The states a run goes through, one more than it has actions. */
  ghost predicate IsHistory(source: Tree, temps: Temps, actions: seq<Action>, states: seq<RunFiles>) {
    && |states| == |actions| + 1 && states[0] == NewRun(source, temps)
    && forall j | 0 <= j < |actions| :: Does(actions, states, j)
  }

  lemma {:induction false} OneActionFurther(s: RunFiles, actions: seq<Action>, j: nat, next: nat)
    requires next == j + 1 <= |actions|
    ensures After(s, actions[..next]) == Do(After(s, actions[..j]), actions[j])
  {
    assert actions[..next][..j] == actions[..j];
  }

  lemma {:induction false} OneActionLess(s: RunFiles, actions: seq<Action>, j: nat, next: nat)
    requires next == j + 1 <= |actions| && ActionsOk(s, actions[..next])
    ensures ActionsOk(s, actions[..j]) && ActionOk(After(s, actions[..j]), actions[j])
  {
    assert actions[..next][..j] == actions[..j];
  }

  lemma {:induction false} PrefixIsOk(s: RunFiles, actions: seq<Action>, j: nat)
    requires j <= |actions| && ActionsOk(s, actions)
    ensures ActionsOk(s, actions[..j])
    decreases |actions| - j
  {
    if j == |actions| {
      assert actions[..j] == actions;
    } else {
      PrefixIsOk(s, actions, j + 1);
      OneActionLess(s, actions, j, j + 1);
    }
  }

  /** State `j` is where the first `j` actions lead. */
  ghost predicate LeadsTo(s: RunFiles, actions: seq<Action>, states: seq<RunFiles>, j: nat)
    requires j <= |actions| && |states| == |actions| + 1
  {
    states[j] == After(s, actions[..j])
  }

  lemma {:induction false} DoesNext(s: RunFiles, actions: seq<Action>, states: seq<RunFiles>, j: nat, next: nat)
    requires next == j + 1 <= |actions| && |states| == |actions| + 1 && ActionsOk(s, actions)
    requires LeadsTo(s, actions, states, j) && LeadsTo(s, actions, states, next)
    ensures Does(actions, states, j)
  {
    PrefixIsOk(s, actions, next);
    OneActionFurther(s, actions, j, next);
    OneActionLess(s, actions, j, next);
  }

  lemma {:induction false} StatesOf(s: RunFiles, actions: seq<Action>) returns (states: seq<RunFiles>)
    ensures |states| == |actions| + 1 && states[0] == s
    ensures forall j | 0 <= j <= |actions| :: LeadsTo(s, actions, states, j)
  {
    ghost var reached := (j: nat) requires j <= |actions| => After(s, actions[..j]);
    states := seq(|actions| + 1, j requires 0 <= j <= |actions| => reached(j));
  }

  lemma {:induction false} AllDo(s: RunFiles, actions: seq<Action>, states: seq<RunFiles>)
    requires |states| == |actions| + 1 && ActionsOk(s, actions)
    requires forall j | 0 <= j <= |actions| :: LeadsTo(s, actions, states, j)
    ensures forall j | 0 <= j < |actions| :: Does(actions, states, j)
  {
    forall j | 0 <= j < |actions| ensures Does(actions, states, j) {
      DoesNext(s, actions, states, j, j + 1);
    }
  }

  /** Every permitted sequence of actions has its history, which ends where the actions lead. */
  lemma {:induction false} EveryRunHasItsHistory(source: Tree, temps: Temps, actions: seq<Action>)
    returns (states: seq<RunFiles>)
    requires ActionsOk(NewRun(source, temps), actions)
    ensures IsHistory(source, temps, actions, states)
    ensures LeadsTo(NewRun(source, temps), actions, states, |actions|) && actions[..|actions|] == actions
  {
    var s := NewRun(source, temps);
    states := StatesOf(s, actions);
    AllDo(s, actions, states);
  }

  lemma {:induction false} Moment(
    source: Tree, temps: Temps, actions: seq<Action>, states: seq<RunFiles>, i: nat, next: nat)
    returns (s: RunFiles, t: RunFiles, a: Action)
    requires IsHistory(source, temps, actions, states) && next == i + 1 <= |actions|
    ensures s == states[i] && t == states[next] && a == actions[i] && t == Do(s, a) && ActionOk(s, a)
  {
    assert Does(actions, states, i);
    s, t, a := states[i], states[next], actions[i];
  }

  // ---------------------------------------------------------------- the latest test run

  /** Action `k` is the latest test run before `n`, and nothing was written since. */
  predicate LatestTest(actions: seq<Action>, k: nat, n: nat)
    requires n <= |actions|
  {
    k < n && actions[k].RunTests? && forall j | k < j < n :: !actions[j].RunTests? && !actions[j].WriteFile?
  }

  predicate Wrote(actions: seq<Action>, n: nat)
    requires n <= |actions|
  {
    exists w | 0 <= w < n :: actions[w].WriteFile?
  }

  /** The record that a test run leaves, from the manifests taken before and after it. */
  function RunRecord(
    s: RunFiles, before: Option<SnapshotManifest>, after: Option<SnapshotManifest>,
    contract: bool, exit: Option<int>, printsMarker: bool): TestRecord
  {
    if before.None? then FailedTest(s, None, contract, printsMarker)
    else if exit.None? || after.None? then FailedTest(s, Some(before.value.digest), contract, printsMarker)
    else
      EndedTest(s, before.value.digest, before.value.digest == after.value.digest, exit.value, contract, printsMarker)
  }

  function RecordOf(s: RunFiles, a: Action): TestRecord
    requires a.RunTests?
  {
    RunRecord(s, ManifestOf(a.first), ManifestOf(a.second), a.contract, a.exit, a.printsMarker)
  }

  /** The records in the state: whether anything was written, and the record of the latest test since then. */
  ghost predicate RecordsAgree(actions: seq<Action>, states: seq<RunFiles>, n: nat)
    requires n <= |actions| && |states| == |actions| + 1
  {
    var s := states[n];
    && (s.changeRecords != [] <==> Wrote(actions, n))
    && (s.testRecords == [] <==> forall k | 0 <= k < n :: !LatestTest(actions, k, n))
    && (forall k | 0 <= k < n && LatestTest(actions, k, n) ::
          && s.testRecords != []
          && s.testRecords[|s.testRecords| - 1] == RecordOf(states[k], actions[k])
          && s.changeRecords == states[k].changeRecords)
  }

  /** Files, records and tests may differ, nothing else. */
  predicate OnlyTested(s: RunFiles, t: RunFiles) {
    && t.baseline == s.baseline && t.source == s.source && t.temps == s.temps
    && t.changeRecords == s.changeRecords && t.reviewed == s.reviewed
    && t.baselineHashes == s.baselineHashes && t.finalHashes == s.finalHashes && t.finalDigest == s.finalDigest
    && t.applied == s.applied && t.log == s.log
  }

  lemma {:induction false} RecordingOnlyTests(s: RunFiles, files: Snapshot, tests: seq<TestRun>, r: TestRecord)
    ensures OnlyTested(s, Recorded(s.(working := files), r).(tests := tests))
    ensures OnlyTested(s, Recorded(s, r))
  {
  }

  lemma {:induction false} AfterTestsFrame(
    s: RunFiles, before: Option<SnapshotManifest>, after: Option<SnapshotManifest>, files: Snapshot,
    contract: bool, exit: Option<int>, printsMarker: bool) returns (t: RunFiles)
    ensures t == AfterTests(s, before, after, files, contract, exit, printsMarker) && OnlyTested(s, t)
    ensures t.testRecords
            == MergeRecords(s.testRecords, [RunRecord(s, before, after, contract, exit, printsMarker)])
  {
    var r := RunRecord(s, before, after, contract, exit, printsMarker);
    t := AfterTests(s, before, after, files, contract, exit, printsMarker);
    RecordingOnlyTests(s, files, t.tests, r);
    assert t == if before.None? then Recorded(s, r) else Recorded(s.(working := files), r).(tests := t.tests);
  }

  lemma {:induction false} TestStep(s: RunFiles, a: Action) returns (t: RunFiles)
    requires a.RunTests?
    ensures t == DoRunTests(s, a) && OnlyTested(s, t)
    ensures t.testRecords == MergeRecords(s.testRecords, [RecordOf(s, a)])
  {
    t := AfterTestsFrame(s, ManifestOf(a.first), ManifestOf(a.second), a.after, a.contract, a.exit, a.printsMarker);
  }

  lemma {:induction false} WriteStep(s: RunFiles, a: Action) returns (t: RunFiles)
    requires a.WriteFile?
    ensures t == Do(s, a) && t.changeRecords != []
    ensures t == s.(working := t.working, changeRecords := t.changeRecords, testRecords := [])
  {
    t := DoWrite(s, a.path, a.content);
  }

  /** A review settles the digest for which the run may be applied. */
  lemma {:induction false} FinalizeStep(s: RunFiles, a: Action) returns (t: RunFiles)
    requires a.FinalizeReview? && ActionOk(s, a)
    ensures t == Do(s, a) && t == s.(reviewed := t.reviewed)
    ensures t.reviewed.Some? <==> a.marksSuccess && EvidenceOk(s, a.listing)
    ensures t.reviewed.Some? ==> Identifies(t.reviewed.value, s.working)
  {
    t := DoFinalize(s, a.listing, a.marksSuccess);
  }

  /** A preparation that is not refused fixes what the user is asked to approve. */
  predicate Prepared(s: RunFiles, t: RunFiles, prepares: bool) {
    && t == s.(finalHashes := t.finalHashes, finalDigest := t.finalDigest)
    && (if prepares then t.finalDigest.Some? && t.finalHashes == HashSnapshot(s.working) else t == s)
  }

  lemma {:induction false} PrepareStep(s: RunFiles, a: Action) returns (t: RunFiles)
    requires a.PrepareApproval? && ActionOk(s, a)
    ensures t == Do(s, a)
    ensures Prepared(s, t, !a.refused && EvidenceOk(s, a.listing) && s.working != s.baseline)
    ensures !a.refused && EvidenceOk(s, a.listing) && s.working != s.baseline ==>
              Identifies(t.finalDigest.value, s.working)
  {
    t := DoPrepare(s, a.listing, a.refused);
  }

  /** An apply changes nothing of the run's own books. */
  lemma {:induction false} ApplyStep(s: RunFiles, a: Action) returns (t: RunFiles)
    requires a.Apply?
    ensures t == Do(s, a) && t == s.(source := t.source, temps := t.temps, log := t.log, applied := t.applied)
  {
    t := DoApply(s, a);
  }

  lemma {:induction false} ForeignStep(s: RunFiles, a: Action) returns (t: RunFiles)
    requires a.TamperWorking? || a.TamperBaseline? || a.EditSource?
    ensures t == Do(s, a)
    ensures a.TamperWorking? ==> t == s.(working := a.files)
    ensures a.TamperBaseline? ==> t == s.(baseline := a.files)
    ensures a.EditSource? ==> t == s.(source := a.tree)
  {
    t := Do(s, a);
  }

  /** What an action does, field by field. */
  ghost predicate Outcome(s: RunFiles, a: Action, t: RunFiles) {
    match a
    case WriteFile(_, _) =>
      t == s.(working := t.working, changeRecords := t.changeRecords, testRecords := []) && t.changeRecords != []
    case RunTests(_, _, _, _, _, _) =>
      OnlyTested(s, t) && t.testRecords == MergeRecords(s.testRecords, [RecordOf(s, a)])
    case FinalizeReview(listing, marks) =>
      && t == s.(reviewed := t.reviewed) && (t.reviewed.Some? <==> marks && EvidenceOk(s, listing))
      && (t.reviewed.Some? ==> Identifies(t.reviewed.value, s.working))
    case PrepareApproval(listing, refused) =>
      var prepares := !refused && EvidenceOk(s, listing) && s.working != s.baseline;
      Prepared(s, t, prepares) && (prepares ==> Identifies(t.finalDigest.value, s.working))
    case Apply(_, _, _, _, _) =>
      t == s.(source := t.source, temps := t.temps, log := t.log, applied := t.applied)
    case TamperWorking(files) => t == s.(working := files)
    case TamperBaseline(files) => t == s.(baseline := files)
    case EditSource(tree) => t == s.(source := tree)
  }

  lemma {:induction false} ActionStep(s: RunFiles, a: Action) returns (t: RunFiles)
    requires ActionOk(s, a)
    ensures t == Do(s, a) && Outcome(s, a, t)
  {
    match a
    case WriteFile(_, _) => t := WriteStep(s, a);
    case RunTests(_, _, _, _, _, _) => t := TestStep(s, a);
    case FinalizeReview(_, _) => t := FinalizeStep(s, a);
    case PrepareApproval(_, _) => t := PrepareStep(s, a);
    case Apply(_, _, _, _, _) => t := ApplyStep(s, a);
    case _ => t := ForeignStep(s, a);
  }

  lemma {:induction false} RecordFacts(s: RunFiles, a: Action, t: RunFiles)
    requires Outcome(s, a, t)
    ensures a.WriteFile? ==> t.changeRecords != [] && t.testRecords == []
    ensures !a.WriteFile? ==> t.changeRecords == s.changeRecords
    ensures a.RunTests? ==> t.testRecords != [] && t.testRecords[|t.testRecords| - 1] == RecordOf(s, a)
    ensures !a.WriteFile? && !a.RunTests? ==> t.testRecords == s.testRecords
    ensures t.baselineHashes == s.baselineHashes
  {
    if a.RunTests? {
      LatestRecord(s.testRecords, RecordOf(s, a));
    }
  }

  lemma {:induction false} ApprovalFacts(s: RunFiles, a: Action, t: RunFiles)
    requires Outcome(s, a, t)
    ensures !a.FinalizeReview? ==> t.reviewed == s.reviewed
    ensures !a.PrepareApproval? ==> t.finalDigest == s.finalDigest && t.finalHashes == s.finalHashes
  {
  }

  lemma {:induction false} Turn(
    source: Tree, temps: Temps, actions: seq<Action>, states: seq<RunFiles>, i: nat, next: nat)
    returns (s: RunFiles, t: RunFiles, a: Action)
    requires IsHistory(source, temps, actions, states) && next == i + 1 <= |actions|
    ensures s == states[i] && t == states[next] && a == actions[i] && ActionOk(s, a) && Outcome(s, a, t)
  {
    s, t, a := Moment(source, temps, actions, states, i, next);
    t := ActionStep(s, a);
  }

  lemma {:induction false} LatestTestNext(actions: seq<Action>, k: nat, n: nat, next: nat)
    requires next == n + 1 <= |actions| && k < next
    ensures LatestTest(actions, k, next) <==>
            if actions[n].RunTests? then k == n else !actions[n].WriteFile? && k < n && LatestTest(actions, k, n)
  {
  }

  lemma {:induction false} WroteNext(actions: seq<Action>, n: nat, next: nat)
    requires next == n + 1 <= |actions|
    ensures Wrote(actions, next) <==> Wrote(actions, n) || actions[n].WriteFile?
  {
  }

  lemma {:induction false} RecordsAgreeNext(
    actions: seq<Action>, states: seq<RunFiles>, i: nat, n: nat, s: RunFiles, t: RunFiles, a: Action)
    requires n == i + 1 <= |actions| && |states| == |actions| + 1 && RecordsAgree(actions, states, i)
    requires s == states[i] && t == states[n] && a == actions[i]
    requires a.WriteFile? ==> t.changeRecords != [] && t.testRecords == []
    requires !a.WriteFile? ==> t.changeRecords == s.changeRecords
    requires a.RunTests? ==> t.testRecords != [] && t.testRecords[|t.testRecords| - 1] == RecordOf(s, a)
    requires !a.WriteFile? && !a.RunTests? ==> t.testRecords == s.testRecords
    ensures RecordsAgree(actions, states, n)
  {
    WroteNext(actions, i, n);
    forall k: nat | k < n
      ensures LatestTest(actions, k, n) <==>
              if a.RunTests? then k == i else !a.WriteFile? && k < i && LatestTest(actions, k, i)
    {
      LatestTestNext(actions, k, i, n);
    }
    if a.RunTests? {
      assert LatestTest(actions, i, n);
    } else if !a.WriteFile? && t.testRecords != [] {
      var k :| 0 <= k < i && LatestTest(actions, k, i);
      assert LatestTest(actions, k, n);
    }
  }

  lemma {:induction false} RecordsAlwaysAgree(
    source: Tree, temps: Temps, actions: seq<Action>, states: seq<RunFiles>, n: nat)
    requires IsHistory(source, temps, actions, states) && n <= |actions|
    ensures RecordsAgree(actions, states, n)
  {
    if n > 0 {
      var i := n - 1;
      RecordsAlwaysAgree(source, temps, actions, states, i);
      var s, t, a := Turn(source, temps, actions, states, i, n);
      RecordFacts(s, a, t);
      RecordsAgreeNext(actions, states, i, n, s, t, a);
    }
  }

  // ---------------------------------------------------------------- what the evidence means

  /** A test run that ran the behaviour contract to its end with exit code 0 and left the files as they were. */
  predicate Passes(s: RunFiles, a: Action) {
    a.RunTests? && a.contract && a.exit == Some(0) && a.after == s.working
  }

  /**
   Something was written, nothing since the latest test run, and that run passed on exactly the files of now;
   no two of their names differ only by case.
   */
  ghost predicate TestedNow(actions: seq<Action>, states: seq<RunFiles>, n: nat)
    requires n <= |actions| && |states| == |actions| + 1
  {
    && Wrote(actions, n) && !Clash(states[n].working)
    && exists k | 0 <= k < n ::
         LatestTest(actions, k, n) && Passes(states[k], actions[k]) && states[k].working == states[n].working
  }

  lemma {:induction false} PassingRecord(s: RunFiles, a: Action, now: Snapshot, listing: seq<ListedFile>)
    requires a.RunTests? && ActionOk(s, a) && Lists(listing, now) && ManifestOf(listing).Some?
    ensures var r := RecordOf(s, a);
            r.success && r.exitCode == 0 && r.stable && r.contractIncluded && r.markerPresent
            && r.snapshot == Some(ManifestOf(listing).value.digest)
            <==> Passes(s, a) && s.working == now
  {
    ManifestIsTheSortedList(listing, now);
    ManifestIsTheSortedList(a.first, s.working);
    ManifestIsTheSortedList(a.second, a.after);
    if ManifestOf(a.first).Some? && ManifestOf(a.second).Some? {
      if ManifestOf(a.first).value.digest == ManifestOf(a.second).value.digest {
        DigestDeterminesFiles(a.first, a.second, s.working, a.after);
      }
      if ManifestOf(a.first).value.digest == ManifestOf(listing).value.digest {
        DigestDeterminesFiles(a.first, listing, s.working, now);
      }
    }
    if Passes(s, a) && s.working == now {
      ManifestIgnoresOrder(a.first, listing, now);
      ManifestIgnoresOrder(a.second, listing, now);
    }
  }

  /**
   The evidence holds exactly if something was written, the latest test run came after the last write, ran the
   behaviour contract to its end with exit code 0, and the files before and after it are the files of now.
   */
  lemma {:induction false} EvidenceIff(
    source: Tree, temps: Temps, actions: seq<Action>, states: seq<RunFiles>, n: nat, listing: seq<ListedFile>)
    requires IsHistory(source, temps, actions, states) && n <= |actions| && Lists(listing, states[n].working)
    ensures EvidenceOk(states[n], listing) <==> TestedNow(actions, states, n)
  {
    RecordsAlwaysAgree(source, temps, actions, states, n);
    ManifestIsTheSortedList(listing, states[n].working);
    if ManifestOf(listing).Some? {
      if k :| 0 <= k < n && LatestTest(actions, k, n) {
        var s, t, a := Moment(source, temps, actions, states, k, k + 1);
        PassingRecord(s, a, states[n].working, listing);
        OneLatestTest(actions, k, n);
      }
    }
  }

  lemma {:induction false} OneLatestTest(actions: seq<Action>, k: nat, n: nat)
    requires n <= |actions| && LatestTest(actions, k, n)
    ensures forall j: nat | LatestTest(actions, j, n) :: j == k
  {
  }

  /** Each write replaces its file, is recorded with the hashes from before and after it, and voids the tests so far. */
  lemma {:induction false} WriteIsRecorded(
    source: Tree, temps: Temps, actions: seq<Action>, states: seq<RunFiles>, i: nat)
    requires IsHistory(source, temps, actions, states) && i < |actions| && actions[i].WriteFile?
    ensures var (s, t, a) := (states[i], states[i + 1], actions[i]);
            var before := if a.path in s.working then s.working[a.path] else Content([]);
            && t.working == s.working[a.path := a.content] && t.testRecords == []
            && t.changeRecords != []
            && t.changeRecords[|t.changeRecords| - 1] == ChangeRecord(a.path, Sha256(before), Sha256(a.content))
  {
    var s, t, a := Moment(source, temps, actions, states, i, i + 1);
    t := DoWrite(s, a.path, a.content);
  }

  /** The test process ran to its end, and both snapshots could be taken. */
  ghost predicate RanToItsEnd(s: RunFiles, a: Action)
    requires a.RunTests?
  {
    !Clash(s.working) && a.exit.Some? && !Clash(a.after)
  }

  /** What the record of a test run says about the run. */
  ghost predicate RecordTells(s: RunFiles, a: Action, r: TestRecord)
    requires a.RunTests?
  {
    && (r.success <==> RanToItsEnd(s, a) && a.exit == Some(0) && a.after == s.working)
    && (r.stable <==> RanToItsEnd(s, a) && a.after == s.working)
    && r.exitCode == (if RanToItsEnd(s, a) then a.exit.value else -1)
    && r.contractIncluded == a.contract
    && (r.markerPresent <==> r.success || a.printsMarker)
    && r.changeSet == Sha256OfRecords(s.changeRecords)
    && (r.snapshot.Some? <==> !Clash(s.working))
    && (r.snapshot.Some? ==> Identifies(r.snapshot.value, s.working))
  }

  lemma {:induction false} RunRecordTells(s: RunFiles, a: Action)
    requires a.RunTests? && ActionOk(s, a)
    ensures RecordTells(s, a, RecordOf(s, a))
  {
    ManifestIsTheSortedList(a.first, s.working);
    ManifestIsTheSortedList(a.second, a.after);
    if ManifestOf(a.first).Some? && ManifestOf(a.second).Some? {
      if ManifestOf(a.first).value.digest == ManifestOf(a.second).value.digest {
        DigestDeterminesFiles(a.first, a.second, s.working, a.after);
      }
      if a.after == s.working {
        ManifestIgnoresOrder(a.first, a.second, s.working);
      }
    }
  }

  /**
   Each test run leaves one record, which tells exactly what happened: a success only if the process ended with
   exit code 0 and changed no file, a failure if it raised or a snapshot could not be taken.
   */
  lemma {:induction false} TestIsRecorded(
    source: Tree, temps: Temps, actions: seq<Action>, states: seq<RunFiles>, i: nat)
    requires IsHistory(source, temps, actions, states) && i < |actions| && actions[i].RunTests?
    ensures states[i + 1].testRecords != []
    ensures RecordTells(states[i], actions[i], states[i + 1].testRecords[|states[i + 1].testRecords| - 1])
  {
    var s, t, a := Turn(source, temps, actions, states, i, i + 1);
    RecordFacts(s, a, t);
    RunRecordTells(s, a);
  }

  // ---------------------------------------------------------------- the latest review and the latest preparation

  /** Action `j` is the latest review before `n`. */
  predicate LatestReview(actions: seq<Action>, j: nat, n: nat)
    requires n <= |actions|
  {
    j < n && actions[j].FinalizeReview? && forall k | j < k < n :: !actions[k].FinalizeReview?
  }

  /** The preparation at `j` was not refused: the evidence held and there was a change to approve. */
  ghost predicate Prepares(actions: seq<Action>, states: seq<RunFiles>, j: nat)
    requires j < |actions| && |states| == |actions| + 1
  {
    && actions[j].PrepareApproval? && !actions[j].refused
    && TestedNow(actions, states, j) && states[j].working != states[j].baseline
  }

  ghost predicate LatestPreparation(actions: seq<Action>, states: seq<RunFiles>, j: nat, n: nat)
    requires n <= |actions| && |states| == |actions| + 1
  {
    j < n && Prepares(actions, states, j) && forall k | j < k < n :: !Prepares(actions, states, k)
  }

  /** The latest review was successful, and of the files as they are now. */
  ghost predicate ReviewedNow(actions: seq<Action>, states: seq<RunFiles>, n: nat)
    requires n <= |actions| && |states| == |actions| + 1
  {
    exists j | 0 <= j < n ::
      && LatestReview(actions, j, n) && actions[j].marksSuccess && TestedNow(actions, states, j)
      && states[j].working == states[n].working
  }

  /** What was last prepared for approval are the files as they are now. */
  ghost predicate PreparedNow(actions: seq<Action>, states: seq<RunFiles>, n: nat)
    requires n <= |actions| && |states| == |actions| + 1
  {
    exists j | 0 <= j < n :: LatestPreparation(actions, states, j, n) && states[j].working == states[n].working
  }

  /** The digest in the state is that of the files at the time of the latest review, if it was successful. */
  ghost predicate ReviewAgrees(actions: seq<Action>, states: seq<RunFiles>, n: nat)
    requires n <= |actions| && |states| == |actions| + 1
  {
    && (states[n].reviewed.Some? ==>
          exists j | 0 <= j < n ::
            && LatestReview(actions, j, n) && actions[j].marksSuccess && TestedNow(actions, states, j)
            && Identifies(states[n].reviewed.value, states[j].working))
    && (forall j | 0 <= j < n && LatestReview(actions, j, n) && actions[j].marksSuccess
                   && TestedNow(actions, states, j) :: states[n].reviewed.Some?)
  }

  ghost predicate PreparationAgrees(actions: seq<Action>, states: seq<RunFiles>, n: nat)
    requires n <= |actions| && |states| == |actions| + 1
  {
    && (states[n].finalDigest.Some? ==>
          exists j | 0 <= j < n ::
            && LatestPreparation(actions, states, j, n)
            && Identifies(states[n].finalDigest.value, states[j].working)
            && states[n].finalHashes == HashSnapshot(states[j].working))
    && (forall j | 0 <= j < n && LatestPreparation(actions, states, j, n) :: states[n].finalDigest.Some?)
  }

  lemma {:induction false} LatestReviewNext(actions: seq<Action>, j: nat, i: nat, n: nat)
    requires n == i + 1 <= |actions| && j < n
    ensures LatestReview(actions, j, n) <==>
            if actions[i].FinalizeReview? then j == i else j < i && LatestReview(actions, j, i)
  {
  }

  lemma {:induction false} ReviewAgreesNext(
    actions: seq<Action>, states: seq<RunFiles>, i: nat, n: nat, s: RunFiles, t: RunFiles, a: Action)
    requires n == i + 1 <= |actions| && |states| == |actions| + 1 && ReviewAgrees(actions, states, i)
    requires s == states[i] && t == states[n] && a == actions[i]
    requires !a.FinalizeReview? ==> t.reviewed == s.reviewed
    requires a.FinalizeReview? ==> (t.reviewed.Some? <==> a.marksSuccess && TestedNow(actions, states, i))
    requires a.FinalizeReview? && t.reviewed.Some? ==> Identifies(t.reviewed.value, s.working)
    ensures ReviewAgrees(actions, states, n)
  {
    forall j: nat | j < n
      ensures LatestReview(actions, j, n) <==>
              if a.FinalizeReview? then j == i else j < i && LatestReview(actions, j, i)
    {
      LatestReviewNext(actions, j, i, n);
    }
  }

  lemma {:induction false} ReviewAlwaysAgrees(
    source: Tree, temps: Temps, actions: seq<Action>, states: seq<RunFiles>, n: nat)
    requires IsHistory(source, temps, actions, states) && n <= |actions|
    ensures ReviewAgrees(actions, states, n)
  {
    if n > 0 {
      var i := n - 1;
      ReviewAlwaysAgrees(source, temps, actions, states, i);
      var s, t, a := Turn(source, temps, actions, states, i, n);
      ApprovalFacts(s, a, t);
      if a.FinalizeReview? {
        EvidenceIff(source, temps, actions, states, i, a.listing);
      }
      ReviewAgreesNext(actions, states, i, n, s, t, a);
    }
  }

  lemma {:induction false} LatestPreparationNext(
    actions: seq<Action>, states: seq<RunFiles>, j: nat, i: nat, n: nat)
    requires n == i + 1 <= |actions| && |states| == |actions| + 1 && j < n
    ensures LatestPreparation(actions, states, j, n) <==>
            if Prepares(actions, states, i) then j == i else j < i && LatestPreparation(actions, states, j, i)
  {
    if j == i {
      assert LatestPreparation(actions, states, j, n) <==> Prepares(actions, states, i);
    } else if Prepares(actions, states, i) {
      assert !LatestPreparation(actions, states, j, n);
    } else {
      assert LatestPreparation(actions, states, j, n) <==> LatestPreparation(actions, states, j, i);
    }
  }

  lemma {:induction false} PreparationAgreesNext(
    actions: seq<Action>, states: seq<RunFiles>, i: nat, n: nat, s: RunFiles, t: RunFiles)
    requires n == i + 1 <= |actions| && |states| == |actions| + 1 && PreparationAgrees(actions, states, i)
    requires s == states[i] && t == states[n]
    requires !Prepares(actions, states, i) ==> t.finalDigest == s.finalDigest && t.finalHashes == s.finalHashes
    requires Prepares(actions, states, i) ==>
               t.finalDigest.Some? && Identifies(t.finalDigest.value, s.working)
               && t.finalHashes == HashSnapshot(s.working)
    ensures PreparationAgrees(actions, states, n)
  {
    forall j: nat | j < n
      ensures LatestPreparation(actions, states, j, n) <==>
              if Prepares(actions, states, i) then j == i else j < i && LatestPreparation(actions, states, j, i)
    {
      LatestPreparationNext(actions, states, j, i, n);
    }
    if Prepares(actions, states, i) {
      assert LatestPreparation(actions, states, i, n);
    } else if t.finalDigest.Some? {
      var j :| 0 <= j < i && LatestPreparation(actions, states, j, i)
               && Identifies(s.finalDigest.value, states[j].working)
               && s.finalHashes == HashSnapshot(states[j].working);
      assert LatestPreparation(actions, states, j, n);
    }
  }

  lemma {:induction false} PreparationTurn(
    source: Tree, temps: Temps, actions: seq<Action>, states: seq<RunFiles>, i: nat, n: nat)
    returns (s: RunFiles, t: RunFiles)
    requires IsHistory(source, temps, actions, states) && n == i + 1 <= |actions|
    ensures s == states[i] && t == states[n]
    ensures !Prepares(actions, states, i) ==> t.finalDigest == s.finalDigest && t.finalHashes == s.finalHashes
    ensures Prepares(actions, states, i) ==>
              t.finalDigest.Some? && Identifies(t.finalDigest.value, s.working)
              && t.finalHashes == HashSnapshot(s.working)
  {
    var a;
    s, t, a := Turn(source, temps, actions, states, i, n);
    ApprovalFacts(s, a, t);
    if a.PrepareApproval? {
      EvidenceIff(source, temps, actions, states, i, a.listing);
    }
  }

  lemma {:induction false} PreparationAlwaysAgrees(
    source: Tree, temps: Temps, actions: seq<Action>, states: seq<RunFiles>, n: nat)
    requires IsHistory(source, temps, actions, states) && n <= |actions|
    ensures PreparationAgrees(actions, states, n)
  {
    if n > 0 {
      var i := n - 1;
      PreparationAlwaysAgrees(source, temps, actions, states, i);
      var s, t := PreparationTurn(source, temps, actions, states, i, n);
      PreparationAgreesNext(actions, states, i, n, s, t);
    }
  }

  lemma {:induction false} BaselineHashesStand(
    source: Tree, temps: Temps, actions: seq<Action>, states: seq<RunFiles>, n: nat)
    requires IsHistory(source, temps, actions, states) && n <= |actions|
    ensures states[n].baselineHashes == HashSnapshot(TreeFiles(source))
  {
    if n > 0 {
      BaselineHashesStand(source, temps, actions, states, n - 1);
      var s, t, a := Turn(source, temps, actions, states, n - 1, n);
      RecordFacts(s, a, t);
    }
  }

  lemma {:induction false} HashesDetermineFiles(a: Snapshot, b: Snapshot)
    requires HashSnapshot(a) == HashSnapshot(b)
    ensures a == b
  {
    assert a.Keys == HashSnapshot(a).Keys && b.Keys == HashSnapshot(b).Keys;
    forall p | p in a ensures p in b && a[p] == b[p] {
      assert p in HashSnapshot(a) && HashSnapshot(a)[p] == HashSnapshot(b)[p];
    }
  }

  // ---------------------------------------------------------------- what an open gate means

  /** Two different changed files whose names differ only by case. */
  ghost predicate ChangesClash(s: RunFiles) {
    exists p, q ::
      && p != q && Fold(p) == Fold(q)
      && InSnapshot(s.baseline, p) != InSnapshot(s.working, p) && InSnapshot(s.baseline, q) != InSnapshot(s.working, q)
  }

  lemma {:induction false} ClashIsFound(s: RunFiles, id: nat, order: seq<Path>, p: Path, q: Path)
    requires ValidTxn(TxnOf(s, id, order)) && p != q && Fold(p) == Fold(q)
    requires InSnapshot(s.baseline, p) != InSnapshot(s.working, p)
    requires InSnapshot(s.baseline, q) != InSnapshot(s.working, q)
    ensures !NoCaseConflict(Changed(TxnOf(s, id, order)))
  {
    var changed := Changed(TxnOf(s, id, order));
    ApplySafety.ChangedMembers(TxnOf(s, id, order), order);
    assert p in changed && q in changed;
    var i :| 0 <= i < |changed| && changed[i] == p;
    var j :| 0 <= j < |changed| && changed[j] == q;
    assert i < j || j < i;
  }

  lemma {:induction false} FoundIsClash(s: RunFiles, id: nat, order: seq<Path>, i: nat, j: nat)
    requires ValidTxn(TxnOf(s, id, order)) && i < j < |Changed(TxnOf(s, id, order))|
    requires Fold(Changed(TxnOf(s, id, order))[i]) == Fold(Changed(TxnOf(s, id, order))[j])
    ensures ChangesClash(s)
  {
    var changed := Changed(TxnOf(s, id, order));
    ApplySafety.ChangedMembers(TxnOf(s, id, order), order);
    var (p, q) := (changed[i], changed[j]);
    assert p in changed && q in changed && p != q;
  }

  lemma {:induction false} ChangesClashIff(s: RunFiles, id: nat, order: seq<Path>)
    requires ValidTxn(TxnOf(s, id, order))
    ensures NoCaseConflict(Changed(TxnOf(s, id, order))) <==> !ChangesClash(s)
  {
    var changed := Changed(TxnOf(s, id, order));
    if ChangesClash(s) {
      var p, q :|
        && p != q && Fold(p) == Fold(q)
        && InSnapshot(s.baseline, p) != InSnapshot(s.working, p)
        && InSnapshot(s.baseline, q) != InSnapshot(s.working, q);
      ClashIsFound(s, id, order, p, q);
    }
    if !NoCaseConflict(changed) {
      var i: nat, j: nat :| i < j < |changed| && Fold(changed[i]) == Fold(changed[j]);
      FoundIsClash(s, id, order, i, j);
    }
  }

  /** The digest of the files of now is the one on record exactly if the record is about these files. */
  lemma {:induction false} DigestIff(d: SnapshotDigest, files: Snapshot, listing: seq<ListedFile>, now: Snapshot)
    requires Identifies(d, files) && Lists(listing, now) && ManifestOf(listing).Some?
    ensures d == ManifestOf(listing).value.digest <==> files == now
  {
    var e := ManifestOf(listing).value.digest;
    assert Identifies(e, now);
    if d == e {
      IdentityIsUnique(d, files, now);
    }
    if files == now {
      var other :| Lists(other, files) && ManifestOf(other).Some? && ManifestOf(other).value.digest == d;
      ManifestIgnoresOrder(other, listing, now);
    }
  }

  lemma {:induction false} ReviewedIff(
    source: Tree, temps: Temps, actions: seq<Action>, states: seq<RunFiles>, n: nat, listing: seq<ListedFile>)
    requires IsHistory(source, temps, actions, states) && n <= |actions|
    requires Lists(listing, states[n].working) && ManifestOf(listing).Some?
    ensures states[n].reviewed == Some(ManifestOf(listing).value.digest) <==> ReviewedNow(actions, states, n)
  {
    ReviewAlwaysAgrees(source, temps, actions, states, n);
    if states[n].reviewed.Some? {
      var d := states[n].reviewed.value;
      var j :| 0 <= j < n && LatestReview(actions, j, n) && actions[j].marksSuccess && TestedNow(actions, states, j)
               && Identifies(d, states[j].working);
      DigestIff(d, states[j].working, listing, states[n].working);
      forall k: nat | k < n && LatestReview(actions, k, n) ensures k == j {
        assert !(k < j) && !(j < k);
      }
    }
  }

  lemma {:induction false} PreparedIff(
    source: Tree, temps: Temps, actions: seq<Action>, states: seq<RunFiles>, n: nat, listing: seq<ListedFile>)
    requires IsHistory(source, temps, actions, states) && n <= |actions|
    requires Lists(listing, states[n].working) && ManifestOf(listing).Some?
    ensures states[n].finalDigest == Some(ManifestOf(listing).value.digest)
            && HashSnapshot(states[n].working) == states[n].finalHashes
            <==> PreparedNow(actions, states, n)
  {
    PreparationAlwaysAgrees(source, temps, actions, states, n);
    if states[n].finalDigest.Some? {
      var d := states[n].finalDigest.value;
      var j :| 0 <= j < n && LatestPreparation(actions, states, j, n) && Identifies(d, states[j].working)
               && states[n].finalHashes == HashSnapshot(states[j].working);
      DigestIff(d, states[j].working, listing, states[n].working);
      forall k: nat | k < n && LatestPreparation(actions, states, k, n) ensures k == j {
        assert !(k < j) && !(j < k);
      }
    }
  }

  /** Everything that has to have happened before the source tree may be touched. */
  ghost predicate MayApply(source: Tree, actions: seq<Action>, states: seq<RunFiles>, n: nat)
    requires n <= |actions| && |states| == |actions| + 1
  {
    && states[n].baseline == TreeFiles(source)
    && ReviewedNow(actions, states, n) && PreparedNow(actions, states, n)
    && !ChangesClash(states[n])
  }

  /**
   The gate is open exactly if the baseline is still what the run started from, the latest review was a success
   about exactly these files, exactly these files were last prepared for approval, and no two changed files
   differ only by case.
   */
  lemma {:induction false} GateIff(
    source: Tree, temps: Temps, actions: seq<Action>, states: seq<RunFiles>, n: nat, a: Action)
    requires IsHistory(source, temps, actions, states) && n <= |actions| && a.Apply? && ActionOk(states[n], a)
    ensures GateOpen(states[n], a) <==> MayApply(source, actions, states, n)
  {
    var s := states[n];
    BaselineHashesStand(source, temps, actions, states, n);
    if HashSnapshot(s.baseline) == s.baselineHashes {
      HashesDetermineFiles(s.baseline, TreeFiles(source));
    }
    ManifestIsTheSortedList(a.listing, s.working);
    ChangesClashIff(s, a.id, a.order);
    if ManifestOf(a.listing).Some? {
      ReviewedIff(source, temps, actions, states, n, a.listing);
      PreparedIff(source, temps, actions, states, n, a.listing);
    }
  }

  // ---------------------------------------------------------------- main results

  lemma {:induction false} GatedApply(s: RunFiles, a: Action) returns (t: RunFiles)
    requires a.Apply?
    ensures t == DoApply(s, a)
    ensures !(a.approved && GateOpen(s, a)) ==> t == s.(applied := false)
    ensures a.approved && GateOpen(s, a) ==>
              var r := AtomicApply(TxnOf(s, a.id, a.order), a.env, s.source, s.temps);
              t == s.(source := r.w.tree, temps := r.w.temps, log := r.w.log, applied := r.outcome == Applied)
  {
    t := DoApply(s, a);
  }

  /**
   In every run, an apply touches the source exactly if its diff was approved and everything that has to have
   happened before has happened; then the transaction decides, and otherwise nothing changes and nothing
   counts as applied.
   */
  lemma {:induction false} AppliedIff(
    source: Tree, temps: Temps, actions: seq<Action>, states: seq<RunFiles>, n: nat)
    requires IsHistory(source, temps, actions, states) && n < |actions| && actions[n].Apply?
    ensures var (s, t, a) := (states[n], states[n + 1], actions[n]);
            if a.approved && MayApply(source, actions, states, n) then
              var r := AtomicApply(TxnOf(s, a.id, a.order), a.env, s.source, s.temps);
              t == s.(source := r.w.tree, temps := r.w.temps, log := r.w.log, applied := r.outcome == Applied)
            else t == s.(applied := false)
  {
    var s, t, a := Moment(source, temps, actions, states, n, n + 1);
    t := GatedApply(s, a);
    GateIff(source, temps, actions, states, n, a);
  }

  /** Nothing but an apply or somebody else's edit touches the source, and nothing but an apply counts as one. */
  lemma {:induction false} OnlyAppliesTouchTheSource(s: RunFiles, a: Action, t: RunFiles)
    requires !a.Apply? && Outcome(s, a, t)
    ensures t.applied == s.applied && t.temps == s.temps && t.log == s.log
    ensures !a.EditSource? ==> t.source == s.source
  {
    if a.RunTests? {
      assert OnlyTested(s, t);
    }
  }

  /** Action `j` is an approved apply with everything before it in order. */
  ghost predicate RightfulApply(source: Tree, actions: seq<Action>, states: seq<RunFiles>, j: nat)
    requires j < |actions| && |states| == |actions| + 1
  {
    actions[j].Apply? && actions[j].approved && MayApply(source, actions, states, j)
  }

  lemma {:induction false} WrongfulApplyDoesNothing(
    source: Tree, temps: Temps, actions: seq<Action>, states: seq<RunFiles>, i: nat, n: nat)
    requires IsHistory(source, temps, actions, states) && n == i + 1 <= |actions| && actions[i].Apply?
    requires !RightfulApply(source, actions, states, i)
    ensures states[n] == states[i].(applied := false)
  {
    AppliedIff(source, temps, actions, states, i);
  }

  predicate NoApplyBetween(actions: seq<Action>, j: nat, n: nat)
    requires n <= |actions|
  {
    forall k | j < k < n :: !actions[k].Apply?
  }

  lemma {:induction false} OtherActionsLeaveSource(
    source: Tree, temps: Temps, actions: seq<Action>, states: seq<RunFiles>, i: nat, n: nat)
    requires IsHistory(source, temps, actions, states) && n == i + 1 <= |actions| && !actions[i].Apply?
    ensures states[n].applied == states[i].applied && states[n].temps == states[i].temps
    ensures !actions[i].EditSource? ==> states[n].source == states[i].source
  {
    var s, t, a := Turn(source, temps, actions, states, i, n);
    OnlyAppliesTouchTheSource(s, a, t);
  }

  lemma {:induction false} AppliedByLatestApply(
    source: Tree, temps: Temps, actions: seq<Action>, states: seq<RunFiles>, n: nat) returns (j: nat)
    requires IsHistory(source, temps, actions, states) && n <= |actions| && states[n].applied
    ensures j < n && actions[j].Apply? && states[j + 1].applied && NoApplyBetween(actions, j, n)
  {
    assert n > 0;
    var i := n - 1;
    if actions[i].Apply? {
      j := i;
    } else {
      OtherActionsLeaveSource(source, temps, actions, states, i, n);
      j := AppliedByLatestApply(source, temps, actions, states, i);
    }
  }

  lemma {:induction false} AppliedIsRightful(
    source: Tree, temps: Temps, actions: seq<Action>, states: seq<RunFiles>, j: nat, next: nat)
    requires IsHistory(source, temps, actions, states) && next == j + 1 <= |actions|
    requires actions[j].Apply? && states[next].applied
    ensures RightfulApply(source, actions, states, j)
  {
    if !RightfulApply(source, actions, states, j) {
      WrongfulApplyDoesNothing(source, temps, actions, states, j, next);
    }
  }

  /** What counts as applied was applied by the latest apply, which was approved and rightful. */
  lemma {:induction false} NothingIsAppliedUnapproved(
    source: Tree, temps: Temps, actions: seq<Action>, states: seq<RunFiles>, n: nat) returns (j: nat)
    requires IsHistory(source, temps, actions, states) && n <= |actions| && states[n].applied
    ensures j < n && RightfulApply(source, actions, states, j) && NoApplyBetween(actions, j, n)
  {
    j := AppliedByLatestApply(source, temps, actions, states, n);
    AppliedIsRightful(source, temps, actions, states, j, j + 1);
  }

  /** Up to `n` there was no rightful apply, and nobody else edited the source. */
  ghost predicate SourceLeftAlone(source: Tree, actions: seq<Action>, states: seq<RunFiles>, n: nat)
    requires n <= |actions| && |states| == |actions| + 1
  {
    forall j | 0 <= j < n :: !RightfulApply(source, actions, states, j) && !actions[j].EditSource?
  }

  /** Without a rightful apply, and without others' edits, the source holds exactly what it held at the start. */
  lemma {:induction false} SourceIsLeftAlone(
    source: Tree, temps: Temps, actions: seq<Action>, states: seq<RunFiles>, n: nat)
    requires IsHistory(source, temps, actions, states) && n <= |actions|
    requires SourceLeftAlone(source, actions, states, n)
    ensures states[n].source == source && states[n].temps == temps
  {
    if n > 0 {
      var i := n - 1;
      SourceIsLeftAlone(source, temps, actions, states, i);
      if !actions[i].Apply? {
        OtherActionsLeaveSource(source, temps, actions, states, i, n);
      } else {
        WrongfulApplyDoesNothing(source, temps, actions, states, i, n);
      }
    }
  }

  lemma {:induction false} ReviewLeavesSource(s: RunFiles, listing: seq<ListedFile>, marks: bool) returns (t: RunFiles)
    ensures t == DoFinalize(s, listing, marks) && t.source == s.source && t.temps == s.temps && t.log == s.log
  {
    t := DoFinalize(s, listing, marks);
  }

  lemma {:induction false} PreparationLeavesSource(
    s: RunFiles, listing: seq<ListedFile>, refused: bool) returns (t: RunFiles)
    ensures t == DoPrepare(s, listing, refused) && t.source == s.source && t.temps == s.temps && t.log == s.log
  {
    t := DoPrepare(s, listing, refused);
  }

  /** The run of `AnHonestRunIsApplied` whose diff the user rejects leaves everything as it was. */
  lemma {:induction false} ARejectedRunChangesNothing(
    source: Tree, temps: Temps, writes: seq<Write>,
    first: seq<ListedFile>, second: seq<ListedFile>, third: seq<ListedFile>, fourth: seq<ListedFile>, a: Action)
    requires a.Apply? && !a.approved
    ensures var s := DoApply(Approved(Written(NewRun(source, temps), writes), first, second, third, fourth), a);
            !s.applied && s.source == source && s.temps == temps && s.log == []
  {
    var s := Written(NewRun(source, temps), writes);
    WritesOnlyDraft(source, temps, writes);
    var tested := TestStep(s, RunTests(true, first, second, s.working, Some(0), false));
    var reviewed := ReviewLeavesSource(tested, third, true);
    var prepared := PreparationLeavesSource(reviewed, fourth, false);
    var t := GatedApply(prepared, a);
  }
}
