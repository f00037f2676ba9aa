/**
 Whole runs of the lifecycle: the undisturbed one, and three in which a resource is lost.
 */
module LifecycleRuns {
  import opened Common
  import opened Lifecycle
  import opened LifecycleSafety
  import LifecycleRetention

  // ---------------------------------------------------------------- composing runs

  lemma {:induction false} Extend(s: Life, actions: seq<Action>, a: Action)
    ensures Run(s, actions + [a]) == Step(Run(s, actions), a)
  {
    assert (actions + [a])[..|actions + [a]| - 1] == actions;
  }

  lemma {:induction false} RunConcat(s: Life, first: seq<Action>, second: seq<Action>)
    ensures Run(s, first + second) == Run(Run(s, first), second)
  {
    if second == [] {
      assert first + second == first;
    } else {
      var shorter := second[..|second| - 1];
      RunConcat(s, first, shorter);
      assert first + second == (first + shorter) + [second[|second| - 1]];
      Extend(s, first + shorter, second[|second| - 1]);
    }
  }

  lemma {:induction false} RunOne(s: Life, a: Action)
    ensures Run(s, [a]) == Step(s, a)
  {
    assert [a][..0] == [] && Run(s, []) == s;
  }

  lemma {:induction false} RunThree(s: Life, a: Action, b: Action, c: Action)
    ensures Run(s, [a, b, c]) == Step(Step(Step(s, a), b), c)
  {
    assert [a, b, c][..2] == [a, b] && [a, b][..1] == [a] && [a][..0] == [];
    assert Run(s, [a, b]) == Step(Run(s, [a]), b);
    assert Run(s, [a]) == Step(Run(s, []), a);
  }

  // ---------------------------------------------------------------- one release

  /** One release operation of a pass: start it, let it succeed or fail, settle it. */
  function Operation(who: Who, ok: bool): seq<Action> {
    [PassStep(who, Raised, ok), PassStep(who, Raised, ok), PassStep(who, Raised, ok)]
  }

  /** What a release operation leaves behind, apart from where its pass stands. */
  function Attempted(s: Life, resource: Resource, ok: bool): Life {
    if ok then s.(flags := s.flags + {resource}, log := s.log + [Released(resource, s.producer.Alive?)])
    else AddError(s)
  }

  lemma {:induction false} FinishForgetsTheStage(s: Life, who: Who, t: Task)
    ensures Finish(SetTask(s, who, t), who) == Finish(s, who)
  {
  }

  lemma {:induction false} LastSetTaskWins(s: Life, who: Who, t: Task, u: Task)
    ensures SetTask(SetTask(s, who, t), who, u) == SetTask(s, who, u)
    ensures AddError(SetTask(s, who, t)) == SetTask(AddError(s), who, t)
  {
  }

  /** Where a pass goes next does not depend on where it stood. */
  lemma {:induction false} AdvanceForgetsTheStage(
    s: Life, who: Who, t: Task, retain: bool, resource: Resource, hold: bool)
    ensures AfterRelease(SetTask(s, who, t), who, retain, resource, hold)
            == AfterRelease(s, who, retain, resource, hold)
  {
    match resource
    case Credential =>
    case Checkpoint => LastSetTaskWins(s, who, t, Passing(retain, Releasing(Lease, hold)));
    case Lease =>
      LastSetTaskWins(s, who, t, Passing(retain, Releasing(Workspace, hold)));
      FinishForgetsTheStage(s.(flags := s.flags + {Workspace}, markedBlindly := true), who, t);
    case Workspace => FinishForgetsTheStage(s, who, t);
  }

  lemma {:induction false} StepInPass(s: Life, who: Who, ok: bool)
    requires TaskOf(s, who).Some? && TaskOf(s, who).value.Passing?
    ensures Step(s, PassStep(who, Raised, ok)) == DoPass(s, who, Raised, ok)
  {
  }

  lemma {:induction false} OperationStarts(s: Life, who: Who, retain: bool, resource: Resource, hold: bool, ok: bool)
    requires TaskOf(s, who) == Some(Passing(retain, Releasing(resource, hold))) && resource !in s.flags
    ensures var step := PassStep(who, Raised, ok);
            Step(Step(s, step), step)
            == SetTask(if ok then s.(log := s.log + [Released(resource, s.producer.Alive?)]) else s,
                       who, Passing(retain, Settling(resource, hold, ok)))
  {
    StepInPass(s, who, ok);
    StepInPass(SetTask(s, who, Passing(retain, InFlight(resource, hold))), who, ok);
  }

  lemma {:induction false} AttemptSettles(
    s: Life, u: Life, who: Who, retain: bool, resource: Resource, hold: bool, ok: bool) returns (t: Life)
    requires u == SetTask(if ok then s.(log := s.log + [Released(resource, s.producer.Alive?)]) else s,
                          who, Passing(retain, Settling(resource, hold, ok)))
    ensures t == if ok then u.(flags := u.flags + {resource}) else AddError(u)
    ensures t == SetTask(Attempted(s, resource, ok), who, Passing(retain, Settling(resource, hold, ok)))
  {
    t := if ok then u.(flags := u.flags + {resource}) else AddError(u);
  }

  lemma {:induction false} OperationSettles(
    s: Life, u: Life, who: Who, retain: bool, resource: Resource, hold: bool, ok: bool)
    requires u == SetTask(if ok then s.(log := s.log + [Released(resource, s.producer.Alive?)]) else s,
                          who, Passing(retain, Settling(resource, hold, ok)))
    ensures Step(u, PassStep(who, Raised, ok)) == AfterRelease(Attempted(s, resource, ok), who, retain, resource, hold)
  {
    var settling := Passing(retain, Settling(resource, hold, ok));
    StepInPass(u, who, ok);
    var t := AttemptSettles(s, u, who, retain, resource, hold, ok);
    AdvanceForgetsTheStage(Attempted(s, resource, ok), who, settling, retain, resource, hold);
  }

  lemma {:induction false} Operated(s: Life, who: Who, retain: bool, resource: Resource, hold: bool, ok: bool)
    requires TaskOf(s, who) == Some(Passing(retain, Releasing(resource, hold))) && resource !in s.flags
    ensures Run(s, Operation(who, ok)) == AfterRelease(Attempted(s, resource, ok), who, retain, resource, hold)
  {
    var step := PassStep(who, Raised, ok);
    RunThree(s, step, step, step);
    OperationStarts(s, who, retain, resource, hold, ok);
    OperationSettles(s, Step(Step(s, step), step), who, retain, resource, hold, ok);
  }

  /** The pass steps over a resource that an earlier pass released or marked. */
  lemma {:induction false} Skipped(s: Life, who: Who, retain: bool, resource: Resource, hold: bool, ok: bool)
    requires TaskOf(s, who) == Some(Passing(retain, Releasing(resource, hold))) && resource in s.flags
    ensures Run(s, [PassStep(who, Raised, ok)]) == AfterRelease(s, who, retain, resource, hold)
  {
    RunOne(s, PassStep(who, Raised, ok));
    StepInPass(s, who, ok);
  }

  // ---------------------------------------------------------------- the undisturbed run

  function At(resource: Resource): Task { Passing(false, Releasing(resource, false)) }

  function Following(resource: Resource): Resource {
    match resource case Credential => Checkpoint case Checkpoint => Lease case _ => Workspace
  }

  /** A release that succeeds hands over to the next one. */
  lemma {:induction false} ReleaseSucceeds(s: Life, who: Who, resource: Resource) returns (t: Life)
    requires TaskOf(s, who) == Some(At(resource)) && resource != Workspace && resource !in s.flags && s.workspace.Some?
    ensures t == Run(s, Operation(who, true))
    ensures t == SetTask(Attempted(s, resource, true), who, At(Following(resource)))
  {
    Operated(s, who, false, resource, false, true);
    t := Run(s, Operation(who, true));
  }

  /** An undisturbed pass over a run that knows its workspace releases everything and unregisters the run. */
  lemma {:induction false} UndisturbedPassReleasesEverything(s: Life, who: Who, workspace: WorkspaceId)
    requires TaskOf(s, who) == Some(At(Credential)) && s.report.Some? && s.report.value.errors == 0
    requires s.workspace == Some(workspace) && s.flags == {} && s.log == []
    ensures var go := Operation(who, true);
            var t := Run(s, go + go + go + go);
            && TaskOf(t, who) == Some(Ended) && t.report == Some(s.report.value.(complete := true))
            && t.flags == ALL_RESOURCES && t.workspace == s.workspace && t.retention == s.retention
            && t.log == [Released(Credential, s.producer.Alive?), Released(Checkpoint, s.producer.Alive?),
                         Released(Lease, s.producer.Alive?), Released(Workspace, s.producer.Alive?), Unregistered]
  {
    var go := Operation(who, true);
    var s1 := ReleaseSucceeds(s, who, Credential);
    var s2 := ReleaseSucceeds(s1, who, Checkpoint);
    var s3 := ReleaseSucceeds(s2, who, Lease);
    Operated(s3, who, false, Workspace, false, true);
    RunConcat(s, go, go);
    RunConcat(s, go + go, go);
    RunConcat(s, go + go + go, go);
  }

  // ---------------------------------------------------------------- a deferred cleanup that fails

  /** After a timeout, a deferred pass that ends incomplete is final: no later cleanup call tries again. */
  lemma {:induction false} FailedDeferredCleanupIsFinal(s: Life, actions: seq<Action>)
    requires s.main == Some(Ended) && s.deferred == Some(Ended)
    requires s.report.Some? && s.report.value.timedOut && !s.report.value.complete && !s.report.value.retained
    ensures Run(s, actions).log == s.log && Run(s, actions).flags == s.flags
    ensures var t := Run(s, actions); t.main == s.main && t.deferred == s.deferred && t.report == s.report
  {
    if actions != [] {
      FailedDeferredCleanupIsFinal(s, actions[..|actions| - 1]);
    }
  }

  /** The producer starts, the cleanup is called and gives up waiting for it. */
  const GIVING_UP := [StartProducer, CallCleanup(false), BeginCleanup]

  /** The producer ends after all, and the deferred cleanup takes over. */
  const LATE_EXIT := [ProducerTimeout, ProducerExits, ProducerJoined]

  const TIMED_OUT := Report(true, false, 0, false)

  const WAITING := NEW_LIFE.(producer := Alive, main := Some(AwaitingProducer(false)), report := Some(NEW_REPORT))

  const LEFT_BEHIND := WAITING.(producer := Exited(true), main := Some(Ended),
                                deferred := Some(AwaitingProducer(false)),
                                report := Some(Report(true, false, 1, false)))

  lemma {:induction false} CleanupWaits()
    ensures Run(NEW_LIFE, GIVING_UP) == WAITING
  {
    RunThree(NEW_LIFE, StartProducer, CallCleanup(false), BeginCleanup);
  }

  lemma {:induction false} CleanupGivesUp()
    ensures Run(WAITING, LATE_EXIT) == LEFT_BEHIND
  {
    RunThree(WAITING, ProducerTimeout, ProducerExits, ProducerJoined);
  }

  lemma {:induction false} DeferredTakesOver(workspace: WorkspaceId)
    ensures Run(LEFT_BEHIND, [ProducerAwaited(Deferred)] + [PassStep(Deferred, Found(Some(workspace)), true)])
            == LEFT_BEHIND.(report := Some(TIMED_OUT), deferred := Some(At(Credential)), workspace := Some(workspace))
  {
    var found := PassStep(Deferred, Found(Some(workspace)), true);
    RunOne(LEFT_BEHIND, ProducerAwaited(Deferred));
    var s := LEFT_BEHIND.(deferred := Some(Passing(false, NeedWorkspace)), report := Some(TIMED_OUT));
    assert Run(LEFT_BEHIND, [ProducerAwaited(Deferred)]) == s;
    RunOne(s, found);
    RunConcat(LEFT_BEHIND, [ProducerAwaited(Deferred)], [found]);
  }

  function DeferredStart(workspace: WorkspaceId): seq<Action> {
    GIVING_UP + LATE_EXIT + ([ProducerAwaited(Deferred)] + [PassStep(Deferred, Found(Some(workspace)), true)])
  }

  lemma {:induction false} DeferredPassBegins(workspace: WorkspaceId)
    ensures Run(NEW_LIFE, DeferredStart(workspace))
            == LEFT_BEHIND.(report := Some(TIMED_OUT), deferred := Some(At(Credential)), workspace := Some(workspace))
  {
    var last := [ProducerAwaited(Deferred)] + [PassStep(Deferred, Found(Some(workspace)), true)];
    CleanupWaits();
    CleanupGivesUp();
    DeferredTakesOver(workspace);
    RunConcat(NEW_LIFE, GIVING_UP, LATE_EXIT);
    RunConcat(NEW_LIFE, GIVING_UP + LATE_EXIT, last);
  }

  lemma {:induction false} TwoReleasesPass(s: Life)
    requires s.deferred == Some(At(Credential)) && s.flags == {} && s.log == []
    ensures var go := Operation(Deferred, true);
            Run(s, go + go) == s.(deferred := Some(At(Lease)), flags := {Credential, Checkpoint},
                                  log := [Released(Credential, s.producer.Alive?),
                                          Released(Checkpoint, s.producer.Alive?)])
  {
    var go := Operation(Deferred, true);
    Operated(s, Deferred, false, Credential, false, true);
    var s1 := Run(s, go);
    Operated(s1, Deferred, false, Checkpoint, false, true);
    RunConcat(s, go, go);
  }

  lemma {:induction false} AfterTheLease(s: Life, workspace: WorkspaceId)
    requires s.workspace == Some(workspace) && s.report == Some(TIMED_OUT)
    ensures AfterRelease(Attempted(s, Lease, false), Deferred, false, Lease, false)
            == s.(deferred := Some(At(Workspace)), report := Some(TIMED_OUT.(errors := 1)))
  {
  }

  lemma {:induction false} LeaseFails(s: Life, workspace: WorkspaceId)
    requires s.deferred == Some(At(Lease)) && Lease !in s.flags
    requires s.workspace == Some(workspace) && s.report == Some(TIMED_OUT)
    ensures Run(s, Operation(Deferred, false))
            == s.(deferred := Some(At(Workspace)), report := Some(TIMED_OUT.(errors := 1)))
  {
    Operated(s, Deferred, false, Lease, false, false);
    AfterTheLease(s, workspace);
  }

  lemma {:induction false} WorkspaceIsLast(s: Life)
    requires s.deferred == Some(At(Workspace)) && Workspace !in s.flags && s.report == Some(TIMED_OUT.(errors := 1))
    ensures Run(s, Operation(Deferred, true))
            == s.(deferred := Some(Ended), flags := s.flags + {Workspace},
                  log := s.log + [Released(Workspace, s.producer.Alive?)])
  {
    Operated(s, Deferred, false, Workspace, false, true);
  }

  /** The release of the lease fails, that of the workspace succeeds, and the pass ends incomplete. */
  lemma {:induction false} DeferredPassFails(s: Life, workspace: WorkspaceId)
    requires s.deferred == Some(At(Lease)) && s.flags == {Credential, Checkpoint}
    requires s.workspace == Some(workspace) && s.report == Some(TIMED_OUT)
    ensures Run(s, Operation(Deferred, false) + Operation(Deferred, true))
            == s.(deferred := Some(Ended), report := Some(TIMED_OUT.(errors := 1)),
                  flags := s.flags + {Workspace}, log := s.log + [Released(Workspace, s.producer.Alive?)])
  {
    LeaseFails(s, workspace);
    WorkspaceIsLast(Run(s, Operation(Deferred, false)));
    RunConcat(s, Operation(Deferred, false), Operation(Deferred, true));
  }

  /**
   Such a run exists: the producer times out, the deferred cleanup fails to release the lease, and from
   then on nothing that anybody does releases it or takes the run out of the registry.
   */
  lemma {:induction false} FailedDeferredCleanupKeepsTheLease(workspace: WorkspaceId, after: seq<Action>)
    returns (before: seq<Action>)
    ensures var s := Run(NEW_LIFE, before);
            && s.main == Some(Ended) && s.deferred == Some(Ended)
            && s.report.Some? && s.report.value.timedOut && !s.report.value.complete && !s.report.value.retained
    ensures var t := Run(NEW_LIFE, before + after);
            Count(t.log, Lease) == 0 && Lease !in t.flags && Unregistered !in t.log
  {
    var start := DeferredStart(workspace);
    var go, fail := Operation(Deferred, true), Operation(Deferred, false);
    DeferredPassBegins(workspace);
    var s := Run(NEW_LIFE, start);
    TwoReleasesPass(s);
    RunConcat(NEW_LIFE, start, go + go);
    DeferredPassFails(Run(NEW_LIFE, start + (go + go)), workspace);
    before := start + (go + go) + (fail + go);
    RunConcat(NEW_LIFE, start + (go + go), fail + go);
    RunConcat(NEW_LIFE, before, after);
    FailedDeferredCleanupIsFinal(Run(NEW_LIFE, before), after);
    AlwaysInvariant(before + after);
    assert EffectOk(Run(NEW_LIFE, before + after), Lease);
  }

  // ---------------------------------------------------------------- a retention that is overridden

  /** The producer stores its retention, and the cleanup that is to honour it waits for the producer. */
  function AskedToRetain(r: HitlRetention): seq<Action> {
    [StartProducer, RetainForHitl(r), CallCleanup(true)] + [BeginCleanup]
  }

  function Kept(r: HitlRetention): Life {
    NEW_LIFE.(producer := Alive, workspace := Some(r.workspace), retention := Some(r),
              main := Some(AwaitingProducer(true)), report := Some(NEW_REPORT))
  }

  function KeptTooLong(r: HitlRetention): Life {
    Kept(r).(producer := Exited(true), main := Some(Ended), deferred := Some(AwaitingProducer(false)),
             report := Some(Report(true, false, 1, false)))
  }

  const DEFERRED_BEGINS := [ProducerAwaited(Deferred)] + [PassStep(Deferred, Raised, true)]

  lemma {:induction false} RetentionIsStored(r: HitlRetention)
    requires ValidRetention(r)
    ensures Run(NEW_LIFE, AskedToRetain(r)) == Kept(r)
  {
    var first := [StartProducer, RetainForHitl(r), CallCleanup(true)];
    RunThree(NEW_LIFE, StartProducer, RetainForHitl(r), CallCleanup(true));
    assert Run(NEW_LIFE, first) == Kept(r).(main := Some(Created(true)), report := None);
    RunOne(Run(NEW_LIFE, first), BeginCleanup);
    RunConcat(NEW_LIFE, first, [BeginCleanup]);
  }

  lemma {:induction false} DeferredIgnoresRetention(r: HitlRetention)
    ensures Run(KeptTooLong(r), DEFERRED_BEGINS)
            == KeptTooLong(r).(deferred := Some(At(Credential)), report := Some(TIMED_OUT))
  {
    var s := KeptTooLong(r).(deferred := Some(Passing(false, NeedWorkspace)), report := Some(TIMED_OUT));
    RunOne(KeptTooLong(r), ProducerAwaited(Deferred));
    assert Run(KeptTooLong(r), [ProducerAwaited(Deferred)]) == s;
    RunOne(s, PassStep(Deferred, Raised, true));
    RunConcat(KeptTooLong(r), [ProducerAwaited(Deferred)], [PassStep(Deferred, Raised, true)]);
  }

  lemma {:induction false} TimeoutComesFirst(r: HitlRetention)
    requires ValidRetention(r)
    ensures Run(NEW_LIFE, AskedToRetain(r) + LATE_EXIT + DEFERRED_BEGINS)
            == KeptTooLong(r).(deferred := Some(At(Credential)), report := Some(TIMED_OUT))
  {
    RetentionIsStored(r);
    RunThree(Kept(r), ProducerTimeout, ProducerExits, ProducerJoined);
    RunConcat(NEW_LIFE, AskedToRetain(r), LATE_EXIT);
    DeferredIgnoresRetention(r);
    RunConcat(NEW_LIFE, AskedToRetain(r) + LATE_EXIT, DEFERRED_BEGINS);
  }

  /**
   A producer timeout overrides a valid retention: a run whose every cleanup call asked to retain, and whose
   retention is valid and names its workspace to the end, and yet all four resources are released and the run
   is gone from the registry.
   */
  lemma {:induction false} TimeoutOverridesRetention(r: HitlRetention) returns (actions: seq<Action>)
    requires ValidRetention(r)
    ensures NoTerminalCleanup(actions)
    ensures var s := Run(NEW_LIFE, actions);
            && s.retention == Some(r) && LifecycleRetention.Matching(s)
            && s.log == [Released(Credential, false), Released(Checkpoint, false), Released(Lease, false),
                         Released(Workspace, false), Unregistered]
  {
    var begin, go := AskedToRetain(r) + LATE_EXIT + DEFERRED_BEGINS, Operation(Deferred, true);
    actions := begin + (go + go + go + go);
    TimeoutComesFirst(r);
    UndisturbedPassReleasesEverything(Run(NEW_LIFE, begin), Deferred, r.workspace);
    RunConcat(NEW_LIFE, begin, go + go + go + go);
  }

  // ---------------------------------------------------------------- a workspace that is leaked

  /**
   Discovery reads the checkpoint: it can find a workspace only while no release of the checkpoint has
   taken effect.
   */
  predicate FindsThroughCheckpoint(actions: seq<Action>) {
    forall i | 0 <= i < |actions| && actions[i].PassStep? && actions[i].discovery.Found? ::
      actions[i].discovery.workspace.Some? ==> Count(Run(NEW_LIFE, actions[..i]).log, Checkpoint) == 0
  }

  /** The producer runs and ends, and the cleanup begins. */
  const FINISHED := [StartProducer, ProducerExits, ProducerJoined]

  const CLEANING := [CallCleanup(false), BeginCleanup, ProducerAwaited(Main)]

  const GONE := NEW_LIFE.(producer := Exited(true))

  lemma {:induction false} ProducerFinishes()
    ensures Run(NEW_LIFE, FINISHED) == GONE
  {
    RunThree(NEW_LIFE, StartProducer, ProducerExits, ProducerJoined);
  }

  /** A cleanup call and its first steps, up to the discovery of the workspace. */
  lemma {:induction false} CleaningBegins(s: Life)
    requires NeedsNewTask(s, false) && s.producer == Exited(true)
    ensures Run(s, CLEANING) == s.(main := Some(Passing(false, NeedWorkspace)), report := Some(NEW_REPORT))
  {
    RunThree(s, CallCleanup(false), BeginCleanup, ProducerAwaited(Main));
    var created := s.(main := Some(Created(false)));
    assert Step(s, CallCleanup(false)) == created;
    var waiting := s.(main := Some(AwaitingProducer(false)), report := Some(NEW_REPORT));
    assert Step(created, BeginCleanup) == waiting;
  }

  lemma {:induction false} BlindPassBegins()
    ensures Run(NEW_LIFE, FINISHED + CLEANING + [PassStep(Main, Raised, true)])
            == GONE.(main := Some(At(Credential)), report := Some(NEW_REPORT.(errors := 1)))
  {
    ProducerFinishes();
    CleaningBegins(GONE);
    RunConcat(NEW_LIFE, FINISHED, CLEANING);
    RunOne(Run(NEW_LIFE, FINISHED + CLEANING), PassStep(Main, Raised, true));
    RunConcat(NEW_LIFE, FINISHED + CLEANING, [PassStep(Main, Raised, true)]);
  }

  /** A pass without a workspace, in which the checkpoint cannot be deleted, marks the workspace all the same. */
  lemma {:induction false} BlindPass(s: Life)
    requires s.main == Some(At(Credential)) && s.flags == {} && s.log == []
    requires s.workspace.None? && s.report == Some(NEW_REPORT.(errors := 1))
    ensures var go, fail := Operation(Main, true), Operation(Main, false);
            Run(s, go + fail + go)
            == s.(main := Some(Ended), report := Some(NEW_REPORT.(errors := 2)), markedBlindly := true,
                  flags := {Credential, Lease, Workspace},
                  log := [Released(Credential, s.producer.Alive?), Released(Lease, s.producer.Alive?)])
  {
    var go, fail := Operation(Main, true), Operation(Main, false);
    Operated(s, Main, false, Credential, false, true);
    var s1 := Run(s, go);
    Operated(s1, Main, false, Checkpoint, false, false);
    RunConcat(s, go, fail);
    var s2 := Run(s1, fail);
    Operated(s2, Main, false, Lease, false, true);
    RunConcat(s, go + fail, go);
    assert Run(s2, go).flags == {Credential, Lease, Workspace};
  }

  lemma {:induction false} RetryBegins(s: Life, workspace: WorkspaceId)
    requires s.main == Some(Ended) && s.report == Some(NEW_REPORT.(errors := 2))
    requires s.workspace.None? && s.producer == Exited(true)
    ensures Run(s, CLEANING + [PassStep(Main, Found(Some(workspace)), true)])
            == s.(main := Some(At(Credential)), report := Some(NEW_REPORT), workspace := Some(workspace))
    ensures Run(s, CLEANING).log == s.log
  {
    CleaningBegins(s);
    RunOne(Run(s, CLEANING), PassStep(Main, Found(Some(workspace)), true));
    RunConcat(s, CLEANING, [PassStep(Main, Found(Some(workspace)), true)]);
  }

  /** The retry deletes the checkpoint, steps over everything else and drops the run. */
  lemma {:induction false} RetryForgetsTheWorkspace(s: Life, workspace: WorkspaceId)
    requires s.main == Some(At(Credential)) && s.report == Some(NEW_REPORT) && s.workspace == Some(workspace)
    requires s.flags == {Credential, Lease, Workspace}
    ensures var go, skip := Operation(Main, true), [PassStep(Main, Raised, true)];
            var t := Run(s, skip + go + skip + skip);
            && t.workspace == Some(workspace)
            && t.log == s.log + [Released(Checkpoint, s.producer.Alive?)] + [Unregistered]
  {
    var go, skip := Operation(Main, true), [PassStep(Main, Raised, true)];
    Skipped(s, Main, false, Credential, false, true);
    var s1 := Run(s, skip);
    Operated(s1, Main, false, Checkpoint, false, true);
    RunConcat(s, skip, go);
    var s2 := Run(s1, go);
    Skipped(s2, Main, false, Lease, false, true);
    RunConcat(s, skip + go, skip);
    var s3 := Run(s2, skip);
    Skipped(s3, Main, false, Workspace, false, true);
    RunConcat(s, skip + go + skip, skip);
  }

  lemma {:induction false} NoneFound(actions: seq<Action>, more: seq<Action>)
    requires FindsThroughCheckpoint(actions)
    requires forall i | 0 <= i < |more| :: more[i].PassStep? ==> more[i].discovery.Raised?
    ensures FindsThroughCheckpoint(actions + more)
  {
    forall i | 0 <= i < |actions + more| && (actions + more)[i].PassStep? && (actions + more)[i].discovery.Found?
      ensures (actions + more)[..i] == actions[..i] && i < |actions|
    {
    }
  }

  lemma {:induction false} OneFound(actions: seq<Action>, a: Action)
    requires FindsThroughCheckpoint(actions) && Count(Run(NEW_LIFE, actions).log, Checkpoint) == 0
    ensures FindsThroughCheckpoint(actions + [a])
  {
    var more := actions + [a];
    forall i | 0 <= i < |more| && more[i].PassStep? && more[i].discovery.Found? && more[i].discovery.workspace.Some?
      ensures Count(Run(NEW_LIFE, more[..i]).log, Checkpoint) == 0
    {
      if i < |actions| {
        assert more[..i] == actions[..i] && more[i] == actions[i];
      } else {
        assert more[..i] == actions;
      }
    }
  }

  lemma {:induction false} TwoReleases(a: Event, b: Event, resource: Resource)
    ensures Count([a, b], resource) == Count([a], resource) + Count([b], resource)
    ensures Count([a], resource) == if a.Released? && a.resource == resource then 1 else 0
  {
    assert [a, b] == [a] + [b] && [a] == [] + [a] && [b] == [] + [b];
    CountSnoc([], a, resource);
    CountSnoc([], b, resource);
    CountSnoc([a], b, resource);
  }

  /** The first pass: discovery raises, the checkpoint stays, and the workspace is marked as cleaned. */
  lemma {:induction false} FirstPassMarks() returns (actions: seq<Action>)
    ensures FindsThroughCheckpoint(actions)
    ensures Run(NEW_LIFE, actions)
            == GONE.(main := Some(Ended), report := Some(NEW_REPORT.(errors := 2)),
                     markedBlindly := true, flags := {Credential, Lease, Workspace},
                     log := [Released(Credential, false), Released(Lease, false)])
  {
    var go, fail := Operation(Main, true), Operation(Main, false);
    var start := FINISHED + CLEANING + [PassStep(Main, Raised, true)];
    BlindPassBegins();
    BlindPass(Run(NEW_LIFE, start));
    RunConcat(NEW_LIFE, start, go + fail + go);
    actions := start + (go + fail + go);
    assert forall i | 0 <= i < |actions| :: actions[i].PassStep? ==> actions[i].discovery.Raised?;
    NoneFound([], actions);
    assert [] + actions == actions;
  }

  /**
   A workspace can be leaked: its discovery raises in a pass that cannot delete the checkpoint either, and
   succeeds in the retry, through the checkpoint that is still there. The run then leaves the registry
   while the workspace it knows was never released.
   */
  lemma {:induction false} LateDiscoveryLeaksTheWorkspace(workspace: WorkspaceId) returns (actions: seq<Action>)
    ensures FindsThroughCheckpoint(actions)
    ensures var s := Run(NEW_LIFE, actions);
            s.workspace == Some(workspace) && Unregistered in s.log && Count(s.log, Workspace) == 0
  {
    var first := FirstPassMarks();
    var s1 := Run(NEW_LIFE, first);
    var found := PassStep(Main, Found(Some(workspace)), true);
    RetryBegins(s1, workspace);
    RunConcat(NEW_LIFE, first, CLEANING + [found]);
    assert first + (CLEANING + [found]) == first + CLEANING + [found];
    NoneFound(first, CLEANING);
    RunConcat(NEW_LIFE, first, CLEANING);
    TwoReleases(Released(Credential, false), Released(Lease, false), Checkpoint);
    TwoReleases(Released(Lease, false), Released(Lease, false), Checkpoint);
    OneFound(first + CLEANING, found);
    var s2 := Run(NEW_LIFE, first + CLEANING + [found]);
    var go, skip := Operation(Main, true), [PassStep(Main, Raised, true)];
    var last := skip + go + skip + skip;
    RetryForgetsTheWorkspace(s2, workspace);
    RunConcat(NEW_LIFE, first + CLEANING + [found], last);
    NoneFound(first + CLEANING + [found], last);
    actions := first + CLEANING + [found] + last;
    TwoReleases(Released(Credential, false), Released(Lease, false), Workspace);
    TwoReleases(Released(Lease, false), Released(Lease, false), Workspace);
    CountSnoc(s2.log, Released(Checkpoint, false), Workspace);
    CountSnoc(s2.log + [Released(Checkpoint, false)], Unregistered, Workspace);
  }
}
