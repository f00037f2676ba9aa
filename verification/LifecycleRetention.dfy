/**
 The retention of a run for human approval, over every interleaving: when it keeps what it was meant to
 keep, and when it does not.
 */
module LifecycleRetention {
  import opened Common
  import opened Lifecycle
  import opened LifecycleSafety

  predicate Matching(s: Life) {
    s.retention.Some? && ValidRetention(s.retention.value) && s.workspace == Some(s.retention.value.workspace)
  }

  predicate OnlyCredential(log: seq<Event>) {
    forall i | 0 <= i < |log| :: log[i] == Released(Credential, false)
  }

  // ---------------------------------------------------------------- what runs without a terminal cleanup keep

  predicate AsksToRetain(t: Option<Task>) {
    t.Some? && !t.value.Ended? ==> t.value.retain
  }

  /** A retention is valid, names a workspace, and was stored by a producer. */
  predicate RetentionOk(s: Life) {
    && (s.producer.NotStarted? ==> s.retention.None?)
    && (s.retention.Some? ==> ValidRetention(s.retention.value) && s.workspace.Some? && !s.markedBlindly)
  }

  /** As long as a producer may store a retention, no pass has begun. */
  predicate NothingYet(s: Life) {
    s.producer.Alive? || s.main.None? ==>
      && s.log == [] && s.flags == {} && CurrentStage(s).None? && !s.markedBlindly
      && (s.main == Some(Ended) ==> ReportOf(s).timedOut)
  }

  /** A timeout ends the cleanup for good, and a deferred pass that completes unregisters the run. */
  predicate TimeoutOk(s: Life) {
    && (ReportOf(s).timedOut ==> s.main == Some(Ended) && s.deferred.Some?)
    && (ReportOf(s).timedOut && ReportOf(s).complete ==> Unregistered in s.log)
  }

  /** Without a timeout a matching retention has been honoured so far. */
  predicate Honoured(s: Life) {
    Matching(s) && !ReportOf(s).timedOut ==>
      && OnlyCredential(s.log)
      && (InPass(s.main) ==> s.main.value.stage.NeedWorkspace? || Held(s.main.value.stage))
      && (s.main == Some(Ended) ==> ReportOf(s).retained)
  }

  ghost predicate RetentionInvariant(s: Life) {
    && Invariant(s) && RetentionOk(s) && NothingYet(s) && TimeoutOk(s) && AsksToRetain(s.main) && Honoured(s)
  }

  lemma {:induction false} ProducerStepKeeps(s: Life, a: Action)
    requires RetentionInvariant(s)
    requires a.StartProducer? || a.SetWorkspace? || a.RetainForHitl? || a.ProducerExits? || a.ProducerJoined?
    ensures var t := Step(s, a);
            RetentionOk(t) && NothingYet(t) && TimeoutOk(t) && AsksToRetain(t.main) && Honoured(t)
  {
  }

  lemma {:induction false} CleanupStepKeeps(s: Life, a: Action)
    requires RetentionInvariant(s) && a != CallCleanup(false)
    requires a.CallCleanup? || a.BeginCleanup? || a.ProducerTimeout? || a.ProducerAwaited?
    ensures var t := Step(s, a);
            RetentionOk(t) && NothingYet(t) && TimeoutOk(t) && AsksToRetain(t.main) && Honoured(t)
  {
  }

  /** What a pass leaves alone: the producer, the retention, a known workspace, and the past. */
  predicate PassFrame(s: Life, t: Life) {
    && t.producer == s.producer && t.retention == s.retention && s.log <= t.log
    && (s.workspace.Some? ==> t.workspace == s.workspace && t.markedBlindly == s.markedBlindly)
    && ReportOf(t).timedOut == ReportOf(s).timedOut
  }

  /** The task goes on with its pass, or ends; the other task is left alone. */
  predicate TaskFrame(s: Life, t: Life, who: Who, retain: bool) {
    && (TaskOf(t, who) == Some(Ended) || (InPass(TaskOf(t, who)) && TaskOf(t, who).value.retain == retain))
    && (if who.Main? then t.deferred == s.deferred else t.main == s.main)
  }

  /** A step from `s` to `t` that completes the report unregisters the run. */
  predicate CompletesRight(s: Life, t: Life) {
    ReportOf(t).complete ==> ReportOf(s).complete || Unregistered in t.log
  }

  lemma {:induction false} FinishFrame(s: Life, who: Who, retain: bool)
    ensures PassFrame(s, Finish(s, who)) && TaskFrame(s, Finish(s, who), who, retain)
    ensures CompletesRight(s, Finish(s, who))
  {
    var t := Finish(s, who);
    if ReportOf(t).complete {
      assert t.log[|s.log|] == Unregistered;
    }
  }

  lemma {:induction false} GoOnFrame(s: Life, who: Who, retain: bool, stage: Stage)
    ensures var t := SetTask(s, who, Passing(retain, stage));
            PassFrame(s, t) && TaskFrame(s, t, who, retain) && CompletesRight(s, t)
  {
  }

  lemma {:induction false} FrameTwice(s: Life, s1: Life, t: Life, who: Who, retain: bool)
    requires PassFrame(s, s1) && ReportOf(s1).complete == ReportOf(s).complete
    requires s1.main == s.main && s1.deferred == s.deferred
    requires PassFrame(s1, t) && TaskFrame(s1, t, who, retain) && CompletesRight(s1, t)
    ensures PassFrame(s, t) && TaskFrame(s, t, who, retain) && CompletesRight(s, t)
  {
  }

  lemma {:induction false} AfterCredentialFrame(s: Life, who: Who, retain: bool, hold: bool)
    ensures var t := AfterRelease(s, who, retain, Credential, hold);
            PassFrame(s, t) && TaskFrame(s, t, who, retain) && (!hold ==> CompletesRight(s, t))
  {
    var s1 := if retain then AddError(s) else s;
    GoOnFrame(s1, who, retain, Releasing(Checkpoint, false));
    FrameTwice(s, s1, SetTask(s1, who, Passing(retain, Releasing(Checkpoint, false))), who, retain);
  }

  lemma {:induction false} AfterLeaseFrame(s: Life, who: Who, retain: bool, hold: bool)
    ensures var t := AfterRelease(s, who, retain, Lease, hold);
            PassFrame(s, t) && TaskFrame(s, t, who, retain) && CompletesRight(s, t)
  {
    if s.workspace.Some? {
      GoOnFrame(s, who, retain, Releasing(Workspace, hold));
    } else {
      var s1 := s.(flags := s.flags + {Workspace}, markedBlindly := true);
      FinishFrame(s1, who, retain);
      FrameTwice(s, s1, Finish(s1, who), who, retain);
    }
  }

  lemma {:induction false} AdvanceFrame(s: Life, who: Who, retain: bool, resource: Resource, hold: bool)
    ensures var t := AfterRelease(s, who, retain, resource, hold);
            PassFrame(s, t) && TaskFrame(s, t, who, retain) && (!hold ==> CompletesRight(s, t))
  {
    match resource
    case Credential => AfterCredentialFrame(s, who, retain, hold);
    case Checkpoint => GoOnFrame(s, who, retain, Releasing(Lease, hold));
    case Lease => AfterLeaseFrame(s, who, retain, hold);
    case Workspace => FinishFrame(s, who, retain);
  }

  lemma {:induction false} SettleFrame(s: Life, who: Who, retain: bool, resource: Resource, hold: bool, ok: bool)
    ensures var s1 := if ok then s.(flags := s.flags + {resource}) else AddError(s);
            var t := AfterRelease(s1, who, retain, resource, hold);
            PassFrame(s, t) && TaskFrame(s, t, who, retain) && (!hold ==> CompletesRight(s, t))
  {
    var s1 := if ok then s.(flags := s.flags + {resource}) else AddError(s);
    AdvanceFrame(s1, who, retain, resource, hold);
    if !hold {
      FrameTwice(s, s1, AfterRelease(s1, who, retain, resource, hold), who, retain);
    }
  }

  lemma {:induction false} QuietFrame(s: Life, who: Who, discovery: Discovery, ok: bool)
    requires InPass(TaskOf(s, who))
    requires TaskOf(s, who).value.stage.NeedWorkspace? || TaskOf(s, who).value.stage.InFlight?
    ensures var t := DoPass(s, who, discovery, ok);
            PassFrame(s, t) && TaskFrame(s, t, who, TaskOf(s, who).value.retain) && CompletesRight(s, t)
  {
  }

  /** One step of a pass: its frame, and when it can complete the report. */
  lemma {:induction false} StepOfPass(s: Life, who: Who, discovery: Discovery, ok: bool) returns (t: Life)
    requires InPass(TaskOf(s, who))
    ensures t == DoPass(s, who, discovery, ok)
    ensures PassFrame(s, t) && TaskFrame(s, t, who, TaskOf(s, who).value.retain)
    ensures !Held(TaskOf(s, who).value.stage) ==> CompletesRight(s, t)
  {
    var Passing(retain, stage) := TaskOf(s, who).value;
    t := DoPass(s, who, discovery, ok);
    match stage
    case Releasing(resource, hold) =>
      AdvanceFrame(s, who, retain, resource, hold);
      GoOnFrame(s, who, retain, InFlight(resource, hold));
    case Settling(resource, hold, succeeded) => SettleFrame(s, who, retain, resource, hold, succeeded);
    case _ => QuietFrame(s, who, discovery, ok);
  }

  /** A pass of the cleanup task that was to honour a matching retention goes on doing so. */
  lemma {:induction false} PassHonours(s: Life, a: Action)
    requires RetentionInvariant(s) && a.PassStep? && a.who.Main? && Enabled(s, a) && Matching(s)
    ensures Retaining(Step(s, a)) && OnlyCredential(Step(s, a).log)
  {
    PassFacts(s, Main);
    if s.main.value.stage.NeedWorkspace? {
      ValidRetentionIsHeld(s, a.discovery, a.ok);
      assert Step(s, a).log == s.log;
    } else {
      RetainingPass(s, a);
    }
  }

  lemma {:induction false} MainPassKeeps(s: Life, a: Action)
    requires RetentionInvariant(s) && a.PassStep? && a.who.Main? && Enabled(s, a)
    ensures var t := Step(s, a);
            RetentionOk(t) && NothingYet(t) && TimeoutOk(t) && AsksToRetain(t.main) && Honoured(t)
  {
    PassFacts(s, Main);
    var t := StepOfPass(s, Main, a.discovery, a.ok);
    assert t == Step(s, a);
    if Matching(t) && !ReportOf(t).timedOut {
      assert Matching(s);
      PassHonours(s, a);
    }
  }

  lemma {:induction false} DeferredPassKeeps(s: Life, a: Action)
    requires RetentionInvariant(s) && a.PassStep? && a.who.Deferred? && Enabled(s, a)
    ensures var t := Step(s, a);
            RetentionOk(t) && NothingYet(t) && TimeoutOk(t) && AsksToRetain(t.main) && Honoured(t)
  {
    PassFacts(s, Deferred);
    var t := StepOfPass(s, Deferred, a.discovery, a.ok);
    assert t == Step(s, a);
  }

  lemma {:induction false} StepKeepsRetention(s: Life, a: Action)
    requires RetentionInvariant(s) && a != CallCleanup(false)
    ensures RetentionInvariant(Step(s, a))
  {
    StepKeepsInvariant(s, a);
    if a.PassStep? && Enabled(s, a) {
      if a.who.Main? {
        MainPassKeeps(s, a);
      } else {
        DeferredPassKeeps(s, a);
      }
    } else if a.CallCleanup? || a.BeginCleanup? || a.ProducerTimeout? || a.ProducerAwaited? {
      CleanupStepKeeps(s, a);
    } else if !a.PassStep? {
      ProducerStepKeeps(s, a);
    }
  }

  lemma {:induction false} AlwaysRetention(actions: seq<Action>)
    requires NoTerminalCleanup(actions)
    ensures RetentionInvariant(Run(NEW_LIFE, actions))
  {
    AlwaysInvariant(actions);
    if actions != [] {
      AlwaysRetention(actions[..|actions| - 1]);
      StepKeepsRetention(Run(NEW_LIFE, actions[..|actions| - 1]), actions[|actions| - 1]);
    }
  }

  // ---------------------------------------------------------------- main result

  lemma {:induction false} CredentialIsNothingElse(log: seq<Event>, resource: Resource)
    requires OnlyCredential(log) && resource != Credential
    ensures Count(log, resource) == 0 && Unregistered !in log
  {
    if log != [] {
      CredentialIsNothingElse(log[..|log| - 1], resource);
    }
  }

  lemma {:induction false} AllReleasedOnce(s: Life, resource: Resource)
    requires Invariant(s) && Unregistered in s.log && !s.markedBlindly
    ensures Count(s.log, resource) == 1
  {
    NothingElse(s.flags);
    assert EffectOk(s, resource);
    assert resource in ALL_RESOURCES;
  }

  /**
   Retention for human approval, in every history without a terminal cleanup in which a valid retention
   names the workspace of the run: as long as the producer has not timed out, nothing but the credential
   was ever released and the run is registered. A cleanup that has ended retained the run exactly if the
   producer had not timed out; after a timeout a cleanup that ended complete has released everything, the
   retained workspace included.
   */
  lemma {:induction false} RetainedUnlessTimedOut(actions: seq<Action>)
    requires NoTerminalCleanup(actions) && Matching(Run(NEW_LIFE, actions))
    ensures var s := Run(NEW_LIFE, actions);
            var timedOut := ReportOf(s).timedOut;
            && (!timedOut ==> OnlyCredential(s.log) && Unregistered !in s.log)
            && (forall resource | resource != Credential && !timedOut :: Count(s.log, resource) == 0)
            && (s.main == Some(Ended) ==> (ReportOf(s).retained <==> !timedOut))
            && (timedOut && ReportOf(s).complete ==> Unregistered in s.log)
            && (forall resource | timedOut && ReportOf(s).complete :: Count(s.log, resource) == 1)
  {
    AlwaysRetention(actions);
    var s := Run(NEW_LIFE, actions);
    if !ReportOf(s).timedOut {
      CredentialIsNothingElse(s.log, Checkpoint);
      forall resource | resource != Credential ensures Count(s.log, resource) == 0 {
        CredentialIsNothingElse(s.log, resource);
      }
    } else if ReportOf(s).complete {
      forall resource ensures Count(s.log, resource) == 1 {
        AllReleasedOnce(s, resource);
      }
    }
  }
}
