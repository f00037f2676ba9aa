/**
 Safety of the run lifecycle over every interleaving of cleanup calls, timeout, deferred cleanup,
 retention, retries and failing release operations.
 */
module LifecycleSafety {
  import opened Common
  import opened Lifecycle

  const ALL_RESOURCES := {Credential, Checkpoint, Lease, Workspace}

  predicate InPass(t: Option<Task>) { t.Some? && t.value.Passing? }

  function CurrentStage(s: Life): Option<Stage> {
    if InPass(s.main) then Some(s.main.value.stage)
    else if InPass(s.deferred) then Some(s.deferred.value.stage)
    else None
  }

  function Count(log: seq<Event>, resource: Resource): nat {
    if log == [] then 0
    else
      Count(log[..|log| - 1], resource)
      + if log[|log| - 1].Released? && log[|log| - 1].resource == resource then 1 else 0
  }

  lemma {:induction false} CountSnoc(log: seq<Event>, e: Event, resource: Resource)
    ensures Count(log + [e], resource) == Count(log, resource) + if e.Released? && e.resource == resource then 1 else 0
  {
    assert (log + [e])[..|log + [e]| - 1] == log;
  }

  /** An operation on the resource has succeeded but its flag is not set yet. */
  predicate Unsettled(stage: Option<Stage>, resource: Resource) {
    stage.Some? && stage.value.Settling? && stage.value.resource == resource && stage.value.ok
  }

  /** The release operation of the resource has taken effect. */
  predicate TookEffect(s: Life, resource: Resource) {
    (resource in s.flags && !(resource.Workspace? && s.markedBlindly)) || Unsettled(CurrentStage(s), resource)
  }

  /** The two tasks never compete: the deferred one exists only after the cleanup task gave up waiting. */
  predicate TasksOk(s: Life) {
    && (s.deferred.Some? ==> s.main == Some(Ended) && ReportOf(s).timedOut && !ReportOf(s).retained)
    && (s.main.Some? && s.main.value.AwaitingProducer? ==> s.report == Some(NEW_REPORT))
    && (InPass(s.main) ==> !ReportOf(s).timedOut && !ReportOf(s).retained)
    && (s.main.Some? && !s.main.value.Created? ==> s.report.Some?)
    && (InPass(s.deferred) ==> !Held(s.deferred.value.stage))
    && (s.deferred.Some? && s.deferred.value.AwaitingProducer? ==> !s.deferred.value.retain)
    && (InPass(s.deferred) ==> !s.deferred.value.retain)
    && (s.main == Some(Ended) && ReportOf(s).retained ==> ReportOf(s).complete)
  }

  /** A pass runs only when no producer thread is alive and none can be started any more. */
  predicate ProducerGone(s: Life) {
    CurrentStage(s).Some? ==> s.main.Some? && (s.producer == NotStarted || s.producer == Exited(true))
  }

  predicate Held(stage: Stage) { !stage.NeedWorkspace? && stage.hold }

  function Earlier(resource: Resource): set<Resource> {
    match resource
    case Credential => {}
    case Checkpoint => {Credential}
    case Lease => {Credential, Checkpoint}
    case Workspace => {Credential, Checkpoint, Lease}
  }

  predicate StageOk(s: Life) {
    CurrentStage(s).Some? ==>
      var stage := CurrentStage(s).value;
      && (stage.InFlight? || stage.Settling? ==> stage.resource !in s.flags)
      && (Held(stage) ==> stage.resource == Credential)
      && (!stage.NeedWorkspace? && stage.resource == Workspace ==> s.workspace.Some?)
      && (!stage.NeedWorkspace? && ReportOf(s).errors == 0 ==> Earlier(stage.resource) <= s.flags)
  }

  predicate WorkspaceOk(s: Life) {
    && (s.markedBlindly ==> Workspace in s.flags && Count(s.log, Workspace) == 0)
    && (Workspace in s.flags && !s.markedBlindly ==> s.workspace.Some?)
    && (Unregistered in s.log ==> s.flags == ALL_RESOURCES)
  }

  ghost predicate EffectOk(s: Life, resource: Resource) {
    Count(s.log, resource) == if TookEffect(s, resource) then 1 else 0
  }

  ghost predicate NoLiveRelease(log: seq<Event>) {
    forall i | 0 <= i < |log| :: log[i].Released? ==> !log[i].producerAlive
  }

  ghost predicate Invariant(s: Life) {
    && TasksOk(s) && ProducerGone(s) && StageOk(s) && WorkspaceOk(s) && NoLiveRelease(s.log)
    && (forall resource :: EffectOk(s, resource))
  }

  // ---------------------------------------------------------------- steps

  /** Steps outside a pass leave flags and log alone, and settle nothing. */
  lemma {:induction false} OutsideStepIsQuiet(s: Life, a: Action) returns (t: Life)
    requires Invariant(s) && !a.PassStep?
    ensures t == Step(s, a) && t.flags == s.flags && t.log == s.log && t.markedBlindly == s.markedBlindly
    ensures forall resource :: Unsettled(CurrentStage(t), resource) == Unsettled(CurrentStage(s), resource)
  {
    t := Step(s, a);
  }

  lemma {:induction false} OutsideStepKeepsTasks(s: Life, a: Action)
    requires Invariant(s) && !a.PassStep?
    ensures var t := Step(s, a); TasksOk(t) && ProducerGone(t) && StageOk(t) && WorkspaceOk(t)
  {
  }

  lemma {:induction false} OutsideStep(s: Life, a: Action)
    requires Invariant(s) && !a.PassStep?
    ensures Invariant(Step(s, a))
  {
    OutsideStepKeepsTasks(s, a);
    var t := OutsideStepIsQuiet(s, a);
    forall resource ensures EffectOk(t, resource) {
      assert EffectOk(s, resource);
    }
  }

  lemma {:induction false} PassFacts(s: Life, who: Who)
    requires Invariant(s) && InPass(TaskOf(s, who))
    ensures CurrentStage(s) == Some(TaskOf(s, who).value.stage)
    ensures who.Main? ==> s.deferred.None?
    ensures !s.producer.Alive? && s.report.Some?
  {
  }

  lemma {:induction false} DiscoverStep(s: Life, who: Who, discovery: Discovery, ok: bool)
    requires Invariant(s) && InPass(TaskOf(s, who)) && TaskOf(s, who).value.stage.NeedWorkspace?
    ensures Invariant(DoPass(s, who, discovery, ok))
  {
    PassFacts(s, who);
    forall resource ensures EffectOk(DoPass(s, who, discovery, ok), resource) {
      assert EffectOk(s, resource);
    }
  }

  lemma {:induction false} OperateTurns(s: Life, who: Who, discovery: Discovery, ok: bool)
    requires Invariant(s) && InPass(TaskOf(s, who)) && TaskOf(s, who).value.stage.InFlight?
    ensures var t := DoPass(s, who, discovery, ok);
            var stage := TaskOf(s, who).value.stage;
            && CurrentStage(s) == Some(stage)
            && CurrentStage(t) == Some(Settling(stage.resource, stage.hold, ok))
            && t.log == s.log + (if ok then [Released(stage.resource, false)] else [])
            && t.flags == s.flags && t.markedBlindly == s.markedBlindly
  {
    PassFacts(s, who);
  }

  lemma {:induction false} OperateEffect(s: Life, t: Life, resource: Resource, hold: bool, ok: bool, r: Resource)
    requires EffectOk(s, r) && resource !in s.flags && t.flags == s.flags && t.markedBlindly == s.markedBlindly
    requires CurrentStage(s) == Some(InFlight(resource, hold)) && CurrentStage(t) == Some(Settling(resource, hold, ok))
    requires t.log == s.log + (if ok then [Released(resource, false)] else [])
    ensures EffectOk(t, r)
  {
    if ok {
      CountSnoc(s.log, Released(resource, false), r);
    } else {
      assert t.log == s.log;
    }
  }

  lemma {:induction false} OperateStep(s: Life, who: Who, discovery: Discovery, ok: bool)
    requires Invariant(s) && InPass(TaskOf(s, who)) && TaskOf(s, who).value.stage.InFlight?
    ensures Invariant(DoPass(s, who, discovery, ok))
  {
    PassFacts(s, who);
    OperateTurns(s, who, discovery, ok);
    var t, stage := DoPass(s, who, discovery, ok), TaskOf(s, who).value.stage;
    forall resource ensures EffectOk(t, resource) {
      assert EffectOk(s, resource);
      OperateEffect(s, t, stage.resource, stage.hold, ok, resource);
    }
  }

  /** What the state must satisfy just before the pass moves on from a resource. */
  predicate ReadyToAdvance(s: Life, who: Who, retain: bool, resource: Resource, hold: bool) {
    && InPass(TaskOf(s, who)) && TaskOf(s, who).value.retain == retain
    && (hold ==> resource == Credential)
    && (ReportOf(s).errors == 0 ==> Earlier(resource) + {resource} <= s.flags)
    && (resource == Workspace ==> s.workspace.Some?)
    && (who.Deferred? ==> !retain && !hold)
  }

  /** The invariant with the current stage left out: the pass is between two resources. */
  ghost predicate SettledOk(s: Life, resource: Resource) {
    Count(s.log, resource) == if resource in s.flags && !(resource.Workspace? && s.markedBlindly) then 1 else 0
  }

  ghost predicate Between(s: Life, who: Who) {
    && TasksOk(s) && ProducerGone(s) && WorkspaceOk(s) && NoLiveRelease(s.log)
    && (forall resource :: SettledOk(s, resource))
    && InPass(TaskOf(s, who)) && (who.Main? ==> s.deferred.None?)
  }

  lemma {:induction false} FinishedLog(s: Life, who: Who)
    requires Between(s, who)
    ensures var t := Finish(s, who);
            NoLiveRelease(t.log) && forall resource :: Count(t.log, resource) == Count(s.log, resource)
  {
    forall resource ensures Count(Finish(s, who).log, resource) == Count(s.log, resource) {
      CountSnoc(s.log, Unregistered, resource);
    }
  }

  lemma {:induction false} FinishedEffects(s: Life, who: Who)
    requires Between(s, who)
    ensures forall resource :: EffectOk(Finish(s, who), resource)
  {
    FinishedLog(s, who);
    forall resource ensures EffectOk(Finish(s, who), resource) {
      assert SettledOk(s, resource);
    }
  }

  lemma {:induction false} FinishKeeps(s: Life, who: Who)
    requires Between(s, who) && (ReportOf(s).errors == 0 ==> s.flags == ALL_RESOURCES)
    ensures Invariant(Finish(s, who))
  {
    FinishedLog(s, who);
    FinishedEffects(s, who);
  }

  lemma {:induction false} MarkBlindly(s: Life, who: Who)
    requires Between(s, who) && s.workspace.None?
    ensures Between(s.(flags := s.flags + {Workspace}, markedBlindly := true), who)
  {
    assert Workspace in s.flags ==> s.markedBlindly;
    assert SettledOk(s, Workspace);
    forall resource ensures SettledOk(s.(flags := s.flags + {Workspace}, markedBlindly := true), resource) {
      assert SettledOk(s, resource);
    }
  }

  lemma {:induction false} NothingElse(flags: set<Resource>)
    requires Earlier(Workspace) + {Workspace} <= flags
    ensures flags == ALL_RESOURCES
  {
    forall r: Resource ensures r in flags {
      match r
      case Credential => assert r in Earlier(Workspace);
      case Checkpoint => assert r in Earlier(Workspace);
      case Lease => assert r in Earlier(Workspace);
      case Workspace =>
    }
    forall r: Resource ensures r in ALL_RESOURCES {
      match r
      case Credential =>
      case Checkpoint =>
      case Lease =>
      case Workspace =>
    }
  }

  lemma {:induction false} AdvanceKeeps(s: Life, who: Who, retain: bool, resource: Resource, hold: bool)
    requires Between(s, who) && ReadyToAdvance(s, who, retain, resource, hold)
    ensures Invariant(AfterRelease(s, who, retain, resource, hold))
  {
    var t := AfterRelease(s, who, retain, resource, hold);
    if resource == Lease && s.workspace.None? {
      MarkBlindly(s, who);
      if ReportOf(s).errors == 0 {
        NothingElse(s.flags + {Workspace});
      }
      FinishKeeps(s.(flags := s.flags + {Workspace}, markedBlindly := true), who);
    } else if resource == Workspace {
      if ReportOf(s).errors == 0 {
        NothingElse(s.flags);
      }
      FinishKeeps(s, who);
    } else {
      forall r ensures EffectOk(t, r) {
        assert SettledOk(s, r);
      }
    }
  }

  lemma {:induction false} SkipStep(s: Life, who: Who, discovery: Discovery, ok: bool)
    requires Invariant(s) && InPass(TaskOf(s, who)) && TaskOf(s, who).value.stage.Releasing?
    ensures Invariant(DoPass(s, who, discovery, ok))
  {
    PassFacts(s, who);
    var Passing(retain, stage) := TaskOf(s, who).value;
    forall resource ensures SettledOk(s, resource) {
      assert EffectOk(s, resource);
    }
    if stage.resource in s.flags {
      AdvanceKeeps(s, who, retain, stage.resource, stage.hold);
    } else {
      forall resource ensures EffectOk(DoPass(s, who, discovery, ok), resource) {
        assert SettledOk(s, resource);
      }
    }
  }

  lemma {:induction false} SettleStep(s: Life, who: Who, discovery: Discovery, ok: bool)
    requires Invariant(s) && InPass(TaskOf(s, who)) && TaskOf(s, who).value.stage.Settling?
    ensures Invariant(DoPass(s, who, discovery, ok))
  {
    PassFacts(s, who);
    var Passing(retain, Settling(resource, hold, succeeded)) := TaskOf(s, who).value;
    var t := if succeeded then s.(flags := s.flags + {resource}) else AddError(s);
    forall r ensures SettledOk(t, r) {
      assert EffectOk(s, r);
    }
    AdvanceKeeps(t, who, retain, resource, hold);
  }

  lemma {:induction false} StepKeepsInvariant(s: Life, a: Action)
    requires Invariant(s)
    ensures Invariant(Step(s, a))
  {
    if !a.PassStep? {
      OutsideStep(s, a);
    } else if Enabled(s, a) {
      match TaskOf(s, a.who).value.stage
      case NeedWorkspace => DiscoverStep(s, a.who, a.discovery, a.ok);
      case Releasing(_, _) => SkipStep(s, a.who, a.discovery, a.ok);
      case InFlight(_, _) => OperateStep(s, a.who, a.discovery, a.ok);
      case Settling(_, _, _) => SettleStep(s, a.who, a.discovery, a.ok);
    }
  }

  lemma {:induction false} AlwaysInvariant(actions: seq<Action>)
    ensures Invariant(Run(NEW_LIFE, actions))
  {
    if actions == [] {
      forall resource ensures EffectOk(NEW_LIFE, resource) {
      }
    } else {
      AlwaysInvariant(actions[..|actions| - 1]);
      StepKeepsInvariant(Run(NEW_LIFE, actions[..|actions| - 1]), actions[|actions| - 1]);
    }
  }

  // ---------------------------------------------------------------- passing over the workspace

  /** The step that follows the lease in a release pass, at a moment when no workspace is known. */
  predicate PassesOverWorkspace(s: Life, a: Action) {
    && a.PassStep? && Enabled(s, a) && s.workspace.None?
    && match TaskOf(s, a.who).value.stage
       case Releasing(resource, _) => resource == Lease && Lease in s.flags
       case Settling(resource, _, _) => resource == Lease
       case _ => false
  }

  /** Some release pass of the history reached the workspace while its id was not known. */
  predicate PassedOverWorkspace(actions: seq<Action>) {
    exists i | 0 <= i < |actions| :: PassesOverWorkspace(Run(NEW_LIFE, actions[..i]), actions[i])
  }

  lemma {:induction false} MarksWhenPassingOver(s: Life, a: Action)
    ensures Step(s, a).markedBlindly <==> s.markedBlindly || PassesOverWorkspace(s, a)
  {
    if a.PassStep? && Enabled(s, a) {
      match TaskOf(s, a.who).value.stage
      case Settling(resource, hold, succeeded) =>
        var t := if succeeded then s.(flags := s.flags + {resource}) else AddError(s);
        assert t.workspace == s.workspace && t.markedBlindly == s.markedBlindly;
      case _ =>
    }
  }

  lemma {:induction false} PassedOverSnoc(earlier: seq<Action>, a: Action)
    ensures PassedOverWorkspace(earlier + [a]) <==>
              PassedOverWorkspace(earlier) || PassesOverWorkspace(Run(NEW_LIFE, earlier), a)
  {
    var actions := earlier + [a];
    forall i | 0 <= i < |actions|
      ensures actions[..i] == earlier[..i] && actions[i] == if i < |earlier| then earlier[i] else a
    {
    }
    assert earlier[..|earlier|] == earlier;
    if PassedOverWorkspace(earlier) {
      var i :| 0 <= i < |earlier| && PassesOverWorkspace(Run(NEW_LIFE, earlier[..i]), earlier[i]);
      assert PassesOverWorkspace(Run(NEW_LIFE, actions[..i]), actions[i]);
    }
    if PassesOverWorkspace(Run(NEW_LIFE, earlier), a) {
      assert PassesOverWorkspace(Run(NEW_LIFE, actions[..|earlier|]), actions[|earlier|]);
    }
  }

  /** The mark in the state is nothing but the history. */
  lemma {:induction false} MarkedIffPassedOver(actions: seq<Action>)
    ensures Run(NEW_LIFE, actions).markedBlindly <==> PassedOverWorkspace(actions)
  {
    if actions != [] {
      var earlier, last := actions[..|actions| - 1], actions[|actions| - 1];
      MarkedIffPassedOver(earlier);
      MarksWhenPassingOver(Run(NEW_LIFE, earlier), last);
      assert earlier + [last] == actions;
      PassedOverSnoc(earlier, last);
    }
  }

  // ---------------------------------------------------------------- main results

  /** Nothing is ever released while the producer thread is alive, and two release passes never overlap. */
  lemma {:induction false} NothingReleasedUnderALiveProducer(actions: seq<Action>)
    ensures var s := Run(NEW_LIFE, actions);
            && (forall i | 0 <= i < |s.log| :: s.log[i].Released? ==> !s.log[i].producerAlive)
            && !(InPass(s.main) && InPass(s.deferred))
            && (InPass(s.main) || InPass(s.deferred) ==> !s.producer.Alive?)
  {
    AlwaysInvariant(actions);
  }

  /** However often cleanup is called, repeated or deferred, each resource is released at most once. */
  lemma {:induction false} ReleasedAtMostOnce(actions: seq<Action>, resource: Resource)
    ensures Count(Run(NEW_LIFE, actions).log, resource) <= 1
  {
    AlwaysInvariant(actions);
    assert EffectOk(Run(NEW_LIFE, actions), resource);
  }

  /**
   A run that left the registry has released its credential, its checkpoint and its lease. The workspace
   it knows is released too, exactly when no pass of its history reached the workspace before its id was
   known.
   */
  lemma {:induction false} UnregisteredOnlyWhenReleased(actions: seq<Action>)
    requires Unregistered in Run(NEW_LIFE, actions).log
    ensures var s := Run(NEW_LIFE, actions);
            && Count(s.log, Credential) == 1 && Count(s.log, Checkpoint) == 1 && Count(s.log, Lease) == 1
            && (s.workspace.Some? ==> (Count(s.log, Workspace) == 1 <==> !PassedOverWorkspace(actions)))
            && (s.workspace.Some? && PassedOverWorkspace(actions) ==> Count(s.log, Workspace) == 0)
  {
    AlwaysInvariant(actions);
    MarkedIffPassedOver(actions);
    var s := Run(NEW_LIFE, actions);
    assert EffectOk(s, Credential) && EffectOk(s, Checkpoint) && EffectOk(s, Lease) && EffectOk(s, Workspace);
  }

  /**
   When a cleanup call starts another pass, in every reachable state in which no task is at work: after
   an incomplete pass exactly if the producer had not timed out, after a complete one exactly if it had
   retained the run and a terminal cleanup is now asked for.
   */
  lemma {:induction false} RetriedUnlessTimedOut(actions: seq<Action>, retain: bool)
    requires var s := Run(NEW_LIFE, actions);
             s.main == Some(Ended) && (s.deferred.None? || s.deferred == Some(Ended))
    ensures var s := Run(NEW_LIFE, actions);
            && s.report.Some?
            && (Step(s, CallCleanup(retain)).main == Some(Created(retain)) <==>
                  if s.report.value.complete then s.report.value.retained && !retain
                  else !s.report.value.timedOut)
            && (Step(s, CallCleanup(retain)).main != Some(Created(retain)) ==> Step(s, CallCleanup(retain)) == s)
  {
    AlwaysInvariant(actions);
  }

  // ---------------------------------------------------------------- retention for human approval

  /** A pass that holds, or what it leaves behind. */
  predicate Retaining(s: Life) {
    && s.deferred.None? && s.main.Some?
    && (InPass(s.main) ==> Held(s.main.value.stage) && s.main.value.stage.resource == Credential)
    && (!InPass(s.main) ==> s.main == Some(Ended) && ReportOf(s).retained && ReportOf(s).complete && s.report.Some?)
  }

  predicate NoTerminalCleanup(actions: seq<Action>) {
    forall i | 0 <= i < |actions| :: actions[i] != CallCleanup(false)
  }

  /** Between two passes, and until a terminal cleanup is asked for, nothing happens to a retained run. */
  lemma {:induction false} RetainedStaysPut(s: Life, a: Action)
    requires Invariant(s) && Retaining(s) && a != CallCleanup(false) && !a.PassStep?
    ensures var t := Step(s, a);
            && t.main == s.main && t.deferred == s.deferred && t.report == s.report
            && t.flags == s.flags && t.log == s.log
  {
  }

  lemma {:induction false} RetainingPass(s: Life, a: Action)
    requires Invariant(s) && Retaining(s) && a.PassStep? && Enabled(s, a)
    ensures var t := Step(s, a);
            && Retaining(t) && s.flags <= t.flags <= s.flags + {Credential}
            && (t.log == s.log || t.log == s.log + [Released(Credential, false)])
  {
    assert a.who == Main && Step(s, a) == DoPass(s, Main, a.discovery, a.ok);
    PassFacts(s, Main);
  }

  lemma {:induction false} RetainingStep(s: Life, a: Action)
    requires Invariant(s) && Retaining(s) && a != CallCleanup(false)
    ensures var t := Step(s, a);
            && Retaining(t) && s.flags <= t.flags <= s.flags + {Credential}
            && (t.log == s.log || t.log == s.log + [Released(Credential, false)])
  {
    if !a.PassStep? {
      RetainedStaysPut(s, a);
    } else if Enabled(s, a) {
      RetainingPass(s, a);
    }
  }

  /**
   A holding pass releases only the credential: from then on, until a terminal cleanup is asked for, no
   step of anybody releases anything else, sets another flag or takes the run out of the registry.
   */
  lemma {:induction false} RetentionReleasesOnlyTheCredential(s: Life, actions: seq<Action>, resource: Resource)
    requires Invariant(s) && Retaining(s) && NoTerminalCleanup(actions) && resource != Credential
    ensures var t := Run(s, actions);
            && Invariant(t) && Retaining(t)
            && Count(t.log, resource) == Count(s.log, resource)
            && (resource in t.flags <==> resource in s.flags)
            && (Unregistered in t.log ==> Unregistered in s.log)
  {
    if actions != [] {
      var earlier := actions[..|actions| - 1];
      RetentionReleasesOnlyTheCredential(s, earlier, resource);
      var t := Run(s, earlier);
      RetainingStep(t, actions[|actions| - 1]);
      StepKeepsInvariant(t, actions[|actions| - 1]);
      CountSnoc(t.log, Released(Credential, false), resource);
    }
  }

  /** A cleanup pass that was asked to retain, with a matching valid retention, is such a pass. */
  lemma {:induction false} ValidRetentionIsHeld(s: Life, discovery: Discovery, ok: bool)
    requires Invariant(s) && InPass(s.main) && s.main.value.stage.NeedWorkspace? && s.main.value.retain
    requires s.retention.Some? && ValidRetention(s.retention.value) && s.workspace == Some(s.retention.value.workspace)
    ensures Retaining(Step(s, PassStep(Main, discovery, ok)))
  {
  }

  /**
   In any reachable state, once the pass of a cleanup task that was asked to retain finds a matching valid
   retention, checkpoint, lease and workspace stay unreleased and the run stays registered, for every
   continuation without a terminal cleanup. The deferred pass after a timeout is never asked to retain.
   */
  lemma {:induction false} RetainedRunKeepsItsResources(
    before: seq<Action>, discovery: Discovery, ok: bool, after: seq<Action>, resource: Resource)
    requires var s := Run(NEW_LIFE, before);
             && InPass(s.main) && s.main.value.stage.NeedWorkspace? && s.main.value.retain
             && s.retention.Some? && ValidRetention(s.retention.value)
             && s.workspace == Some(s.retention.value.workspace)
    requires NoTerminalCleanup(after) && resource != Credential
    ensures var s := Run(NEW_LIFE, before);
            var t := Run(Step(s, PassStep(Main, discovery, ok)), after);
            && Count(t.log, resource) == Count(s.log, resource)
            && (Unregistered in t.log ==> Unregistered in s.log)
            && t.main.Some? && (t.main.value.Passing? || ReportOf(t).retained)
  {
    var s := Run(NEW_LIFE, before);
    var step := PassStep(Main, discovery, ok);
    AlwaysInvariant(before);
    StepKeepsInvariant(s, step);
    ValidRetentionIsHeld(s, discovery, ok);
    assert Step(s, step).log == s.log;
    RetentionReleasesOnlyTheCredential(Step(s, step), after, resource);
  }
}
