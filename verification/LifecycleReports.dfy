/**
 What the report of a cleanup says, told by the history since the cleanup began: it is complete exactly
 if nothing went wrong, and it says retained exactly if a matching retention was found.
 */
module LifecycleReports {
  import opened Common
  import opened Lifecycle
  import opened LifecycleSafety
  import opened LifecycleRetention

  // ---------------------------------------------------------------- what can go wrong in a pass

  /** The workspace could not be looked up. */
  predicate DiscoveryRaises(s: Life, a: Action) {
    && a.PassStep? && Enabled(s, a)
    && TaskOf(s, a.who).value.stage.NeedWorkspace? && s.workspace.None? && a.discovery.Raised?
  }

  /** The operation on a resource is found to have failed. */
  predicate OperationFails(s: Life, a: Action) {
    && a.PassStep? && Enabled(s, a)
    && TaskOf(s, a.who).value.stage.Settling? && !TaskOf(s, a.who).value.stage.ok
  }

  /** A pass that was asked to retain goes past the credential, having found no matching retention. */
  predicate RetentionRefused(s: Life, a: Action) {
    && a.PassStep? && Enabled(s, a) && TaskOf(s, a.who).value.retain
    && match TaskOf(s, a.who).value.stage
       case Releasing(resource, hold) => resource == Credential && !hold && Credential in s.flags
       case Settling(resource, hold, _) => resource == Credential && !hold
       case _ => false
  }

  predicate Mishap(s: Life, a: Action) {
    DiscoveryRaises(s, a) || OperationFails(s, a) || RetentionRefused(s, a)
  }

  /** The cleanup task decides to hold: it was asked to, and the retention names the workspace it now knows. */
  predicate DecidesToHold(s: Life, a: Action) {
    && a.PassStep? && a.who.Main? && Enabled(s, a)
    && s.main.value.stage.NeedWorkspace? && s.main.value.retain && Matching(Step(s, a))
  }

  predicate Begins(s: Life, a: Action) { a.BeginCleanup? && Enabled(s, a) }

  // ---------------------------------------------------------------- one step

  /** The report agrees with what happened since the cleanup began. */
  predicate ErrorsAgree(s: Life, clean: bool) {
    && (s.report.Some? && s.deferred.Some? && s.deferred.value.AwaitingProducer? ==> ReportOf(s).errors == 1 && clean)
    && (s.report.Some? && !(s.deferred.Some? && s.deferred.value.AwaitingProducer?) ==>
          (ReportOf(s).errors == 0 <==> clean))
  }

  predicate CompletionAgrees(s: Life) {
    && (s.main == Some(Ended) && !ReportOf(s).timedOut && !ReportOf(s).retained ==>
          (ReportOf(s).complete <==> ReportOf(s).errors == 0))
    && (s.deferred == Some(Ended) ==> (ReportOf(s).complete <==> ReportOf(s).errors == 0))
  }

  predicate HoldAgrees(s: Life, decided: bool) {
    && (s.main.Some? && s.main.value.AwaitingProducer? ==> !decided)
    && (InPass(s.main) ==> (decided <==> Held(s.main.value.stage)))
    && (s.main == Some(Ended) && ReportOf(s).timedOut ==> !decided)
    && (s.main == Some(Ended) && !ReportOf(s).timedOut ==> (decided <==> ReportOf(s).retained))
  }

  lemma {:induction false} OutsideReport(s: Life, a: Action, clean: bool, decided: bool)
    requires Invariant(s) && !a.PassStep? && !Begins(s, a)
    requires ErrorsAgree(s, clean) && CompletionAgrees(s) && HoldAgrees(s, decided)
    ensures var t := Step(s, a); ErrorsAgree(t, clean) && CompletionAgrees(t) && HoldAgrees(t, decided)
  {
  }

  lemma {:induction false} FreshReport(s: Life, a: Action)
    requires Invariant(s) && Begins(s, a)
    ensures var t := Step(s, a); ErrorsAgree(t, true) && CompletionAgrees(t) && HoldAgrees(t, false)
  {
  }

  ghost predicate Agrees(s: Life, clean: bool, decided: bool) {
    ErrorsAgree(s, clean) && CompletionAgrees(s) && HoldAgrees(s, decided)
  }

  lemma {:induction false} DiscoveryReport(s: Life, a: Action, clean: bool, decided: bool)
    requires Invariant(s) && Agrees(s, clean, decided) && a.PassStep? && Enabled(s, a)
    requires TaskOf(s, a.who).value.stage.NeedWorkspace?
    ensures Agrees(Step(s, a), clean && !Mishap(s, a), decided || DecidesToHold(s, a))
  {
    PassFacts(s, a.who);
  }

  lemma {:induction false} OperationReport(s: Life, a: Action, clean: bool, decided: bool)
    requires Invariant(s) && Agrees(s, clean, decided) && a.PassStep? && Enabled(s, a)
    requires TaskOf(s, a.who).value.stage.InFlight?
    ensures Agrees(Step(s, a), clean && !Mishap(s, a), decided || DecidesToHold(s, a))
  {
    PassFacts(s, a.who);
  }

  /** Going on after a resource, when the errors so far are the ones counted. */
  lemma {:induction false} AdvanceReport(
    s: Life, who: Who, retain: bool, resource: Resource, hold: bool, clean: bool, decided: bool)
    requires InPass(TaskOf(s, who)) && s.report.Some? && (who.Main? ==> s.deferred.None?)
    requires who.Deferred? ==> s.main == Some(Ended) && ReportOf(s).timedOut && !hold && !retain && !decided
    requires who.Main? ==> !ReportOf(s).timedOut && !ReportOf(s).retained && (decided <==> hold)
    requires hold ==> resource == Credential
    requires ReportOf(s).errors == 0 <==> clean
    ensures var t := AfterRelease(s, who, retain, resource, hold);
            Agrees(t, clean && !(resource == Credential && retain && !hold), decided)
  {
  }

  lemma {:induction false} AdvancingReport(s: Life, a: Action, clean: bool, decided: bool)
    requires Invariant(s) && Agrees(s, clean, decided) && a.PassStep? && Enabled(s, a)
    requires TaskOf(s, a.who).value.stage.Releasing? || TaskOf(s, a.who).value.stage.Settling?
    ensures Agrees(Step(s, a), clean && !Mishap(s, a), decided || DecidesToHold(s, a))
  {
    PassFacts(s, a.who);
    var Passing(retain, stage) := TaskOf(s, a.who).value;
    match stage
    case Releasing(resource, hold) =>
      if resource in s.flags {
        AdvanceReport(s, a.who, retain, resource, hold, clean, decided);
      }
    case Settling(resource, hold, succeeded) =>
      var s1 := if succeeded then s.(flags := s.flags + {resource}) else AddError(s);
      AdvanceReport(s1, a.who, retain, resource, hold, clean && succeeded, decided);
    case _ =>
  }

  lemma {:induction false} PassReport(s: Life, a: Action, clean: bool, decided: bool)
    requires Invariant(s) && Agrees(s, clean, decided) && a.PassStep? && Enabled(s, a)
    ensures Agrees(Step(s, a), clean && !Mishap(s, a), decided || DecidesToHold(s, a))
  {
    match TaskOf(s, a.who).value.stage
    case NeedWorkspace => DiscoveryReport(s, a, clean, decided);
    case InFlight(_, _) => OperationReport(s, a, clean, decided);
    case _ => AdvancingReport(s, a, clean, decided);
  }

  // ---------------------------------------------------------------- whole histories

  ghost predicate Moves(actions: seq<Action>, states: seq<Life>, j: nat)
    requires j < |actions| && |states| == |actions| + 1
  {
    states[j + 1] == Step(states[j], actions[j])
  }

  /** The states a run goes through, one more than it has actions. */
  ghost predicate IsLife(actions: seq<Action>, states: seq<Life>) {
    && |states| == |actions| + 1 && states[0] == NEW_LIFE
    && forall j | 0 <= j < |actions| :: Moves(actions, states, j)
  }

  lemma {:induction false} EveryHistoryIsALife(actions: seq<Action>) returns (states: seq<Life>)
    ensures IsLife(actions, states) && states[|actions|] == Run(NEW_LIFE, actions)
  {
    ghost var reached := (j: nat) requires j <= |actions| => Run(NEW_LIFE, actions[..j]);
    states := seq(|actions| + 1, j requires 0 <= j <= |actions| => reached(j));
    forall j | 0 <= j < |actions| ensures Moves(actions, states, j) {
      assert actions[..j + 1][..j] == actions[..j];
    }
    assert actions[..|actions|] == actions;
  }

  lemma {:induction false} LivesKeepInvariant(actions: seq<Action>, states: seq<Life>, n: nat)
    requires IsLife(actions, states) && n < |states|
    ensures Invariant(states[n])
  {
    if n == 0 {
      AlwaysInvariant([]);
    } else {
      LivesKeepInvariant(actions, states, n - 1);
      assert Moves(actions, states, n - 1);
      StepKeepsInvariant(states[n - 1], actions[n - 1]);
    }
  }

  /** The current cleanup began with action `b`. */
  predicate BeganAt(actions: seq<Action>, states: seq<Life>, b: nat, n: nat)
    requires n <= |actions| < |states|
  {
    b < n && Begins(states[b], actions[b]) && forall i | b < i < n :: !Begins(states[i], actions[i])
  }

  predicate CleanSince(actions: seq<Action>, states: seq<Life>, b: nat, n: nat)
    requires n <= |actions| < |states|
  {
    forall i | b < i < n :: !Mishap(states[i], actions[i])
  }

  predicate HeldSince(actions: seq<Action>, states: seq<Life>, b: nat, n: nat)
    requires n <= |actions| < |states|
  {
    exists i | b < i < n :: DecidesToHold(states[i], actions[i])
  }

  lemma {:induction false} SinceNext(actions: seq<Action>, states: seq<Life>, b: nat, i: nat, n: nat)
    requires b < i && n == i + 1 <= |actions| < |states|
    ensures CleanSince(actions, states, b, n) <==>
            CleanSince(actions, states, b, i) && !Mishap(states[i], actions[i])
    ensures HeldSince(actions, states, b, n) <==>
            HeldSince(actions, states, b, i) || DecidesToHold(states[i], actions[i])
    ensures BeganAt(actions, states, b, n) <==> BeganAt(actions, states, b, i) && !Begins(states[i], actions[i])
  {
  }

  lemma {:induction false} BeforeAnyCleanup(actions: seq<Action>, states: seq<Life>, n: nat)
    requires IsLife(actions, states) && n <= |actions|
    requires forall i | 0 <= i < n :: !Begins(states[i], actions[i])
    ensures states[n].report.None? && Agrees(states[n], true, false)
  {
    if n > 0 {
      BeforeAnyCleanup(actions, states, n - 1);
      LivesKeepInvariant(actions, states, n - 1);
      assert Moves(actions, states, n - 1);
      var (s, a) := (states[n - 1], actions[n - 1]);
      if !a.PassStep? {
        OutsideReport(s, a, true, false);
      }
    }
  }

  lemma {:induction false} AgreesNext(s: Life, a: Action, clean: bool, decided: bool) returns (t: Life)
    requires Invariant(s) && Agrees(s, clean, decided) && !Begins(s, a)
    ensures t == Step(s, a)
    ensures Agrees(t, clean && !Mishap(s, a), decided || DecidesToHold(s, a))
  {
    t := Step(s, a);
    if !a.PassStep? {
      OutsideReport(s, a, clean, decided);
    } else if Enabled(s, a) {
      PassReport(s, a, clean, decided);
    }
  }

  lemma {:induction false} ReportsAgree(actions: seq<Action>, states: seq<Life>, b: nat, n: nat)
    requires IsLife(actions, states) && n <= |actions| && BeganAt(actions, states, b, n)
    ensures Agrees(states[n], CleanSince(actions, states, b, n), HeldSince(actions, states, b, n))
  {
    var i := n - 1;
    LivesKeepInvariant(actions, states, i);
    assert Moves(actions, states, i);
    if i == b {
      FreshReport(states[i], actions[i]);
    } else {
      SinceNext(actions, states, b, i, n);
      ReportsAgree(actions, states, b, i);
      var t := AgreesNext(states[i], actions[i], CleanSince(actions, states, b, i), HeldSince(actions, states, b, i));
    }
  }

  /**
   A cleanup that is over, in every history: it retained the run exactly if its pass was asked to and found a
   retention that names the workspace it knew; and it is complete exactly if it did so, or if since it
   began no discovery raised, no operation failed, and no retention that was asked for was refused.
   */
  lemma {:induction false} ReportIsExact(actions: seq<Action>, states: seq<Life>, b: nat)
    requires IsLife(actions, states) && BeganAt(actions, states, b, |actions|)
    requires states[|actions|].main == Some(Ended)
    requires ReportOf(states[|actions|]).timedOut ==> states[|actions|].deferred == Some(Ended)
    ensures var report := ReportOf(states[|actions|]);
            && (report.retained <==> HeldSince(actions, states, b, |actions|))
            && (report.complete <==>
                  HeldSince(actions, states, b, |actions|) || CleanSince(actions, states, b, |actions|))
  {
    ReportsAgree(actions, states, b, |actions|);
    LivesKeepInvariant(actions, states, |actions|);
  }

  // ---------------------------------------------------------------- the steps around the passes

  /**
   The producer of a run starts at most once and only before any cleanup, exits once, and is joined once; all
   this in this order and by these actions only.
   */
  lemma {:induction false} ProducerGoesForward(s: Life, a: Action)
    ensures var t := Step(s, a);
            && (t.producer == s.producer
                || (a.StartProducer? && s.producer == NotStarted && t.producer == Alive)
                || (a.ProducerExits? && s.producer == Alive && t.producer == Exited(false))
                || (a.ProducerJoined? && s.producer == Exited(false) && t.producer == Exited(true)))
            && (a.StartProducer? ==> (t.producer != s.producer <==> s.producer == NotStarted && s.main.None?))
            && (a.ProducerExits? ==> (t.producer != s.producer <==> s.producer == Alive))
            && (a.ProducerJoined? ==> (t.producer != s.producer <==> s.producer == Exited(false)))
  {
    if a.PassStep? && Enabled(s, a) {
      var t := StepOfPass(s, a.who, a.discovery, a.ok);
    }
  }

  /** A retention with an approval and the 64 digits of a digest. */
  predicate CompleteRetention(r: HitlRetention) { r.approvalGiven && r.digestLength == 64 }

  /** Only a living producer stores a retention, and only a complete one; it stores the workspace with it. */
  lemma {:induction false} OnlyCompleteRetentionsAreStored(s: Life, a: Action)
    ensures var t := Step(s, a);
            if a.RetainForHitl? && s.producer == Alive && CompleteRetention(a.retention) then
              t == s.(retention := Some(a.retention), workspace := Some(a.retention.workspace))
            else t.retention == s.retention
  {
    if a.PassStep? && Enabled(s, a) {
      var t := StepOfPass(s, a.who, a.discovery, a.ok);
    }
  }

  /** A living producer makes a workspace known; a later absent one does not make it forgotten. */
  lemma {:induction false} ProducerMakesWorkspaceKnown(s: Life, workspace: Option<WorkspaceId>)
    ensures Step(s, SetWorkspace(workspace))
            == if s.producer == Alive && workspace.Some? then s.(workspace := workspace) else s
  {
  }

  /** While a cleanup is pending or under way, another call changes nothing; the first one of a run starts it. */
  lemma {:induction false} OneCleanupAtATime(s: Life, retain: bool)
    ensures s.main.Some? && s.main != Some(Ended) ==> Step(s, CallCleanup(retain)) == s
    ensures s.main.None? ==> Step(s, CallCleanup(retain)) == s.(main := Some(Created(retain)))
  {
  }

  /** A cleanup begins with a fresh report, and waits exactly if there ever was a producer. */
  lemma {:induction false} CleanupWaitsForItsProducer(s: Life)
    requires s.main.Some? && s.main.value.Created?
    ensures Step(s, BeginCleanup)
            == s.(report := Some(Report(false, false, 0, false)),
                  main := Some(if s.producer == NotStarted then Passing(s.main.value.retain, NeedWorkspace)
                               else AwaitingProducer(s.main.value.retain)))
  {
  }

  /**
   The waiting ends in one of two ways: before the producer is joined it can time out, which leaves an error
   and a deferred cleanup that was not asked to retain; once it is joined the pass starts.
   */
  lemma {:induction false} WaitingEndsOneWay(s: Life)
    requires Invariant(s) && s.main.Some? && s.main.value.AwaitingProducer?
    ensures Step(s, ProducerTimeout)
            == if s.producer == Exited(true) then s
               else s.(report := Some(Report(true, false, 1, false)), main := Some(Ended),
                       deferred := Some(AwaitingProducer(false)))
    ensures Step(s, ProducerAwaited(Main))
            == if s.producer == Exited(true) then s.(main := Some(Passing(s.main.value.retain, NeedWorkspace))) else s
  {
  }
}
