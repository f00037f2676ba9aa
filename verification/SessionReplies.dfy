/**
 What each operation of the session registry answers, told by the history alone: which run of a living
 session holds the lease, which approval is outstanding and how it was decided.
 */
module SessionReplies {
  import opened Common
  import opened Sessions
  import opened SessionSafety
  import opened SessionAuthorization

  // ---------------------------------------------------------------- what the history says about a session

  /** The run has begun in this session and was not released. */
  predicate Runs(log: seq<Event>, t: ThreadId, run: RunId) {
    RunBegun(t, run) in log && RunFinished(t, run) !in log
  }

  /** The session has asked for no other approval since, this one was not consumed, and its run goes on. */
  predicate Current(log: seq<Event>, i: nat)
    requires i < |log| && log[i].ApprovalIssued?
  {
    && (forall k | i < k < |log| :: !(log[k].ApprovalIssued? && log[k].thread == log[i].thread))
    && Unconsumed(log, log[i].approval)
    && RunFinished(log[i].thread, log[i].run) !in log
  }

  predicate Awaits(log: seq<Event>, t: ThreadId, run: RunId, a: ApprovalId) {
    exists i | 0 <= i < |log| :: log[i] == ApprovalIssued(t, run, a) && Current(log, i)
  }

  /** The approval in the record is the current one of the history. */
  predicate StandsIffCurrent(s: Registry, i: nat)
    requires i < |s.log|
  {
    s.log[i].ApprovalIssued? && s.log[i].thread in s.records ==>
      (s.records[s.log[i].thread].approval == Some(s.log[i].approval) <==> Current(s.log, i))
  }

  ghost predicate CurrentStands(s: Registry) {
    forall i | 0 <= i < |s.log| :: StandsIffCurrent(s, i)
  }

  // ---------------------------------------------------------------- every section keeps it

  lemma {:induction false} CurrentAfter(log: seq<Event>, e: Event, i: nat)
    requires i < |log| && log[i].ApprovalIssued?
    ensures Current(log + [e], i) <==>
            && Current(log, i)
            && !(e.ApprovalIssued? && e.thread == log[i].thread)
            && !(e.Consumed? && e.approval == log[i].approval)
            && e != RunFinished(log[i].thread, log[i].run)
  {
    var longer := log + [e];
    assert longer[|log|] == e && longer[i] == log[i];
    assert forall k | 0 <= k < |log| :: longer[k] == log[k];
    if Unconsumed(log, log[i].approval) && !(e.Consumed? && e.approval == log[i].approval) {
      assert Unconsumed(longer, log[i].approval);
    }
    assert RunFinished(log[i].thread, log[i].run) in longer <==>
           RunFinished(log[i].thread, log[i].run) in log || e == RunFinished(log[i].thread, log[i].run);
  }

  lemma {:induction false} ForgettingKeepsCurrent(s: Registry, s': Registry)
    requires CurrentStands(s) && s'.log == s.log
    requires forall t | t in s'.records :: t in s.records && s'.records[t].approval == s.records[t].approval
    ensures CurrentStands(s')
  {
    forall i | 0 <= i < |s'.log| ensures StandsIffCurrent(s', i) {
      assert StandsIffCurrent(s, i);
    }
  }

  /** Of the earlier issues in one session only the one that stands can be current. */
  lemma {:induction false} AppendKeepsCurrent(s: Registry, s': Registry, t: ThreadId, e: Event)
    requires Invariant(s) && CurrentStands(s) && s'.log == s.log + [e]
    requires forall u | u != t && u in s'.records :: u in s.records && s'.records[u] == s.records[u]
    requires forall i | 0 <= i < |s.log| && s.log[i].ApprovalIssued? && s.log[i].thread == t && t in s'.records ::
               s'.records[t].approval == Some(s.log[i].approval) <==> Current(s'.log, i)
    requires match e
             case SessionCreated(_) => true
             case RunBegun(u, _) => true
             case RunFinished(u, _) => u == t
             case ApprovalIssued(u, run, a) => u == t && t in s'.records && s'.records[t].approval == Some(a)
                                               && Unconsumed(s.log, a) && RunFinished(t, run) !in s.log
             case Decided(_, _) => true
             case Consumed(a, _, run) => ApprovalIssued(t, run, a) in s.log
    ensures CurrentStands(s')
  {
    forall i | 0 <= i < |s'.log| ensures StandsIffCurrent(s', i) {
      if i < |s.log| && s.log[i].ApprovalIssued? && s.log[i].thread != t && s.log[i].thread in s'.records {
        assert StandsIffCurrent(s, i);
        CurrentAfter(s.log, e, i);
        if e.Consumed? && e.approval == s.log[i].approval {
          OneRunnerPerApproval(s.log, t, e.run, s.log[i].thread, s.log[i].run, e.approval);
        }
      }
    }
  }

  lemma {:induction false} NoIssueBeforeCreation(s: Registry, t: ThreadId, i: nat)
    requires Invariant(s) && SessionCreated(t) !in s.log && i < |s.log| && s.log[i].ApprovalIssued?
    ensures s.log[i].thread != t
  {
    assert PastRight(s.log, i);
    var k :| 0 <= k < i && s.log[k] == RunBegun(s.log[i].thread, s.log[i].run);
    assert SessionCreated(s.log[i].thread) in s.log[..k] by {
      assert PastRight(s.log, k);
    }
  }

  lemma {:induction false} CreateKeepsCurrent(s: Registry, ttl: real, c: Section)
    requires Invariant(s) && CurrentStands(s) && c.Create? && Fresh(s.log, c)
    ensures CurrentStands(Perform(s, ttl, c).state)
  {
    var pruned := s.(records := Live(s.records, c.now));
    ForgettingKeepsInvariant(s, pruned);
    ForgettingKeepsCurrent(s, pruned);
    forall i | 0 <= i < |s.log| && s.log[i].ApprovalIssued? ensures s.log[i].thread != c.thread {
      NoIssueBeforeCreation(s, c.thread, i);
    }
    AppendKeepsCurrent(pruned, Perform(s, ttl, c).state, c.thread, SessionCreated(c.thread));
  }

  lemma {:induction false} BeginKeepsCurrent(s: Registry, ttl: real, c: Section)
    requires Invariant(s) && CurrentStands(s) && c.BeginRun?
    ensures CurrentStands(Perform(s, ttl, c).state)
  {
    var (s', e) := (Perform(s, ttl, c).state, RunBegun(c.thread, c.newRun));
    if s' != s {
      forall i | 0 <= i < |s.log| && s.log[i].ApprovalIssued? && s.log[i].thread == c.thread
        ensures s'.records[c.thread].approval == Some(s.log[i].approval) <==> Current(s'.log, i)
      {
        assert StandsIffCurrent(s, i);
        CurrentAfter(s.log, e, i);
      }
      AppendKeepsCurrent(s, s', c.thread, e);
    }
  }

  lemma {:induction false} ReleaseKeepsCurrent(s: Registry, t: ThreadId, run: RunId)
    requires Invariant(s) && CurrentStands(s) && t in s.records
    ensures CurrentStands(DoRelease(s, t, run).state)
  {
    var (s', e) := (DoRelease(s, t, run).state, RunFinished(t, run));
    if s' != s {
      forall i | 0 <= i < |s.log| && s.log[i].ApprovalIssued? && s.log[i].thread == t
        ensures s'.records[t].approval == Some(s.log[i].approval) <==> Current(s'.log, i)
      {
        assert s.log[i].run == run || RunFinished(t, s.log[i].run) in s.log by {
          assert PastRight(s.log, i);
          var k :| 0 <= k < i && s.log[k] == RunBegun(t, s.log[i].run);
          assert LeaseRight(s, k);
        }
        CurrentAfter(s.log, e, i);
      }
      AppendKeepsCurrent(s, s', t, e);
    }
  }

  lemma {:induction false} IssueKeepsCurrent(s: Registry, ttl: real, c: Section)
    requires Invariant(s) && CurrentStands(s) && c.BeginApproval? && Fresh(s.log, c)
    ensures CurrentStands(Perform(s, ttl, c).state)
  {
    var (s', t, a) := (Perform(s, ttl, c).state, c.thread, c.newApproval);
    if s' != s {
      assert RecordRight(s, t);
      assert !Issued(s.log, a);
      NeverIssued(s.log, a);
      forall i | 0 <= i < |s.log| && s.log[i].ApprovalIssued? && s.log[i].thread == t
        ensures s'.records[t].approval == Some(s.log[i].approval) <==> Current(s'.log, i)
      {
        CurrentAfter(s.log, ApprovalIssued(t, c.run, a), i);
      }
      AppendKeepsCurrent(s, s', t, ApprovalIssued(t, c.run, a));
    }
  }

  lemma {:induction false} DecideKeepsCurrent(s: Registry, ttl: real, c: Section)
    requires Invariant(s) && CurrentStands(s) && c.Decide?
    ensures CurrentStands(Perform(s, ttl, c).state)
  {
    var (s', e) := (Perform(s, ttl, c).state, Decided(c.approval, c.approved));
    if s' != s {
      forall i | 0 <= i < |s.log| && s.log[i].ApprovalIssued? && s.log[i].thread == c.thread
        ensures s'.records[c.thread].approval == Some(s.log[i].approval) <==> Current(s'.log, i)
      {
        assert StandsIffCurrent(s, i);
        CurrentAfter(s.log, e, i);
      }
      AppendKeepsCurrent(s, s', c.thread, e);
    }
  }

  lemma {:induction false} ConsumeKeepsCurrent(s: Registry, ttl: real, t: ThreadId)
    requires Invariant(s) && CurrentStands(s)
    ensures CurrentStands(Perform(s, ttl, Consume(t)).state)
  {
    var s' := Perform(s, ttl, Consume(t)).state;
    if s' != s {
      assert RecordRight(s, t);
      var e := Consumed(s.records[t].approval.value, s.records[t].decision.value, s.records[t].activeRun.value);
      forall i | 0 <= i < |s.log| && s.log[i].ApprovalIssued? && s.log[i].thread == t
        ensures s'.records[t].approval == Some(s.log[i].approval) <==> Current(s'.log, i)
      {
        assert StandsIffCurrent(s, i);
        CurrentAfter(s.log, e, i);
      }
      AppendKeepsCurrent(s, s', t, e);
    }
  }

  lemma {:induction false} SectionKeepsCurrent(s: Registry, ttl: real, c: Section)
    requires Invariant(s) && CurrentStands(s) && Fresh(s.log, c)
    ensures CurrentStands(Perform(s, ttl, c).state)
  {
    match c
    case Create(_, _, _) => CreateKeepsCurrent(s, ttl, c);
    case Require(_, _, _) =>
      assert Perform(s, ttl, c).state.log == s.log;
      ForgettingKeepsCurrent(s, Perform(s, ttl, c).state);
    case BeginRun(_, _) => BeginKeepsCurrent(s, ttl, c);
    case RequireActiveRun(_) =>
    case FinishRun(t, run) => if t in s.records { ReleaseKeepsCurrent(s, t, run); }
    case FinishOwnedRun(t, run) => if t in s.records { ReleaseKeepsCurrent(s, t, run); }
    case BeginApproval(_, _, _) => IssueKeepsCurrent(s, ttl, c);
    case Decide(_, _, _) => DecideKeepsCurrent(s, ttl, c);
    case Consume(t) => ConsumeKeepsCurrent(s, ttl, t);
  }

  lemma {:induction false} HistoryKeepsCurrent(ttl: real, history: seq<Section>)
    ensures Invariant(After(ttl, history)) && CurrentStands(After(ttl, history))
  {
    HistoryKeepsInvariant(ttl, history);
    if history != [] {
      var s := After(ttl, history[..|history| - 1]);
      HistoryKeepsCurrent(ttl, history[..|history| - 1]);
      if Fresh(s.log, history[|history| - 1]) {
        SectionKeepsCurrent(s, ttl, history[|history| - 1]);
      }
    }
  }

  // ---------------------------------------------------------------- a record is what the history says

  /** Lease, approval and decision of a living session, read off the history. */
  ghost predicate TellsRecord(log: seq<Event>, t: ThreadId, r: Record) {
    && (forall run :: Runs(log, t, run) ==> r.activeRun == Some(run))
    && (r.activeRun.Some? ==> Runs(log, t, r.activeRun.value))
    && (forall run, a :: Awaits(log, t, run, a) ==> r.activeRun == Some(run) && r.approval == Some(a))
    && (r.approval.Some? ==> r.activeRun.Some? && Awaits(log, t, r.activeRun.value, r.approval.value))
    && (r.decision.Some? ==> r.approval.Some? && Decided(r.approval.value, r.decision.value) in log)
    && (r.approval.Some? && r.decision.None? ==> Undecided(log, r.approval.value))
  }

  lemma {:induction false} LeaseIsTold(s: Registry, t: ThreadId, run: RunId)
    requires Invariant(s) && t in s.records
    ensures s.records[t].activeRun == Some(run) <==> Runs(s.log, t, run)
  {
    assert RecordRight(s, t);
    if Runs(s.log, t, run) {
      var i :| 0 <= i < |s.log| && s.log[i] == RunBegun(t, run);
      assert LeaseRight(s, i);
    }
  }

  lemma {:induction false} ApprovalIsTold(s: Registry, t: ThreadId, run: RunId, a: ApprovalId)
    requires Invariant(s) && CurrentStands(s) && t in s.records
    ensures s.records[t].activeRun == Some(run) && s.records[t].approval == Some(a) <==> Awaits(s.log, t, run, a)
  {
    assert RecordRight(s, t);
    if s.records[t].activeRun == Some(run) && s.records[t].approval == Some(a) {
      var i :| 0 <= i < |s.log| && s.log[i] == ApprovalIssued(t, run, a);
      assert StandsIffCurrent(s, i);
    } else if Awaits(s.log, t, run, a) {
      var i :| 0 <= i < |s.log| && s.log[i] == ApprovalIssued(t, run, a) && Current(s.log, i);
      assert StandsIffCurrent(s, i);
      OneRunnerPerApproval(s.log, t, run, t, s.records[t].activeRun.value, a);
    }
  }

  /** In every history the record of a living session is exactly what the history says about it. */
  lemma {:induction false} RecordIsTold(ttl: real, history: seq<Section>, t: ThreadId)
    requires t in After(ttl, history).records
    ensures TellsRecord(After(ttl, history).log, t, After(ttl, history).records[t])
  {
    var s := After(ttl, history);
    HistoryKeepsCurrent(ttl, history);
    assert RecordRight(s, t);
    forall run ensures s.records[t].activeRun == Some(run) <==> Runs(s.log, t, run) {
      LeaseIsTold(s, t, run);
    }
    forall run, a
      ensures s.records[t].activeRun == Some(run) && s.records[t].approval == Some(a) <==> Awaits(s.log, t, run, a)
    {
      ApprovalIsTold(s, t, run, a);
    }
  }

  // ---------------------------------------------------------------- main results

  /** The answer to one section in a living session, and what it adds to the history. */
  ghost predicate Answers(log: seq<Event>, body: Section, reply: Reply, news: seq<Event>) {
    match body
    case BeginRun(t, newRun) =>
      if exists run :: Runs(log, t, run) then reply == AlreadyRunning && news == []
      else reply == RunIs(newRun) && news == [RunBegun(t, newRun)]
    case RequireActiveRun(t) =>
      && news == [] && (reply == NoActiveRun || reply.RunIs?)
      && forall run :: reply == RunIs(run) <==> Runs(log, t, run)
    case FinishRun(t, run) =>
      reply == LeaseReleased(Runs(log, t, run)) && news == if Runs(log, t, run) then [RunFinished(t, run)] else []
    case FinishOwnedRun(t, run) =>
      reply == LeaseReleased(Runs(log, t, run)) && news == if Runs(log, t, run) then [RunFinished(t, run)] else []
    case BeginApproval(t, run, newApproval) =>
      if !Runs(log, t, run) then reply == NotTheActiveRun && news == []
      else if exists a :: Awaits(log, t, run, a) && Undecided(log, a) then
        reply.ApprovalIs? && Awaits(log, t, run, reply.approval) && Undecided(log, reply.approval) && news == []
      else reply == ApprovalIs(newApproval) && news == [ApprovalIssued(t, run, newApproval)]
    case Decide(t, a, approved) =>
      if !exists run :: Awaits(log, t, run, a) then reply == ApprovalExpired && news == []
      else if Decided(a, !approved) in log then reply == DecidedOtherwise && news == []
      else reply == Done && news == [Decided(a, approved)]
    case Consume(t) =>
      if exists run, a, d :: Awaits(log, t, run, a) && Decided(a, d) in log then
        && reply.Decision? && Awaits(log, t, reply.run, reply.approval)
        && Decided(reply.approval, reply.approved) in log
        && news == [Consumed(reply.approval, reply.approved, reply.run)]
      else reply == NothingDecided && news == []
    case _ => true
  }

  predicate IsBody(c: Section) { !c.Create? && !c.Require? }

  lemma {:induction false} LeaseAnswers(s: Registry, ttl: real, body: Section) returns (outcome: Outcome)
    requires IsBody(body) && body.thread in s.records
    requires body.BeginRun? || body.RequireActiveRun? || body.FinishRun? || body.FinishOwnedRun?
    requires TellsRecord(s.log, body.thread, s.records[body.thread])
    ensures outcome == Perform(s, ttl, body) && s.log <= outcome.state.log
    ensures Answers(s.log, body, outcome.reply, outcome.state.log[|s.log|..])
  {
    outcome := Perform(s, ttl, body);
    if s.records[body.thread].activeRun.Some? {
      assert Runs(s.log, body.thread, s.records[body.thread].activeRun.value);
    }
  }

  lemma {:induction false} ApprovalAnswers(s: Registry, ttl: real, body: Section) returns (outcome: Outcome)
    requires IsBody(body) && body.thread in s.records && Invariant(s)
    requires body.BeginApproval? || body.Decide? || body.Consume?
    requires TellsRecord(s.log, body.thread, s.records[body.thread])
    ensures outcome == Perform(s, ttl, body) && s.log <= outcome.state.log
    ensures Answers(s.log, body, outcome.reply, outcome.state.log[|s.log|..])
  {
    outcome := Perform(s, ttl, body);
    var (t, r) := (body.thread, s.records[body.thread]);
    assert RecordRight(s, t);
    if r.decision.Some? {
      DecidedOneWay(s.log, r.approval.value, r.decision.value);
    }
  }

  /**
   What a section answers, in every history: a session that is gone is answered so; in a living one the
   answer, and what happens, are exactly what the events so far determine.
   */
  lemma {:induction false} AnswersFollowHistory(ttl: real, history: seq<Section>, body: Section)
    requires IsBody(body)
    ensures var s := After(ttl, history);
            var outcome := Perform(s, ttl, body);
            && s.log <= outcome.state.log
            && (if body.thread in s.records then
                  Answers(s.log, body, outcome.reply, outcome.state.log[|s.log|..])
                else
                  outcome == Outcome(s, if body.FinishOwnedRun? then LeaseReleased(false) else SessionGone))
  {
    var s := After(ttl, history);
    if body.thread in s.records {
      RecordIsTold(ttl, history, body.thread);
      HistoryKeepsInvariant(ttl, history);
      if body.BeginApproval? || body.Decide? || body.Consume? {
        var outcome := ApprovalAnswers(s, ttl, body);
      } else {
        var outcome := LeaseAnswers(s, ttl, body);
      }
    }
  }

  /**
   A whole operation by somebody who holds the session's token is the check followed by its body, and the
   session is still there when the body comes; so its answer is the one that the history determines.
   */
  lemma {:induction false} HolderIsAnswered(
    ttl: real, history: seq<Section>, now: real, t: ThreadId, token: Token, body: Section)
    requires IsBody(body) && body.thread == t && HoldsToken(ttl, history, now, t, token)
    ensures var s := After(ttl, history);
            var outcome := Operation(s, ttl, now, t, token, body);
            s.log <= outcome.state.log && Answers(s.log, body, outcome.reply, outcome.state.log[|s.log|..])
  {
    var check := Require(now, t, token);
    AuthorisedIff(ttl, history, now, t, token);
    LastSection(ttl, history, check);
    AnswersFollowHistory(ttl, history + [check], body);
  }
}
