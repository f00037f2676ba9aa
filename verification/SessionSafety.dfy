/**
 What holds over every history of the session registry, whichever way the lock sections of its
 operations interleave.
 */
module SessionSafety {
  import opened Common
  import opened Sessions

  predicate Undecided(log: seq<Event>, a: ApprovalId) {
    Decided(a, true) !in log && Decided(a, false) !in log
  }

  predicate Unconsumed(log: seq<Event>, a: ApprovalId) {
    forall i | 0 <= i < |log| :: log[i].Consumed? ==> log[i].approval != a
  }

  // ---------------------------------------------------------------- the invariant

  predicate Issued(log: seq<Event>, a: ApprovalId) {
    exists i | 0 <= i < |log| :: log[i].ApprovalIssued? && log[i].approval == a
  }

  predicate IssuedTo(log: seq<Event>, a: ApprovalId, run: RunId) {
    exists i | 0 <= i < |log| :: log[i].ApprovalIssued? && log[i].approval == a && log[i].run == run
  }

  predicate Earlier(log: seq<Event>, i: nat, e: Event)
    requires i <= |log|
  {
    exists k | 0 <= k < i :: log[k] == e
  }

  /** What an event says about the events before it. */
  predicate PastRight(log: seq<Event>, i: nat)
    requires i < |log|
  {
    var past := log[..i];
    match log[i]
    case SessionCreated(t) => SessionCreated(t) !in past
    case RunBegun(t, run) =>
      && SessionCreated(t) in past
      && (forall j | 0 <= j < i :: log[j].RunBegun? ==> log[j].run != run)
      && (forall j | 0 <= j < i :: log[j].RunBegun? && log[j].thread == t ==> RunFinished(t, log[j].run) in log[j..i])
    case RunFinished(t, run) => RunBegun(t, run) in past
    case ApprovalIssued(t, run, a) =>
      && RunBegun(t, run) in past
      && RunFinished(t, run) !in past
      && (forall j | 0 <= j < i :: log[j].ApprovalIssued? ==> log[j].approval != a)
    case Decided(a, d) => Decided(a, !d) !in past && Issued(past, a)
    case Consumed(a, d, run) => Decided(a, d) in past && IssuedTo(past, a, run) && Unconsumed(past, a)
  }

  predicate Orderly(log: seq<Event>) {
    forall i | 0 <= i < |log| :: PastRight(log, i)
  }

  /** What a stored record says about the history. */
  predicate RecordRight(s: Registry, t: ThreadId) {
    t in s.records ==>
      var r := s.records[t];
      && SessionCreated(t) in s.log
      && (r.activeRun.Some? ==> RunBegun(t, r.activeRun.value) in s.log && RunFinished(t, r.activeRun.value) !in s.log)
      && (r.approval.Some? ==>
            && r.activeRun.Some?
            && ApprovalIssued(t, r.activeRun.value, r.approval.value) in s.log
            && Unconsumed(s.log, r.approval.value)
            && (r.decision.None? ==> Undecided(s.log, r.approval.value)))
      && (r.decision.Some? ==> r.approval.Some? && Decided(r.approval.value, r.decision.value) in s.log)
  }

  /** A lease is held from the start of a run to its end, as long as the session lives. */
  predicate LeaseRight(s: Registry, i: nat)
    requires i < |s.log|
  {
    s.log[i].RunBegun? ==>
      var (t, run) := (s.log[i].thread, s.log[i].run);
      t in s.records ==> s.records[t].activeRun == Some(run) || RunFinished(t, run) in s.log[i..]
  }

  /** An issued approval stays outstanding until it is decided or its run ends. */
  predicate ApprovalRight(s: Registry, i: nat)
    requires i < |s.log|
  {
    s.log[i].ApprovalIssued? ==>
      var (t, run, a) := (s.log[i].thread, s.log[i].run, s.log[i].approval);
      t in s.records ==>
        || (s.records[t].activeRun == Some(run) && s.records[t].approval == Some(a))
        || !Undecided(s.log, a)
        || RunFinished(t, run) in s.log
  }

  ghost predicate Invariant(s: Registry) {
    && Orderly(s.log)
    && (forall t :: RecordRight(s, t))
    && (forall i | 0 <= i < |s.log| :: LeaseRight(s, i))
    && (forall i | 0 <= i < |s.log| :: ApprovalRight(s, i))
  }

  // ---------------------------------------------------------------- facts about orderly histories

  lemma {:induction false} AppendKeepsOrder(log: seq<Event>, e: Event)
    requires Orderly(log) && PastRight(log + [e], |log|)
    ensures Orderly(log + [e])
  {
    var log' := log + [e];
    forall i | 0 <= i < |log'| ensures PastRight(log', i) {
      if i < |log| {
        assert PastRight(log, i);
        assert log'[..i] == log[..i];
        forall j | 0 <= j < i ensures log'[j] == log[j] && log'[j..i] == log[j..i] {
        }
      }
    }
  }

  lemma {:induction false} OneRunnerPerApproval(
    log: seq<Event>, t: ThreadId, run: RunId, t': ThreadId, run': RunId, a: ApprovalId)
    requires Orderly(log) && ApprovalIssued(t, run, a) in log && ApprovalIssued(t', run', a) in log
    ensures t == t' && run == run'
  {
    var i :| 0 <= i < |log| && log[i] == ApprovalIssued(t, run, a);
    var j :| 0 <= j < |log| && log[j] == ApprovalIssued(t', run', a);
    assert PastRight(log, i) && PastRight(log, j);
  }

  lemma {:induction false} OneThreadPerRun(log: seq<Event>, t: ThreadId, t': ThreadId, run: RunId)
    requires Orderly(log) && RunBegun(t, run) in log && RunBegun(t', run) in log
    ensures t == t'
  {
    var i :| 0 <= i < |log| && log[i] == RunBegun(t, run);
    var j :| 0 <= j < |log| && log[j] == RunBegun(t', run);
    assert PastRight(log, i) && PastRight(log, j);
  }

  lemma {:induction false} DecidedAlike(log: seq<Event>, i: nat, j: nat)
    requires Orderly(log) && i < j < |log|
    requires log[i].Decided? && log[j].Decided? && log[i].approval == log[j].approval
    ensures log[i].approved == log[j].approved
  {
    assert PastRight(log, j);
    assert log[i] in log[..j];
  }

  lemma {:induction false} DecidedOneWay(log: seq<Event>, a: ApprovalId, d: bool)
    requires Orderly(log) && Decided(a, d) in log
    ensures Decided(a, !d) !in log
  {
    var i :| 0 <= i < |log| && log[i] == Decided(a, d);
    forall j | 0 <= j < |log| ensures log[j] != Decided(a, !d) {
      if log[j].Decided? && log[j].approval == a {
        if i < j {
          DecidedAlike(log, i, j);
        } else if j < i {
          DecidedAlike(log, j, i);
        }
      }
    }
  }

  lemma {:induction false} NeverIssued(log: seq<Event>, a: ApprovalId)
    requires Orderly(log) && !Issued(log, a)
    ensures Undecided(log, a) && Unconsumed(log, a)
  {
    forall i | 0 <= i < |log| && (log[i].Decided? || log[i].Consumed?) ensures log[i].approval != a {
      assert PastRight(log, i);
      var past := log[..i];
      if Issued(past, log[i].approval) {
        var k :| 0 <= k < |past| && past[k].ApprovalIssued? && past[k].approval == log[i].approval;
        assert log[k] == past[k];
      }
      if log[i].Consumed? && IssuedTo(past, log[i].approval, log[i].run) {
        var k :| 0 <= k < |past| && past[k].ApprovalIssued? && past[k].approval == log[i].approval;
        assert log[k] == past[k];
      }
    }
  }

  lemma {:induction false} ConsumedApart(log: seq<Event>, i: nat, j: nat)
    requires Orderly(log) && i < j < |log| && log[i].Consumed? && log[j].Consumed?
    ensures log[i].approval != log[j].approval
  {
    assert PastRight(log, j);
    assert log[..j][i] == log[i];
  }

  lemma {:induction false} FinishedRunHasBegun(log: seq<Event>, t: ThreadId, run: RunId)
    requires Orderly(log) && RunFinished(t, run) in log
    ensures RunBegun(t, run) in log
  {
    var i :| 0 <= i < |log| && log[i] == RunFinished(t, run);
    assert PastRight(log, i);
  }

  // ---------------------------------------------------------------- every section keeps it

  /** Pruning sessions, and postponing their expiry, say nothing about the history. */
  lemma {:induction false} ForgettingKeepsInvariant(s: Registry, s': Registry)
    requires Invariant(s) && s'.log == s.log
    requires forall t | t in s'.records ::
               t in s.records && s'.records[t] == s.records[t].(expiresAt := s'.records[t].expiresAt)
    ensures Invariant(s')
  {
    forall t ensures RecordRight(s', t) {
      assert RecordRight(s, t);
    }
    forall i | 0 <= i < |s'.log| ensures LeaseRight(s', i) && ApprovalRight(s', i) {
      assert LeaseRight(s, i) && ApprovalRight(s, i);
    }
  }

  /** The leases and approvals of the other sessions, and of the old events, after one more event. */
  lemma {:induction false} AppendKeepsLeases(s: Registry, s': Registry, t: ThreadId, e: Event)
    requires Invariant(s) && s'.log == s.log + [e]
    requires forall t' | t' != t && t' in s'.records :: t' in s.records && s'.records[t'] == s.records[t']
    requires t in s'.records && t in s.records ==>
               || s'.records[t].activeRun == s.records[t].activeRun
               || s.records[t].activeRun.None?
               || e == RunFinished(t, s.records[t].activeRun.value)
    requires t in s'.records && t !in s.records ==> SessionCreated(t) !in s.log
    ensures forall i | 0 <= i < |s.log| :: LeaseRight(s', i)
  {
    forall i | 0 <= i < |s.log| ensures LeaseRight(s', i) {
      assert LeaseRight(s, i) && PastRight(s.log, i);
      assert s'.log[i..] == s.log[i..] + [e];
      assert e in s'.log[i..] by {
        assert s'.log[i..][|s.log| - i] == e;
      }
    }
  }

  lemma {:induction false} AppendKeepsApprovals(s: Registry, s': Registry, t: ThreadId, e: Event)
    requires Invariant(s) && s'.log == s.log + [e]
    requires forall t' | t' != t && t' in s'.records :: t' in s.records && s'.records[t'] == s.records[t']
    requires t in s'.records && t in s.records ==>
               || (s'.records[t].activeRun == s.records[t].activeRun && s'.records[t].approval == s.records[t].approval)
               || s.records[t].activeRun.None?
               || e == RunFinished(t, s.records[t].activeRun.value)
               || s.records[t].approval.None?
               || !Undecided(s.log, s.records[t].approval.value)
    requires t in s'.records && t !in s.records ==> SessionCreated(t) !in s.log
    ensures forall i | 0 <= i < |s.log| :: ApprovalRight(s', i)
  {
    forall i | 0 <= i < |s.log| ensures ApprovalRight(s', i) {
      assert ApprovalRight(s, i) && PastRight(s.log, i);
      assert RecordRight(s, t);
      if s.log[i].ApprovalIssued? {
        var k :| 0 <= k < i && s.log[k] == RunBegun(s.log[i].thread, s.log[i].run);
        assert PastRight(s.log, k);
      }
      assert forall x :: x in s.log ==> x in s'.log;
      assert s'.log[|s.log|] == e;
    }
  }

  lemma {:induction false} CreateKeepsInvariant(s: Registry, ttl: real, c: Section)
    requires Invariant(s) && c.Create? && Fresh(s.log, c)
    ensures Invariant(Perform(s, ttl, c).state)
  {
    var s' := Perform(s, ttl, c).state;
    var e := SessionCreated(c.thread);
    var pruned := s.(records := Live(s.records, c.now));
    ForgettingKeepsInvariant(s, pruned);
    assert PastRight(s.log + [e], |s.log|) by {
      assert (s.log + [e])[..|s.log|] == s.log;
    }
    AppendKeepsOrder(s.log, e);
    assert RecordRight(pruned, c.thread);
    AppendKeepsLeases(pruned, s', c.thread, e);
    AppendKeepsApprovals(pruned, s', c.thread, e);
    forall t ensures RecordRight(s', t) {
      assert RecordRight(pruned, t);
      assert s'.log[|s.log|] == e;
    }
  }

  lemma {:induction false} RequireKeepsInvariant(s: Registry, ttl: real, c: Section)
    requires Invariant(s) && c.Require?
    ensures Invariant(Perform(s, ttl, c).state)
  {
    var s' := Perform(s, ttl, c).state;
    assert s'.log == s.log;
    ForgettingKeepsInvariant(s, s');
  }

  lemma {:induction false} BeginRunKeepsInvariant(s: Registry, ttl: real, c: Section)
    requires Invariant(s) && c.BeginRun? && Fresh(s.log, c)
    ensures Invariant(Perform(s, ttl, c).state)
  {
    var (t, e) := (c.thread, RunBegun(c.thread, c.newRun));
    assert RecordRight(s, t);
    if t in s.records && s.records[t].activeRun.None? {
      var s' := Perform(s, ttl, c).state;
      assert PastRight(s.log + [e], |s.log|) by {
        assert (s.log + [e])[..|s.log|] == s.log;
        forall j | 0 <= j < |s.log| && s.log[j].RunBegun? && s.log[j].thread == t
          ensures RunFinished(t, s.log[j].run) in (s.log + [e])[j..|s.log|]
        {
          assert LeaseRight(s, j);
          assert (s.log + [e])[j..|s.log|] == s.log[j..];
        }
      }
      AppendKeepsOrder(s.log, e);
      AppendKeepsLeases(s, s', t, e);
      AppendKeepsApprovals(s, s', t, e);
      assert RunFinished(t, c.newRun) !in s.log by {
        if RunFinished(t, c.newRun) in s.log {
          FinishedRunHasBegun(s.log, t, c.newRun);
        }
      }
      forall t' ensures RecordRight(s', t') {
        assert RecordRight(s, t');
        assert s'.log[|s.log|] == e;
      }
    }
  }

  lemma {:induction false} ReleaseKeepsInvariant(s: Registry, t: ThreadId, run: RunId)
    requires Invariant(s) && t in s.records
    ensures Invariant(DoRelease(s, t, run).state)
  {
    var e := RunFinished(t, run);
    assert RecordRight(s, t);
    if s.records[t].activeRun == Some(run) {
      var s' := DoRelease(s, t, run).state;
      assert PastRight(s.log + [e], |s.log|) by {
        assert (s.log + [e])[..|s.log|] == s.log;
      }
      AppendKeepsOrder(s.log, e);
      AppendKeepsLeases(s, s', t, e);
      AppendKeepsApprovals(s, s', t, e);
      forall t' ensures RecordRight(s', t') {
        assert RecordRight(s, t');
        assert s'.log[|s.log|] == e;
      }
    }
  }

  /** An outstanding approval was issued to the run that holds the lease, and no other session waits for it. */
  lemma {:induction false} OutstandingApproval(s: Registry, t: ThreadId) returns (a: ApprovalId, run: RunId)
    requires Invariant(s) && t in s.records && s.records[t].approval.Some?
    ensures s.records[t].approval == Some(a) && s.records[t].activeRun == Some(run)
    ensures Issued(s.log, a) && IssuedTo(s.log, a, run) && Unconsumed(s.log, a)
    ensures forall t' | t' != t && t' in s.records :: s.records[t'].approval != Some(a)
  {
    assert RecordRight(s, t);
    a, run := s.records[t].approval.value, s.records[t].activeRun.value;
    var k :| 0 <= k < |s.log| && s.log[k] == ApprovalIssued(t, run, a);
    forall t' | t' != t && t' in s.records ensures s.records[t'].approval != Some(a) {
      assert RecordRight(s, t');
      if s.records[t'].approval == Some(a) {
        OneRunnerPerApproval(s.log, t, run, t', s.records[t'].activeRun.value, a);
      }
    }
  }

  lemma {:induction false} EventSparesRecord(s: Registry, s': Registry, t: ThreadId, e: Event)
    requires RecordRight(s, t) && t in s.records && t in s'.records && s'.records[t] == s.records[t]
    requires s'.log == s.log + [e]
    requires e.ApprovalIssued? || ((e.Decided? || e.Consumed?) && s.records[t].approval != Some(e.approval))
    ensures RecordRight(s', t)
  {
    assert s'.log[|s.log|] == e;
  }

  lemma {:induction false} IssueIsRight(s: Registry, t: ThreadId, run: RunId, a: ApprovalId) returns (r: Record)
    requires Invariant(s) && t in s.records && s.records[t].activeRun == Some(run) && !Issued(s.log, a)
    ensures r == s.records[t].(approval := Some(a), decision := None)
    ensures PastRight(s.log + [ApprovalIssued(t, run, a)], |s.log|)
    ensures RecordRight(Put(s, t, r, [ApprovalIssued(t, run, a)]), t)
  {
    assert RecordRight(s, t);
    NeverIssued(s.log, a);
    assert (s.log + [ApprovalIssued(t, run, a)])[..|s.log|] == s.log;
    assert (s.log + [ApprovalIssued(t, run, a)])[|s.log|] == ApprovalIssued(t, run, a);
    r := s.records[t].(approval := Some(a), decision := None);
  }

  lemma {:induction false} IssueKeepsInvariant(
    s: Registry, s': Registry, t: ThreadId, run: RunId, a: ApprovalId, r: Record)
    requires Invariant(s) && t in s.records && s.records[t].activeRun == Some(run) && r.activeRun == Some(run)
    requires s.records[t].approval.Some? ==> s.records[t].decision.Some?
    requires s' == Put(s, t, r, [ApprovalIssued(t, run, a)]) && r.approval == Some(a)
    requires PastRight(s'.log, |s.log|) && RecordRight(s', t)
    ensures Invariant(s')
  {
    var e := ApprovalIssued(t, run, a);
    assert RecordRight(s, t);
    AppendKeepsOrder(s.log, e);
    AppendKeepsLeases(s, s', t, e);
    AppendKeepsApprovals(s, s', t, e);
    forall t' ensures RecordRight(s', t') {
      assert RecordRight(s, t');
      if t' != t && t' in s.records {
        EventSparesRecord(s, s', t', e);
      }
    }
  }

  lemma {:induction false} BeginApprovalKeepsInvariant(s: Registry, ttl: real, c: Section)
    requires Invariant(s) && c.BeginApproval? && Fresh(s.log, c)
    ensures Invariant(Perform(s, ttl, c).state)
  {
    var s' := Perform(s, ttl, c).state;
    if s' != s {
      assert !Issued(s.log, c.newApproval);
      var r := IssueIsRight(s, c.thread, c.run, c.newApproval);
      IssueKeepsInvariant(s, s', c.thread, c.run, c.newApproval, r);
    }
  }

  /** A decision about the outstanding approval of `t`, or its consumption, is added to the history. */
  lemma {:induction false} EventKeepsInvariant(s: Registry, s': Registry, t: ThreadId, r: Record, e: Event)
    requires Invariant(s) && t in s.records && (e.Decided? || e.Consumed?) && s.records[t].approval == Some(e.approval)
    requires s' == Put(s, t, r, [e]) && r.activeRun == s.records[t].activeRun
    requires r.approval == s.records[t].approval || !Undecided(s.log, e.approval)
    requires PastRight(s.log + [e], |s.log|) && RecordRight(s', t)
    ensures Invariant(s')
  {
    var a, run := OutstandingApproval(s, t);
    AppendKeepsOrder(s.log, e);
    AppendKeepsLeases(s, s', t, e);
    AppendKeepsApprovals(s, s', t, e);
    forall t' ensures RecordRight(s', t') {
      assert RecordRight(s, t');
      if t' != t && t' in s.records {
        EventSparesRecord(s, s', t', e);
      }
    }
  }

  lemma {:induction false} DecisionIsRight(s: Registry, t: ThreadId, a: ApprovalId, d: bool) returns (r: Record)
    requires Invariant(s) && t in s.records && s.records[t].approval == Some(a) && s.records[t].decision != Some(!d)
    ensures r == s.records[t].(decision := Some(d))
    ensures PastRight(s.log + [Decided(a, d)], |s.log|) && RecordRight(Put(s, t, r, [Decided(a, d)]), t)
  {
    assert RecordRight(s, t);
    var a', run := OutstandingApproval(s, t);
    if s.records[t].decision.Some? {
      DecidedOneWay(s.log, a, d);
    }
    assert (s.log + [Decided(a, d)])[..|s.log|] == s.log;
    assert (s.log + [Decided(a, d)])[|s.log|] == Decided(a, d);
    r := s.records[t].(decision := Some(d));
  }

  lemma {:induction false} DecideKeepsInvariant(s: Registry, ttl: real, c: Section)
    requires Invariant(s) && c.Decide?
    ensures Invariant(Perform(s, ttl, c).state)
  {
    var s' := Perform(s, ttl, c).state;
    if s' != s {
      var r := DecisionIsRight(s, c.thread, c.approval, c.approved);
      EventKeepsInvariant(s, s', c.thread, r, Decided(c.approval, c.approved));
    }
  }

  lemma {:induction false} ConsumptionIsRight(s: Registry, t: ThreadId) returns (r: Record, e: Event)
    requires Invariant(s) && t in s.records && s.records[t].approval.Some? && s.records[t].decision.Some?
    ensures s.records[t].activeRun.Some? && r == s.records[t].(approval := None, decision := None)
    ensures e == Consumed(s.records[t].approval.value, s.records[t].decision.value, s.records[t].activeRun.value)
    ensures Decided(e.approval, e.approved) in s.log
    ensures PastRight(s.log + [e], |s.log|) && RecordRight(Put(s, t, r, [e]), t)
  {
    assert RecordRight(s, t);
    var a, run := OutstandingApproval(s, t);
    r := s.records[t].(approval := None, decision := None);
    e := Consumed(a, s.records[t].decision.value, run);
    assert (s.log + [e])[..|s.log|] == s.log;
  }

  lemma {:induction false} ConsumeKeepsInvariant(s: Registry, ttl: real, c: Section)
    requires Invariant(s) && c.Consume?
    ensures Invariant(Perform(s, ttl, c).state)
    ensures Perform(s, ttl, c).reply != DecisionWithoutRun
  {
    var t := c.thread;
    if t in s.records && s.records[t].approval.Some? && s.records[t].decision.Some? {
      var r, e := ConsumptionIsRight(s, t);
      EventKeepsInvariant(s, Perform(s, ttl, c).state, t, r, e);
    }
  }

  lemma {:induction false} SectionKeepsInvariant(s: Registry, ttl: real, c: Section)
    requires Invariant(s) && Fresh(s.log, c)
    ensures Invariant(Perform(s, ttl, c).state)
  {
    match c
    case Create(_, _, _) => CreateKeepsInvariant(s, ttl, c);
    case Require(_, _, _) => RequireKeepsInvariant(s, ttl, c);
    case BeginRun(_, _) => BeginRunKeepsInvariant(s, ttl, c);
    case RequireActiveRun(_) =>
    case FinishRun(t, run) => if t in s.records { ReleaseKeepsInvariant(s, t, run); }
    case FinishOwnedRun(t, run) => if t in s.records { ReleaseKeepsInvariant(s, t, run); }
    case BeginApproval(_, _, _) => BeginApprovalKeepsInvariant(s, ttl, c);
    case Decide(_, _, _) => DecideKeepsInvariant(s, ttl, c);
    case Consume(_) => ConsumeKeepsInvariant(s, ttl, c);
  }

  lemma {:induction false} HistoryKeepsInvariant(ttl: real, history: seq<Section>)
    ensures Invariant(After(ttl, history))
  {
    if history != [] {
      var s := After(ttl, history[..|history| - 1]);
      HistoryKeepsInvariant(ttl, history[..|history| - 1]);
      if Fresh(s.log, history[|history| - 1]) {
        SectionKeepsInvariant(s, ttl, history[|history| - 1]);
      }
    }
  }

  // ---------------------------------------------------------------- main results

  /** An outstanding approval belongs to the run that holds the lease, so a decision never lacks its run. */
  lemma {:induction false} OutstandingApprovalHoldsLease(ttl: real, history: seq<Section>, t: ThreadId)
    ensures var s := After(ttl, history);
            t in s.records && s.records[t].approval.Some? ==>
              && s.records[t].activeRun.Some?
              && ApprovalIssued(t, s.records[t].activeRun.value, s.records[t].approval.value) in s.log
              && RunFinished(t, s.records[t].activeRun.value) !in s.log
    ensures Perform(After(ttl, history), ttl, Consume(t)).reply != DecisionWithoutRun
  {
    HistoryKeepsInvariant(ttl, history);
    assert RecordRight(After(ttl, history), t);
    ConsumeKeepsInvariant(After(ttl, history), ttl, Consume(t));
  }

  /** In no history are both decisions about one approval accepted. */
  lemma {:induction false} DecisionsAgree(ttl: real, history: seq<Section>, a: ApprovalId)
    ensures var log := After(ttl, history).log;
            !(Decided(a, true) in log && Decided(a, false) in log)
  {
    HistoryKeepsInvariant(ttl, history);
    var log := After(ttl, history).log;
    if Decided(a, true) in log {
      DecidedOneWay(log, a, true);
    }
  }

  /** A consumed decision was accepted before, was never contradicted, and goes to the run that asked, once. */
  lemma {:induction false} ConsumedOnceAsFirstDecided(ttl: real, history: seq<Section>, i: nat)
    requires i < |After(ttl, history).log| && After(ttl, history).log[i].Consumed?
    ensures var log := After(ttl, history).log;
            var (a, d, run) := (log[i].approval, log[i].approved, log[i].run);
            && Decided(a, d) in log[..i]
            && Decided(a, !d) !in log
            && IssuedTo(log[..i], a, run)
            && forall j | 0 <= j < |log| && j != i :: log[j].Consumed? ==> log[j].approval != a
  {
    HistoryKeepsInvariant(ttl, history);
    var log := After(ttl, history).log;
    assert PastRight(log, i);
    DecidedOneWay(log, log[i].approval, log[i].approved);
    forall j | 0 <= j < |log| && j != i && log[j].Consumed? ensures log[j].approval != log[i].approval {
      ConsumedApart(log, if i < j then i else j, if i < j then j else i);
    }
  }

  /** A run identifier whose lease was released releases nothing any more, in any session. */
  lemma {:induction false} StaleRunReleasesNothing(
    ttl: real, history: seq<Section>, t: ThreadId, run: RunId, c: Section)
    requires RunFinished(t, run) in After(ttl, history).log
    requires (c.FinishRun? || c.FinishOwnedRun?) && c.run == run
    ensures Perform(After(ttl, history), ttl, c).state == After(ttl, history)
    ensures Perform(After(ttl, history), ttl, c).reply != LeaseReleased(true)
  {
    var s := After(ttl, history);
    HistoryKeepsInvariant(ttl, history);
    assert RecordRight(s, c.thread);
    if c.thread in s.records && s.records[c.thread].activeRun == Some(run) {
      FinishedRunHasBegun(s.log, t, run);
      OneThreadPerRun(s.log, t, c.thread, run);
    }
  }

  /** While a session lives, only a release by the run that holds its lease takes that lease away. */
  lemma {:induction false} OnlyTheHolderReleases(ttl: real, history: seq<Section>, c: Section, t: ThreadId)
    requires Fresh(After(ttl, history).log, c)
    requires t in After(ttl, history).records && After(ttl, history).records[t].activeRun.Some?
    requires t in Perform(After(ttl, history), ttl, c).state.records
    ensures Perform(After(ttl, history), ttl, c).state.records[t].activeRun
            != After(ttl, history).records[t].activeRun
            <==> (c.FinishRun? || c.FinishOwnedRun?) && c.thread == t
                 && Some(c.run) == After(ttl, history).records[t].activeRun
  {
    HistoryKeepsInvariant(ttl, history);
    assert RecordRight(After(ttl, history), t);
  }

  /** Two runs of one session never overlap: the first one is released before the second one begins. */
  lemma {:induction false} RunsOfOneSessionNeverOverlap(ttl: real, history: seq<Section>, i: nat, j: nat)
    requires i < j < |After(ttl, history).log|
    requires var log := After(ttl, history).log;
             log[i].RunBegun? && log[j].RunBegun? && log[i].thread == log[j].thread
    ensures var log := After(ttl, history).log;
            log[i].run != log[j].run && RunFinished(log[i].thread, log[i].run) in log[i..j]
  {
    HistoryKeepsInvariant(ttl, history);
    assert PastRight(After(ttl, history).log, j);
  }

  /**
   In a living session an approval is resumable exactly when it was issued to that run, nobody has
   decided it, and the run has not ended.
   */
  lemma {:induction false} ResumableIff(ttl: real, history: seq<Section>, t: ThreadId, run: RunId, a: ApprovalId)
    requires t in After(ttl, history).records
    ensures var s := After(ttl, history);
            IsResumable(s, t, run, a)
            <==> ApprovalIssued(t, run, a) in s.log && Undecided(s.log, a) && RunFinished(t, run) !in s.log
  {
    var s := After(ttl, history);
    HistoryKeepsInvariant(ttl, history);
    assert RecordRight(s, t);
    if ApprovalIssued(t, run, a) in s.log && Undecided(s.log, a) && RunFinished(t, run) !in s.log {
      var i :| 0 <= i < |s.log| && s.log[i] == ApprovalIssued(t, run, a);
      assert ApprovalRight(s, i);
    }
  }

  /**
   An old dialogue, or one of another session, decides nothing: an accepted decision names an approval
   that was issued to the run holding this session's lease, that was not consumed, and that nobody
   decided the other way.
   */
  lemma {:induction false} AcceptedDecisionIsForThePausedRun(
    ttl: real, history: seq<Section>, t: ThreadId, a: ApprovalId, d: bool)
    requires Perform(After(ttl, history), ttl, Decide(t, a, d)).reply == Done
    ensures var s := After(ttl, history);
            && t in s.records
            && s.records[t].activeRun.Some?
            && ApprovalIssued(t, s.records[t].activeRun.value, a) in s.log
            && RunFinished(t, s.records[t].activeRun.value) !in s.log
            && Unconsumed(s.log, a)
            && Decided(a, !d) !in s.log
  {
    var s := After(ttl, history);
    HistoryKeepsInvariant(ttl, history);
    assert RecordRight(s, t);
    if s.records[t].decision.Some? {
      DecidedOneWay(s.log, a, d);
    }
  }
}
