/**
 Short-lived sessions (backend/session_registry.py): the run lease of each thread and the one-time
 approval bound to it. A step is one section under the registry lock. An authorised operation is two
 such sections, so other threads may run between its token check and its body, and may even prune
 the session there. Tokens stand for their SHA-256 digests; the clock and every generated identifier
 are inputs.
 */
module Sessions {
  import opened Common

  datatype ThreadId = ThreadId(n: nat)
  datatype RunId = RunId(n: nat)
  datatype ApprovalId = ApprovalId(n: nat)
  datatype Token = Token(n: nat)

  datatype Record = Record(
    token: Token, expiresAt: real, approval: Option<ApprovalId>, decision: Option<bool>, activeRun: Option<RunId>)

  datatype Event =
    | SessionCreated(thread: ThreadId)
    | RunBegun(thread: ThreadId, run: RunId)
    | RunFinished(thread: ThreadId, run: RunId)
    | ApprovalIssued(thread: ThreadId, run: RunId, approval: ApprovalId)
    | Decided(approval: ApprovalId, approved: bool)
    | Consumed(approval: ApprovalId, approved: bool, run: RunId)

  datatype Registry = Registry(records: map<ThreadId, Record>, log: seq<Event>)

  datatype Section =
    | Create(now: real, thread: ThreadId, token: Token)
    | Require(now: real, thread: ThreadId, token: Token)
    | BeginRun(thread: ThreadId, newRun: RunId)
    | RequireActiveRun(thread: ThreadId)
    | FinishRun(thread: ThreadId, run: RunId)
    | FinishOwnedRun(thread: ThreadId, run: RunId)
    | BeginApproval(thread: ThreadId, run: RunId, newApproval: ApprovalId)
    | Decide(thread: ThreadId, approval: ApprovalId, approved: bool)
    | Consume(thread: ThreadId)

  datatype Reply =
    | Done
    | Unauthorized
    | SessionGone                      // the record vanished between the token check and the body
    | RunIs(run: RunId)
    | AlreadyRunning
    | NoActiveRun
    | LeaseReleased(released: bool)
    | ApprovalIs(approval: ApprovalId)
    | NotTheActiveRun
    | ApprovalExpired
    | DecidedOtherwise
    | NothingDecided
    | Decision(approval: ApprovalId, approved: bool, run: RunId)
    | DecisionWithoutRun

  datatype Outcome = Outcome(state: Registry, reply: Reply)

  // ---------------------------------------------------------------- the sections

  function Live(records: map<ThreadId, Record>, now: real): map<ThreadId, Record> {
    map t | t in records && records[t].expiresAt > now :: records[t]
  }

  function Put(s: Registry, t: ThreadId, r: Record, events: seq<Event>): Registry {
    Registry(s.records[t := r], s.log + events)
  }

  function DoCreate(s: Registry, ttl: real, now: real, t: ThreadId, token: Token): Outcome {
    var fresher := s.(records := Live(s.records, now));
    Outcome(Put(fresher, t, Record(token, now + ttl, None, None, None), [SessionCreated(t)]), Done)
  }

  function DoRequire(s: Registry, ttl: real, now: real, t: ThreadId, token: Token): Outcome {
    var fresher := s.(records := Live(s.records, now));
    if t in fresher.records && fresher.records[t].token == token then
      Outcome(Put(fresher, t, fresher.records[t].(expiresAt := now + ttl), []), Done)
    else
      Outcome(fresher, Unauthorized)
  }

  function DoBeginRun(s: Registry, t: ThreadId, newRun: RunId): Outcome {
    if t !in s.records then Outcome(s, SessionGone)
    else if s.records[t].activeRun.Some? then Outcome(s, AlreadyRunning)
    else Outcome(Put(s, t, s.records[t].(activeRun := Some(newRun)), [RunBegun(t, newRun)]), RunIs(newRun))
  }

  function DoRequireActiveRun(s: Registry, t: ThreadId): Outcome {
    if t !in s.records then Outcome(s, SessionGone)
    else if s.records[t].activeRun.None? then Outcome(s, NoActiveRun)
    else Outcome(s, RunIs(s.records[t].activeRun.value))
  }

  function DoRelease(s: Registry, t: ThreadId, run: RunId): Outcome
    requires t in s.records
  {
    if s.records[t].activeRun != Some(run) then Outcome(s, LeaseReleased(false))
    else
      var r := s.records[t].(activeRun := None, approval := None, decision := None);
      Outcome(Put(s, t, r, [RunFinished(t, run)]), LeaseReleased(true))
  }

  function DoBeginApproval(s: Registry, t: ThreadId, run: RunId, newApproval: ApprovalId): Outcome {
    if t !in s.records then Outcome(s, SessionGone)
    else if s.records[t].activeRun != Some(run) then Outcome(s, NotTheActiveRun)
    else if s.records[t].approval.Some? && s.records[t].decision.None? then
      Outcome(s, ApprovalIs(s.records[t].approval.value))
    else
      var r := s.records[t].(approval := Some(newApproval), decision := None);
      Outcome(Put(s, t, r, [ApprovalIssued(t, run, newApproval)]), ApprovalIs(newApproval))
  }

  /** An accepted decision is logged each time, also when it repeats the one already stored. */
  function DoDecide(s: Registry, t: ThreadId, a: ApprovalId, approved: bool): Outcome {
    if t !in s.records then Outcome(s, SessionGone)
    else if s.records[t].approval != Some(a) then Outcome(s, ApprovalExpired)
    else if s.records[t].decision == Some(!approved) then Outcome(s, DecidedOtherwise)
    else Outcome(Put(s, t, s.records[t].(decision := Some(approved)), [Decided(a, approved)]), Done)
  }

  function DoConsume(s: Registry, t: ThreadId): Outcome {
    if t !in s.records then Outcome(s, SessionGone)
    else
      var r := s.records[t];
      if r.approval.None? || r.decision.None? then Outcome(s, NothingDecided)
      else if r.activeRun.None? then Outcome(s, DecisionWithoutRun)
      else
        var (a, d, run) := (r.approval.value, r.decision.value, r.activeRun.value);
        Outcome(Put(s, t, r.(approval := None, decision := None), [Consumed(a, d, run)]), Decision(a, d, run))
  }

  function Perform(s: Registry, ttl: real, c: Section): Outcome {
    match c
    case Create(now, t, token) => DoCreate(s, ttl, now, t, token)
    case Require(now, t, token) => DoRequire(s, ttl, now, t, token)
    case BeginRun(t, newRun) => DoBeginRun(s, t, newRun)
    case RequireActiveRun(t) => DoRequireActiveRun(s, t)
    case FinishRun(t, run) => if t in s.records then DoRelease(s, t, run) else Outcome(s, SessionGone)
    case FinishOwnedRun(t, run) => if t in s.records then DoRelease(s, t, run) else Outcome(s, LeaseReleased(false))
    case BeginApproval(t, run, newApproval) => DoBeginApproval(s, t, run, newApproval)
    case Decide(t, a, approved) => DoDecide(s, t, a, approved)
    case Consume(t) => DoConsume(s, t)
  }

  /** A generated identifier was never generated before. */
  predicate Fresh(log: seq<Event>, c: Section) {
    forall i | 0 <= i < |log| ::
      match c
      case Create(_, t, _) => log[i] != SessionCreated(t)
      case BeginRun(_, newRun) => log[i].RunBegun? ==> log[i].run != newRun
      case BeginApproval(_, _, newApproval) => log[i].ApprovalIssued? ==> log[i].approval != newApproval
      case _ => true
  }

  /** The registry after any interleaving of sections; one that reuses an identifier is left out. */
  function After(ttl: real, history: seq<Section>): Registry {
    if history == [] then Registry(map[], [])
    else
      var s := After(ttl, history[..|history| - 1]);
      var c := history[|history| - 1];
      if Fresh(s.log, c) then Perform(s, ttl, c).state else s
  }

  predicate IsResumable(s: Registry, t: ThreadId, run: RunId, a: ApprovalId) {
    && t in s.records
    && s.records[t].activeRun == Some(run)
    && s.records[t].approval == Some(a)
    && s.records[t].decision.None?
  }

  /** A whole operation when no other thread runs in between: the token check, then the body. */
  function Operation(s: Registry, ttl: real, now: real, t: ThreadId, token: Token, body: Section): Outcome {
    var checked := DoRequire(s, ttl, now, t, token);
    if checked.reply.Unauthorized? then checked else Perform(checked.state, ttl, body)
  }

  // ---------------------------------------------------------------- the registry object

  class SessionRegistry {
    const ttl: real
    var records: map<ThreadId, Record>
    ghost var log: seq<Event>

    ghost function State(): Registry
      reads this
    {
      Registry(records, log)
    }

    constructor (ttl: real)
      ensures this.ttl == ttl && State() == After(ttl, [])
    {
      this.ttl := ttl;
      records, log := map[], [];
    }

    method PruneExpired(now: real)
      modifies this`records
      ensures records == Live(old(records), now)
    {
      var expired: seq<ThreadId> := [];
      var unseen := records.Keys;
      while unseen != {}
        invariant unseen <= records.Keys
        invariant forall t :: t in expired <==> t in records && t !in unseen && records[t].expiresAt <= now
        invariant records == old(records)
        decreases unseen
      {
        var t :| t in unseen;
        if records[t].expiresAt <= now {
          expired := expired + [t];
        }
        unseen := unseen - {t};
      }
      for i := 0 to |expired|
        invariant records == map t | t in old(records) && t !in expired[..i] :: old(records)[t]
      {
        records := records - {expired[i]};
        assert expired[..i + 1] == expired[..i] + [expired[i]];
      }
      assert expired[..|expired|] == expired;
    }

    method CreateSession(now: real, thread: ThreadId, token: Token)
      modifies this
      ensures State() == DoCreate(old(State()), ttl, now, thread, token).state
    {
      PruneExpired(now);
      records := records[thread := Record(token, now + ttl, None, None, None)];
      log := log + [SessionCreated(thread)];
    }

    method Authorize(now: real, thread: ThreadId, token: Token) returns (reply: Reply)
      modifies this`records
      ensures Outcome(State(), reply) == DoRequire(old(State()), ttl, now, thread, token)
    {
      PruneExpired(now);
      if thread !in records || records[thread].token != token {
        return Unauthorized;
      }
      records := records[thread := records[thread].(expiresAt := now + ttl)];
      reply := Done;
    }

    method Begin(now: real, thread: ThreadId, token: Token, newRun: RunId) returns (reply: Reply)
      modifies this
      ensures Outcome(State(), reply) == Operation(old(State()), ttl, now, thread, token, BeginRun(thread, newRun))
    {
      reply := Authorize(now, thread, token);
      if reply.Unauthorized? {
        return;
      }
      if records[thread].activeRun.Some? {
        return AlreadyRunning;
      }
      records := records[thread := records[thread].(activeRun := Some(newRun))];
      log := log + [RunBegun(thread, newRun)];
      reply := RunIs(newRun);
    }

    method ActiveRun(now: real, thread: ThreadId, token: Token) returns (reply: Reply)
      modifies this
      ensures Outcome(State(), reply) == Operation(old(State()), ttl, now, thread, token, RequireActiveRun(thread))
    {
      reply := Authorize(now, thread, token);
      if reply.Unauthorized? {
        return;
      }
      reply := match records[thread].activeRun case None => NoActiveRun case Some(run) => RunIs(run);
    }

    method ClearLease(thread: ThreadId, run: RunId) returns (released: bool)
      requires thread in records
      modifies this
      ensures Outcome(State(), LeaseReleased(released)) == DoRelease(old(State()), thread, run)
    {
      if records[thread].activeRun != Some(run) {
        return false;
      }
      records := records[thread := records[thread].(activeRun := None)];
      records := records[thread := records[thread].(approval := None)];
      records := records[thread := records[thread].(decision := None)];
      log := log + [RunFinished(thread, run)];
      released := true;
    }

    method Finish(now: real, thread: ThreadId, token: Token, run: RunId) returns (reply: Reply)
      modifies this
      ensures Outcome(State(), reply) == Operation(old(State()), ttl, now, thread, token, FinishRun(thread, run))
    {
      reply := Authorize(now, thread, token);
      if reply.Unauthorized? {
        return;
      }
      var released := ClearLease(thread, run);
      reply := LeaseReleased(released);
    }

    method FinishOwned(thread: ThreadId, run: RunId) returns (released: bool)
      modifies this
      ensures Outcome(State(), LeaseReleased(released)) == Perform(old(State()), ttl, FinishOwnedRun(thread, run))
    {
      if thread !in records {
        return false;
      }
      released := ClearLease(thread, run);
    }

    method IsResumableApproval(thread: ThreadId, run: RunId, approval: ApprovalId) returns (yes: bool)
      ensures yes <==> IsResumable(State(), thread, run, approval)
    {
      if thread !in records {
        return false;
      }
      var record := records[thread];
      yes := record.activeRun == Some(run) && record.approval == Some(approval) && record.decision == None;
    }

    method RequestApproval(now: real, thread: ThreadId, token: Token, run: RunId, newApproval: ApprovalId)
      returns (reply: Reply)
      modifies this
      ensures Outcome(State(), reply)
              == Operation(old(State()), ttl, now, thread, token, BeginApproval(thread, run, newApproval))
    {
      reply := Authorize(now, thread, token);
      if reply.Unauthorized? {
        return;
      }
      var record := records[thread];
      if record.activeRun != Some(run) {
        return NotTheActiveRun;
      }
      if record.approval.Some? && record.decision.None? {
        return ApprovalIs(record.approval.value);
      }
      records := records[thread := record.(approval := Some(newApproval), decision := None)];
      log := log + [ApprovalIssued(thread, run, newApproval)];
      reply := ApprovalIs(newApproval);
    }

    method Answer(now: real, thread: ThreadId, token: Token, approval: ApprovalId, approved: bool)
      returns (reply: Reply)
      modifies this
      ensures Outcome(State(), reply)
              == Operation(old(State()), ttl, now, thread, token, Decide(thread, approval, approved))
    {
      reply := Authorize(now, thread, token);
      if reply.Unauthorized? {
        return;
      }
      var record := records[thread];
      if record.approval != Some(approval) {
        return ApprovalExpired;
      }
      if record.decision.Some? && record.decision.value != approved {
        return DecidedOtherwise;
      }
      records := records[thread := record.(decision := Some(approved))];
      log := log + [Decided(approval, approved)];
    }

    method ConsumeDecision(now: real, thread: ThreadId, token: Token) returns (reply: Reply)
      modifies this
      ensures Outcome(State(), reply) == Operation(old(State()), ttl, now, thread, token, Consume(thread))
    {
      reply := Authorize(now, thread, token);
      if reply.Unauthorized? {
        return;
      }
      var record := records[thread];
      if record.approval.None? || record.decision.None? {
        return NothingDecided;
      }
      if record.activeRun.None? {
        return DecisionWithoutRun;
      }
      reply := Decision(record.approval.value, record.decision.value, record.activeRun.value);
      records := records[thread := record.(approval := None, decision := None)];
      log := log + [Consumed(reply.approval, reply.approved, reply.run)];
    }
  }
}
