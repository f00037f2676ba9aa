/**
 The lifecycle of one streamed run (backend/agent/run_lifecycle.py): its producer thread, the cleanup
 task, the deferred cleanup after a timeout, and the four resources they release. One step is what a
 coroutine does between two awaits. Cancelling a caller of `cleanup` changes nothing here: the cleanup
 task is shielded.
 */
module Lifecycle {
  import opened Common

  datatype WorkspaceId = WorkspaceId(n: nat)

  datatype Resource = Credential | Checkpoint | Lease | Workspace

  datatype Producer = NotStarted | Alive | Exited(joined: bool)

  datatype HitlRetention = HitlRetention(workspace: WorkspaceId, approvalGiven: bool, digestLength: nat)

  predicate ValidRetention(r: HitlRetention) { r.approvalGiven && r.digestLength == 64 }

  /** Where a release pass stands; `hold` says that a valid retention keeps everything but the credential. */
  datatype Stage =
    | NeedWorkspace
    | Releasing(resource: Resource, hold: bool)
    | InFlight(resource: Resource, hold: bool)
    | Settling(resource: Resource, hold: bool, ok: bool)

  datatype Task = Created(retain: bool) | AwaitingProducer(retain: bool) | Passing(retain: bool, stage: Stage) | Ended

  datatype Report = Report(timedOut: bool, retained: bool, errors: nat, complete: bool)

  const NEW_REPORT := Report(false, false, 0, false)

  /** What happened outside: a release operation took effect, or the run left the registry. */
  datatype Event = Released(resource: Resource, producerAlive: bool) | Unregistered

  datatype Life = Life(
    producer: Producer, workspace: Option<WorkspaceId>, retention: Option<HitlRetention>,
    main: Option<Task>, deferred: Option<Task>, report: Option<Report>,
    flags: set<Resource>, markedBlindly: bool, log: seq<Event>)

  const NEW_LIFE := Life(NotStarted, None, None, None, None, None, {}, false, [])

  datatype Discovery = Raised | Found(workspace: Option<WorkspaceId>)

  datatype Who = Main | Deferred

  datatype Action =
    | StartProducer
    | SetWorkspace(workspace: Option<WorkspaceId>)
    | RetainForHitl(retention: HitlRetention)
    | ProducerExits
    | ProducerJoined
    | CallCleanup(retain: bool)
    | BeginCleanup                                   // the cleanup task runs for the first time
    | ProducerTimeout
    | ProducerAwaited(who: Who)
    | PassStep(who: Who, discovery: Discovery, ok: bool)

  function TaskOf(s: Life, who: Who): Option<Task> {
    match who case Main => s.main case Deferred => s.deferred
  }

  function SetTask(s: Life, who: Who, t: Task): Life {
    match who case Main => s.(main := Some(t)) case Deferred => s.(deferred := Some(t))
  }

  function ReportOf(s: Life): Report { if s.report.Some? then s.report.value else NEW_REPORT }

  function AddError(s: Life): Life { s.(report := Some(ReportOf(s).(errors := ReportOf(s).errors + 1))) }

  // ---------------------------------------------------------------- cleanup

  /** A new cleanup task replaces the old one only in these three cases. */
  predicate NeedsNewTask(s: Life, retain: bool) {
    || s.main.None?
    || (s.main == Some(Ended) && s.report.Some? && s.report.value.retained && !retain)
    || (s.main == Some(Ended) && s.report.Some? && !s.report.value.complete && !s.report.value.timedOut)
  }

  function DoCall(s: Life, retain: bool): Life {
    if NeedsNewTask(s, retain) then s.(main := Some(Created(retain))) else s
  }

  function DoBegin(s: Life): Life
    requires s.main.Some? && s.main.value.Created?
  {
    var retain := s.main.value.retain;
    s.(report := Some(NEW_REPORT),
       main := Some(if s.producer.NotStarted? then Passing(retain, NeedWorkspace) else AwaitingProducer(retain)))
  }

  function DoTimeout(s: Life): Life {
    AddError(s).(report := Some(AddError(s).report.value.(timedOut := true)),
                 deferred := Some(AwaitingProducer(false)), main := Some(Ended))
  }

  function DoAwaited(s: Life, who: Who): Life
    requires TaskOf(s, who).Some? && TaskOf(s, who).value.AwaitingProducer?
  {
    var t := SetTask(s, who, Passing(TaskOf(s, who).value.retain, NeedWorkspace));
    // the deferred pass forgets the timeout that brought it about
    if who.Deferred? && ReportOf(t).errors > 0 then
      t.(report := Some(ReportOf(t).(errors := ReportOf(t).errors - 1)))
    else t
  }

  // ---------------------------------------------------------------- _release_owned_resources

  function Finish(s: Life, who: Who): Life {
    var complete := ReportOf(s).errors == 0;
    var t := SetTask(s.(report := Some(ReportOf(s).(complete := complete))), who, Ended);
    if complete then t.(log := t.log + [Unregistered]) else t
  }

  function AfterRelease(s: Life, who: Who, retain: bool, resource: Resource, hold: bool): Life {
    match resource
    case Credential =>
      if hold then SetTask(s.(report := Some(ReportOf(s).(retained := true, complete := true))), who, Ended)
      else SetTask(if retain then AddError(s) else s, who, Passing(retain, Releasing(Checkpoint, false)))
    case Checkpoint => SetTask(s, who, Passing(retain, Releasing(Lease, hold)))
    case Lease =>
      if s.workspace.Some? then SetTask(s, who, Passing(retain, Releasing(Workspace, hold)))
      else Finish(s.(flags := s.flags + {Workspace}, markedBlindly := true), who)
    case Workspace => Finish(s, who)
  }

  function Holds(s: Life, retain: bool): bool {
    retain && s.retention.Some? && ValidRetention(s.retention.value) && s.workspace == Some(s.retention.value.workspace)
  }

  function Discovered(s: Life, discovery: Discovery): Life {
    if s.workspace.Some? then s
    else match discovery
      case Raised => AddError(s)
      case Found(workspace) => s.(workspace := workspace)
  }

  function DoPass(s: Life, who: Who, discovery: Discovery, ok: bool): Life
    requires TaskOf(s, who).Some? && TaskOf(s, who).value.Passing?
  {
    var Passing(retain, stage) := TaskOf(s, who).value;
    match stage
    case NeedWorkspace =>
      var t := Discovered(s, discovery);
      SetTask(t, who, Passing(retain, Releasing(Credential, Holds(t, retain))))
    case Releasing(resource, hold) =>
      if resource in s.flags then AfterRelease(s, who, retain, resource, hold)
      else SetTask(s, who, Passing(retain, InFlight(resource, hold)))
    case InFlight(resource, hold) =>
      SetTask(if ok then s.(log := s.log + [Released(resource, s.producer.Alive?)]) else s,
              who, Passing(retain, Settling(resource, hold, ok)))
    case Settling(resource, hold, succeeded) =>
      AfterRelease(if succeeded then s.(flags := s.flags + {resource}) else AddError(s), who, retain, resource, hold)
  }

  // ---------------------------------------------------------------- all steps

  /** The producer is started before the first cleanup: the stream starts it without awaiting in between. */
  predicate Enabled(s: Life, a: Action) {
    match a
    case StartProducer => s.producer.NotStarted? && s.main.None?
    case SetWorkspace(_) => s.producer.Alive?
    case RetainForHitl(r) => s.producer.Alive? && ValidRetention(r)
    case ProducerExits => s.producer.Alive?
    case ProducerJoined => s.producer == Exited(false)
    case CallCleanup(_) => true
    case BeginCleanup => s.main.Some? && s.main.value.Created?
    case ProducerTimeout => s.main.Some? && s.main.value.AwaitingProducer? && s.producer != Exited(true)
    case ProducerAwaited(who) =>
      TaskOf(s, who).Some? && TaskOf(s, who).value.AwaitingProducer? && s.producer == Exited(true)
    case PassStep(who, _, _) => TaskOf(s, who).Some? && TaskOf(s, who).value.Passing?
  }

  function Step(s: Life, a: Action): Life {
    if !Enabled(s, a) then s
    else
      match a
      case StartProducer => s.(producer := Alive)
      case SetWorkspace(workspace) => if workspace.Some? then s.(workspace := workspace) else s
      case RetainForHitl(r) => s.(workspace := Some(r.workspace), retention := Some(r))
      case ProducerExits => s.(producer := Exited(false))
      case ProducerJoined => s.(producer := Exited(true))
      case CallCleanup(retain) => DoCall(s, retain)
      case BeginCleanup => DoBegin(s)
      case ProducerTimeout => DoTimeout(s)
      case ProducerAwaited(who) => DoAwaited(s, who)
      case PassStep(who, discovery, ok) => DoPass(s, who, discovery, ok)
  }

  function Run(s: Life, actions: seq<Action>): Life {
    if actions == [] then s else Step(Run(s, actions[..|actions| - 1]), actions[|actions| - 1])
  }

  // ---------------------------------------------------------------- the lifecycle object

  /** The object whose fields the coroutines update; every method is one step between two awaits. */
  class RunLifecycle {
    var producer: Producer
    var workspaceId: Option<WorkspaceId>
    var hitlRetention: Option<HitlRetention>
    var cleanupTask: Option<Task>
    var deferredCleanupTask: Option<Task>
    var report: Option<Report>
    var credentialRevoked: bool
    var checkpointDeleted: bool
    var leaseReleased: bool
    var workspaceCleaned: bool
    ghost var markedBlindly: bool
    ghost var log: seq<Event>

    function Flags(): set<Resource>
      reads this
    {
      (if credentialRevoked then {Credential} else {}) + (if checkpointDeleted then {Checkpoint} else {})
      + (if leaseReleased then {Lease} else {}) + (if workspaceCleaned then {Workspace} else {})
    }

    ghost function State(): Life
      reads this
    {
      Life(producer, workspaceId, hitlRetention, cleanupTask, deferredCleanupTask, report, Flags(), markedBlindly, log)
    }

    constructor ()
      ensures State() == NEW_LIFE
    {
      producer, workspaceId, hitlRetention := NotStarted, None, None;
      cleanupTask, deferredCleanupTask, report := None, None, None;
      credentialRevoked, checkpointDeleted, leaseReleased, workspaceCleaned := false, false, false, false;
      markedBlindly, log := false, [];
    }

    /** Refuses a second producer. */
    method Start() returns (started: bool)
      modifies this
      ensures started <==> old(producer).NotStarted?
      ensures State() == if started then old(State()).(producer := Alive) else old(State())
      ensures Enabled(old(State()), StartProducer) ==> State() == Step(old(State()), StartProducer)
    {
      started := producer.NotStarted?;
      if started {
        producer := Alive;
      }
    }

    method Remember(workspace: Option<WorkspaceId>)
      modifies this
      ensures State() == old(State()).(workspace := if workspace.Some? then workspace else old(workspaceId))
      ensures Enabled(old(State()), SetWorkspace(workspace)) ==>
                State() == Step(old(State()), SetWorkspace(workspace))
    {
      if workspace.Some? {
        workspaceId := workspace;
      }
    }

    /** Refuses an incomplete retention. */
    method Retain(retention: HitlRetention) returns (accepted: bool)
      modifies this
      ensures accepted <==> ValidRetention(retention)
      ensures State() == if accepted
                         then old(State()).(workspace := Some(retention.workspace), retention := Some(retention))
                         else old(State())
      ensures old(producer).Alive? ==> State() == Step(old(State()), RetainForHitl(retention))
    {
      accepted := ValidRetention(retention);
      if accepted {
        workspaceId := Some(retention.workspace);
        hitlRetention := Some(retention);
      }
    }

    /** Creates a cleanup task when there is none, after a retention, or to retry an incomplete pass. */
    method Cleanup(retain: bool)
      modifies this
      ensures State() == Step(old(State()), CallCleanup(retain))
    {
      var ended := cleanupTask == Some(Ended);
      var terminalAfterRetention := ended && report.Some? && report.value.retained && !retain;
      var retryIncomplete := ended && report.Some? && !report.value.complete && !report.value.timedOut;
      if cleanupTask.None? || terminalAfterRetention || retryIncomplete {
        cleanupTask := Some(Created(retain));
      }
    }

    method CleanupImpl()
      requires Enabled(State(), BeginCleanup)
      modifies this
      ensures State() == Step(old(State()), BeginCleanup)
    {
      var retain := cleanupTask.value.retain;
      report := Some(NEW_REPORT);
      if producer.NotStarted? {
        cleanupTask := Some(Passing(retain, NeedWorkspace));
      } else {
        cleanupTask := Some(AwaitingProducer(retain));
      }
    }

    method GiveUpWaiting()
      requires Enabled(State(), ProducerTimeout) && report.Some?
      modifies this
      ensures State() == Step(old(State()), ProducerTimeout)
    {
      report := Some(report.value.(timedOut := true, errors := report.value.errors + 1));
      deferredCleanupTask := Some(AwaitingProducer(false));
      cleanupTask := Some(Ended);
    }

    method MoveTo(who: Who, task: Task)
      modifies this`cleanupTask, this`deferredCleanupTask
      ensures State() == SetTask(old(State()), who, task)
    {
      match who {
        case Main => cleanupTask := Some(task);
        case Deferred => deferredCleanupTask := Some(task);
      }
    }

    method ProducerIsGone(who: Who)
      requires Enabled(State(), ProducerAwaited(who)) && report.Some?
      modifies this
      ensures State() == Step(old(State()), ProducerAwaited(who))
    {
      var retain := match who case Main => cleanupTask.value.retain case Deferred => deferredCleanupTask.value.retain;
      if who.Deferred? && report.value.errors > 0 {
        report := Some(report.value.(errors := report.value.errors - 1));
      }
      MoveTo(who, Passing(retain, NeedWorkspace));
    }

    method CountError()
      requires report.Some?
      modifies this`report
      ensures State() == AddError(old(State()))
    {
      report := Some(report.value.(errors := report.value.errors + 1));
    }

    method Conclude(who: Who)
      requires report.Some?
      modifies this
      ensures State() == Finish(old(State()), who)
    {
      report := Some(report.value.(complete := report.value.errors == 0));
      if report.value.complete {
        log := log + [Unregistered];
      }
      MoveTo(who, Ended);
    }

    /** What follows the release of a resource, in the fixed order. */
    method Advance(who: Who, retain: bool, resource: Resource, hold: bool)
      requires report.Some?
      modifies this
      ensures State() == AfterRelease(old(State()), who, retain, resource, hold)
    {
      match resource {
        case Credential =>
          if hold {
            report := Some(report.value.(retained := true, complete := true));
            MoveTo(who, Ended);
          } else {
            if retain {
              CountError();
            }
            MoveTo(who, Passing(retain, Releasing(Checkpoint, false)));
          }
        case Checkpoint => MoveTo(who, Passing(retain, Releasing(Lease, hold)));
        case Lease =>
          if workspaceId.Some? {
            MoveTo(who, Passing(retain, Releasing(Workspace, hold)));
          } else {
            workspaceCleaned, markedBlindly := true, true;
            assert Flags() == old(Flags()) + {Workspace};
            Conclude(who);
          }
        case Workspace => Conclude(who);
      }
    }

    method SetFlag(resource: Resource)
      modifies this`credentialRevoked, this`checkpointDeleted, this`leaseReleased, this`workspaceCleaned
      ensures Flags() == old(Flags()) + {resource}
    {
      match resource {
        case Credential => credentialRevoked := true;
        case Checkpoint => checkpointDeleted := true;
        case Lease => leaseReleased := true;
        case Workspace => workspaceCleaned := true;
      }
    }

    function TaskAt(who: Who): Option<Task>
      reads this
    {
      match who case Main => cleanupTask case Deferred => deferredCleanupTask
    }

    predicate PassAt(who: Who)
      reads this
    {
      report.Some? && TaskAt(who).Some? && TaskAt(who).value.Passing?
    }

    /** Learns the workspace id if it is not known yet, and decides whether the retention holds. */
    method PrepareRelease(who: Who, discovery: Discovery, ok: bool)
      requires PassAt(who) && TaskAt(who).value.stage.NeedWorkspace?
      modifies this
      ensures State() == DoPass(old(State()), who, discovery, ok)
    {
      var retain := TaskAt(who).value.retain;
      if workspaceId.None? {
        match discovery {
          case Raised => CountError();
          case Found(workspace) => workspaceId := workspace;
        }
      }
      assert State() == Discovered(old(State()), discovery);
      var hold := retain && hitlRetention.Some? && ValidRetention(hitlRetention.value)
                  && workspaceId == Some(hitlRetention.value.workspace);
      MoveTo(who, Passing(retain, Releasing(Credential, hold)));
    }

    /** Starts the release of a resource, or skips one that an earlier pass released. */
    method BeginRelease(who: Who, discovery: Discovery, ok: bool)
      requires PassAt(who) && TaskAt(who).value.stage.Releasing?
      modifies this
      ensures State() == DoPass(old(State()), who, discovery, ok)
    {
      var Passing(retain, stage) := TaskAt(who).value;
      if stage.resource in Flags() {
        Advance(who, retain, stage.resource, stage.hold);
      } else {
        MoveTo(who, Passing(retain, InFlight(stage.resource, stage.hold)));
      }
    }

    /** The release operation itself takes effect, or fails. */
    method Operate(who: Who, discovery: Discovery, ok: bool)
      requires PassAt(who) && TaskAt(who).value.stage.InFlight?
      modifies this
      ensures State() == DoPass(old(State()), who, discovery, ok)
    {
      var Passing(retain, stage) := TaskAt(who).value;
      if ok {
        log := log + [Released(stage.resource, producer.Alive?)];
      }
      MoveTo(who, Passing(retain, Settling(stage.resource, stage.hold, ok)));
    }

    /** Records the outcome of the release operation and goes on to the next resource. */
    method Settle(who: Who, discovery: Discovery, ok: bool)
      requires PassAt(who) && TaskAt(who).value.stage.Settling?
      modifies this
      ensures State() == DoPass(old(State()), who, discovery, ok)
    {
      var Passing(retain, stage) := TaskAt(who).value;
      if stage.ok {
        SetFlag(stage.resource);
        assert State() == old(State()).(flags := old(State()).flags + {stage.resource});
      } else {
        CountError();
      }
      Advance(who, retain, stage.resource, stage.hold);
    }
  }
}
