/** The two-phase directory refresh: a root listing, then a recursive one, under one deadline.
    Other tasks run at every await point of the monitor: they cancel, start and unregister. */
module RefreshJobs {
  import opened Options

  type ConnectionId = nat
  type ControlId = nat
  type JobId = nat

  // ------------------------------------------------------------------------------ rc replies

  /** A JSON answer to `job/status`; absent or ill-typed fields are None. */
  datatype StatusBody = StatusBody(id: Option<JobId>, executeId: Option<string>, finished: Option<bool>,
                                   success: Option<bool>, error: Option<string>, results: seq<Option<string>>)

  datatype StartBody = StartBody(jobId: Option<JobId>, executeId: Option<string>)

  datatype Reply = CommandFailed | NotJson | Status(status: StatusBody) | Submission(start: StartBody)

  datatype JobStatus = JobStatus(finished: bool, success: bool, error: string)

  function Or<T>(o: Option<T>, default: T): T { if o.Some? then o.value else default }

  /** "ok" in any letter case. */
  predicate EqualsOk(s: string): (equal: bool)
    ensures equal <==> s == "ok" || s == "OK" || s == "Ok" || s == "oK"
  {
    |s| == 2 && (s[0] == 'o' || s[0] == 'O') && (s[1] == 'k' || s[1] == 'K')
  }

  ghost predicate AllOk(results: seq<Option<string>>) {
    forall i :: 0 <= i < |results| && results[i].Some? ==> EqualsOk(results[i].value)
  }

  /** Some entry of the provider's result is a string other than OK. */
  predicate Rejected(results: seq<Option<string>>) {
    exists i :: 0 <= i < |results| && results[i].Some? && !EqualsOk(results[i].value)
  }

  /** `parse_job_status`: None for any reply that is not about this job of this process. */
  function ParseStatus(reply: Reply, executeId: string, job: JobId): (status: Option<JobStatus>)
    ensures status.Some? <==>
              reply.Status? && reply.status.id == Some(job)
              && (reply.status.executeId == Some(executeId) || (reply.status.executeId.None? && executeId == ""))
    ensures status.Some? ==>
              && (status.value.finished <==> reply.status.finished == Some(true))
              && (status.value.success <==> (reply.status.success == Some(true) && AllOk(reply.status.results)))
  {
    if !reply.Status? then None
    else
      var body := reply.status;
      if body.id != Some(job) || Or(body.executeId, "") != executeId then None
      else if Rejected(body.results) then Some(JobStatus(Or(body.finished, false), false, "provider rejected"))
      else Some(JobStatus(Or(body.finished, false), Or(body.success, false), Or(body.error, "")))
  }

  /** `parse_job_start`. */
  function ParseStart(reply: Reply): (start: Option<(JobId, string)>)
    ensures start.Some? <==> reply.Submission? && reply.start.jobId.Some? && reply.start.executeId.Some? && reply.start.executeId != Some("")
    ensures start.Some? ==> reply.start == StartBody(Some(start.value.0), Some(start.value.1))
  {
    if reply.Submission? && reply.start.jobId.Some? && reply.start.executeId.Some? && reply.start.executeId.value != "" then
      Some((reply.start.jobId.value, reply.start.executeId.value))
    else None
  }

  // ---------------------------------------------------------------------------------- the trace

  datatype Event =
    | Awaiting(control: ControlId, job: JobId)
    | StatusRead(control: ControlId, job: JobId, executeId: string, status: JobStatus)
    | Submitted(control: ControlId, recursive: bool, clock: nat)
    | SubmissionRead(control: ControlId, job: JobId, executeId: string)
    | StopSent(control: ControlId, job: JobId)
    | CancelRead(control: ControlId, shown: Option<JobId>)

  /** The job a monitor was polling when it last began to wait. */
  function LastAwaited(trace: seq<Event>, control: ControlId): Option<JobId> {
    if trace == [] then None
    else
      var last := trace[|trace| - 1];
      if last.Awaiting? && last.control == control then Some(last.job)
      else LastAwaited(trace[..|trace| - 1], control)
  }

  /** From position `from` on, every cancel of this control read the job being polled. */
  ghost predicate CancelsHitPolled(trace: seq<Event>, control: ControlId, from: nat) {
    forall k, shown :: from <= k < |trace| && trace[k] == CancelRead(control, shown) ==>
      shown == LastAwaited(trace[..k], control)
  }

  /** And every stop that the monitor sends goes to that job. */
  ghost predicate StopsHitPolled(trace: seq<Event>, control: ControlId, from: nat) {
    forall k, id: JobId :: from <= k < |trace| && trace[k] == StopSent(control, id) ==>
      LastAwaited(trace[..k], control) == Some(id)
  }

  /** The last thing the monitor did was to tell this job to stop. */
  ghost predicate EndsStopped(trace: seq<Event>, from: nat, control: ControlId, id: JobId) {
    exists k :: from <= k < |trace| && trace[k] == StopSent(control, id) && forall j :: k < j < |trace| ==> trace[j].CancelRead?
  }

  /** No job is left running by a monitor that gives up: the one it was polling was told to stop, or
      the root job had succeeded and no recursive one was taken up. */
  ghost predicate LeavesNothing(trace: seq<Event>, from: nat, control: ControlId, job: RefreshJob) {
    && LastAwaited(trace, control).Some?
    && var polled := LastAwaited(trace, control).value;
       EndsStopped(trace, from, control, polled)
       || (polled == job.id && HasSucceeded(trace, from, control, job.id, job.executeId))
  }

  /** Recursive submissions of this control. */
  function Submissions(trace: seq<Event>, control: ControlId): nat {
    if trace == [] then 0
    else Submissions(trace[..|trace| - 1], control) + if IsRecursive(trace[|trace| - 1], control) then 1 else 0
  }

  /** A finished and successful report about this job of this process. */
  predicate Succeeded(e: Event, control: ControlId, job: JobId, executeId: string) {
    e.StatusRead? && e.control == control && e.job == job && e.executeId == executeId && e.status.finished && e.status.success
  }

  ghost predicate HasSucceeded(trace: seq<Event>, from: nat, control: ControlId, job: JobId, executeId: string) {
    exists k :: from <= k < |trace| && Succeeded(trace[k], control, job, executeId)
  }

  datatype RefreshJob = RefreshJob(conn: ConnectionId, id: JobId, executeId: string, deadline: nat)

  predicate IsRecursive(e: Event, control: ControlId) { e.Submitted? && e.control == control && e.recursive }

  /** Every recursive submission from `from` on came before the deadline and after the root job
      had reported success. */
  ghost predicate SubmissionsEarned(trace: seq<Event>, from: nat, control: ControlId, job: RefreshJob) {
    forall k :: from <= k < |trace| && IsRecursive(trace[k], control) ==>
      trace[k].clock < job.deadline && HasSucceeded(trace[..k], from, control, job.id, job.executeId)
  }

  lemma AppendToPolled(trace: seq<Event>, e: Event, control: ControlId, from: nat)
    requires from <= |trace| && CancelsHitPolled(trace, control, from) && StopsHitPolled(trace, control, from)
    requires e.CancelRead? && e.control == control ==> e.shown == LastAwaited(trace, control)
    requires e.StopSent? && e.control == control ==> Some(e.job) == LastAwaited(trace, control)
    ensures CancelsHitPolled(trace + [e], control, from) && StopsHitPolled(trace + [e], control, from)
    ensures LastAwaited(trace + [e], control) ==
              if e.Awaiting? && e.control == control then Some(e.job) else LastAwaited(trace, control)
    ensures Submissions(trace + [e], control) == Submissions(trace, control) + if IsRecursive(e, control) then 1 else 0
  {
    var t := trace + [e];
    assert t[..|trace|] == trace;
    forall k, shown | from <= k < |t| && t[k] == CancelRead(control, shown) ensures shown == LastAwaited(t[..k], control) {
      assert t[..k] == trace[..k];
    }
    forall k, id: JobId | from <= k < |t| && t[k] == StopSent(control, id) ensures LastAwaited(t[..k], control) == Some(id) {
      assert t[..k] == trace[..k];
    }
  }

  lemma AppendToEarned(trace: seq<Event>, e: Event, from: nat, control: ControlId, job: RefreshJob)
    requires from <= |trace| && SubmissionsEarned(trace, from, control, job)
    requires IsRecursive(e, control) ==>
               e.clock < job.deadline && HasSucceeded(trace, from, control, job.id, job.executeId)
    ensures SubmissionsEarned(trace + [e], from, control, job)
  {
    var t := trace + [e];
    forall k | from <= k < |t| && IsRecursive(t[k], control)
      ensures t[k].clock < job.deadline && HasSucceeded(t[..k], from, control, job.id, job.executeId)
    {
      assert t[..k] == trace[..k] && trace[..|trace|] == trace;
    }
  }

  // --------------------------------------------------------------------------- tasks and registry

  /** What other tasks may do while the monitor waits. */
  datatype Other =
    | Cancel(conn: ConnectionId)
    | Finish(conn: ConnectionId, control: ControlId)
    | Register(conn: ConnectionId, control: ControlId)
    | SetJob(control: ControlId, job: JobId)

  /** One await: the clock and the sleep gate before it, what others do meanwhile, whether the
      gate has closed by then, the answer, and what others do while a stop is being sent. */
  datatype Turn = Turn(clock: nat, asleepAlready: bool, others: seq<Other>, asleep: bool, reply: Reply, later: seq<Other>)

  /** The recursive refresh is submitted: the deadline, a cancel and the sleep gate leave room for it. */
  predicate Submits(turn: Turn, cancelled: bool, job: RefreshJob) {
    turn.clock < job.deadline && !cancelled && !turn.asleepAlready
  }

  datatype Outcome = Completed | TimedOut | Cancelled | Failed | Unanswered

  datatype Verdict = StillRunning | JobSucceeded | Exit(outcome: Outcome)

  // ------------------------------------------------------------------- the monitor undisturbed

  /** What one status request about a job comes to. */
  function AfterPoll(turn: Turn, job: RefreshJob, polled: JobId, recursive: bool): Verdict {
    if turn.clock >= job.deadline then Exit(TimedOut)
    else if turn.asleepAlready || turn.asleep then Exit(Cancelled)
    else
      match ParseStatus(turn.reply, job.executeId, polled)
      case None => Exit(Failed)
      case Some(status) =>
        if !status.finished then StillRunning
        else if !status.success then Exit(Failed)
        else if recursive then Exit(Completed)
        else JobSucceeded
  }

  function AfterPause(turn: Turn): Verdict {
    if turn.asleepAlready || turn.asleep then Exit(Cancelled) else StillRunning
  }

  /** What the recursive submission comes to. */
  function AfterSubmission(turn: Turn, job: RefreshJob): Verdict {
    if turn.clock >= job.deadline then Exit(TimedOut)
    else if turn.asleepAlready || turn.asleep then Exit(Cancelled)
    else if ParseStart(turn.reply).None? || ParseStart(turn.reply).value.1 != job.executeId then Exit(Failed)
    else StillRunning
  }

  /** What a run of answers comes to when no other task acts: the root job is polled with a pause after
      every answer, then the recursive one is submitted and polled the same way. */
  function Undisturbed(turns: seq<Turn>, job: RefreshJob, polled: JobId, recursive: bool): Verdict
    decreases |turns|
  {
    if turns == [] then StillRunning
    else
      var verdict := AfterPoll(turns[0], job, polled, recursive);
      if verdict.Exit? || |turns| == 1 then verdict
      else if verdict.StillRunning? then
        if AfterPause(turns[1]).Exit? then AfterPause(turns[1]) else Undisturbed(turns[2..], job, polled, recursive)
      else if AfterSubmission(turns[1], job).Exit? then AfterSubmission(turns[1], job)
      else Undisturbed(turns[2..], job, ParseStart(turns[1].reply).value.0, true)
  }

  predicate AllQuiet(turns: seq<Turn>) { forall i :: 0 <= i < |turns| ==> turns[i].others == [] }

  class Refreshes {
    var active: map<ConnectionId, ControlId>
    var jobIds: map<ControlId, Option<JobId>>
    var cancelled: set<ControlId>
    var trace: seq<Event>

    constructor ()
      ensures Valid() && active == map[] && trace == []
    {
      active, jobIds, cancelled, trace := map[], map[], {}, [];
    }

    /** Registered controls exist, each under one connection. */
    ghost predicate Valid()
      reads this
    {
      && (forall conn :: conn in active ==> active[conn] in jobIds)
      && (forall c, d :: c in active && d in active && active[c] == active[d] ==> c == d)
    }

    ghost predicate Registered(control: ControlId)
      reads this`active
    {
      exists conn :: conn in active && active[conn] == control
    }

    /** `is_current`. */
    predicate IsRegistered(conn: ConnectionId, control: ControlId)
      reads this`active
    {
      conn in active && active[conn] == control
    }

    /** No cancel has reached this control. */
    predicate IsClear(control: ControlId, job: RefreshJob)
      reads this
    {
      control !in cancelled && IsRegistered(job.conn, control)
    }

    /** What the monitor of `control` keeps, whoever runs. */
    ghost predicate Tracking(control: ControlId, job: RefreshJob, from: nat)
      reads this
    {
      && Valid()
      && control in jobIds && jobIds[control].Some?
      && (forall conn :: conn in active && active[conn] == control ==> conn == job.conn)
      && from <= |trace|
      && CancelsHitPolled(trace, control, from) && StopsHitPolled(trace, control, from)
      && LastAwaited(trace, control) == jobIds[control]
      && SubmissionsEarned(trace, from, control, job)
    }

    /** The trace only grew, by the cancels of other tasks. */
    twostate predicate OnlyCancelsSince()
      reads this
    {
      && old(trace) <= trace && old(cancelled) <= cancelled
      && (forall k :: |old(trace)| <= k < |trace| ==> trace[k].CancelRead?)
    }

    /** The first steps of `cancel_with`: cancel the registered control and read its job. */
    method BeginCancel(conn: ConnectionId) returns (control: Option<ControlId>)
      requires Valid()
      modifies this`cancelled, this`trace
      ensures Valid()
      ensures conn !in active ==> control.None? && trace == old(trace) && cancelled == old(cancelled)
      ensures conn in active ==>
                && control == Some(active[conn])
                && cancelled == old(cancelled) + {active[conn]}
                && trace == old(trace) + [CancelRead(active[conn], jobIds[active[conn]])]
    {
      if conn !in active { return None; }
      cancelled := cancelled + {active[conn]};
      trace := trace + [CancelRead(active[conn], jobIds[active[conn]])];
      return Some(active[conn]);
    }

    /** `finish`: unregister this control, unless another one has taken its place. */
    method Unregister(conn: ConnectionId, control: ControlId)
      requires Valid()
      modifies this`active
      ensures Valid()
      ensures active == if conn in old(active) && old(active[conn]) == control then old(active) - {conn} else old(active)
    {
      if conn in active && active[conn] == control {
        active := active - {conn};
      }
    }

    /** `cancel_with`, alone: the registered control is cancelled, the job it shows is told to
        stop, and the control is unregistered. */
    method CancelWith(conn: ConnectionId) returns (found: bool)
      requires Valid()
      modifies this
      ensures Valid() && jobIds == old(jobIds)
      ensures found == old(conn in active)
      ensures !found ==> active == old(active) && cancelled == old(cancelled) && trace == old(trace)
      ensures found ==>
                var control := old(active[conn]);
                && cancelled == old(cancelled) + {control} && active == old(active) - {conn} && !Registered(control)
                && trace == old(trace) + [CancelRead(control, jobIds[control])]
                            + if jobIds[control].Some? then [StopSent(control, jobIds[control].value)] else []
    {
      var control := BeginCancel(conn);
      if control.None? { return false; }
      if jobIds[control.value].Some? {
        trace := trace + [StopSent(control.value, jobIds[control.value].value)];
      }
      Unregister(conn, control.value);
      return true;
    }

    method OtherActs(other: Other, control: ControlId, ghost job: RefreshJob, ghost from: nat)
      requires Tracking(control, job, from)
      modifies this
      ensures Tracking(control, job, from) && jobIds[control] == old(jobIds[control])
      ensures OnlyCancelsSince() && Submissions(trace, control) == old(Submissions(trace, control))
      ensures match other
              case Cancel(conn) =>
                && active == old(active) && jobIds == old(jobIds)
                && cancelled == old(cancelled) + if conn in active then {active[conn]} else {}
              case Finish(conn, gone) =>
                && jobIds == old(jobIds) && cancelled == old(cancelled)
                && active == if conn in old(active) && old(active[conn]) == gone then old(active) - {conn} else old(active)
              case Register(conn, added) =>
                && cancelled == old(cancelled)
                && active == (if added in old(jobIds) then old(active) else old(active)[conn := added])
                && jobIds == (if added in old(jobIds) then old(jobIds) else old(jobIds)[added := None])
              case SetJob(theirs, id) =>
                && active == old(active) && cancelled == old(cancelled)
                && jobIds == if theirs in old(jobIds) && theirs != control then old(jobIds)[theirs := Some(id)] else old(jobIds)
    {
      match other
      case Cancel(conn) =>
        ghost var before := trace;
        var found := BeginCancel(conn);
        if found.Some? {
          AppendToPolled(before, trace[|before|], control, from);
          AppendToEarned(before, trace[|before|], from, control, job);
        }
      case Finish(conn, gone) => Unregister(conn, gone);
      case Register(conn, added) =>
        if added !in jobIds {
          active := active[conn := added];
          jobIds := jobIds[added := None];
        }
      case SetJob(theirs, id) =>
        if theirs in jobIds && theirs != control { jobIds := jobIds[theirs := Some(id)]; }
    }

    /** Other tasks run while the monitor of `control` waits. */
    method Interfere(others: seq<Other>, control: ControlId, ghost job: RefreshJob, ghost from: nat)
      requires Tracking(control, job, from)
      modifies this
      ensures Tracking(control, job, from) && jobIds[control] == old(jobIds[control])
      ensures OnlyCancelsSince() && Submissions(trace, control) == old(Submissions(trace, control))
      ensures others == [] ==> active == old(active) && cancelled == old(cancelled)
    {
      for i := 0 to |others|
        invariant i == 0 ==> active == old(active) && cancelled == old(cancelled)
        invariant Tracking(control, job, from) && jobIds[control] == old(jobIds[control])
        invariant OnlyCancelsSince() && Submissions(trace, control) == old(Submissions(trace, control))
      {
        OtherActs(others[i], control, job, from);
      }
    }

    /** The monitor records something of its own. */
    method Record(e: Event, control: ControlId, ghost job: RefreshJob, ghost from: nat)
      requires Tracking(control, job, from) && !e.CancelRead?
      requires e.Awaiting? || e.StopSent? ==> Some(e.job) == jobIds[control] && e.control == control
      requires IsRecursive(e, control) ==>
                 e.clock < job.deadline && HasSucceeded(trace, from, control, job.id, job.executeId)
      modifies this`trace
      ensures Tracking(control, job, from) && trace == old(trace) + [e]
      ensures Submissions(trace, control) == old(Submissions(trace, control)) + if IsRecursive(e, control) then 1 else 0
    {
      AppendToPolled(trace, e, control, from);
      AppendToEarned(trace, e, from, control, job);
      trace := trace + [e];
    }

    /** The control shows a new job, which the monitor polls from now on. */
    method TakeUp(id: JobId, control: ControlId, ghost job: RefreshJob, ghost from: nat)
      requires Tracking(control, job, from)
      modifies this`trace, this`jobIds
      ensures Tracking(control, job, from) && jobIds[control] == Some(id)
      ensures trace == old(trace) + [Awaiting(control, id)]
      ensures Submissions(trace, control) == old(Submissions(trace, control))
    {
      AppendToPolled(trace, Awaiting(control, id), control, from);
      AppendToEarned(trace, Awaiting(control, id), from, control, job);
      jobIds := jobIds[control := Some(id)];
      trace := trace + [Awaiting(control, id)];
    }

    /** Tell the server to stop a job; its answer does not matter. */
    method SendStop(id: JobId, others: seq<Other>, control: ControlId, ghost job: RefreshJob, ghost from: nat)
      requires Tracking(control, job, from) && jobIds[control] == Some(id)
      modifies this
      ensures Tracking(control, job, from) && jobIds[control] == old(jobIds[control])
      ensures old(trace) <= trace && old(cancelled) <= cancelled
      ensures EndsStopped(trace, |old(trace)|, control, id)
      ensures Submissions(trace, control) == old(Submissions(trace, control))
    {
      Record(StopSent(control, id), control, job, from);
      Interfere(others, control, job, from);
    }

    /** One status request for the job being polled. */
    method Poll(turn: Turn, polled: JobId, control: ControlId, job: RefreshJob, ghost from: nat)
      returns (verdict: Verdict)
      requires Tracking(control, job, from) && jobIds[control] == Some(polled)
      modifies this
      ensures Tracking(control, job, from) && jobIds[control] == old(jobIds[control])
      ensures old(trace) <= trace && old(cancelled) <= cancelled
      ensures Submissions(trace, control) == old(Submissions(trace, control))
      ensures verdict == Exit(TimedOut) <==> turn.clock >= job.deadline
      ensures turn.clock < job.deadline ==> old(trace) + [Awaiting(control, polled)] <= trace
      ensures verdict == Exit(Cancelled) ==> control in cancelled || turn.asleepAlready || turn.asleep
      ensures turn.clock < job.deadline && (old(control in cancelled) || turn.asleepAlready || turn.asleep) ==>
                verdict == Exit(Cancelled)
      ensures verdict == Exit(TimedOut) || verdict == Exit(Cancelled) ==> EndsStopped(trace, |old(trace)|, control, polled)
      ensures verdict != Exit(TimedOut) && verdict != Exit(Cancelled) ==>
                var status := ParseStatus(turn.reply, job.executeId, polled);
                && control !in cancelled
                && (verdict.StillRunning? <==> status.Some? && !status.value.finished)
                && (verdict.JobSucceeded? <==> status.Some? && status.value.finished && status.value.success)
                && (verdict == Exit(Failed) <==> status.None? || (status.value.finished && !status.value.success))
      ensures verdict.JobSucceeded? ==> old(trace) < trace && Succeeded(trace[|trace| - 1], control, polled, job.executeId)
      ensures turn.others == [] && old(IsClear(control, job)) && turn.clock < job.deadline && !turn.asleepAlready && !turn.asleep ==>
                verdict != Exit(Cancelled) && IsClear(control, job)
    {
      if turn.clock >= job.deadline {
        SendStop(polled, turn.later, control, job, from);
        return Exit(TimedOut);
      }
      Record(Awaiting(control, polled), control, job, from);
      Interfere(turn.others, control, job, from);
      if control in cancelled || turn.asleepAlready || turn.asleep {
        SendStop(polled, turn.later, control, job, from);
        return Exit(Cancelled);
      }
      var status := ParseStatus(turn.reply, job.executeId, polled);
      if status.None? { return Exit(Failed); }
      Record(StatusRead(control, polled, job.executeId, status.value), control, job, from);
      if !status.value.finished { return StillRunning; }
      if !status.value.success { return Exit(Failed); }
      return JobSucceeded;
    }

    /** The recursive submission itself, and the answer to it unless a cancel came first. */
    method AwaitSubmission(turn: Turn, control: ControlId, job: RefreshJob, ghost from: nat)
      returns (accepted: Option<(JobId, string)>)
      requires Tracking(control, job, from) && HasSucceeded(trace, from, control, job.id, job.executeId)
      requires turn.clock < job.deadline
      modifies this
      ensures Tracking(control, job, from)
      ensures old(trace) <= trace && old(cancelled) <= cancelled
      ensures Submissions(trace, control) == old(Submissions(trace, control)) + 1
      ensures jobIds[control] == old(jobIds[control])
      ensures accepted.Some? ==> !turn.asleep && control !in cancelled && accepted == ParseStart(turn.reply)
      ensures accepted.None? ==> turn.asleep || control in cancelled || ParseStart(turn.reply).None?
      ensures turn.asleep || old(control in cancelled) ==> accepted.None?
      ensures turn.others == [] && old(IsClear(control, job)) ==> IsClear(control, job)
    {
      Record(Submitted(control, true, turn.clock), control, job, from);
      Interfere(turn.others, control, job, from);
      if control in cancelled || turn.asleep { return None; }
      return ParseStart(turn.reply);
    }

    /** The second phase begins, after the root job succeeded. */
    method SubmitRecursive(turn: Turn, control: ControlId, job: RefreshJob, ghost from: nat)
      returns (verdict: Verdict, next: JobId)
      requires Tracking(control, job, from) && HasSucceeded(trace, from, control, job.id, job.executeId)
      requires jobIds[control] == Some(job.id)
      modifies this
      ensures Tracking(control, job, from)
      ensures old(trace) <= trace && old(cancelled) <= cancelled
      ensures Submissions(trace, control) == old(Submissions(trace, control)) + if Submits(turn, old(control in cancelled), job) then 1 else 0
      ensures verdict == StillRunning || verdict == Exit(Failed) || verdict == Exit(Cancelled) || verdict == Exit(TimedOut)
      ensures verdict == Exit(TimedOut) <==> turn.clock >= job.deadline
      ensures turn.clock < job.deadline && (old(control in cancelled) || turn.asleepAlready || turn.asleep) ==> verdict == Exit(Cancelled)
      ensures verdict == Exit(Cancelled) ==>
                || control in cancelled || turn.asleepAlready || turn.asleep
                || EndsStopped(trace, |old(trace)|, control, next)
      ensures verdict == Exit(TimedOut) || verdict == Exit(Cancelled) ==>
                jobIds[control] == Some(job.id) || EndsStopped(trace, |old(trace)|, control, jobIds[control].value)
      ensures verdict == Exit(Failed) ==>
                var start := ParseStart(turn.reply);
                start.None? || (start.value.1 != job.executeId && EndsStopped(trace, |old(trace)|, control, start.value.0))
      ensures verdict.StillRunning? ==> ParseStart(turn.reply) == Some((next, job.executeId)) && control !in cancelled
      ensures verdict.StillRunning? ==>
                jobIds[control] == Some(next) && old(trace) < trace && trace[|trace| - 1] == SubmissionRead(control, next, job.executeId)
      ensures turn.others == [] && old(IsClear(control, job)) ==>
                verdict == AfterSubmission(turn, job) && (!verdict.Exit? ==> IsClear(control, job))
    {
      next := job.id;
      if turn.clock >= job.deadline { return Exit(TimedOut), next; }
      if control in cancelled || turn.asleepAlready { return Exit(Cancelled), next; }
      var start := AwaitSubmission(turn, control, job, from);
      if start.None? { return Exit(if control in cancelled || turn.asleep then Cancelled else Failed), next; }
      next := start.value.0;
      verdict := Accept(turn, next, start.value.1, control, job, from);
    }

    /** A recursive job was accepted: poll it, unless the server restarted or a cancel came. */
    method Accept(turn: Turn, next: JobId, executeId: string, control: ControlId, job: RefreshJob, ghost from: nat)
      returns (verdict: Verdict)
      requires Tracking(control, job, from)
      modifies this
      ensures Tracking(control, job, from) && jobIds[control] == Some(next)
      ensures old(trace) <= trace && old(cancelled) <= cancelled
      ensures Submissions(trace, control) == old(Submissions(trace, control))
      ensures verdict == StillRunning || verdict == Exit(Failed) || verdict == Exit(Cancelled)
      ensures verdict == Exit(Failed) <==> executeId != job.executeId
      ensures !verdict.StillRunning? ==> EndsStopped(trace, |old(trace)|, control, next)
      ensures verdict.StillRunning? <==> executeId == job.executeId && old(IsClear(control, job))
      ensures verdict.StillRunning? ==> IsClear(control, job)
      ensures verdict.StillRunning? ==> old(trace) < trace && trace[|trace| - 1] == SubmissionRead(control, next, job.executeId)
    {
      TakeUp(next, control, job, from);
      Record(SubmissionRead(control, next, executeId), control, job, from);
      if executeId != job.executeId {
        SendStop(next, turn.later, control, job, from);
        return Exit(Failed);
      }
      if control in cancelled || !IsRegistered(job.conn, control) {
        SendStop(next, turn.later, control, job, from);
        return Exit(Cancelled);
      }
      return StillRunning;
    }

    /** The pause between two polls. */
    method Pause(turn: Turn, polled: JobId, control: ControlId, job: RefreshJob, ghost from: nat)
      returns (verdict: Verdict)
      requires Tracking(control, job, from) && jobIds[control] == Some(polled)
      modifies this
      ensures Tracking(control, job, from) && jobIds[control] == old(jobIds[control])
      ensures old(trace) <= trace && old(cancelled) <= cancelled
      ensures Submissions(trace, control) == old(Submissions(trace, control))
      ensures verdict == StillRunning || verdict == Exit(Cancelled)
      ensures verdict == Exit(Cancelled) ==>
                (control in cancelled || turn.asleepAlready || turn.asleep) && EndsStopped(trace, |old(trace)|, control, polled)
      ensures verdict.StillRunning? ==> control !in cancelled && !turn.asleepAlready && !turn.asleep
      ensures turn.others == [] && old(IsClear(control, job)) ==>
                verdict == AfterPause(turn) && (!verdict.Exit? ==> IsClear(control, job))
    {
      Interfere(turn.others, control, job, from);
      if control in cancelled || turn.asleepAlready || turn.asleep {
        SendStop(polled, turn.later, control, job, from);
        return Exit(Cancelled);
      }
      return StillRunning;
    }

    /** `monitor_with`.  `turns` are the answers of the environment in order; when they run out
        the monitor is still waiting.  Whatever other tasks do: the recursive refresh is submitted
        at most once, before the deadline and after the root job's success; completion means both
        jobs succeeded under one execute id; every cancel read the job being polled; and every
        exit leaves this control unregistered. */
    method Monitor(job: RefreshJob, online: bool, turns: seq<Turn>) returns (outcome: Outcome)
      requires Valid()
      modifies this
      ensures Valid()
      ensures !old(job.conn in active && jobIds[active[job.conn]] == Some(job.id)) ==>
                outcome == Cancelled && trace == old(trace) && active == old(active)
      ensures old(job.conn in active && jobIds[active[job.conn]] == Some(job.id)) ==>
                var control := old(active[job.conn]);
                && old(trace) < trace
                && CancelsHitPolled(trace, control, |old(trace)| + 1)
                && StopsHitPolled(trace, control, |old(trace)| + 1)
                && (outcome == TimedOut || outcome == Cancelled ==> LeavesNothing(trace, |old(trace)| + 1, control, job))
                && (outcome == TimedOut ==> exists i :: 0 <= i < |turns| && turns[i].clock >= job.deadline)
                && Submissions(trace, control) <= old(Submissions(trace, control)) + 1
                && SubmissionsEarned(trace, |old(trace)| + 1, control, job)
                && (outcome == Completed ==> CompletedTwice(trace, |old(trace)| + 1, control, job))
                && (outcome != Unanswered ==> !Registered(control))
                && (!online ==> outcome == Cancelled)
                && (online && AllQuiet(turns) && control !in old(cancelled) ==>
                      var verdict := Undisturbed(turns, job, job.id, false);
                      outcome == if verdict.Exit? then verdict.outcome else Unanswered)
    {
      if !(job.conn in active && jobIds[active[job.conn]] == Some(job.id)) { return Cancelled; }
      var control := active[job.conn];
      ghost var from := |trace| + 1;
      Begin(control, job);
      if !online {
        SendStop(job.id, [], control, job, from);
        Unregister(job.conn, control);
        return Cancelled;
      }
      var verdict := PollUntilExit(turns, control, job, from, Submissions(trace, control));
      if !verdict.Exit? { return Unanswered; }
      Leave(control, job, from);
      return verdict.outcome;
    }

    /** The loop of the monitor, up to its exit or to the end of `turns`. */
    method PollUntilExit(turns: seq<Turn>, control: ControlId, job: RefreshJob, ghost from: nat, ghost start: nat)
      returns (verdict: Verdict)
      requires Progress(control, job, from, start, job.id, false, StillRunning)
      modifies this
      ensures old(trace) <= trace
      ensures Watched(control, job, from, start, verdict)
      ensures verdict == Exit(TimedOut) ==> exists i :: 0 <= i < |turns| && turns[i].clock >= job.deadline
      ensures AllQuiet(turns) && old(IsClear(control, job)) ==> verdict == Undisturbed(turns, job, job.id, false)
    {
      var polled, recursive, i := job.id, false, 0;
      verdict := StillRunning;
      while i + 1 < |turns| && verdict.StillRunning?
        invariant old(trace) <= trace
        invariant Progress(control, job, from, start, polled, recursive, verdict)
        invariant verdict == Exit(TimedOut) ==> exists k :: 0 <= k < |turns| && turns[k].clock >= job.deadline
        invariant i <= |turns|
        invariant AllQuiet(turns) && old(IsClear(control, job)) ==>
                    && (!verdict.Exit? ==> IsClear(control, job))
                    && Undisturbed(turns, job, job.id, false) ==
                         if verdict.Exit? then verdict else Undisturbed(turns[i..], job, polled, recursive)
        decreases |turns| - i
      {
        assert turns[i..] == [turns[i], turns[i + 1]] + turns[i + 2..];
        verdict, polled, recursive := Iterate(turns[i], turns[i + 1], polled, recursive, control, job, from, start);
        i := i + 2;
      }
      if i < |turns| && verdict.StillRunning? {
        verdict := Look(turns[i], polled, recursive, control, job, from, start);
      }
    }

    /** One iteration: a status request, and what follows a job that goes on or has succeeded. */
    method Iterate(turn: Turn, next: Turn, polled: JobId, recursive: bool, control: ControlId, job: RefreshJob,
                   ghost from: nat, ghost start: nat)
      returns (verdict: Verdict, newPolled: JobId, newRecursive: bool)
      requires Progress(control, job, from, start, polled, recursive, StillRunning)
      modifies this
      ensures old(trace) <= trace
      ensures Progress(control, job, from, start, newPolled, newRecursive, verdict)
      ensures verdict == Exit(TimedOut) ==> turn.clock >= job.deadline || next.clock >= job.deadline
      ensures turn.others == next.others == [] && old(IsClear(control, job)) ==>
                && (!verdict.Exit? ==> IsClear(control, job))
                && forall rest :: Undisturbed([turn, next] + rest, job, polled, recursive) ==
                                    if verdict.Exit? then verdict else Undisturbed(rest, job, newPolled, newRecursive)
    {
      verdict := Look(turn, polled, recursive, control, job, from, start);
      newPolled, newRecursive := polled, recursive;
      match verdict
      case Exit(_) =>
      case StillRunning => verdict := Rest(next, polled, control, job, from, start, recursive);
      case JobSucceeded =>
        verdict, newPolled := BeginSecond(next, control, job, from, start);
        newRecursive := verdict.StillRunning?;
      if turn.others == next.others == [] {
        forall rest ensures Undisturbed([turn, next] + rest, job, polled, recursive) ==
                              var first := AfterPoll(turn, job, polled, recursive);
                              if first.Exit? then first
                              else if first.StillRunning? then
                                if AfterPause(next).Exit? then AfterPause(next) else Undisturbed(rest, job, polled, recursive)
                              else if AfterSubmission(next, job).Exit? then AfterSubmission(next, job)
                              else Undisturbed(rest, job, ParseStart(next.reply).value.0, true)
        {
          assert ([turn, next] + rest)[2..] == rest;
        }
      }
    }

    /** A status request in either phase. */
    method Look(turn: Turn, polled: JobId, recursive: bool, control: ControlId, job: RefreshJob,
                ghost from: nat, ghost start: nat)
      returns (verdict: Verdict)
      requires Progress(control, job, from, start, polled, recursive, StillRunning)
      modifies this
      ensures old(trace) <= trace
      ensures Progress(control, job, from, start, polled, recursive, if verdict.JobSucceeded? then StillRunning else verdict)
      ensures verdict.JobSucceeded? ==> !recursive && HasSucceeded(trace, from, control, job.id, job.executeId)
      ensures verdict == Exit(TimedOut) <==> turn.clock >= job.deadline
      ensures turn.others == [] && old(IsClear(control, job)) ==>
                verdict == AfterPoll(turn, job, polled, recursive) && (!verdict.Exit? ==> IsClear(control, job))
    {
      if recursive {
        verdict := PollSecond(turn, polled, control, job, from, start);
      } else {
        verdict := PollFirst(turn, polled, control, job, from, start);
      }
    }

    /** The end of `monitor_with`: the control leaves the registry, whatever the outcome. */
    method Leave(control: ControlId, job: RefreshJob, ghost from: nat)
      requires Tracking(control, job, from)
      modifies this`active
      ensures Valid() && !Registered(control)
      ensures active == if old(IsRegistered(job.conn, control)) then old(active) - {job.conn} else old(active)
    {
      Unregister(job.conn, control);
    }

    method PollFirst(turn: Turn, polled: JobId, control: ControlId, job: RefreshJob, ghost from: nat, ghost start: nat)
      returns (verdict: Verdict)
      requires Progress(control, job, from, start, polled, false, StillRunning)
      modifies this
      ensures old(trace) <= trace
      ensures Progress(control, job, from, start, polled, false, if verdict.JobSucceeded? then StillRunning else verdict)
      ensures verdict.JobSucceeded? ==> HasSucceeded(trace, from, control, job.id, job.executeId)
      ensures verdict == Exit(TimedOut) <==> turn.clock >= job.deadline
      ensures turn.others == [] && old(IsClear(control, job)) ==>
                verdict == AfterPoll(turn, job, polled, false) && (!verdict.Exit? ==> IsClear(control, job))
    {
      verdict := Poll(turn, polled, control, job, from);
    }

    method PollSecond(turn: Turn, polled: JobId, control: ControlId, job: RefreshJob, ghost from: nat, ghost start: nat)
      returns (verdict: Verdict)
      requires Progress(control, job, from, start, polled, true, StillRunning)
      modifies this
      ensures old(trace) <= trace && !verdict.JobSucceeded?
      ensures Progress(control, job, from, start, polled, true, verdict)
      ensures verdict == Exit(TimedOut) <==> turn.clock >= job.deadline
      ensures turn.others == [] && old(IsClear(control, job)) ==>
                verdict == AfterPoll(turn, job, polled, true) && (!verdict.Exit? ==> IsClear(control, job))
    {
      ghost var before := trace;
      verdict := Poll(turn, polled, control, job, from);
      SecondAnswer(before, control, job, from, start, polled, verdict);
      if verdict.JobSucceeded? { verdict := Exit(Completed); }
    }

    /** The second phase after one more answer about its job. */
    lemma SecondAnswer(before: seq<Event>, control: ControlId, job: RefreshJob, from: nat, start: nat, polled: JobId,
                       answer: Verdict)
      requires Tracking(control, job, from) && jobIds[control] == Some(polled)
      requires Submissions(trace, control) <= start + 1
      requires before <= trace && SecondPhase(before, from, control, job, polled)
      requires answer.JobSucceeded? ==> before < trace && Succeeded(trace[|trace| - 1], control, polled, job.executeId)
      requires answer == Exit(TimedOut) || answer == Exit(Cancelled) ==> LeavesNothing(trace, from, control, job)
      requires answer != Exit(Completed) && answer != Exit(Unanswered)
      ensures Progress(control, job, from, start, polled, true, if answer.JobSucceeded? then Exit(Completed) else answer)
    {
      SecondPhaseStays(before, trace, from, control, job, polled);
      if answer.JobSucceeded? { PhasesComplete(trace, from, control, job, polled); }
    }

    method BeginSecond(turn: Turn, control: ControlId, job: RefreshJob, ghost from: nat, ghost start: nat)
      returns (verdict: Verdict, next: JobId)
      requires Progress(control, job, from, start, job.id, false, StillRunning)
      requires HasSucceeded(trace, from, control, job.id, job.executeId)
      modifies this
      ensures old(trace) <= trace
      ensures Progress(control, job, from, start, next, verdict.StillRunning?, verdict)
      ensures verdict == Exit(TimedOut) <==> turn.clock >= job.deadline
      ensures verdict.StillRunning? ==> ParseStart(turn.reply) == Some((next, job.executeId))
      ensures turn.others == [] && old(IsClear(control, job)) ==>
                verdict == AfterSubmission(turn, job) && (!verdict.Exit? ==> IsClear(control, job))
    {
      ghost var before := trace;
      verdict, next := SubmitRecursive(turn, control, job, from);
      if verdict.StillRunning? { SecondPhaseBegins(before, trace, from, control, job, next); }
    }

    method Rest(turn: Turn, polled: JobId, control: ControlId, job: RefreshJob, ghost from: nat, ghost start: nat,
                ghost recursive: bool)
      returns (verdict: Verdict)
      requires Progress(control, job, from, start, polled, recursive, StillRunning)
      modifies this
      ensures old(trace) <= trace
      ensures Progress(control, job, from, start, polled, recursive, verdict) && verdict != Exit(TimedOut)
      ensures turn.others == [] && old(IsClear(control, job)) ==>
                verdict == AfterPause(turn) && (!verdict.Exit? ==> IsClear(control, job))
    {
      ghost var before := trace;
      verdict := Pause(turn, polled, control, job, from);
      if recursive { SecondPhaseStays(before, trace, from, control, job, polled); }
    }

    /** What the monitor knows between its turns. */
    ghost predicate Progress(control: ControlId, job: RefreshJob, from: nat, start: nat, polled: JobId,
                             recursive: bool, verdict: Verdict)
      reads this
    {
      && Tracking(control, job, from)
      && !verdict.JobSucceeded?
      && (!verdict.Exit? ==> jobIds[control] == Some(polled))
      && (!recursive && !verdict.Exit? ==> polled == job.id && Submissions(trace, control) == start)
      && (recursive ==> SecondPhase(trace, from, control, job, polled))
      && Submissions(trace, control) <= start + 1
      && (verdict == Exit(Completed) ==> CompletedTwice(trace, from, control, job))
      && (verdict == Exit(TimedOut) || verdict == Exit(Cancelled) ==> LeavesNothing(trace, from, control, job))
      && verdict != Exit(Unanswered)
    }

    /** What holds when the monitor has stopped polling. */
    ghost predicate Watched(control: ControlId, job: RefreshJob, from: nat, start: nat, verdict: Verdict)
      reads this
    {
      && Tracking(control, job, from)
      && Submissions(trace, control) <= start + 1
      && (verdict == Exit(Completed) ==> CompletedTwice(trace, from, control, job))
      && (verdict == Exit(TimedOut) || verdict == Exit(Cancelled) ==> LeavesNothing(trace, from, control, job))
      && verdict != Exit(Unanswered)
    }

    /** The monitor takes up the registered control of its job. */
    method Begin(control: ControlId, job: RefreshJob)
      requires Valid() && job.conn in active && active[job.conn] == control && jobIds[control] == Some(job.id)
      modifies this`trace
      ensures trace == old(trace) + [Awaiting(control, job.id)]
      ensures Tracking(control, job, |old(trace)| + 1)
      ensures Submissions(trace, control) == old(Submissions(trace, control))
    {
      assert (trace + [Awaiting(control, job.id)])[..|trace|] == trace;
      trace := trace + [Awaiting(control, job.id)];
    }
  }

  /** The root job succeeded and then the polled job was accepted from the same process. */
  ghost predicate SecondPhase(trace: seq<Event>, from: nat, control: ControlId, job: RefreshJob, polled: JobId) {
    exists i, j :: from <= i < j < |trace| && Succeeded(trace[i], control, job.id, job.executeId)
                && trace[j] == SubmissionRead(control, polled, job.executeId)
  }

  /** Both phases succeeded, in order, under one execute id. */
  ghost predicate CompletedTwice(trace: seq<Event>, from: nat, control: ControlId, job: RefreshJob) {
    exists next, i, j, k :: from <= i < j < k < |trace| && Succeeded(trace[i], control, job.id, job.executeId)
                         && trace[j] == SubmissionRead(control, next, job.executeId)
                         && Succeeded(trace[k], control, next, job.executeId)
  }

  lemma SecondPhaseStays(before: seq<Event>, trace: seq<Event>, from: nat, control: ControlId, job: RefreshJob,
                         polled: JobId)
    requires SecondPhase(before, from, control, job, polled) && before <= trace
    ensures SecondPhase(trace, from, control, job, polled)
  {
    var i, j :| from <= i < j < |before| && Succeeded(before[i], control, job.id, job.executeId)
             && before[j] == SubmissionRead(control, polled, job.executeId);
    assert trace[i] == before[i] && trace[j] == before[j];
  }

  lemma SecondPhaseBegins(before: seq<Event>, trace: seq<Event>, from: nat, control: ControlId, job: RefreshJob,
                          polled: JobId)
    requires HasSucceeded(before, from, control, job.id, job.executeId)
    requires before < trace && trace[|trace| - 1] == SubmissionRead(control, polled, job.executeId)
    ensures SecondPhase(trace, from, control, job, polled)
  {
    var i :| from <= i < |before| && Succeeded(before[i], control, job.id, job.executeId);
    assert trace[i] == before[i];
  }

  lemma PhasesComplete(trace: seq<Event>, from: nat, control: ControlId, job: RefreshJob, polled: JobId)
    requires |trace| > 0 && SecondPhase(trace, from, control, job, polled)
    requires Succeeded(trace[|trace| - 1], control, polled, job.executeId)
    ensures CompletedTwice(trace, from, control, job)
  {
    var i, j :| from <= i < j < |trace| && Succeeded(trace[i], control, job.id, job.executeId)
             && trace[j] == SubmissionRead(control, polled, job.executeId);
    assert j < |trace| - 1;
  }
}
