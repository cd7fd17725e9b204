/** Which runs get the lock and get into a transaction, what preparing recovery takes, and what commands
    and interrupted writes can leave. */
module CoordinatorAdmission {
  import opened Coordinator
  import opened CoordinatorLaws
  import opened CoordinatorRuns
  import opened CoordinatorTheorems
  import opened Options

  // -------------------------------------------------------------------------------- the lock

  /** Some run of this connection is past its beginning. */
  ghost predicate IsBusy(s: Sys, conn: ConnectionId) {
    exists id :: id in s.runs && s.runs[id].job.conn == conn && !s.runs[id].stage.Begin?
  }

  lemma BusyMeansLocked(s: Sys, conn: ConnectionId)
    requires Exclusive(s)
    ensures IsBusy(s, conn) <==> conn in s.locks
  {
  }

  /** In every reachable state a run that tries the lock enters exactly when no run of its connection is
      under way; nothing on disk changes by it. */
  lemma EntersExactly(dirs: map<Dir, Content>, actions: seq<Action>, id: RunId, ch: Choice)
    requires id in After(Initial(dirs), actions).runs && After(Initial(dirs), actions).runs[id].stage.Begin?
    ensures var s := After(Initial(dirs), actions);
            var next := Act(s, Move(id, ch));
            && (id in next.runs <==> ch.ok && !IsBusy(s, s.runs[id].job.conn))
            && (id in next.runs ==> next.runs[id] == s.runs[id].(stage := Locked))
            && next.disk == s.disk
  {
    AlwaysInv(dirs, actions);
    BusyMeansLocked(After(Initial(dirs), actions), After(Initial(dirs), actions).runs[id].job.conn);
  }

  /** In every reachable state a new run of any connection gets the lock exactly when it is not busy. */
  lemma FreeConnectionsMayRun(dirs: map<Dir, Content>, actions: seq<Action>, job: Job, ch: Choice)
    requires ch.ok
    ensures var s := After(Initial(dirs), actions);
            var next := Act(Act(s, Start(job)), Move(s.next, ch));
            && (s.next in next.runs <==> !IsBusy(s, job.conn))
            && (s.next in next.runs ==> next.runs[s.next] == Run(job, Locked, false))
  {
    AlwaysInv(dirs, actions);
    BusyMeansLocked(After(Initial(dirs), actions), job.conn);
  }

  lemma GoneIsFree(s: Sys, id: RunId, what: What)
    requires Exclusive(s) && id in s.runs && !s.runs[id].stage.Begin?
    ensures !IsBusy(Gone(s, id, what), s.runs[id].job.conn)
    ensures Gone(s, id, what).disk == s.disk && Gone(s, id, what).runs == s.runs - {id}
  {
  }

  /** A run that returns or crashes leaves its connection free for the next one and every file as it is. */
  lemma EndsFreeTheLock(dirs: map<Dir, Content>, actions: seq<Action>, id: RunId, ch: Choice)
    requires id in After(Initial(dirs), actions).runs && !After(Initial(dirs), actions).runs[id].stage.Begin?
    ensures var s := After(Initial(dirs), actions);
            forall a :: a == Crash(id) || (a == Move(id, ch) && s.runs[id].stage.Closing?) ==>
              && !IsBusy(Act(s, a), s.runs[id].job.conn)
              && Act(s, a).disk == s.disk && Act(s, a).runs == s.runs - {id}
  {
    AlwaysInv(dirs, actions);
    var s := After(Initial(dirs), actions);
    GoneIsFree(s, id, Crashed);
    GoneIsFree(s, id, Returned(s.runs[id].stage.Closing? && s.runs[id].stage.ok));
  }

  // ----------------------------------------------------------------------------- admission

  /** The same connection with the same target. */
  predicate SameMirror(a: Job, b: Job) { a.conn == b.conn && a.plan.target == b.plan.target }

  ghost predicate MarkedBefore(trace: seq<Event>, k: nat, job: Job)
    requires k <= |trace|
  {
    exists j :: 0 <= j < k && trace[j].what.WroteSyncMarker? && SameMirror(trace[j].job, job)
  }

  /** A dry run of a resync was sent and answered. */
  ghost predicate RehearsedBefore(trace: seq<Event>, k: nat, job: Job)
    requires k <= |trace|
  {
    exists j, day :: 0 <= j < k && trace[j].what == Answered(Bisync(true, true, day)) && SameMirror(trace[j].job, job)
  }

  /** The mode of a run that enters its transaction fits what was done to its work directory before. */
  ghost predicate FitsHistory(trace: seq<Event>, k: nat, job: Job)
    requires k <= |trace|
  {
    match job.mode
    case InitialPreview => !MarkedBefore(trace, k, job)
    case InitialSync => !MarkedBefore(trace, k, job) && RehearsedBefore(trace, k, job)
    case Preview => MarkedBefore(trace, k, job)
    case Sync => MarkedBefore(trace, k, job)
    case Scheduled => MarkedBefore(trace, k, job)
  }

  ghost predicate Admissions(trace: seq<Event>) {
    forall k :: 0 <= k < |trace| && trace[k].what == WroteState(Running) ==> FitsHistory(trace, k, trace[k].job)
  }

  lemma FitsStays(trace: seq<Event>, more: seq<Event>, k: nat, job: Job)
    requires k <= |trace| && FitsHistory(trace, k, job)
    ensures FitsHistory(trace + more, k, job)
  {
    assert forall j :: 0 <= j < k ==> (trace + more)[j] == trace[j];
    if MarkedBefore(trace, k, job) {
      var j :| 0 <= j < k && trace[j].what.WroteSyncMarker? && SameMirror(trace[j].job, job);
      assert (trace + more)[j].what.WroteSyncMarker? && SameMirror((trace + more)[j].job, job);
    }
    if RehearsedBefore(trace, k, job) {
      var j, day :| 0 <= j < k && trace[j].what == Answered(Bisync(true, true, day)) && SameMirror(trace[j].job, job);
      assert (trace + more)[j].what == Answered(Bisync(true, true, day)) && SameMirror((trace + more)[j].job, job);
    }
  }

  /** The marker files say exactly that much about the trace. */
  lemma AllowedFits(s: Sys, job: Job)
    requires MarkersExplained(s) && MarkersAllow(job, s.disk)
    ensures FitsHistory(s.trace, |s.trace|, job)
  {
    var work := job.Work();
    if work in s.disk.synced {
      var k, day :| 0 <= k < |s.trace| && EarnedAt(s.trace, work, k, day);
      assert SameMirror(s.trace[k].job, job);
    }
    forall j | 0 <= j < |s.trace| && s.trace[j].what.WroteSyncMarker? ensures s.trace[j].job.Work() in s.disk.synced {
      assert s.trace[j] in s.trace;
    }
    if work in s.disk.previewed {
      var e :| e in s.trace && IsRehearsal(e, work);
      var j :| 0 <= j < |s.trace| && s.trace[j] == e;
      assert s.trace[j].what == Answered(Bisync(true, true, e.what.command.day)) && SameMirror(s.trace[j].job, job);
    }
  }

  lemma AppendKeepsAdmissions(trace: seq<Event>, more: seq<Event>)
    requires Admissions(trace)
    requires forall i :: 0 <= i < |more| && more[i].what == WroteState(Running) ==> i == 0 && FitsHistory(trace, |trace|, more[i].job)
    ensures Admissions(trace + more)
  {
    forall k | 0 <= k < |trace + more| && (trace + more)[k].what == WroteState(Running)
      ensures FitsHistory(trace + more, k, (trace + more)[k].job)
    {
      if k >= |trace| { assert (trace + more)[k] == more[k - |trace|]; }
      FitsStays(trace, more, k, (trace + more)[k].job);
    }
  }

  lemma StepKeepsAdmissions(s: Sys, id: RunId, ch: Choice)
    requires Inv(s) && MarkersExplained(s) && Admissions(s.trace) && Stepping(s, Move(id, ch))
    ensures Admissions(Stepped(s, id, Advance(s.runs[id], s.disk, ch)).trace)
  {
    var run := s.runs[id];
    assert OnCourse(s.trace, id, run, s.disk);
    AdvanceExplained(run, s.disk, ch);
    var out := Advance(run, s.disk, ch);
    var more := Log(id, run.job, out.log);
    forall i | 0 <= i < |more| && more[i].what == WroteState(Running)
      ensures i == 0 && FitsHistory(s.trace, |s.trace|, more[i].job)
    {
      assert out.log[i] in out.log && Traced(run, out, out.log[i]);
      AllowedFits(s, run.job);
    }
    AppendKeepsAdmissions(s.trace, more);
  }

  lemma ActKeepsAdmissions(s: Sys, a: Action)
    requires Inv(s) && MarkersExplained(s) && Admissions(s.trace)
    ensures Admissions(Act(s, a).trace)
  {
    if Stepping(s, a) {
      StepKeepsAdmissions(s, a.id, a.choice);
    } else {
      var more := OutsideAdds(s, a);
      assert forall i :: 0 <= i < |more| ==> more[i] in more;
      AppendKeepsAdmissions(s.trace, more);
    }
  }

  /** Over every sequence of runs: an initial preview enters its transaction only before the first
      initial synchronization of its work directory finished, an initial synchronization only then and
      after a completed rehearsal, every other mode only after such a synchronization finished. */
  lemma {:induction false} ModesFitHistory(dirs: map<Dir, Content>, actions: seq<Action>)
    ensures Admissions(After(Initial(dirs), actions).trace)
  {
    if actions != [] {
      var before := actions[..|actions| - 1];
      ModesFitHistory(dirs, before);
      AlwaysInv(dirs, before);
      SyncMarkerIsEarned(dirs, before);
      ActKeepsAdmissions(After(Initial(dirs), before), actions[|actions| - 1]);
    }
  }

  // ---------------------------------------------------------------------------------- refusals

  /** Stages at which a failure of the environment must end the run: reading, writing and checking files,
      and the answers to all commands but the snapshot of a preview and a purge. */
  predicate MayNotFail(run: Run) {
    match CommandAt(run)
    case Some(command) => run.awaiting && !command.PreviewSnapshot? && !command.Purge?
    case None =>
      match run.stage
      case Bound => true
      case InputsReady => true
      case StateFree => true
      case Working => true
      case Anchored(_) => true
      case Counted(_) => run.job.plan.oneDrive || run.job.mode.InitialPreview?
      case Verified(_) => run.job.plan.oneDrive && (run.job.mode.InitialSync? || run.job.mode.Sync?)
      case Cleaned(_) => run.job.mode.InitialSync?
      case Marked(_) => true
      case Ending(_) => true
      case _ => false
  }

  lemma CommandFailureEnds(run: Run, disk: Disk, ch: Choice)
    requires MayNotFail(run) && !ch.ok && CommandAt(run).Some? && !run.stage.Begin? && !run.stage.Closing?
    ensures Advance(run, disk, ch).run.stage == if run.stage.Admitted? then Closing(false) else Ending(false)
  {
  }

  lemma LocalFailureEnds(run: Run, disk: Disk, ch: Choice)
    requires MayNotFail(run) && !ch.ok && CommandAt(run).None? && !run.stage.Begin? && !run.stage.Closing?
    ensures var stage := LocalStep(run, disk, ch).run.stage;
            stage == if Entering(run.stage) || run.stage.Ending? then Closing(false) else Ending(false)
  {
  }

  /** A failure ends the run: before the running state was written it leaves, after that the transaction
      ends and the final state is written. */
  lemma FailuresEndTheRun(run: Run, disk: Disk, ch: Choice)
    requires MayNotFail(run) && !ch.ok && !run.stage.Begin? && !run.stage.Closing?
    ensures Advance(run, disk, ch).run.stage ==
              if run.stage in {Admitted, Bound, InputsReady, StateFree} || run.stage.Ending? then Closing(false) else Ending(false)
  {
    if CommandAt(run).Some? { CommandFailureEnds(run, disk, ch); } else { LocalFailureEnds(run, disk, ch); }
  }

  // ------------------------------------------------------------------------- preparing recovery

  /** The local side may be used: it can be read, and it is this connection's or holds nothing. */
  predicate LocalIsReady(job: Job, day: string, dirs: map<Dir, Content>, p: Preparation) {
    && p.localCreated && p.localRead && p.localWritten
    && var dir := Dir(Local, job.plan.localRecovery, day);
       dir in dirs ==> dirs[dir].marker == Names(job.conn) || dirs[dir] == Content(NoMarker, false)
  }

  /** The remote side may be used: its marker was read completely and names this connection, or none
      was found, or an empty one, and a complete listing shows nothing there. */
  predicate RemoteIsReady(job: Job, day: string, dirs: map<Dir, Content>, p: Preparation) {
    var dir := Dir(Remote, job.plan.remoteRecovery, day);
    var content := if dir in dirs then dirs[dir] else Content(NoMarker, false);
    && p.mkdir && p.staged && p.copied
    && (|| (p.cat.Complete? && content.marker == Names(job.conn))
        || ((p.cat.Complete? || p.cat.NonZero?) && p.list.Complete? && content == Content(NoMarker, false)))
  }

  /** The commands and writes of a preparation that succeeds; an owner that was read saves the listing. */
  function Preparing(job: Job, day: string, named: bool): seq<What> {
    var local, remote := Dir(Local, job.plan.localRecovery, day), Dir(Remote, job.plan.remoteRecovery, day);
    [WroteLocalOwner(local), Sent(Mkdir(remote)), Sent(CatOwner(remote))]
    + (if named then [] else [Sent(ListDir(remote))])
    + [Sent(CopyOwner(remote)), RecoveryReady(day)]
  }

  lemma LocalSucceedsExactly(job: Job, day: string, dirs: map<Dir, Content>, p: Preparation)
    ensures var prepared := PrepareLocal(job, day, dirs, p);
            && (prepared.ok <==> LocalIsReady(job, day, dirs, p))
            && (prepared.ok ==> prepared.log == [WroteLocalOwner(job.LocalDir(day))])
            && (!prepared.ok ==> prepared.log == [])
  {
  }

  lemma RemoteSucceedsExactly(job: Job, day: string, dirs: map<Dir, Content>, p: Preparation)
    ensures var prepared := PrepareRemote(job, day, dirs, p);
            && (prepared.ok <==> RemoteIsReady(job, day, dirs, p))
            && (prepared.ok ==>
                  [WroteLocalOwner(job.LocalDir(day))] + prepared.log + [RecoveryReady(day)] ==
                    Preparing(job, day, p.cat.Complete? && MarkerAt(dirs, job.RemoteDir(day)) == Names(job.conn)))
  {
  }

  lemma LocalKeepsRemote(job: Job, day: string, dirs: map<Dir, Content>, p: Preparation)
    ensures var after := PrepareLocal(job, day, dirs, p).dirs;
            forall dir: Dir :: dir != job.LocalDir(day) ==> (dir in after <==> dir in dirs) && (dir in dirs ==> after[dir] == dirs[dir])
  {
  }

  /** Exactly when recovery is prepared, and what that sends. */
  lemma PreparationSucceedsExactly(job: Job, day: string, dirs: map<Dir, Content>, p: Preparation)
    ensures var prepared := Prepare(job, day, dirs, p);
            && (prepared.ok <==> LocalIsReady(job, day, dirs, p) && RemoteIsReady(job, day, dirs, p))
            && (prepared.ok ==> prepared.log == Preparing(job, day, p.cat.Complete? && MarkerAt(dirs, job.RemoteDir(day)) == Names(job.conn)))
            && (RecoveryReady(day) in prepared.log <==> prepared.ok)
  {
    var local := PrepareLocal(job, day, dirs, p);
    LocalSucceedsExactly(job, day, dirs, p);
    LocalKeepsRemote(job, day, dirs, p);
    if local.ok {
      RemoteSucceedsExactly(job, day, local.dirs, p);
      assert MarkerAt(local.dirs, job.RemoteDir(day)) == MarkerAt(dirs, job.RemoteDir(day));
      RemoteNeverReady(job, day, local.dirs, p);
    }
  }

  lemma RemoteNeverReady(job: Job, day: string, dirs: map<Dir, Content>, p: Preparation)
    ensures RecoveryReady(day) !in PrepareRemote(job, day, dirs, p).log
  {
  }

  lemma LocalKeepsContents(job: Job, day: string, dirs: map<Dir, Content>, p: Preparation)
    ensures var after := PrepareLocal(job, day, dirs, p).dirs;
            && dirs.Keys <= after.Keys
            && (forall dir: Dir :: HasOther(dirs, dir) ==> HasOther(after, dir))
            && (forall dir: Dir :: HasOther(after, dir) && !HasOther(dirs, dir) ==>
                  dir == Dir(Local, job.plan.localRecovery, day) && p.localDebris && !PrepareLocal(job, day, dirs, p).ok)
  {
  }

  lemma RemoteKeepsContents(job: Job, day: string, dirs: map<Dir, Content>, p: Preparation)
    ensures var after := PrepareRemote(job, day, dirs, p).dirs;
            dirs.Keys <= after.Keys && forall dir: Dir :: HasOther(after, dir) <==> HasOther(dirs, dir)
  {
  }

  /** Preparation loses no directory and nothing that is in one, and puts nothing but markers into any,
      except what an interrupted local write leaves in the day's own directory. */
  lemma PreparationKeepsContents(job: Job, day: string, dirs: map<Dir, Content>, p: Preparation)
    ensures var after := Prepare(job, day, dirs, p).dirs;
            && dirs.Keys <= after.Keys
            && (forall dir: Dir :: HasOther(dirs, dir) ==> HasOther(after, dir))
            && (forall dir: Dir :: HasOther(after, dir) && !HasOther(dirs, dir) ==>
                  dir == Dir(Local, job.plan.localRecovery, day) && p.localDebris && !Prepare(job, day, dirs, p).ok)
  {
    LocalKeepsContents(job, day, dirs, p);
    RemoteKeepsContents(job, day, PrepareLocal(job, day, dirs, p).dirs, p);
  }

  // ---------------------------------------------------------------- what commands and crashes leave

  /** A real exchange may put files into the two directories of its day, on its own roots, and into no
      other; no exchange touches a marker or another file. */
  lemma ExchangeFillsDated(job: Job, resync: bool, dryRun: bool, day: string, disk: Disk, ch: Choice)
    ensures var next := Effect(job, Bisync(resync, dryRun, day), disk, ch);
            && next == disk.(dirs := next.dirs)
            && (forall dir: Dir :: MarkerAt(next.dirs, dir) == MarkerAt(disk.dirs, dir))
            && (forall dir: Dir :: HasOther(next.dirs, dir) <==>
                  || HasOther(disk.dirs, dir)
                  || (!dryRun && ch.backedUp
                      && (dir == Dir(Local, job.plan.localRecovery, day) || dir == Dir(Remote, job.plan.remoteRecovery, day))))
  {
  }

  /** A purge that succeeds leaves nothing of its directory; one that fails leaves it gone, or with its
      marker or without, and any other content. */
  lemma PurgesLeave(job: Job, dir: Dir, disk: Disk, ch: Choice)
    ensures var next := Effect(job, Purge(dir), disk, ch);
            && next == disk.(dirs := next.dirs) && next.dirs - {dir} == disk.dirs - {dir}
            && (ch.ok ==> dir !in next.dirs)
            && (dir in next.dirs ==> next.dirs[dir].marker == NoMarker || next.dirs[dir].marker == MarkerAt(disk.dirs, dir))
  {
  }

  /** And each of these can be what a failed purge leaves. */
  lemma FailedPurgesLeaveAnyPart(job: Job, dir: Dir, disk: Disk, left: Option<Content>, base: Choice) returns (ch: Choice)
    requires left.Some? ==> left.value.marker == NoMarker || left.value.marker == MarkerAt(disk.dirs, dir)
    ensures !ch.ok
    ensures Effect(job, Purge(dir), disk, ch).dirs == if left.Some? then disk.dirs[dir := left.value] else disk.dirs - {dir}
  {
    ch := base.(ok := false, left := left);
  }

  /** A preparation interrupted on the local side can leave a file beside its marker. */
  lemma InterruptedLocally(job: Job, day: string, dirs: map<Dir, Content>, p: Preparation)
    requires p.localDebris && !p.localWritten && LocalIsReady(job, day, dirs, p.(localWritten := true))
    ensures HasOther(PrepareLocal(job, day, dirs, p).dirs, Dir(Local, job.plan.localRecovery, day))
  {
  }

  /** On the remote side it can leave the directory it asked for. */
  lemma InterruptedMkdir(job: Job, day: string, dirs: map<Dir, Content>, p: Preparation)
    requires !p.mkdir && p.mkdirMade
    ensures Dir(Remote, job.plan.remoteRecovery, day) in PrepareRemote(job, day, dirs, p).dirs
  {
  }

  /** And this connection's marker, an empty one or a damaged one. */
  lemma InterruptedUpload(job: Job, day: string, dirs: map<Dir, Content>, p: Preparation)
    requires !p.copied && p.copyLeft.Some? && RemoteIsReady(job, day, dirs, p.(copied := true))
    ensures MarkerAt(PrepareRemote(job, day, dirs, p).dirs, Dir(Remote, job.plan.remoteRecovery, day)) ==
              match p.copyLeft.value
              case Names(_) => Names(job.conn)
              case Garbled => Garbled
              case _ => Blank
  {
  }

  /** An outsider only puts files into a directory. */
  lemma OutsidersOnlyFill(s: Sys, dir: Dir)
    ensures var next := Act(s, Litter(dir)).disk;
            && next == s.disk.(dirs := next.dirs)
            && (forall d: Dir :: MarkerAt(next.dirs, d) == MarkerAt(s.disk.dirs, d))
            && (forall d: Dir :: HasOther(next.dirs, d) <==> HasOther(s.disk.dirs, d) || d == dir)
  {
  }
}
