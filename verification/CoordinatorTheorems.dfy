/** What holds over every sequence of runs of the bisync coordinator. */
module CoordinatorTheorems {
  import opened Coordinator
  import opened CoordinatorLaws
  import opened CoordinatorRuns
  import opened Options

  // ------------------------------------------------------------------ what one step can log

  /** The entries whose origin the theorems need to know. */
  predicate Traced(run: Run, out: Outcome, what: What) {
    match what
    case Sent(Bisync(resync, dryRun, day)) =>
      out.log == [what] && !run.awaiting && CommandAt(run) == Some(Bisync(resync, dryRun, day))
    case Answered(Bisync(resync, dryRun, day)) =>
      out.log == [what] && run.awaiting && CommandAt(run) == Some(Bisync(resync, dryRun, day))
    case WroteSyncMarker => out.log == [what] && run.stage.Cleaned? && run.job.mode.InitialSync?
    case WrotePreviewMarker => run.stage.Counted? && run.job.mode.InitialPreview?
    case WroteState(Running) => out.log == [what] && run.stage.StateFree?
    case WroteState(_) => out.log == [what] && run.stage.Ending?
    case LostFinalState => out.log == [what] && run.stage.Ending?
    case TransactionEnded(ok) => InTransaction(run.stage) && out.run.stage == Ending(ok)
    case TookLock => false
    case Returned(_) => false
    case Crashed => false
    case _ => true
  }

  /** The files a step writes besides recovery directories. */
  predicate MarkersTraced(run: Run, disk: Disk, out: Outcome) {
    && (out.disk.synced == disk.synced
        || (out.log == [WroteSyncMarker] && out.disk.synced == disk.synced + {run.job.Work()}))
    && (out.disk.previewed <= disk.previewed
        || (run.stage.Counted? && run.job.mode.InitialPreview? && out.disk.previewed == disk.previewed + {run.job.Work()}))
    && (WroteSyncMarker in out.log ==> run.job.Work() in out.disk.synced)
  }

  /** Entries by which a run changes somebody's files. */
  predicate Writes(what: What) {
    match what
    case Sent(command) => command.Mkdir? || command.CopyOwner? || command.Purge? || (command.Bisync? && !command.dryRun)
    case WroteLocalOwner(_) => true
    case RemovedLocal(_) => true
    case WroteSyncMarker => true
    case _ => false
  }

  /** Entries of a run that has not entered its transaction. */
  predicate Harmless(what: What) {
    match what
    case TookLock => true
    case Sent(command) => command.VerifyBinding?
    case Answered(command) => command.VerifyBinding?
    case Returned(ok) => !ok
    case Crashed => true
    case _ => false
  }

  ghost predicate LogExplained(run: Run, disk: Disk, out: Outcome) {
    && (forall what :: what in out.log ==> Traced(run, out, what))
    && MarkersTraced(run, disk, out)
    && (run.job.mode.InitialPreview? || run.job.mode.Preview? ==> forall what :: what in out.log ==> !Writes(what))
  }

  lemma EnterExplained(run: Run, disk: Disk, ch: Choice)
    requires Entering(run.stage) && Placed(run)
    ensures LogExplained(run, disk, EnterStep(run, disk, ch))
  {
  }

  lemma OpenExplained(run: Run, disk: Disk, ch: Choice)
    requires Opening(run.stage) && Placed(run)
    ensures LogExplained(run, disk, OpenStep(run, disk, ch))
  {
  }

  predicate IsPreparation(job: Job, day: string, what: What) {
    what == RecoveryReady(day) || what == WroteLocalOwner(job.LocalDir(day))
    || (what.Sent? && (what.command.Mkdir? || what.command.CatOwner? || what.command.ListDir? || what.command.CopyOwner?))
  }

  lemma LocalHalfExplained(job: Job, day: string, dirs: map<Dir, Content>, p: Preparation)
    ensures forall what :: what in PrepareLocal(job, day, dirs, p).log ==> IsPreparation(job, day, what)
  {
  }

  lemma RemoteHalfExplained(job: Job, day: string, dirs: map<Dir, Content>, p: Preparation)
    ensures forall what :: what in PrepareRemote(job, day, dirs, p).log ==> IsPreparation(job, day, what)
  {
  }

  /** Preparation logs only its own commands. */
  lemma PrepareExplained(job: Job, day: string, dirs: map<Dir, Content>, p: Preparation)
    ensures forall what :: what in Prepare(job, day, dirs, p).log ==> IsPreparation(job, day, what)
  {
    LocalHalfExplained(job, day, dirs, p);
    RemoteHalfExplained(job, day, PrepareLocal(job, day, dirs, p).dirs, p);
  }

  lemma PreparedExplained(run: Run, disk: Disk, prepared: Prepared, out: Outcome)
    requires run.stage.Recovering? && Placed(run)
    requires forall what :: what in prepared.log ==> IsPreparation(run.job, run.stage.day, what)
    requires out == if prepared.ok then To(run, Recovered(run.stage.day), prepared.log, disk.(dirs := prepared.dirs))
                    else Stop(run, false, prepared.log, disk.(dirs := prepared.dirs))
    ensures LogExplained(run, disk, out)
  {
  }

  lemma RecoverExplained(run: Run, disk: Disk, ch: Choice)
    requires run.stage.Recovering? && Placed(run)
    ensures LogExplained(run, disk, ExchangeStep(run, disk, ch))
  {
    PrepareExplained(run.job, run.stage.day, disk.dirs, ch.prep);
    PreparedExplained(run, disk, Prepare(run.job, run.stage.day, disk.dirs, ch.prep), ExchangeStep(run, disk, ch));
  }

  lemma CheckExplained(run: Run, disk: Disk, ch: Choice)
    requires Exchanging(run.stage) && !run.stage.Recovering? && Placed(run)
    ensures LogExplained(run, disk, ExchangeStep(run, disk, ch))
  {
  }

  lemma ExchangeExplained(run: Run, disk: Disk, ch: Choice)
    requires Exchanging(run.stage) && Placed(run)
    ensures LogExplained(run, disk, ExchangeStep(run, disk, ch))
  {
    if run.stage.Recovering? { RecoverExplained(run, disk, ch); } else { CheckExplained(run, disk, ch); }
  }

  lemma FinishExplained(run: Run, disk: Disk, ch: Choice)
    requires Finishing(run.stage) && Placed(run)
    ensures LogExplained(run, disk, FinishStep(run, disk, ch))
  {
  }

  lemma ReplyExplained(run: Run, disk: Disk, ch: Choice)
    requires Placed(run) && CommandAt(run).Some? && run.awaiting
    ensures LogExplained(run, disk, Reply(run, CommandAt(run).value, disk, ch))
  {
  }

  lemma SendExplained(run: Run, disk: Disk)
    requires Placed(run) && CommandAt(run).Some? && !run.awaiting
    ensures LogExplained(run, disk, Outcome(run.(awaiting := true), [Sent(CommandAt(run).value)], disk))
  {
  }

  lemma {:induction false} AdvanceExplained(run: Run, disk: Disk, ch: Choice)
    requires !run.stage.Begin? && !run.stage.Closing? && Placed(run)
    ensures LogExplained(run, disk, Advance(run, disk, ch))
  {
    if CommandAt(run).Some? {
      if run.awaiting { ReplyExplained(run, disk, ch); } else { SendExplained(run, disk); }
    } else if Entering(run.stage) {
      EnterExplained(run, disk, ch);
    } else if Opening(run.stage) {
      OpenExplained(run, disk, ch);
    } else if Exchanging(run.stage) {
      ExchangeExplained(run, disk, ch);
    } else if Finishing(run.stage) {
      FinishExplained(run, disk, ch);
    }
  }

  // --------------------------------------------------------------- the marker of an initial sync

  /** The trace holds the initial synchronization that wrote this marker, with everything
      that run had achieved by then: under the lock, in this order, and nothing skipped. */
  ghost predicate Earned(trace: seq<Event>, work: WorkDir) {
    exists k, day :: 0 <= k < |trace| && EarnedAt(trace, work, k, day)
  }

  ghost predicate EarnedAt(trace: seq<Event>, work: WorkDir, k: nat, day: string)
    requires k < |trace|
  {
    && trace[k].what == WroteSyncMarker
    && trace[k].job.mode.InitialSync? && trace[k].job.Work() == work
    && Achieved(Of(trace[..k], trace[k].run)) == Script(trace[k].job, day)
  }

  /** A completed rehearsal of this work directory: the dry run of a resync. */
  predicate IsRehearsal(e: Event, work: WorkDir) {
    e.what.Answered? && e.what.command.Bisync? && e.what.command.resync && e.what.command.dryRun && e.job.Work() == work
  }

  predicate IsResync(e: Event) {
    e.what.Sent? && e.what.command.Bisync? && e.what.command.resync && !e.what.command.dryRun
  }

  ghost predicate MarkersExplained(s: Sys) {
    && (forall work :: work in s.disk.synced ==> Earned(s.trace, work))
    && (forall work :: work in s.disk.previewed ==> exists e :: e in s.trace && IsRehearsal(e, work))
    && (forall e :: e in s.trace && e.what.WroteSyncMarker? ==> e.job.Work() in s.disk.synced)
  }

  lemma EarnedStays(trace: seq<Event>, more: seq<Event>, work: WorkDir)
    requires Earned(trace, work)
    ensures Earned(trace + more, work)
  {
    var k, day :| 0 <= k < |trace| && EarnedAt(trace, work, k, day);
    assert (trace + more)[..k] == trace[..k];
    assert EarnedAt(trace + more, work, k, day);
  }

  /** At the stage that writes the marker, the run has everything behind it. */
  lemma MarkerEndsFull(s: Sys, id: RunId)
    requires Inv(s) && id in s.runs && s.runs[id].stage.Cleaned? && s.runs[id].job.mode.InitialSync?
    ensures exists day :: EarnedAt(s.trace + Log(id, s.runs[id].job, [WroteSyncMarker]), s.runs[id].job.Work(), |s.trace|, day)
  {
    var run := s.runs[id];
    var trace := s.trace + Log(id, run.job, [WroteSyncMarker]);
    assert OnCourse(s.trace, id, run, s.disk);
    assert trace[..|s.trace|] == s.trace;
    FullIsScript(run.job, run.stage.day);
    assert Due(run) == FullTransaction(run.job, run.stage.day) + [];
    assert EarnedAt(trace, run.job.Work(), |s.trace|, run.stage.day);
  }

  lemma MarkerIsEarned(s: Sys, id: RunId)
    requires Inv(s) && id in s.runs && s.runs[id].stage.Cleaned? && s.runs[id].job.mode.InitialSync?
    ensures Earned(s.trace + Log(id, s.runs[id].job, [WroteSyncMarker]), s.runs[id].job.Work())
  {
    MarkerEndsFull(s, id);
    var day :| EarnedAt(s.trace + Log(id, s.runs[id].job, [WroteSyncMarker]), s.runs[id].job.Work(), |s.trace|, day);
  }

  /** A run that is about to write the preview marker has rehearsed. */
  lemma PreviewIsRehearsed(s: Sys, id: RunId)
    requires Inv(s) && id in s.runs && s.runs[id].stage.Counted? && s.runs[id].job.mode.InitialPreview?
    ensures exists e :: e in s.trace && IsRehearsal(e, s.runs[id].job.Work())
  {
    var run := s.runs[id];
    assert OnCourse(s.trace, id, run, s.disk);
    var answered := Answered(Bisync(true, true, run.stage.day));
    assert answered in Exchange(run.job.mode, run.stage.day);
    assert answered in Due(run);
    AchievedComesFrom(Of(s.trace, id), answered);
    OfComesFrom(s.trace, id, answered);
  }

  lemma {:induction false} AchievedComesFrom(log: seq<What>, what: What)
    requires what in Achieved(log)
    ensures what in log
  {
    if log[|log| - 1] != what { AchievedComesFrom(log[..|log| - 1], what); }
  }

  lemma {:induction false} OfComesFrom(trace: seq<Event>, id: RunId, what: What)
    requires what in Of(trace, id)
    ensures exists e :: e in trace && e.run == id && e.what == what
  {
    var last := trace[|trace| - 1];
    if last.run == id && last.what == what {
      assert last in trace;
    } else {
      OfComesFrom(trace[..|trace| - 1], id, what);
      var e :| e in trace[..|trace| - 1] && e.run == id && e.what == what;
      assert e in trace;
    }
  }

  lemma StepKeepsEarned(s: Sys, id: RunId, out: Outcome, work: WorkDir)
    requires Inv(s) && MarkersExplained(s) && id in s.runs && LogExplained(s.runs[id], s.disk, out)
    requires work in out.disk.synced
    ensures Earned(Stepped(s, id, out).trace, work)
  {
    if work in s.disk.synced {
      EarnedStays(s.trace, Log(id, s.runs[id].job, out.log), work);
    } else {
      assert WroteSyncMarker in out.log;
      MarkerIsEarned(s, id);
    }
  }

  lemma StepKeepsRehearsed(s: Sys, id: RunId, out: Outcome, work: WorkDir)
    requires Inv(s) && MarkersExplained(s) && id in s.runs && LogExplained(s.runs[id], s.disk, out)
    requires work in out.disk.previewed
    ensures exists e :: e in Stepped(s, id, out).trace && IsRehearsal(e, work)
  {
    if work !in s.disk.previewed { PreviewIsRehearsed(s, id); }
    var e :| e in s.trace && IsRehearsal(e, work);
    assert e in Stepped(s, id, out).trace;
  }

  lemma ExplainedKeepsMarkersExplained(s: Sys, id: RunId, out: Outcome)
    requires Inv(s) && MarkersExplained(s) && id in s.runs && LogExplained(s.runs[id], s.disk, out)
    ensures MarkersExplained(Stepped(s, id, out))
  {
    var s' := Stepped(s, id, out);
    forall work | work in s'.disk.synced ensures Earned(s'.trace, work) { StepKeepsEarned(s, id, out, work); }
    forall work | work in s'.disk.previewed ensures exists e :: e in s'.trace && IsRehearsal(e, work) {
      StepKeepsRehearsed(s, id, out, work);
    }
    forall e | e in s'.trace && e.what.WroteSyncMarker? ensures e.job.Work() in s'.disk.synced {
      if e !in s.trace { assert e.what in out.log; }
    }
  }

  lemma StepKeepsMarkersExplained(s: Sys, id: RunId, ch: Choice)
    requires Inv(s) && MarkersExplained(s)
    requires id in s.runs && !s.runs[id].stage.Begin? && !s.runs[id].stage.Closing?
    ensures MarkersExplained(Stepped(s, id, Advance(s.runs[id], s.disk, ch)))
  {
    assert OnCourse(s.trace, id, s.runs[id], s.disk);
    AdvanceExplained(s.runs[id], s.disk, ch);
    ExplainedKeepsMarkersExplained(s, id, Advance(s.runs[id], s.disk, ch));
  }

  lemma AppendKeepsMarkersExplained(s: Sys, s': Sys, id: RunId, job: Job, what: What)
    requires MarkersExplained(s) && !what.WroteSyncMarker?
    requires s'.disk.synced == s.disk.synced && s'.disk.previewed == s.disk.previewed
    requires s'.trace == s.trace + Log(id, job, [what])
    ensures MarkersExplained(s')
  {
    forall work | work in s'.disk.synced ensures Earned(s'.trace, work) {
      EarnedStays(s.trace, Log(id, job, [what]), work);
    }
    forall work | work in s'.disk.previewed ensures exists e :: e in s'.trace && IsRehearsal(e, work) {
      var e :| e in s.trace && IsRehearsal(e, work);
      assert e in s'.trace;
    }
  }

  lemma ActKeepsMarkersExplained(s: Sys, a: Action)
    requires Inv(s) && MarkersExplained(s)
    ensures MarkersExplained(Act(s, a))
  {
    var s' := Act(s, a);
    match a
    case Start(_) =>
    case Litter(_) =>
    case Move(id, ch) =>
      if id in s.runs {
        var run := s.runs[id];
        if run.stage.Begin? {
          if s'.trace != s.trace { AppendKeepsMarkersExplained(s, s', id, run.job, TookLock); }
        } else if run.stage.Closing? {
          AppendKeepsMarkersExplained(s, s', id, run.job, Returned(run.stage.ok));
        } else {
          StepKeepsMarkersExplained(s, id, ch);
        }
      }
    case Crash(id) =>
      if id in s.runs && !s.runs[id].stage.Begin? { AppendKeepsMarkersExplained(s, s', id, s.runs[id].job, Crashed); }
  }

  /** Over every sequence of runs, in any modes and interleaving, with crashes, cancellation
      and arbitrary replies: an initial-sync marker exists only if one initial synchronization
      of that work directory earned it. */
  lemma {:induction false} SyncMarkerIsEarned(dirs: map<Dir, Content>, actions: seq<Action>)
    ensures MarkersExplained(After(Initial(dirs), actions))
    ensures forall work :: work in After(Initial(dirs), actions).disk.synced ==>
              Earned(After(Initial(dirs), actions).trace, work)
  {
    if actions != [] {
      var before := actions[..|actions| - 1];
      SyncMarkerIsEarned(dirs, before);
      AlwaysInv(dirs, before);
      ActKeepsMarkersExplained(After(Initial(dirs), before), actions[|actions| - 1]);
    }
  }

  /** Once present, the marker is never removed. */
  lemma {:induction false} SyncMarkerStays(dirs: map<Dir, Content>, actions: seq<Action>, more: seq<Action>)
    ensures After(Initial(dirs), actions).disk.synced <= After(Initial(dirs), actions + more).disk.synced
    decreases |more|
  {
    if more == [] {
      assert actions + more == actions;
    } else {
      var init := more[..|more| - 1];
      assert (actions + more)[..|actions + more| - 1] == actions + init;
      SyncMarkerStays(dirs, actions, init);
      AlwaysInv(dirs, actions + init);
      OneActKeepsSynced(After(Initial(dirs), actions + init), more[|more| - 1]);
    }
  }

  lemma OneActKeepsSynced(s: Sys, a: Action)
    requires Inv(s)
    ensures s.disk.synced <= Act(s, a).disk.synced
  {
    if Stepping(s, a) {
      assert OnCourse(s.trace, a.id, s.runs[a.id], s.disk);
      AdvanceExplained(s.runs[a.id], s.disk, a.choice);
    }
  }

  // ------------------------------------------------------------------------------- resync

  /** The rules for sending `--resync` without `--dry-run`, at position i of the trace. */
  ghost predicate ResyncAllowed(trace: seq<Event>, i: nat)
    requires i < |trace|
  {
    && trace[i].job.mode.InitialSync?
    && (exists j :: 0 <= j < i && IsRehearsal(trace[j], trace[i].job.Work()))
    && (forall j :: 0 <= j < i && trace[j].what.WroteSyncMarker? ==> trace[j].job.Work() != trace[i].job.Work())
    && (forall j :: 0 <= j < i && IsResync(trace[j]) ==> trace[j].run != trace[i].run)
  }

  ghost predicate ResyncsAllowed(trace: seq<Event>) {
    forall i :: 0 <= i < |trace| && IsResync(trace[i]) ==> ResyncAllowed(trace, i)
  }

  lemma AllowedStays(trace: seq<Event>, more: seq<Event>, i: nat)
    requires i < |trace| && ResyncAllowed(trace, i)
    ensures ResyncAllowed(trace + more, i)
  {
    var j :| 0 <= j < i && IsRehearsal(trace[j], trace[i].job.Work());
    assert IsRehearsal((trace + more)[j], (trace + more)[i].job.Work());
  }

  /** A run that is about to send a resync has not sent one, and the markers allow it. */
  lemma ResyncIsAllowed(s: Sys, id: RunId, day: string)
    requires Inv(s) && MarkersExplained(s) && id in s.runs && !s.runs[id].awaiting
    requires CommandAt(s.runs[id]) == Some(Bisync(true, false, day))
    ensures ResyncAllowed(s.trace + Log(id, s.runs[id].job, [Sent(Bisync(true, false, day))]), |s.trace|)
  {
    var run := s.runs[id];
    var work := run.job.Work();
    var trace := s.trace + Log(id, run.job, [Sent(Bisync(true, false, day))]);
    assert OnCourse(s.trace, id, run, s.disk);
    assert run.stage.Recovered? && run.job.mode.InitialSync?;
    assert work in s.disk.previewed && work !in s.disk.synced;
    var e :| e in s.trace && IsRehearsal(e, work);
    var j :| 0 <= j < |s.trace| && s.trace[j] == e;
    assert IsRehearsal(trace[j], trace[|s.trace|].job.Work());
    NoResyncYet(s, id);
    forall j | 0 <= j < |s.trace| && s.trace[j].what.WroteSyncMarker? ensures s.trace[j].job.Work() != work {
      assert s.trace[j] in s.trace;
    }
  }

  lemma NoResyncYet(s: Sys, id: RunId)
    requires Inv(s) && id in s.runs && s.runs[id].stage.Recovered? && s.runs[id].job.mode.InitialSync? && !s.runs[id].awaiting
    ensures forall j :: 0 <= j < |s.trace| && IsResync(s.trace[j]) ==> s.trace[j].run != id
  {
    var run := s.runs[id];
    assert OnCourse(s.trace, id, run, s.disk);
    assert forall what :: what in Due(run) ==> !what.Sent?;
    forall j | 0 <= j < |s.trace| && IsResync(s.trace[j]) ensures s.trace[j].run != id {
      if s.trace[j].run == id {
        OfKeeps(s.trace, s.trace[j]);
        AchievedKeeps(Of(s.trace, id), s.trace[j].what);
      }
    }
  }

  lemma StepKeepsResyncsAllowed(s: Sys, id: RunId, ch: Choice)
    requires Inv(s) && MarkersExplained(s) && ResyncsAllowed(s.trace)
    requires id in s.runs && !s.runs[id].stage.Begin? && !s.runs[id].stage.Closing?
    ensures ResyncsAllowed(Stepped(s, id, Advance(s.runs[id], s.disk, ch)).trace)
  {
    var run := s.runs[id];
    assert OnCourse(s.trace, id, run, s.disk);
    var out := Advance(run, s.disk, ch);
    AdvanceExplained(run, s.disk, ch);
    var trace := s.trace + Log(id, run.job, out.log);
    forall i | 0 <= i < |trace| && IsResync(trace[i]) ensures ResyncAllowed(trace, i) {
      if i < |s.trace| {
        AllowedStays(s.trace, Log(id, run.job, out.log), i);
      } else {
        assert trace[i].what in out.log;
        ResyncIsAllowed(s, id, trace[i].what.command.day);
      }
    }
  }

  /** Over every sequence of runs, a resync that is not a dry run is sent only by an initial
      synchronization, at most once by each, only after a completed dry-run resync of the same
      work directory, and never after that directory's sync marker was written. */
  lemma {:induction false} ResyncIsRehearsed(dirs: map<Dir, Content>, actions: seq<Action>)
    ensures ResyncsAllowed(After(Initial(dirs), actions).trace)
  {
    if actions != [] {
      var before, a := actions[..|actions| - 1], actions[|actions| - 1];
      var s := After(Initial(dirs), before);
      ResyncIsRehearsed(dirs, before);
      AlwaysInv(dirs, before);
      SyncMarkerIsEarned(dirs, before);
      if Stepping(s, a) {
        StepKeepsResyncsAllowed(s, a.id, a.choice);
      } else {
        QuietKeepsResyncsAllowed(s, a);
      }
    }
  }

  lemma AppendKeepsResyncsAllowed(trace: seq<Event>, more: seq<Event>)
    requires ResyncsAllowed(trace) && forall e :: e in more ==> !IsResync(e)
    ensures ResyncsAllowed(trace + more)
  {
    assert forall j :: 0 <= j < |more| ==> (trace + more)[|trace| + j] == more[j] && more[j] in more;
    forall i | 0 <= i < |trace + more| && IsResync((trace + more)[i]) ensures ResyncAllowed(trace + more, i) {
      AllowedStays(trace, more, i);
    }
  }

  lemma QuietKeepsResyncsAllowed(s: Sys, a: Action)
    requires ResyncsAllowed(s.trace) && !Stepping(s, a)
    ensures ResyncsAllowed(Act(s, a).trace)
  {
    var more := OutsideAdds(s, a);
    AppendKeepsResyncsAllowed(s.trace, more);
  }

  // ----------------------------------------------------------------------- exactly one resync

  /** Every marker entry comes at the end of a full initial synchronization. */
  ghost predicate MarkersEarned(trace: seq<Event>) {
    forall k :: 0 <= k < |trace| && trace[k].what.WroteSyncMarker? ==> exists day :: EarnedAt(trace, trace[k].job.Work(), k, day)
  }

  lemma EarnedAtStays(trace: seq<Event>, more: seq<Event>, k: nat)
    requires k < |trace| && trace[k].what.WroteSyncMarker? && MarkersEarned(trace)
    ensures exists day :: EarnedAt(trace + more, (trace + more)[k].job.Work(), k, day)
  {
    var day :| EarnedAt(trace, trace[k].job.Work(), k, day);
    assert (trace + more)[..k] == trace[..k];
    assert EarnedAt(trace + more, (trace + more)[k].job.Work(), k, day);
  }

  lemma AppendKeepsMarkersEarned(trace: seq<Event>, more: seq<Event>)
    requires MarkersEarned(trace) && forall e :: e in more ==> !e.what.WroteSyncMarker?
    ensures MarkersEarned(trace + more)
  {
    assert forall j :: 0 <= j < |more| ==> (trace + more)[|trace| + j] == more[j] && more[j] in more;
    forall k | 0 <= k < |trace| && trace[k].what.WroteSyncMarker?
      ensures exists day :: EarnedAt(trace + more, (trace + more)[k].job.Work(), k, day)
    {
      EarnedAtStays(trace, more, k);
    }
  }

  lemma StepKeepsMarkersEarned(s: Sys, id: RunId, out: Outcome)
    requires Inv(s) && MarkersEarned(s.trace) && id in s.runs && LogExplained(s.runs[id], s.disk, out)
    ensures MarkersEarned(Stepped(s, id, out).trace)
  {
    var log := Log(id, s.runs[id].job, out.log);
    if WroteSyncMarker in out.log {
      assert out.log == [WroteSyncMarker];
      MarkerEndsFull(s, id);
      forall k | 0 <= k < |s.trace + log| && (s.trace + log)[k].what.WroteSyncMarker?
        ensures exists day :: EarnedAt(s.trace + log, (s.trace + log)[k].job.Work(), k, day)
      {
        if k < |s.trace| { EarnedAtStays(s.trace, log, k); }
      }
    } else {
      forall e | e in log ensures !e.what.WroteSyncMarker? { assert e.what in out.log; }
      AppendKeepsMarkersEarned(s.trace, log);
    }
  }

  lemma ActKeepsMarkersEarned(s: Sys, a: Action)
    requires Inv(s) && MarkersEarned(s.trace)
    ensures MarkersEarned(Act(s, a).trace)
  {
    if Stepping(s, a) {
      assert OnCourse(s.trace, a.id, s.runs[a.id], s.disk);
      AdvanceExplained(s.runs[a.id], s.disk, a.choice);
      StepKeepsMarkersEarned(s, a.id, Advance(s.runs[a.id], s.disk, a.choice));
    } else {
      var more := OutsideAdds(s, a);
      AppendKeepsMarkersEarned(s.trace, more);
    }
  }

  lemma {:induction false} AlwaysMarkersEarned(dirs: map<Dir, Content>, actions: seq<Action>)
    ensures MarkersEarned(After(Initial(dirs), actions).trace)
  {
    if actions != [] {
      AlwaysMarkersEarned(dirs, actions[..|actions| - 1]);
      AlwaysInv(dirs, actions[..|actions| - 1]);
      ActKeepsMarkersEarned(After(Initial(dirs), actions[..|actions| - 1]), actions[|actions| - 1]);
    }
  }

  lemma {:induction false} OfKeepsPlace(trace: seq<Event>, id: RunId, what: What)
    requires what in Of(trace, id)
    ensures exists i :: 0 <= i < |trace| && trace[i].run == id && trace[i].what == what
  {
    if what in Of(trace[..|trace| - 1], id) {
      OfKeepsPlace(trace[..|trace| - 1], id, what);
      var i :| 0 <= i < |trace| - 1 && trace[..|trace| - 1][i].run == id && trace[..|trace| - 1][i].what == what;
      assert trace[i].run == id;
    } else {
      assert trace[|trace| - 1].run == id && trace[|trace| - 1].what == what;
    }
  }

  /** A finished initial synchronization sent one resync before its marker, and its run sends no
      other anywhere in the trace. */
  lemma FinishedSyncSentOneResync(dirs: map<Dir, Content>, actions: seq<Action>, k: nat)
    requires k < |After(Initial(dirs), actions).trace| && After(Initial(dirs), actions).trace[k].what.WroteSyncMarker?
    ensures var trace := After(Initial(dirs), actions).trace;
            exists i :: 0 <= i < k && IsResync(trace[i]) && trace[i].run == trace[k].run
              && forall j :: 0 <= j < |trace| && IsResync(trace[j]) && trace[j].run == trace[k].run ==> j == i
  {
    var trace := After(Initial(dirs), actions).trace;
    AlwaysMarkersEarned(dirs, actions);
    ResyncIsRehearsed(dirs, actions);
    var day :| EarnedAt(trace, trace[k].job.Work(), k, day);
    var resync := Sent(Bisync(true, false, day));
    assert resync in Pass(true, false, day);
    assert resync in Script(trace[k].job, day);
    AchievedComesFrom(Of(trace[..k], trace[k].run), resync);
    OfKeepsPlace(trace[..k], trace[k].run, resync);
    var i :| 0 <= i < k && trace[..k][i].run == trace[k].run && trace[..k][i].what == resync;
    forall j | 0 <= j < |trace| && IsResync(trace[j]) && trace[j].run == trace[k].run ensures j == i {
      assert ResyncAllowed(trace, i) && ResyncAllowed(trace, j);
    }
  }
}
