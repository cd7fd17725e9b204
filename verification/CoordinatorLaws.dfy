/** What one step of one run keeps, and what it leaves alone for everybody else. */
module CoordinatorLaws {
  import opened Coordinator
  import opened Options

  // ------------------------------------------------------------------ achievements of a run

  /** The trace entries that say how far a transaction got. */
  predicate Counts(what: What) {
    match what
    case TookLock => true
    case Sent(command) => command.Bisync?
    case Answered(command) => command.VerifyBinding? || command.CatAnchor? || command.Bisync? || command.Check?
    case RecoveryReady(_) => true
    case LocalAnchorMatched => true
    case _ => false
  }

  function Achieved(log: seq<What>): seq<What> {
    if log == [] then []
    else Achieved(log[..|log| - 1]) + if Counts(log[|log| - 1]) then [log[|log| - 1]] else []
  }

  function When(condition: bool, whats: seq<What>): seq<What> {
    if condition then whats else []
  }

  /** The rehearsal that an initial preview, or the exchange that another mode, sends. */
  function Exchange(mode: Mode, day: string): seq<What> {
    var command := Bisync(mode.IsInitial(), mode.IsPreview(), day);
    [Sent(command), Answered(command)]
  }

  function UntilBound(job: Job): seq<What> {
    [TookLock] + When(job.Guarded(), [Answered(VerifyBinding)])
  }

  function UntilAnchored(job: Job): seq<What> {
    UntilBound(job) + When(job.plan.anchored && !job.mode.IsInitial(), [Answered(CatAnchor)])
  }

  function UntilSynced(job: Job, day: string): seq<What> {
    UntilAnchored(job) + [RecoveryReady(day)] + Exchange(job.mode, day)
  }

  function UntilConverged(job: Job, day: string): seq<What> {
    UntilSynced(job, day) + When(job.plan.verifyAfterSync, Exchange(job.ConvergenceMode(), day))
  }

  function UntilVerified(job: Job, day: string): seq<What> {
    UntilConverged(job, day) + When(job.plan.verifyAfterSync, [Answered(Check)])
  }

  function UntilLocalAnchored(job: Job, day: string): seq<What> {
    UntilVerified(job, day) + When(job.ChecksAnchors(), [LocalAnchorMatched])
  }

  function UntilRemoteAnchored(job: Job, day: string): seq<What> {
    UntilLocalAnchored(job, day) + When(job.ChecksAnchors() && job.plan.anchored, [Answered(CatAnchor)])
  }

  /** Everything a transaction that reaches retention has behind it, in order. */
  function FullTransaction(job: Job, day: string): seq<What> {
    UntilRemoteAnchored(job, day) + When(job.ChecksAnchors(), [Answered(Check)])
  }

  /** One pass of bisync, sent and answered. */
  function Pass(resync: bool, dryRun: bool, day: string): seq<What> {
    [Sent(Bisync(resync, dryRun, day)), Answered(Bisync(resync, dryRun, day))]
  }

  /** The lock, and the binding of the providers that have one. */
  function Opened(job: Job): seq<What> {
    [TookLock] + When(job.plan.teams || job.plan.oneDrive, [Answered(VerifyBinding)])
  }

  function AnchorRead(job: Job): seq<What> {
    When(job.plan.anchored, [Answered(CatAnchor)])
  }

  /** The second pass and the check of plans that verify; it is never a resync. */
  function SecondPass(job: Job, day: string): seq<What> {
    When(job.plan.verifyAfterSync, Pass(false, false, day) + [Answered(Check)])
  }

  /** The local anchor, the remote anchor and the checksums of a OneDrive mirror. */
  function AnchorsChecked(job: Job): seq<What> {
    When(job.plan.oneDrive, [LocalAnchorMatched] + AnchorRead(job) + [Answered(Check)])
  }

  /** What a transaction that succeeds has behind it, in order, mode by mode. */
  function Script(job: Job, day: string): seq<What> {
    match job.mode
    case InitialPreview => Opened(job) + Pass(true, true, day)
    case Preview => Opened(job) + AnchorRead(job) + Pass(false, true, day)
    case InitialSync =>
      Opened(job) + [RecoveryReady(day)] + Pass(true, false, day) + SecondPass(job, day) + AnchorsChecked(job)
    case Sync =>
      Opened(job) + AnchorRead(job) + [RecoveryReady(day)] + Pass(false, false, day) + SecondPass(job, day)
      + AnchorsChecked(job)
    case Scheduled =>
      Opened(job) + AnchorRead(job) + [RecoveryReady(day)] + Pass(false, false, day) + SecondPass(job, day)
  }

  lemma SecondPassIsDue(job: Job, day: string)
    requires !job.mode.InitialPreview? && !job.mode.Preview?
    ensures UntilVerified(job, day) == UntilSynced(job, day) + SecondPass(job, day)
  {
  }

  lemma AnchorsAreDue(job: Job, day: string)
    requires !job.mode.InitialPreview? && !job.mode.Preview?
    ensures FullTransaction(job, day) == UntilVerified(job, day) + if job.mode.Scheduled? then [] else AnchorsChecked(job)
  {
  }

  lemma PassIsDue(job: Job, day: string)
    requires !job.mode.InitialPreview? && !job.mode.Preview?
    ensures UntilSynced(job, day) == UntilAnchored(job) + [RecoveryReady(day)] + Pass(job.mode.InitialSync?, false, day)
  {
  }

  /** The stages of a synchronization add up to its script. */
  lemma FullIsScript(job: Job, day: string)
    requires !job.mode.InitialPreview? && !job.mode.Preview?
    ensures FullTransaction(job, day) == Script(job, day)
  {
    SecondPassIsDue(job, day);
    AnchorsAreDue(job, day);
    PassIsDue(job, day);
    assert UntilAnchored(job) == Opened(job) + if job.mode.InitialSync? then [] else AnchorRead(job);
  }

  /** And those of a preview to its own. */
  lemma PreviewIsScript(job: Job, day: string)
    requires job.mode.InitialPreview? || job.mode.Preview?
    ensures UntilAnchored(job) + Exchange(job.mode, day) == Script(job, day)
  {
    assert UntilAnchored(job) == Opened(job) + if job.mode.InitialPreview? then [] else AnchorRead(job);
  }

  /** The achievements that a transaction must have when it enters a stage. */
  function DueAt(job: Job, stage: Stage): seq<What> {
    match stage
    case Locked => [TookLock]
    case Admitted => [TookLock]
    case Bound => UntilBound(job)
    case InputsReady => UntilBound(job)
    case StateFree => UntilBound(job)
    case Working => UntilBound(job)
    case Dated(_) => UntilBound(job)
    case Anchored(_) => UntilAnchored(job)
    case Previewing(_) => UntilAnchored(job)
    case Rehearsed(day) => UntilAnchored(job) + Exchange(job.mode, day)
    case Counted(day) => UntilAnchored(job) + Exchange(job.mode, day)
    case Recovering(_) => UntilAnchored(job)
    case Recovered(day) => UntilAnchored(job) + [RecoveryReady(day)]
    case Synced(day) => UntilSynced(job, day)
    case Converged(day) => UntilConverged(job, day)
    case Verified(day) => UntilVerified(job, day)
    case LocalAnchored(day) => UntilLocalAnchored(job, day)
    case RemoteAnchored(day) => UntilRemoteAnchored(job, day)
    case Cleaning(day, _) => FullTransaction(job, day)
    case Cleaned(day) => FullTransaction(job, day)
    case Marked(day) => FullTransaction(job, day)
    case _ => []
  }

  /** What the trace holds about a command that is under way. */
  function UnderWay(run: Run): seq<What> {
    match CommandAt(run)
    case None => []
    case Some(command) => When(run.awaiting && command.Bisync?, [Sent(command)])
  }

  function Due(run: Run): seq<What> {
    DueAt(run.job, run.stage) + UnderWay(run)
  }

  /** Which branch of the transaction a stage belongs to. */
  predicate Placed(run: Run) {
    && (run.awaiting ==> CommandAt(run).Some?)
    && (run.stage.Previewing? || run.stage.Rehearsed? || run.stage.Counted? ==> run.job.mode.IsPreview())
    && (Exchanging(run.stage) || Finishing(run.stage) ==> !run.job.mode.IsPreview())
    && (run.stage.Converged? ==> run.job.plan.verifyAfterSync)
    && (run.stage.LocalAnchored? || run.stage.RemoteAnchored? ==> run.job.ChecksAnchors())
    && (run.stage.Marked? ==> run.job.mode.InitialSync?)
  }

  lemma {:induction false} AchievedJoins(a: seq<What>, b: seq<What>)
    ensures Achieved(a + b) == Achieved(a) + Achieved(b)
    decreases |b|
  {
    if b == [] {
      assert a + b == a;
    } else {
      var init, last := b[..|b| - 1], b[|b| - 1];
      assert (a + b)[..|a + b| - 1] == a + init;
      AchievedJoins(a, init);
    }
  }

  lemma AchievedOne(what: What)
    ensures Achieved([what]) == if Counts(what) then [what] else []
  {
    assert [what][..0] == [];
  }

  lemma {:induction false} AchievedNothing(log: seq<What>)
    requires forall k :: 0 <= k < |log| ==> !Counts(log[k])
    ensures Achieved(log) == []
    decreases |log|
  {
    if log != [] { AchievedNothing(log[..|log| - 1]); }
  }

  lemma {:induction false} AchievedKeeps(log: seq<What>, what: What)
    requires what in log && Counts(what)
    ensures what in Achieved(log)
    decreases |log|
  {
    if log[|log| - 1] != what { AchievedKeeps(log[..|log| - 1], what); }
  }

  lemma LocalHalfIsQuiet(job: Job, day: string, dirs: map<Dir, Content>, p: Preparation)
    ensures Achieved(PrepareLocal(job, day, dirs, p).log) == []
  {
    AchievedNothing(PrepareLocal(job, day, dirs, p).log);
  }

  lemma RemoteHalfIsQuiet(job: Job, day: string, dirs: map<Dir, Content>, p: Preparation)
    ensures Achieved(PrepareRemote(job, day, dirs, p).log) == []
  {
    AchievedNothing(PrepareRemote(job, day, dirs, p).log);
  }

  lemma QuietUntilReady(local: seq<What>, remote: seq<What>, day: string)
    requires Achieved(local) == [] && Achieved(remote) == []
    ensures Achieved(local + remote + [RecoveryReady(day)]) == [RecoveryReady(day)]
  {
    AchievedJoins(local, remote);
    AchievedJoins(local + remote, [RecoveryReady(day)]);
    AchievedOne(RecoveryReady(day));
  }

  /** Preparing recovery achieves exactly one thing, and only when it succeeds. */
  lemma PrepareAchieves(job: Job, day: string, dirs: map<Dir, Content>, p: Preparation)
    ensures var prepared := Prepare(job, day, dirs, p);
            prepared.ok ==> Achieved(prepared.log) == [RecoveryReady(day)]
  {
    var local := PrepareLocal(job, day, dirs, p);
    var remote := PrepareRemote(job, day, local.dirs, p);
    LocalHalfIsQuiet(job, day, dirs, p);
    RemoteHalfIsQuiet(job, day, local.dirs, p);
    QuietUntilReady(local.log, remote.log, day);
  }

  /** Stages of a transaction that is still going: it has its lock and has not stopped. */
  predicate Going(stage: Stage) {
    !stage.Begin? && !stage.Ending? && !stage.Closing?
  }

  lemma SendAchieves(run: Run)
    requires CommandAt(run).Some? && !run.awaiting
    ensures Due(run.(awaiting := true)) == Due(run) + Achieved([Sent(CommandAt(run).value)])
  {
    AchievedOne(Sent(CommandAt(run).value));
    assert CommandAt(run.(awaiting := true)) == CommandAt(run);
  }

  /** A command's answer adds itself to what is due, when it counts. */
  ghost predicate AnswerAdds(run: Run)
    requires CommandAt(run).Some?
  {
    var command := CommandAt(run).value;
    DueAt(run.job, NextStage(run)) == Due(run) + When(Counts(Answered(command)), [Answered(command)])
  }

  lemma AnswerAddsBinding(run: Run)
    requires CommandAt(run).Some? && run.awaiting && run.stage.Admitted?
    ensures AnswerAdds(run)
  {
  }

  lemma AnswerAddsOpening(run: Run)
    requires CommandAt(run).Some? && run.awaiting && Opening(run.stage)
    ensures AnswerAdds(run)
  {
  }

  lemma AnswerAddsSync(run: Run)
    requires CommandAt(run).Some? && run.awaiting && (run.stage.Recovered? || run.stage.Synced?)
    ensures AnswerAdds(run)
  {
  }

  lemma AnswerAddsAnchors(run: Run)
    requires Placed(run) && CommandAt(run).Some? && run.awaiting
    requires run.stage.LocalAnchored? || run.stage.RemoteAnchored?
    ensures AnswerAdds(run)
  {
  }

  lemma AnswerAddsCheck(run: Run)
    requires Placed(run) && CommandAt(run).Some? && run.awaiting && run.stage.Converged?
    ensures AnswerAdds(run)
  {
  }

  lemma AnswerAddsPurge(run: Run)
    requires CommandAt(run).Some? && run.awaiting && Finishing(run.stage)
    ensures AnswerAdds(run)
  {
  }

  lemma AnswerAddsChecks(run: Run)
    requires Placed(run) && CommandAt(run).Some? && run.awaiting
    requires run.stage.Converged? || run.stage.LocalAnchored? || run.stage.RemoteAnchored? || Finishing(run.stage)
    ensures AnswerAdds(run)
  {
    if run.stage.Converged? {
      AnswerAddsCheck(run);
    } else if Finishing(run.stage) {
      AnswerAddsPurge(run);
    } else {
      AnswerAddsAnchors(run);
    }
  }

  /** An answered command that lets the run go on. */
  lemma ReplyGoes(run: Run, disk: Disk, ch: Choice)
    requires CommandAt(run).Some? && run.awaiting
    ensures var command := CommandAt(run).value;
            var out := Reply(run, command, disk, ch);
            Going(out.run.stage) ==>
                  && out.log == When(ch.ok, [Answered(command)])
                  && out.run == run.(stage := NextStage(run), awaiting := false)
                  && (!ch.ok ==> !Counts(Answered(command)))
  {
  }

  lemma AnswerIsDue(run: Run, next: Run, log: seq<What>, ok: bool)
    requires CommandAt(run).Some? && AnswerAdds(run)
    requires next == run.(stage := NextStage(run), awaiting := false)
    requires log == When(ok, [Answered(CommandAt(run).value)])
    requires !ok ==> !Counts(Answered(CommandAt(run).value))
    ensures Due(next) == Due(run) + Achieved(log)
  {
    AchievedOne(Answered(CommandAt(run).value));
    RestingIsDue(next);
  }

  lemma RestingIsDue(run: Run)
    requires !run.awaiting
    ensures Due(run) == DueAt(run.job, run.stage)
  {
  }

  lemma AnswerAddsAnywhere(run: Run)
    requires Placed(run) && CommandAt(run).Some? && run.awaiting
    ensures AnswerAdds(run)
  {
    if run.stage.Admitted? {
      AnswerAddsBinding(run);
    } else if Opening(run.stage) {
      AnswerAddsOpening(run);
    } else if run.stage.Recovered? || run.stage.Synced? {
      AnswerAddsSync(run);
    } else {
      AnswerAddsChecks(run);
    }
  }

  lemma ReplyAchieves(run: Run, disk: Disk, ch: Choice)
    requires Placed(run) && CommandAt(run).Some? && run.awaiting
    ensures var out := Reply(run, CommandAt(run).value, disk, ch);
            Going(out.run.stage) ==> Due(out.run) == Due(run) + Achieved(out.log)
  {
    var out := Reply(run, CommandAt(run).value, disk, ch);
    ReplyGoes(run, disk, ch);
    if Going(out.run.stage) {
      AnswerAddsAnywhere(run);
      AnswerIsDue(run, out.run, out.log, ch.ok);
    }
  }

  /** A step without a command adds what it logs. */
  ghost predicate StepAdds(run: Run, out: Outcome) {
    Going(out.run.stage) ==>
      !out.run.awaiting && DueAt(run.job, out.run.stage) == DueAt(run.job, run.stage) + Achieved(out.log)
  }

  lemma EnterAchieves(run: Run, disk: Disk, ch: Choice)
    requires Entering(run.stage) && CommandAt(run).None?
    ensures StepAdds(run, EnterStep(run, disk, ch))
  {
    AchievedOne(WroteState(Running));
  }

  lemma OpenAchieves(run: Run, disk: Disk, ch: Choice)
    requires Opening(run.stage) && CommandAt(run).None?
    ensures StepAdds(run, OpenStep(run, disk, ch))
  {
  }

  lemma RecoverAchieves(run: Run, disk: Disk, ch: Choice)
    requires run.stage.Recovering?
    ensures StepAdds(run, ExchangeStep(run, disk, ch))
  {
    PrepareAchieves(run.job, run.stage.day, disk.dirs, ch.prep);
    PreparedAdds(run, run.stage.day, Prepare(run.job, run.stage.day, disk.dirs, ch.prep), disk);
  }

  lemma PreparedAdds(run: Run, day: string, prepared: Prepared, disk: Disk)
    requires run.stage == Recovering(day) && (prepared.ok ==> Achieved(prepared.log) == [RecoveryReady(day)])
    ensures var disk' := disk.(dirs := prepared.dirs);
            StepAdds(run, if prepared.ok then To(run, Recovered(day), prepared.log, disk') else Stop(run, false, prepared.log, disk'))
  {
  }

  lemma SkippedPassAchieves(run: Run, disk: Disk, ch: Choice)
    requires (run.stage.Synced? || run.stage.Converged? || run.stage.Recovered?) && CommandAt(run).None? && Placed(run)
    ensures StepAdds(run, ExchangeStep(run, disk, ch))
  {
  }

  lemma LocalAnchorAchieves(run: Run, disk: Disk, ch: Choice)
    requires run.stage.Verified? && CommandAt(run).None?
    ensures StepAdds(run, ExchangeStep(run, disk, ch))
  {
    AchievedOne(LocalAnchorMatched);
    AnchorIsDue(run.job, run.stage.day);
  }

  lemma AnchorIsDue(job: Job, day: string)
    ensures job.ChecksAnchors() ==> DueAt(job, LocalAnchored(day)) == DueAt(job, Verified(day)) + [LocalAnchorMatched]
    ensures !job.ChecksAnchors() ==> DueAt(job, Cleaning(day, None)) == DueAt(job, Verified(day))
  {
  }

  lemma SkippedAnchorAchieves(run: Run, disk: Disk, ch: Choice)
    requires (run.stage.LocalAnchored? || run.stage.RemoteAnchored?) && CommandAt(run).None? && Placed(run)
    ensures StepAdds(run, ExchangeStep(run, disk, ch))
  {
  }

  lemma CheckAchieves(run: Run, disk: Disk, ch: Choice)
    requires Exchanging(run.stage) && !run.stage.Recovering? && CommandAt(run).None? && Placed(run)
    ensures StepAdds(run, ExchangeStep(run, disk, ch))
  {
    if run.stage.Verified? {
      LocalAnchorAchieves(run, disk, ch);
    } else if run.stage.LocalAnchored? || run.stage.RemoteAnchored? {
      SkippedAnchorAchieves(run, disk, ch);
    } else {
      SkippedPassAchieves(run, disk, ch);
    }
  }

  /** An outdated directory below the recovery root that the plan has on its side. */
  predicate IsOwnOld(job: Job, dir: Dir) {
    job.Outdates(dir.day) && dir.root == if dir.side == Local then job.plan.localRecovery else job.plan.remoteRecovery
  }

  /** What looking at one more directory of the sweep comes to: the marker is asked for on the remote
      side, and only of an outdated one on the plan's own root; and only such a one becomes a target. */
  predicate Looks(run: Run, disk: Disk, dir: Dir, out: Outcome) {
    && run.stage.Cleaning? && out.disk == disk
    && (out.log == [] || (out.log == [Sent(CatOwner(dir))] && dir.side == Remote && IsOwnOld(run.job, dir)))
    && out.run == run.(stage := out.run.stage, awaiting := false)
    && (out.run.stage in {Cleaned(run.stage.day), Cleaning(run.stage.day, None)}
        || (out.run.stage == Cleaning(run.stage.day, Some(dir)) && IsOwnOld(run.job, dir)))
  }

  lemma CleaningLooks(run: Run, disk: Disk, ch: Choice)
    requires run.stage.Cleaning? && run.stage.target.None?
    ensures CommandAt(run).None? && Looks(run, disk, ch.dir, FinishStep(run, disk, ch))
  {
  }

  lemma LookAdds(run: Run, disk: Disk, dir: Dir, out: Outcome)
    requires Looks(run, disk, dir, out)
    ensures StepAdds(run, out)
  {
    AskingAchievesNothing(out.log, dir);
    FinishDueStays(run.job, run.stage, out.run.stage);
  }

  lemma AskingAchievesNothing(log: seq<What>, dir: Dir)
    requires log == [] || log == [Sent(CatOwner(dir))]
    ensures Achieved(log) == []
  {
    if log != [] { AchievedOne(Sent(CatOwner(dir))); }
  }

  lemma FinishDueStays(job: Job, from: Stage, to: Stage)
    requires Finishing(from) && Finishing(to) && from.day == to.day
    ensures DueAt(job, to) == DueAt(job, from) + []
  {
  }

  lemma LookAchieves(run: Run, disk: Disk, ch: Choice)
    requires run.stage.Cleaning? && run.stage.target.None?
    ensures StepAdds(run, FinishStep(run, disk, ch))
  {
    CleaningLooks(run, disk, ch);
    LookAdds(run, disk, ch.dir, FinishStep(run, disk, ch));
  }

  lemma RemovalAchieves(run: Run, disk: Disk, ch: Choice)
    requires run.stage.Cleaning? && run.stage.target.Some? && CommandAt(run).None?
    ensures StepAdds(run, FinishStep(run, disk, ch))
  {
    AchievedOne(RemovedLocal(run.stage.target.value));
    FinishDueStays(run.job, run.stage, Cleaning(run.stage.day, None));
  }

  lemma MarkAchieves(run: Run, disk: Disk, ch: Choice)
    requires run.stage.Cleaned? || run.stage.Marked?
    ensures StepAdds(run, FinishStep(run, disk, ch))
  {
    AchievedOne(WroteSyncMarker);
    FinishDueStays(run.job, run.stage, Marked(run.stage.day));
  }

  lemma LocalAchieves(run: Run, disk: Disk, ch: Choice)
    requires Going(run.stage) && Placed(run) && CommandAt(run).None?
    ensures StepAdds(run, LocalStep(run, disk, ch))
  {
    if Entering(run.stage) {
      EnterAchieves(run, disk, ch);
    } else if Opening(run.stage) {
      OpenAchieves(run, disk, ch);
    } else if Exchanging(run.stage) {
      if run.stage.Recovering? { RecoverAchieves(run, disk, ch); } else { CheckAchieves(run, disk, ch); }
    } else if run.stage.Cleaning? {
      if run.stage.target.None? { LookAchieves(run, disk, ch); } else { RemovalAchieves(run, disk, ch); }
    } else {
      MarkAchieves(run, disk, ch);
    }
  }

  ghost predicate Achieves(run: Run, out: Outcome) {
    Going(out.run.stage) ==> Due(out.run) == Due(run) + Achieved(out.log)
  }

  lemma {:induction false} AdvanceAchieves(run: Run, disk: Disk, ch: Choice)
    requires Going(run.stage) && Placed(run)
    ensures Achieves(run, Advance(run, disk, ch))
  {
    if CommandAt(run).None? {
      LocalAchieves(run, disk, ch);
      LocalDue(run, LocalStep(run, disk, ch));
    } else if run.awaiting {
      ReplyAchieves(run, disk, ch);
    } else {
      SendAchieves(run);
    }
  }

  lemma LocalDue(run: Run, out: Outcome)
    requires StepAdds(run, out) && CommandAt(run).None? && out.run.job == run.job
    ensures Achieves(run, out)
  {
  }

  // ---------------------------------------------------------------------- what a run may rely on

  /** The marker files a transaction started from are still what it found. */
  predicate MarkersHold(run: Run, disk: Disk) {
    && (Going(run.stage) && !run.stage.Locked? && !run.stage.Marked? ==> MarkersAllow(run.job, disk))
    && (run.stage.Marked? ==> run.job.Work() in disk.synced)
  }

  /** Between writing the running state and writing the final one. */
  predicate InTransaction(stage: Stage) {
    Opening(stage) || Exchanging(stage) || Finishing(stage) || stage.Ending?
  }

  predicate StateHolds(run: Run, disk: Disk) {
    && (run.stage.StateFree? ==> !IsRunning(disk, run.job.conn))
    && (InTransaction(run.stage) ==> IsRunning(disk, run.job.conn))
    && (run.stage == Closing(true) ==> !IsRunning(disk, run.job.conn))
  }

  /** The directories a run is about to use as backups, or to remove, name its connection. */
  predicate OwnersHold(run: Run, disk: Disk) {
    && (run.stage.Recovered? || run.stage.Synced? ==>
          && MarkerAt(disk.dirs, run.job.LocalDir(run.stage.day)) == Names(run.job.conn)
          && MarkerAt(disk.dirs, run.job.RemoteDir(run.stage.day)) == Names(run.job.conn))
    && (run.stage.Cleaning? && run.stage.target.Some? ==>
          MarkerAt(disk.dirs, run.stage.target.value) == Names(run.job.conn))
  }

  /** The state a run needs to find when it takes its next step. */
  predicate Sound(run: Run, disk: Disk) {
    Placed(run) && MarkersHold(run, disk) && StateHolds(run, disk) && OwnersHold(run, disk)
  }

  /** What a step of a run of `conn` promises to every other connection. */
  ghost predicate Guarantee(conn: ConnectionId, disk: Disk, disk': Disk) {
    && disk.synced <= disk'.synced
    && (forall work: WorkDir :: work.conn != conn ==>
          && (work in disk'.synced <==> work in disk.synced)
          && (work in disk'.previewed <==> work in disk.previewed))
    && (forall c: ConnectionId :: c != conn ==> IsRunning(disk', c) == IsRunning(disk, c))
    && OthersKept(conn, disk.dirs, disk'.dirs)
  }

  lemma SoundIsStable(run: Run, conn: ConnectionId, disk: Disk, disk': Disk)
    requires Sound(run, disk) && Guarantee(conn, disk, disk') && run.job.conn != conn
    ensures Sound(run, disk')
  {
    assert run.job.Work().conn == run.job.conn;
  }

  /** The directories on which an entry of the trace lays hands. */
  function Touched(job: Job, what: What): set<Dir> {
    match what
    case Sent(Bisync(_, dryRun, day)) => 
      if dryRun then {} else {Dir(Local, job.plan.localRecovery, day), Dir(Remote, job.plan.remoteRecovery, day)}
    case Sent(Purge(dir)) => {dir}
    case Sent(CopyOwner(dir)) => {dir}
    case WroteLocalOwner(dir) => {dir}
    case RemovedLocal(dir) => {dir}
    case _ => {}
  }

  /** A directory a run touches is its own, or an empty one that it is marking. */
  predicate MayTouch(job: Job, what: What, dir: Dir, dirs: map<Dir, Content>) {
    if what.WroteLocalOwner? || (what.Sent? && what.command.CopyOwner?) then Claimable(dirs, dir, job.conn)
    else MarkerAt(dirs, dir) == Names(job.conn)
  }

  ghost predicate TouchesOnlyItsOwn(job: Job, log: seq<What>, dirs: map<Dir, Content>) {
    forall k, dir :: 0 <= k < |log| && dir in Touched(job, log[k]) ==> MayTouch(job, log[k], dir, dirs)
  }

  /** Markers that name anybody but `conn` are as they were. */
  ghost predicate OthersKept(conn: ConnectionId, dirs: map<Dir, Content>, dirs': map<Dir, Content>) {
    forall dir :: MarkerAt(dirs, dir).Names? && MarkerAt(dirs, dir).owner != conn ==>
      MarkerAt(dirs', dir) == MarkerAt(dirs, dir)
  }

  lemma PrepareLocalKeepsOwners(job: Job, day: string, dirs: map<Dir, Content>, p: Preparation)
    ensures var prepared := PrepareLocal(job, day, dirs, p);
            && OthersKept(job.conn, dirs, prepared.dirs)
            && TouchesOnlyItsOwn(job, prepared.log, dirs)
            && (prepared.ok ==> MarkerAt(prepared.dirs, job.LocalDir(day)) == Names(job.conn))
            && (forall dir: Dir :: dir.side.Remote? ==>
                  (dir in prepared.dirs <==> dir in dirs) && (dir in dirs ==> prepared.dirs[dir] == dirs[dir]))
  {
  }

  lemma PrepareRemoteKeepsLocal(job: Job, day: string, dirs: map<Dir, Content>, p: Preparation)
    ensures var prepared := PrepareRemote(job, day, dirs, p);
            && (forall dir: Dir :: dir.side.Local? ==> MarkerAt(prepared.dirs, dir) == MarkerAt(dirs, dir))
            && (forall k :: 0 <= k < |prepared.log| ==> Touched(job, prepared.log[k]) <= {job.RemoteDir(day)})
  {
  }

  lemma PrepareRemoteKeepsOwners(job: Job, day: string, dirs: map<Dir, Content>, p: Preparation)
    ensures var prepared := PrepareRemote(job, day, dirs, p);
            && OthersKept(job.conn, dirs, prepared.dirs)
            && TouchesOnlyItsOwn(job, prepared.log, dirs)
            && (prepared.ok ==> MarkerAt(prepared.dirs, job.RemoteDir(day)) == Names(job.conn))
  {
  }

  lemma PrepareKeepsOwners(job: Job, day: string, dirs: map<Dir, Content>, p: Preparation)
    ensures var prepared := Prepare(job, day, dirs, p);
            && OthersKept(job.conn, dirs, prepared.dirs)
            && TouchesOnlyItsOwn(job, prepared.log, dirs)
            && (prepared.ok ==>
                  && MarkerAt(prepared.dirs, job.LocalDir(day)) == Names(job.conn)
                  && MarkerAt(prepared.dirs, job.RemoteDir(day)) == Names(job.conn))
  {
    var local := PrepareLocal(job, day, dirs, p);
    PrepareLocalKeepsOwners(job, day, dirs, p);
    if local.ok {
      PrepareRemoteKeepsOwners(job, day, local.dirs, p);
      PrepareRemoteKeepsLocal(job, day, local.dirs, p);
    }
  }

  /** Everything one step owes: its own next step finds what it needs, no other connection
      loses anything, and only owned or empty directories are touched. */
  ghost predicate Lawful(run: Run, disk: Disk, out: Outcome) {
    && out.run.job == run.job && !out.run.stage.Begin? && !out.run.stage.Locked?
    && Sound(out.run, out.disk)
    && Guarantee(run.job.conn, disk, out.disk)
    && TouchesOnlyItsOwn(run.job, out.log, disk.dirs)
  }

  lemma AdmitIsLawful(run: Run, disk: Disk, ch: Choice)
    requires (run.stage.Locked? || run.stage.Admitted? || run.stage.Bound?) && Sound(run, disk)
    ensures Lawful(run, disk, EnterStep(run, disk, ch))
  {
  }

  lemma EnterIsLawful(run: Run, disk: Disk, ch: Choice)
    requires (run.stage.InputsReady? || run.stage.StateFree?) && Sound(run, disk)
    ensures Lawful(run, disk, EnterStep(run, disk, ch))
  {
  }

  lemma OpenIsLawful(run: Run, disk: Disk, ch: Choice)
    requires Opening(run.stage) && !run.stage.Counted? && Sound(run, disk) && CommandAt(run).None?
    ensures Lawful(run, disk, OpenStep(run, disk, ch))
  {
  }

  lemma PreviewEndIsLawful(run: Run, disk: Disk, ch: Choice)
    requires run.stage.Counted? && Sound(run, disk)
    ensures Lawful(run, disk, OpenStep(run, disk, ch))
  {
  }

  lemma RecoverIsLawful(run: Run, disk: Disk, ch: Choice)
    requires run.stage.Recovering? && Sound(run, disk)
    ensures Lawful(run, disk, ExchangeStep(run, disk, ch))
  {
    PrepareKeepsOwners(run.job, run.stage.day, disk.dirs, ch.prep);
  }

  lemma ExchangeIsLawful(run: Run, disk: Disk, ch: Choice)
    requires Exchanging(run.stage) && !run.stage.Recovering? && Sound(run, disk) && CommandAt(run).None?
    ensures Lawful(run, disk, ExchangeStep(run, disk, ch))
  {
  }

  /** What a look of retention can lead to. */
  lemma LookLeads(run: Run, day: string, disk: Disk, ch: Choice)
    requires run.stage == Cleaning(day, None)
    ensures var out := FinishStep(run, disk, ch);
            && out.disk == disk && (out.log == [] || out.log == [Sent(CatOwner(ch.dir))])
            && (out.run == run.(stage := Cleaned(day), awaiting := false)
                || out.run == run.(stage := Cleaning(day, None), awaiting := false)
                || (out.run == run.(stage := Cleaning(day, Some(ch.dir)), awaiting := false)
                    && MarkerAt(disk.dirs, ch.dir) == Names(run.job.conn)))
  {
  }

  lemma LeadIsLawful(run: Run, day: string, disk: Disk, out: Outcome, dir: Dir)
    requires run.stage == Cleaning(day, None) && Sound(run, disk)
    requires out.disk == disk && (out.log == [] || out.log == [Sent(CatOwner(dir))])
    requires out.run == run.(stage := Cleaned(day), awaiting := false)
             || out.run == run.(stage := Cleaning(day, None), awaiting := false)
             || (out.run == run.(stage := Cleaning(day, Some(dir)), awaiting := false)
                 && MarkerAt(disk.dirs, dir) == Names(run.job.conn))
    ensures Lawful(run, disk, out)
  {
  }

  lemma LookIsLawful(run: Run, disk: Disk, ch: Choice)
    requires run.stage.Cleaning? && run.stage.target.None? && Sound(run, disk)
    ensures Lawful(run, disk, FinishStep(run, disk, ch))
  {
    LookLeads(run, run.stage.day, disk, ch);
    LeadIsLawful(run, run.stage.day, disk, FinishStep(run, disk, ch), ch.dir);
  }

  lemma RemovalIsLawful(run: Run, disk: Disk, ch: Choice)
    requires run.stage.Cleaning? && run.stage.target.Some? && Sound(run, disk)
    ensures Lawful(run, disk, FinishStep(run, disk, ch))
  {
  }

  lemma MarkIsLawful(run: Run, disk: Disk, ch: Choice)
    requires Finishing(run.stage) && !run.stage.Cleaning? && Sound(run, disk)
    ensures Lawful(run, disk, FinishStep(run, disk, ch))
  {
  }

  lemma EndIsLawful(run: Run, disk: Disk, ch: Choice)
    requires run.stage.Ending? && Sound(run, disk)
    ensures Lawful(run, disk, EndStep(run, run.stage.ok, disk, ch))
  {
  }

  lemma FirstReplyIsLawful(run: Run, disk: Disk, ch: Choice)
    requires run.stage.Recovered? && Sound(run, disk) && CommandAt(run).Some? && run.awaiting
    ensures Lawful(run, disk, Reply(run, CommandAt(run).value, disk, ch))
  {
  }

  lemma SecondReplyIsLawful(run: Run, disk: Disk, ch: Choice)
    requires run.stage.Synced? && Sound(run, disk) && CommandAt(run).Some? && run.awaiting
    ensures Lawful(run, disk, Reply(run, CommandAt(run).value, disk, ch))
  {
  }

  lemma CheckReplyIsLawful(run: Run, disk: Disk, ch: Choice)
    requires Exchanging(run.stage) && !run.stage.Recovered? && !run.stage.Synced?
    requires Sound(run, disk) && CommandAt(run).Some? && run.awaiting
    ensures Lawful(run, disk, Reply(run, CommandAt(run).value, disk, ch))
  {
  }

  lemma ExchangeReplyIsLawful(run: Run, disk: Disk, ch: Choice)
    requires Exchanging(run.stage) && Sound(run, disk) && CommandAt(run).Some? && run.awaiting
    ensures Lawful(run, disk, Reply(run, CommandAt(run).value, disk, ch))
  {
    if run.stage.Recovered? {
      FirstReplyIsLawful(run, disk, ch);
    } else if run.stage.Synced? {
      SecondReplyIsLawful(run, disk, ch);
    } else {
      CheckReplyIsLawful(run, disk, ch);
    }
  }

  lemma PurgeIsLawful(run: Run, disk: Disk, ch: Choice)
    requires Finishing(run.stage) && Sound(run, disk) && CommandAt(run).Some? && run.awaiting
    ensures Lawful(run, disk, Reply(run, CommandAt(run).value, disk, ch))
  {
  }

  lemma BindingReplyIsLawful(run: Run, disk: Disk, ch: Choice)
    requires run.stage.Admitted? && Sound(run, disk) && CommandAt(run).Some? && run.awaiting
    ensures Lawful(run, disk, Reply(run, CommandAt(run).value, disk, ch))
  {
  }

  lemma OpenReplyIsLawful(run: Run, disk: Disk, ch: Choice)
    requires Opening(run.stage) && Sound(run, disk) && CommandAt(run).Some? && run.awaiting
    ensures Lawful(run, disk, Reply(run, CommandAt(run).value, disk, ch))
  {
  }

  lemma SendIsLawful(run: Run, disk: Disk)
    requires Sound(run, disk) && CommandAt(run).Some?
    ensures Lawful(run, disk, Outcome(run.(awaiting := true), [Sent(CommandAt(run).value)], disk))
  {
    assert CommandAt(run.(awaiting := true)) == CommandAt(run);
  }

  lemma LocalIsLawful(run: Run, disk: Disk, ch: Choice)
    requires !run.stage.Begin? && !run.stage.Closing? && Sound(run, disk) && CommandAt(run).None?
    ensures Lawful(run, disk, LocalStep(run, disk, ch))
  {
    if run.stage.InputsReady? || run.stage.StateFree? {
      EnterIsLawful(run, disk, ch);
    } else if Entering(run.stage) {
      AdmitIsLawful(run, disk, ch);
    } else if run.stage.Counted? {
      PreviewEndIsLawful(run, disk, ch);
    } else if Opening(run.stage) {
      OpenIsLawful(run, disk, ch);
    } else if run.stage.Recovering? {
      RecoverIsLawful(run, disk, ch);
    } else if Exchanging(run.stage) {
      ExchangeIsLawful(run, disk, ch);
    } else if run.stage.Cleaning? {
      if run.stage.target.None? { LookIsLawful(run, disk, ch); } else { RemovalIsLawful(run, disk, ch); }
    } else if Finishing(run.stage) {
      MarkIsLawful(run, disk, ch);
    } else {
      EndIsLawful(run, disk, ch);
    }
  }

  lemma {:induction false} AdvanceIsLawful(run: Run, disk: Disk, ch: Choice)
    requires !run.stage.Begin? && !run.stage.Closing? && Sound(run, disk)
    ensures Lawful(run, disk, Advance(run, disk, ch))
  {
    if CommandAt(run).None? {
      LocalIsLawful(run, disk, ch);
    } else if run.awaiting {
      if Exchanging(run.stage) {
        ExchangeReplyIsLawful(run, disk, ch);
      } else if Finishing(run.stage) {
        PurgeIsLawful(run, disk, ch);
      } else if run.stage.Admitted? {
        BindingReplyIsLawful(run, disk, ch);
      } else {
        OpenReplyIsLawful(run, disk, ch);
      }
    } else {
      SendIsLawful(run, disk);
    }
  }
}
