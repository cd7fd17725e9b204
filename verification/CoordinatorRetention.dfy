/** What retention can and cannot do, over every sequence of runs. */
module CoordinatorRetention {
  import opened Calendar
  import opened Coordinator
  import opened CoordinatorLaws
  import opened CoordinatorRuns
  import opened CoordinatorTheorems
  import opened Options
  import R = Retention
  import T = Text

  // ------------------------------------------------------------- retention never fails a run

  /** Entries that only retention makes. */
  predicate IsRetention(what: What) {
    match what
    case Sent(command) => command.Purge?
    case Answered(command) => command.Purge?
    case RemovedLocal(_) => true
    case _ => false
  }

  ghost predicate IsFull(job: Job, achieved: seq<What>) { exists day :: achieved == Script(job, day) }

  /** Something due is missing. */
  ghost predicate IsShort(job: Job, achieved: seq<What>) {
    forall day :: |achieved| < |Script(job, day)|
  }

  predicate Synchronizes(mode: Mode) { mode.InitialSync? || mode.Sync? || mode.Scheduled? }

  /** What an entry says about the achievements before it: success comes after the whole script of the
      mode, retention acts only after the script of a synchronization, and a synchronization fails before
      its script is complete, unless the marker of an initial one is what fails. */
  ghost predicate IsVerdict(job: Job, achieved: seq<What>, what: What) {
    && (IsRetention(what) ==> Synchronizes(job.mode) && IsFull(job, achieved))
    && (what == TransactionEnded(true) ==> IsFull(job, achieved))
    && (what == TransactionEnded(false) && (job.mode.Sync? || job.mode.Scheduled?) ==> IsShort(job, achieved))
  }

  /** Every entry of a step, given what was due before the step. */
  ghost predicate StepVerdicts(run: Run, log: seq<What>) {
    forall p :: 0 <= p < |log| ==> IsVerdict(run.job, Due(run) + Achieved(log[..p]), log[p])
  }

  lemma QuietVerdicts(run: Run, log: seq<What>)
    requires forall what :: what in log ==> !IsRetention(what) && !what.TransactionEnded?
    ensures StepVerdicts(run, log)
  {
    assert forall p :: 0 <= p < |log| ==> log[p] in log;
  }

  lemma OneVerdict(run: Run, what: What)
    requires IsVerdict(run.job, Due(run), what)
    ensures StepVerdicts(run, [what])
  {
    assert [what][..0] == [];
    assert Due(run) + [] == Due(run);
  }

  /** Before retention something due is missing. */
  lemma BeforeRetentionIsShort(run: Run)
    requires Placed(run) && Going(run.stage) && Synchronizes(run.job.mode)
    requires Opening(run.stage) || (Exchanging(run.stage) && (run.stage.Verified? ==> run.job.ChecksAnchors()))
    requires CommandAt(run).None? ==> run.stage.Working? || run.stage.Anchored? || run.stage.Recovering? || run.stage.Verified?
    ensures IsShort(run.job, Due(run))
  {
    forall day ensures FullTransaction(run.job, day) == Script(run.job, day) { FullIsScript(run.job, day); }
  }

  lemma EnterVerdicts(run: Run, disk: Disk, ch: Choice)
    requires Entering(run.stage) && CommandAt(run).None?
    ensures StepVerdicts(run, EnterStep(run, disk, ch).log)
  {
    QuietVerdicts(run, EnterStep(run, disk, ch).log);
  }

  lemma OpenVerdicts(run: Run, disk: Disk, ch: Choice)
    requires Opening(run.stage) && CommandAt(run).None? && Placed(run)
    ensures StepVerdicts(run, OpenStep(run, disk, ch).log)
  {
    var log := OpenStep(run, disk, ch).log;
    if run.stage.Counted? {
      PreviewVerdicts(run, disk, ch);
    } else if log == [] {
    } else if !Synchronizes(run.job.mode) {
      OneVerdict(run, TransactionEnded(false));
    } else {
      BeforeRetentionIsShort(run);
      OneVerdict(run, TransactionEnded(false));
    }
  }

  /** The end of a preview: its script is behind it, the marker of an initial one is logged before it. */
  lemma PreviewVerdicts(run: Run, disk: Disk, ch: Choice)
    requires run.stage.Counted? && Placed(run)
    ensures StepVerdicts(run, OpenStep(run, disk, ch).log)
  {
    var log := OpenStep(run, disk, ch).log;
    CountedIsFull(run);
    if log == [WrotePreviewMarker, TransactionEnded(true)] {
      AchievedOne(WrotePreviewMarker);
      assert log == [WrotePreviewMarker] + [TransactionEnded(true)];
      LastVerdict(run, [WrotePreviewMarker], TransactionEnded(true));
    } else {
      OneVerdict(run, log[0]);
    }
  }

  lemma CountedIsFull(run: Run)
    requires run.stage.Counted? && Placed(run)
    ensures IsFull(run.job, Due(run))
  {
    PreviewIsScript(run.job, run.stage.day);
    assert Due(run) == Script(run.job, run.stage.day);
  }

  lemma RecoverVerdicts(run: Run, disk: Disk, ch: Choice)
    requires run.stage.Recovering? && Placed(run)
    ensures StepVerdicts(run, ExchangeStep(run, disk, ch).log)
  {
    var prepared := Prepare(run.job, run.stage.day, disk.dirs, ch.prep);
    PrepareExplained(run.job, run.stage.day, disk.dirs, ch.prep);
    if !prepared.ok { FailedPreparationIsQuiet(run.job, run.stage.day, disk.dirs, ch.prep); }
    PreparedVerdicts(run, prepared);
  }

  lemma PreparedVerdicts(run: Run, prepared: Prepared)
    requires run.stage.Recovering? && Placed(run)
    requires forall what :: what in prepared.log ==> IsPreparation(run.job, run.stage.day, what)
    requires !prepared.ok ==> Achieved(prepared.log) == []
    ensures StepVerdicts(run, if prepared.ok then prepared.log else prepared.log + [TransactionEnded(false)])
  {
    if prepared.ok {
      QuietVerdicts(run, prepared.log);
    } else {
      BeforeRetentionIsShort(run);
      LastVerdict(run, prepared.log, TransactionEnded(false));
    }
  }

  lemma LastVerdict(run: Run, log: seq<What>, what: What)
    requires forall w :: w in log ==> !IsRetention(w) && !w.TransactionEnded?
    requires Achieved(log) == [] && IsVerdict(run.job, Due(run), what)
    ensures StepVerdicts(run, log + [what])
  {
    var all := log + [what];
    forall p | 0 <= p < |all| ensures IsVerdict(run.job, Due(run) + Achieved(all[..p]), all[p]) {
      if p < |log| {
        assert all[p] in log;
      } else {
        assert all[..p] == log && Due(run) + [] == Due(run);
      }
    }
  }

  lemma FailedPreparationIsQuiet(job: Job, day: string, dirs: map<Dir, Content>, p: Preparation)
    requires !Prepare(job, day, dirs, p).ok
    ensures Achieved(Prepare(job, day, dirs, p).log) == []
  {
    var local := PrepareLocal(job, day, dirs, p);
    LocalHalfIsQuiet(job, day, dirs, p);
    if local.ok {
      var remote := PrepareRemote(job, day, local.dirs, p);
      RemoteHalfIsQuiet(job, day, local.dirs, p);
      AchievedJoins(local.log, remote.log);
      assert Prepare(job, day, dirs, p).log == local.log + remote.log;
    }
  }

  lemma CheckVerdicts(run: Run, disk: Disk, ch: Choice)
    requires Exchanging(run.stage) && !run.stage.Recovering? && CommandAt(run).None? && Placed(run)
    ensures StepVerdicts(run, ExchangeStep(run, disk, ch).log)
  {
    if run.stage.Verified? && run.job.ChecksAnchors() && !ch.ok {
      BeforeRetentionIsShort(run);
      OneVerdict(run, TransactionEnded(false));
    } else {
      QuietVerdicts(run, ExchangeStep(run, disk, ch).log);
    }
  }

  lemma FinishingIsFull(run: Run)
    requires Finishing(run.stage) && Placed(run)
    ensures IsFull(run.job, Due(run))
  {
    FullIsScript(run.job, run.stage.day);
    assert DueAt(run.job, run.stage) == FullTransaction(run.job, run.stage.day);
    assert UnderWay(run) == [];
    assert Due(run) == FullTransaction(run.job, run.stage.day);
  }

  lemma FinishVerdicts(run: Run, disk: Disk, ch: Choice)
    requires Finishing(run.stage) && Placed(run)
    ensures StepVerdicts(run, FinishStep(run, disk, ch).log)
  {
    FinishingIsFull(run);
    var log := FinishStep(run, disk, ch).log;
    FinishLogs(run, disk, ch);
    if log != [] { OneVerdict(run, log[0]); }
  }

  /** What one step of retention or of the final markers can log. */
  lemma FinishLogs(run: Run, disk: Disk, ch: Choice)
    requires Finishing(run.stage) && Placed(run)
    ensures var log := FinishStep(run, disk, ch).log;
            && (log == [] || log == [log[0]])
            && (TransactionEnded(false) in log ==> run.job.mode.InitialSync?)
  {
  }

  lemma SendVerdicts(run: Run)
    requires CommandAt(run).Some? && Placed(run)
    ensures StepVerdicts(run, [Sent(CommandAt(run).value)])
  {
    if Finishing(run.stage) { FinishingIsFull(run); }
    OneVerdict(run, Sent(CommandAt(run).value));
  }

  lemma ReplyVerdicts(run: Run, disk: Disk, ch: Choice)
    requires Placed(run) && CommandAt(run).Some? && run.awaiting
    ensures StepVerdicts(run, Reply(run, CommandAt(run).value, disk, ch).log)
  {
    var command := CommandAt(run).value;
    var log := Reply(run, command, disk, ch).log;
    ReplyLogs(run, disk, ch);
    if Finishing(run.stage) { FinishingIsFull(run); }
    if log == [TransactionEnded(false)] {
      if Synchronizes(run.job.mode) { BeforeRetentionIsShort(run); }
      OneVerdict(run, TransactionEnded(false));
    } else if log == [Answered(command)] {
      OneVerdict(run, Answered(command));
    }
  }

  lemma ReplyLogs(run: Run, disk: Disk, ch: Choice)
    requires Placed(run) && CommandAt(run).Some? && run.awaiting
    ensures var command := CommandAt(run).value;
            var log := Reply(run, command, disk, ch).log;
            && (log == [] || log == [Answered(command)] || (log == [TransactionEnded(false)] && !run.stage.Admitted? && !Finishing(run.stage)))
            && (command.Purge? ==> Finishing(run.stage))
  {
  }

  lemma AdvanceVerdicts(run: Run, disk: Disk, ch: Choice)
    requires Going(run.stage) && Placed(run)
    ensures StepVerdicts(run, Advance(run, disk, ch).log)
  {
    if CommandAt(run).Some? {
      if run.awaiting { ReplyVerdicts(run, disk, ch); } else { SendVerdicts(run); }
    } else if Entering(run.stage) {
      EnterVerdicts(run, disk, ch);
    } else if Opening(run.stage) {
      OpenVerdicts(run, disk, ch);
    } else if run.stage.Recovering? {
      RecoverVerdicts(run, disk, ch);
    } else if Exchanging(run.stage) {
      CheckVerdicts(run, disk, ch);
    } else {
      FinishVerdicts(run, disk, ch);
    }
  }

  /** Every entry against what its run had achieved before it. */
  ghost predicate Verdicts(trace: seq<Event>) {
    forall k :: 0 <= k < |trace| ==> VerdictAt(trace, k)
  }

  ghost predicate VerdictAt(trace: seq<Event>, k: nat)
    requires k < |trace|
  {
    IsVerdict(trace[k].job, Achieved(Of(trace[..k], trace[k].run)), trace[k].what)
  }

  lemma VerdictStays(trace: seq<Event>, more: seq<Event>, k: nat)
    requires k < |trace| && VerdictAt(trace, k)
    ensures VerdictAt(trace + more, k)
  {
    assert (trace + more)[..k] == trace[..k];
  }

  lemma EntryVerdict(trace: seq<Event>, id: RunId, run: Run, log: seq<What>, p: nat)
    requires p < |log| && Achieved(Of(trace, id)) == Due(run) && StepVerdicts(run, log)
    ensures VerdictAt(trace + Log(id, run.job, log), |trace| + p)
  {
    assert (trace + Log(id, run.job, log))[..|trace| + p] == trace + Log(id, run.job, log[..p]);
    OfJoins(trace, id, run.job, log[..p], id);
    AchievedJoins(Of(trace, id), log[..p]);
    assert IsVerdict(run.job, Due(run) + Achieved(log[..p]), log[p]);
  }

  lemma VerdictOf(trace: seq<Event>, id: RunId, run: Run, log: seq<What>, k: nat)
    requires Verdicts(trace) && Achieved(Of(trace, id)) == Due(run) && StepVerdicts(run, log)
    requires k < |trace + Log(id, run.job, log)|
    ensures VerdictAt(trace + Log(id, run.job, log), k)
  {
    if k < |trace| {
      assert VerdictAt(trace, k);
      VerdictStays(trace, Log(id, run.job, log), k);
    } else {
      var p := k - |trace|;
      EntryVerdict(trace, id, run, log, p);
      assert k == |trace| + p;
    }
  }

  lemma AppendVerdicts(trace: seq<Event>, id: RunId, run: Run, log: seq<What>)
    requires Verdicts(trace) && Achieved(Of(trace, id)) == Due(run) && StepVerdicts(run, log)
    ensures Verdicts(trace + Log(id, run.job, log))
  {
    forall k | 0 <= k < |trace + Log(id, run.job, log)| ensures VerdictAt(trace + Log(id, run.job, log), k) {
      VerdictOf(trace, id, run, log, k);
    }
  }

  lemma AppendQuiet(trace: seq<Event>, more: seq<Event>)
    requires Verdicts(trace) && forall e :: e in more ==> !IsRetention(e.what) && !e.what.TransactionEnded?
    ensures Verdicts(trace + more)
  {
    var all := trace + more;
    forall k | 0 <= k < |all| ensures VerdictAt(all, k) {
      if k < |trace| {
        VerdictStays(trace, more, k);
      } else {
        assert all[k] in more;
      }
    }
  }

  lemma ActKeepsVerdicts(s: Sys, a: Action)
    requires Inv(s) && Verdicts(s.trace)
    ensures Verdicts(Act(s, a).trace)
  {
    if a.Move? && a.id in s.runs && Going(s.runs[a.id].stage) {
      var run := s.runs[a.id];
      assert OnCourse(s.trace, a.id, run, s.disk);
      AdvanceVerdicts(run, s.disk, a.choice);
      AppendVerdicts(s.trace, a.id, run, Advance(run, s.disk, a.choice).log);
    } else {
      var more := QuietAct(s, a);
      AppendQuiet(s.trace, more);
    }
  }

  lemma QuietAct(s: Sys, a: Action) returns (more: seq<Event>)
    requires a.Move? && a.id in s.runs ==> !Going(s.runs[a.id].stage)
    ensures Act(s, a).trace == s.trace + more
    ensures forall e :: e in more ==> !IsRetention(e.what) && !e.what.TransactionEnded?
  {
    if Stepping(s, a) {
      EndingLogs(s.runs[a.id], s.disk, a.choice);
      more := Log(a.id, s.runs[a.id].job, Advance(s.runs[a.id], s.disk, a.choice).log);
    } else {
      more := OutsideAdds(s, a);
    }
  }

  lemma EndingLogs(run: Run, disk: Disk, ch: Choice)
    requires run.stage.Ending?
    ensures var log := Advance(run, disk, ch).log; |log| == 1 && (log[0].WroteState? || log[0].LostFinalState?)
  {
  }

  lemma {:induction false} AlwaysVerdicts(dirs: map<Dir, Content>, actions: seq<Action>)
    ensures Verdicts(After(Initial(dirs), actions).trace)
  {
    if actions != [] {
      AlwaysVerdicts(dirs, actions[..|actions| - 1]);
      AlwaysInv(dirs, actions[..|actions| - 1]);
      ActKeepsVerdicts(After(Initial(dirs), actions[..|actions| - 1]), actions[|actions| - 1]);
    }
  }

  lemma {:induction false} AchievedGrows(trace: seq<Event>, id: RunId, i: nat, k: nat)
    requires i <= k <= |trace|
    ensures |Achieved(Of(trace[..i], id))| <= |Achieved(Of(trace[..k], id))|
    decreases k
  {
    if i < k {
      AchievedGrows(trace, id, i, k - 1);
      assert trace[..k][..k - 1] == trace[..k - 1];
      AchievedJoins(Of(trace[..k - 1], id), if trace[k - 1].run == id then [trace[k - 1].what] else []);
    }
  }

  /** Over every sequence of runs: outside previews a transaction succeeds only when everything due
      was achieved, and, unless it is an initial synchronization, fails only while something due is
      missing; and whatever retention logs comes after everything due.  So no transaction but an
      initial synchronization ever fails once its run has an entry of retention. */
  lemma RetentionNeverFailsTheRun(dirs: map<Dir, Content>, actions: seq<Action>)
    ensures Verdicts(After(Initial(dirs), actions).trace)
    ensures var trace := After(Initial(dirs), actions).trace;
            forall i, k :: 0 <= i < k < |trace| && trace[i].run == trace[k].run
                           && IsRetention(trace[i].what) && trace[k].what == TransactionEnded(false)
              ==> trace[k].job.mode.InitialSync?
  {
    var trace := After(Initial(dirs), actions).trace;
    AlwaysVerdicts(dirs, actions);
    AlwaysOneJob(dirs, actions);
    forall i, k | 0 <= i < k < |trace| && trace[i].run == trace[k].run
                  && IsRetention(trace[i].what) && trace[k].what == TransactionEnded(false)
      ensures trace[k].job.mode.InitialSync?
    {
      assert VerdictAt(trace, i) && VerdictAt(trace, k);
      AchievedGrows(trace, trace[k].run, i, k);
    }
  }

  // ----------------------------------------------------------- retention removes only old names

  /** The directory a removal entry names. */
  function Removes(what: What): Option<Dir> {
    match what
    case Sent(Purge(dir)) => Some(dir)
    case Answered(Purge(dir)) => Some(dir)
    case RemovedLocal(dir) => Some(dir)
    case _ => None
  }

  ghost predicate RemovesOutdated(job: Job, what: What) {
    Removes(what).Some? ==> IsOwnOld(job, Removes(what).value)
  }

  predicate TargetIsOutdated(run: Run) {
    run.stage.Cleaning? && run.stage.target.Some? ==> IsOwnOld(run.job, run.stage.target.value)
  }

  ghost predicate OnlyOutdated(s: Sys) {
    && (forall id :: id in s.runs ==> TargetIsOutdated(s.runs[id]))
    && (forall e :: e in s.trace ==> RemovesOutdated(e.job, e.what))
  }

  lemma QuietIsOutdated(job: Job, log: seq<What>)
    requires forall what :: what in log ==> Removes(what).None?
    ensures forall what :: what in log ==> RemovesOutdated(job, what)
  {
  }

  /** What a step away from retention logs, and where it leads. */
  ghost predicate RemovesNothing(out: Outcome) {
    && (forall what :: what in out.log ==> Removes(what).None?)
    && (out.run.stage.Cleaning? ==> out.run.stage.target.None?)
  }

  lemma CommandRemovesNothing(run: Run, disk: Disk, ch: Choice)
    requires CommandAt(run).Some? && !run.stage.Begin? && !run.stage.Closing? && !run.stage.Cleaning?
    ensures RemovesNothing(Advance(run, disk, ch))
  {
  }

  lemma OpenRemovesNothing(run: Run, disk: Disk, ch: Choice)
    requires Entering(run.stage) || Opening(run.stage)
    ensures RemovesNothing(LocalStep(run, disk, ch))
  {
  }

  lemma ExchangeRemovesNothing(run: Run, disk: Disk, ch: Choice)
    requires Exchanging(run.stage)
    ensures RemovesNothing(ExchangeStep(run, disk, ch))
  {
    if run.stage.Recovering? { PrepareExplained(run.job, run.stage.day, disk.dirs, ch.prep); }
  }

  lemma EndRemovesNothing(run: Run, disk: Disk, ch: Choice)
    requires (Finishing(run.stage) && !run.stage.Cleaning?) || run.stage.Ending?
    ensures RemovesNothing(LocalStep(run, disk, ch))
  {
  }

  lemma BeforeRetentionRemovesNothing(run: Run, disk: Disk, ch: Choice)
    requires !run.stage.Begin? && !run.stage.Closing? && !run.stage.Cleaning?
    ensures RemovesNothing(Advance(run, disk, ch))
  {
    if CommandAt(run).Some? {
      CommandRemovesNothing(run, disk, ch);
    } else if Entering(run.stage) || Opening(run.stage) {
      OpenRemovesNothing(run, disk, ch);
    } else if Exchanging(run.stage) {
      ExchangeRemovesNothing(run, disk, ch);
    } else {
      EndRemovesNothing(run, disk, ch);
    }
  }

  lemma RemovalRemovesOutdated(run: Run, disk: Disk, ch: Choice)
    requires run.stage.Cleaning? && run.stage.target.Some? && TargetIsOutdated(run)
    ensures var out := Advance(run, disk, ch);
            TargetIsOutdated(out.run) && forall what :: what in out.log ==> RemovesOutdated(run.job, what)
  {
  }

  lemma LookRemovesNothing(run: Run, disk: Disk, dir: Dir, out: Outcome)
    requires Looks(run, disk, dir, out)
    ensures TargetIsOutdated(out.run) && forall what :: what in out.log ==> RemovesOutdated(run.job, what)
  {
  }

  lemma CleaningRemovesOutdated(run: Run, disk: Disk, ch: Choice)
    requires run.stage.Cleaning? && TargetIsOutdated(run)
    ensures var out := Advance(run, disk, ch);
            TargetIsOutdated(out.run) && forall what :: what in out.log ==> RemovesOutdated(run.job, what)
  {
    if run.stage.target.Some? {
      RemovalRemovesOutdated(run, disk, ch);
    } else {
      CleaningLooks(run, disk, ch);
      LookRemovesNothing(run, disk, ch.dir, FinishStep(run, disk, ch));
    }
  }

  lemma AdvanceRemovesOutdated(run: Run, disk: Disk, ch: Choice)
    requires Placed(run) && !run.stage.Begin? && !run.stage.Closing? && TargetIsOutdated(run)
    ensures var out := Advance(run, disk, ch);
            TargetIsOutdated(out.run) && forall what :: what in out.log ==> RemovesOutdated(run.job, what)
  {
    if run.stage.Cleaning? {
      CleaningRemovesOutdated(run, disk, ch);
    } else {
      BeforeRetentionRemovesNothing(run, disk, ch);
      QuietIsOutdated(run.job, Advance(run, disk, ch).log);
    }
  }

  lemma StepKeepsOutdated(s: Sys, id: RunId, out: Outcome)
    requires OnlyOutdated(s) && id in s.runs && TargetIsOutdated(out.run)
    requires forall what :: what in out.log ==> RemovesOutdated(s.runs[id].job, what)
    ensures OnlyOutdated(Stepped(s, id, out))
  {
    forall e | e in Log(id, s.runs[id].job, out.log) ensures RemovesOutdated(e.job, e.what) { assert e.what in out.log; }
  }

  lemma QuietActKeepsOutdated(s: Sys, a: Action)
    requires OnlyOutdated(s)
    requires a.Move? && a.id in s.runs ==> s.runs[a.id].stage.Begin? || s.runs[a.id].stage.Closing?
    ensures OnlyOutdated(Act(s, a))
  {
  }

  lemma ActKeepsOutdated(s: Sys, a: Action)
    requires Inv(s) && OnlyOutdated(s)
    ensures OnlyOutdated(Act(s, a))
  {
    if Stepping(s, a) {
      assert OnCourse(s.trace, a.id, s.runs[a.id], s.disk);
      AdvanceRemovesOutdated(s.runs[a.id], s.disk, a.choice);
      StepKeepsOutdated(s, a.id, Advance(s.runs[a.id], s.disk, a.choice));
    } else {
      QuietActKeepsOutdated(s, a);
    }
  }

  lemma {:induction false} AlwaysOutdated(dirs: map<Dir, Content>, actions: seq<Action>)
    ensures OnlyOutdated(After(Initial(dirs), actions))
  {
    if actions != [] {
      AlwaysOutdated(dirs, actions[..|actions| - 1]);
      AlwaysInv(dirs, actions[..|actions| - 1]);
      ActKeepsOutdated(After(Initial(dirs), actions[..|actions| - 1]), actions[|actions| - 1]);
    }
  }

  /** Ten characters: digits, with a dash after the fourth and the sixth of them. */
  predicate LooksLikeDate(name: string) {
    |name| == 10 && forall i :: 0 <= i < 10 ==> if i == 4 || i == 7 then name[i] == '-' else '0' <= name[i] <= '9'
  }

  /** A printed date more than 32 days before the day of the clock. */
  ghost predicate IsOlderThanRetention(name: string, clock: nat) {
    && LooksLikeDate(name)
    && StrictDay(NameBytes(name)) && DayNumber(Parse(NameBytes(name))) < Calendar.Day(clock) - 32
  }

  lemma StrictNamesLookLikeDates(name: string)
    requires StrictDay(NameBytes(name))
    ensures LooksLikeDate(name)
  {
    StrictDayIsPrintedDate(NameBytes(name));
    forall i | 0 <= i < 10 ensures if i == 4 || i == 7 then name[i] == '-' else '0' <= name[i] <= '9' {
      assert NameBytes(name)[i] == if name[i] as int < 256 then name[i] as int else 255;
    }
  }

  lemma OutdatedIsOld(job: Job, name: string)
    requires job.Outdates(name)
    ensures IsOlderThanRetention(name, job.clock)
  {
    StrictNamesLookLikeDates(name);
    if DateOf(Calendar.Day(job.clock - RETENTION_DAYS * SECONDS_PER_DAY)).year <= 9999 {
      ExpiredMeansOlderThanRetention(NameBytes(name), job.clock);
    } else {
      var limit := DateOf(Calendar.Day(job.clock - RETENTION_DAYS * SECONDS_PER_DAY));
      DayNumberOfDate(Calendar.Day(job.clock - RETENTION_DAYS * SECONDS_PER_DAY));
      AllNamesAreOlder(NameBytes(name), limit);
    }
  }

  /** Over every sequence of runs, whatever retention purges or removes is named by a strict date
      more than 32 days before the day on its clock, for every clock, and lies below the recovery root
      of its own plan on that side. */
  lemma RetentionRemovesOnlyOldNames(dirs: map<Dir, Content>, actions: seq<Action>, e: Event)
    requires e in After(Initial(dirs), actions).trace && Removes(e.what).Some?
    ensures var dir := Removes(e.what).value;
            && IsOlderThanRetention(dir.day, e.job.clock)
            && (dir == Dir(Local, e.job.plan.localRecovery, dir.day) || dir == Dir(Remote, e.job.plan.remoteRecovery, dir.day))
  {
    AlwaysOutdated(dirs, actions);
    assert RemovesOutdated(e.job, e.what);
    OutdatedIsOld(e.job, Removes(e.what).value.day);
  }

  // ------------------------------------------------- the sweep with counters decides the same way

  /** Connection ids are printed without trailing whitespace, differently, and never as nothing. */
  ghost predicate IsPrinting(text: ConnectionId -> string) {
    && (forall a, b :: text(a) == text(b) ==> a == b)
    && (forall a :: text(a) != "" && T.TrimEnd(text(a)) == text(a))
  }

  /** What a marker file can hold. */
  ghost predicate Holds(marker: Marker, content: string, text: ConnectionId -> string) {
    match marker
    case NoMarker => false
    case Blank => T.TrimEnd(content) == ""
    case Names(owner) => T.TrimEnd(content) == text(owner)
    case Garbled => forall a :: T.TrimEnd(content) != text(a)
  }

  /** A look at a local entry that agrees with the files. */
  ghost predicate IsLookAt(look: R.Look, dirs: map<Dir, Content>, dir: Dir, readable: bool, text: ConnectionId -> string) {
    if readable && !MarkerAt(dirs, dir).NoMarker? then look.MarkerText? && Holds(MarkerAt(dirs, dir), look.text, text)
    else !look.MarkerText?
  }

  /** One look of a run at a directory on its own root. */
  predicate IsLook(run: Run, ch: Choice, side: Side, root: string) {
    run.stage.Cleaning? && run.stage.target.None? && !ch.stop && ch.dir == Dir(side, root, ch.dir.day)
  }

  /** Where the machine goes after a look: to the removal of this directory, or on. */
  predicate GoesFor(run: Run, dir: Dir, removing: bool, next: Run)
    requires run.stage.Cleaning?
  {
    next == run.(stage := Cleaning(run.stage.day, if removing then Some(dir) else None), awaiting := false)
  }

  /** The counting sweep removes, or tries to remove, exactly the local entries that a run removes. */
  lemma LocalSweepAgrees(run: Run, disk: Disk, ch: Choice, look: R.Look, text: ConnectionId -> string, cutoff: R.Name)
    requires IsLook(run, ch, Local, run.job.plan.localRecovery)
    requires IsPrinting(text) && IsLookAt(look, disk.dirs, ch.dir, ch.ok, text) && Cutoff(run.job.clock) == Some(cutoff)
    ensures var fate := R.LocalFate(R.LocalEntry.Entry(NameBytes(ch.dir.day), look), text(run.job.conn), cutoff);
            var out := Advance(run, disk, ch);
            && out.log == [] && out.disk == disk
            && GoesFor(run, ch.dir, fate.Removed? || fate.RemovalFailed?, out.run)
  {
    LookIsCleanStep(run, disk, ch);
  }

  lemma LookIsCleanStep(run: Run, disk: Disk, ch: Choice)
    requires run.stage.Cleaning? && run.stage.target.None?
    ensures Advance(run, disk, ch) == CleanStep(run, run.stage.day, disk, ch)
  {
  }

  /** A remote marker read that agrees with the files. */
  ghost predicate IsOwnerRead(owner: Option<string>, dirs: map<Dir, Content>, dir: Dir, readable: bool,
                              text: ConnectionId -> string)
  {
    if readable && !MarkerAt(dirs, dir).NoMarker? then owner.Some? && Holds(MarkerAt(dirs, dir), owner.value, text)
    else owner.None?
  }

  lemma LookAsks(run: Run, disk: Disk, ch: Choice)
    requires IsLook(run, ch, Remote, run.job.plan.remoteRecovery)
    ensures var out := Advance(run, disk, ch);
            && out.log == (if run.job.Outdates(ch.dir.day) then [Sent(CatOwner(ch.dir))] else [])
            && out.disk == disk
            && GoesFor(run, ch.dir, IsTarget(run.job, disk.dirs, ch.dir, ch.ok), out.run)
  {
    LookIsCleanStep(run, disk, ch);
  }

  lemma SweepAsks(job: Job, dirs: map<Dir, Content>, dir: Dir, readable: bool, e: R.RemoteEntry,
                  text: ConnectionId -> string, cutoff: R.Name)
    requires IsPrinting(text) && IsOwnerRead(e.owner, dirs, dir, readable, text) && Cutoff(job.clock) == Some(cutoff)
    requires R.TrimSlashes(e.line) == NameBytes(dir.day)
    ensures var sent := R.RemoteSent([e], text(job.conn), cutoff);
            && (R.CatOwner(NameBytes(dir.day)) in sent <==> job.Outdates(dir.day))
            && (R.Purge(NameBytes(dir.day)) in sent <==> IsTarget(job, dirs, dir, readable))
  {
    assert [e][..0] == [];
    assert R.RemoteSent([e][..0], text(job.conn), cutoff) == [];
  }

  /** The counting sweep reads the marker of, and purges, exactly the remote entries that a run does. */
  lemma RemoteSweepAgrees(run: Run, disk: Disk, ch: Choice, e: R.RemoteEntry, text: ConnectionId -> string, cutoff: R.Name)
    requires IsLook(run, ch, Remote, run.job.plan.remoteRecovery)
    requires IsPrinting(text) && IsOwnerRead(e.owner, disk.dirs, ch.dir, ch.ok, text) && Cutoff(run.job.clock) == Some(cutoff)
    requires R.TrimSlashes(e.line) == NameBytes(ch.dir.day)
    ensures var sent := R.RemoteSent([e], text(run.job.conn), cutoff);
            var out := Advance(run, disk, ch);
            && out.log == (if R.CatOwner(NameBytes(ch.dir.day)) in sent then [Sent(CatOwner(ch.dir))] else [])
            && out.disk == disk
            && GoesFor(run, ch.dir, R.Purge(NameBytes(ch.dir.day)) in sent, out.run)
  {
    LookAsks(run, disk, ch);
    SweepAsks(run.job, disk.dirs, ch.dir, ch.ok, e, text, cutoff);
  }
}
