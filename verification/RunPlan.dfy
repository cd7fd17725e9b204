/**
 * `run_plan`, `run_transaction` and `prepare_recovery` as the straight-line code they are, working in
 * place on the durable files of one machine.  Every execution is a path of the step machine of
 * module Coordinator, so what is proved of all its runs holds of this code.
 */
module RunPlan {
  import Calendar
  import opened Coordinator
  import opened CoordinatorLaws
  import opened CoordinatorRuns
  import opened Folds
  import opened Options
  import Retention

  /** Where a run stands, what it has logged, and the files it sees. */
  datatype Point = Point(run: Run, log: seq<What>, disk: Disk)

  predicate IsMoving(run: Run) { !run.stage.Begin? && !run.stage.Closing? }

  function Next(p: Point, ch: Choice): Point {
    if !IsMoving(p.run) then p
    else
      var out := Advance(p.run, p.disk, ch);
      Point(out.run, p.log + out.log, out.disk)
  }

  /** The point reached when the environment makes these choices one after the other. */
  function Path(from: Point, choices: seq<Choice>): Point { RunAll(Next, from, choices) }

  predicate Goes(p: Point) { IsMoving(p.run) }

  /** Every step of a path is taken while the run is still going. */
  ghost predicate Steady(from: Point, choices: seq<Choice>) { GoesOn(Next, from, choices, Goes) }

  /** The local owner check as `PrepareLocal` states it. */
  predicate LocalOwnerAccepted(dirs: map<Dir, Content>, dir: Dir, conn: ConnectionId, readable: bool) {
    readable && (MarkerAt(dirs, dir) == Names(conn) || (MarkerAt(dirs, dir).NoMarker? && !HasOther(dirs, dir)))
  }

  /** Where an answered command leads. */
  function StageAfter(run: Run, command: Command, ok: bool): Stage
    requires CommandAt(run) == Some(command)
  {
    if ok || command.PreviewSnapshot? || command.Purge? then NextStage(run)
    else if run.stage.Admitted? then Closing(false)
    else Ending(false)
  }

  lemma PurgeStage(run: Run, day: string, dir: Dir)
    requires run.stage == Cleaning(day, Some(dir)) && dir.side.Remote?
    ensures CommandAt(run) == Some(Purge(dir)) && forall ok :: StageAfter(run, Purge(dir), ok) == Cleaning(day, None)
  {
  }

  lemma ConvergedStage(run: Run, day: string)
    requires run.stage == Converged(day)
    ensures CommandAt(run) == Some(Check)
    ensures forall ok :: StageAfter(run, Check, ok) == if ok then Verified(day) else Ending(false)
  {
  }

  lemma SendStep(run: Run, command: Command, disk: Disk, ch: Choice)
    requires IsMoving(run) && !run.awaiting && CommandAt(run) == Some(command)
    ensures Advance(run, disk, ch) == Outcome(run.(awaiting := true), [Sent(command)], disk)
  {
  }

  /** The answer to a command that was sent at this stage. */
  lemma ReplyStep(run: Run, command: Command, disk: Disk, ch: Choice)
    requires IsMoving(run) && !run.awaiting && CommandAt(run) == Some(command)
    ensures Advance(run.(awaiting := true), disk, ch).disk == Effect(run.job, command, disk, ch)
    ensures Advance(run.(awaiting := true), disk, ch).run == run.(stage := StageAfter(run, command, ch.ok))
  {
    assert CommandAt(run.(awaiting := true)) == CommandAt(run);
  }

  lemma CleaningAdvances(run: Run, day: string, disk: Disk, ch: Choice)
    requires run.stage == Cleaning(day, None)
    ensures Advance(run, disk, ch) == CleanStep(run, day, disk, ch)
  {
  }

  lemma CleanStepIs(run: Run, day: string, dir: Dir, disk: Disk, ch: Choice)
    requires run.stage == Cleaning(day, None) && !ch.stop && ch.dir == dir
    requires dir.root == if dir.side.Local? then run.job.plan.localRecovery else run.job.plan.remoteRecovery
    ensures var out := Advance(run, disk, ch);
            var target := if IsTarget(run.job, disk.dirs, dir, ch.ok) then Some(dir) else None;
            out.run == run.(stage := Cleaning(day, target), awaiting := false) && out.disk == disk
  {
    CleaningAdvances(run, day, disk, ch);
  }

  lemma StopStepIs(run: Run, day: string, disk: Disk, ch: Choice)
    requires run.stage == Cleaning(day, None) && ch.stop
    ensures Advance(run, disk, ch) == Outcome(run.(stage := Cleaned(day), awaiting := false), [], disk)
  {
    CleaningAdvances(run, day, disk, ch);
  }

  lemma RemovalStepIs(run: Run, day: string, dir: Dir, disk: Disk, ch: Choice)
    requires run.stage == Cleaning(day, Some(dir)) && dir.side.Local?
    ensures var out := Advance(run, disk, ch);
            && out.run == run.(stage := Cleaning(day, None), awaiting := false)
            && out.disk == disk.(dirs := Left(disk.dirs, dir, Remains(disk.dirs, dir, ch)))
  {
  }

  lemma MarkStepIs(run: Run, day: string, disk: Disk, ch: Choice)
    requires run.stage == Cleaned(day) && run.job.mode.InitialSync?
    ensures var out := Advance(run, disk, ch);
            && out.run == run.(stage := if ch.ok then Marked(day) else Ending(false), awaiting := false)
            && out.disk == if ch.ok then disk.(synced := disk.synced + {run.job.Work()}) else disk
  {
  }

  lemma ExchangeStage(run: Run, day: string, ok: bool)
    requires run.stage == Recovered(day)
    ensures var command := Bisync(run.job.mode.IsInitial(), run.job.mode.IsPreview(), day);
            CommandAt(run) == Some(command) && StageAfter(run, command, ok) == if ok then Synced(day) else Ending(false)
  {
  }

  lemma SecondPassStage(run: Run, day: string, ok: bool)
    requires run.stage == Synced(day) && run.job.plan.verifyAfterSync
    ensures var mode := if run.job.mode.InitialSync? then Sync else run.job.mode;
            var command := Bisync(mode.IsInitial(), mode.IsPreview(), day);
            CommandAt(run) == Some(command) && StageAfter(run, command, ok) == if ok then Converged(day) else Ending(false)
  {
  }

  lemma ContentsStage(run: Run, day: string, ok: bool)
    requires run.stage == RemoteAnchored(day)
    ensures CommandAt(run) == Some(Check)
    ensures StageAfter(run, Check, ok) == if ok then Cleaning(day, None) else Ending(false)
  {
  }

  lemma UncheckedPasses(run: Run, day: string, disk: Disk, ch: Choice)
    requires run.stage == Verified(day) && !(run.job.plan.oneDrive && (run.job.mode.InitialSync? || run.job.mode.Sync?))
    ensures Advance(run, disk, ch) == Outcome(run.(stage := Cleaning(day, None), awaiting := false), [], disk)
  {
  }

  lemma EndStepIs(run: Run, result: bool, disk: Disk, ch: Choice)
    requires run.stage == Ending(result)
    ensures var final := if result then Succeeded else if ch.cancelled then OperationState.Cancelled else Failed;
            var out := Advance(run, disk, ch);
            && out.run == run.(stage := Closing(result && ch.ok), awaiting := false)
            && out.disk == if ch.ok then disk.(state := disk.state[run.job.conn := final]) else disk
  {
  }

  lemma UnmarkStepIs(run: Run, day: string, disk: Disk, ch: Choice)
    requires run.stage == Marked(day)
    ensures var out := Advance(run, disk, ch);
            && out.run == run.(stage := Ending(ch.ok), awaiting := false)
            && out.disk == if ch.ok then disk.(previewed := disk.previewed - {run.job.Work()}) else disk
  {
  }

  /** The commands that may change a recovery directory. */
  predicate ChangesDirs(command: Command) { command.Purge? || (command.Bisync? && !command.dryRun) }

  /** How many of `count` entries are looked at when the token is read once before each, from its
      `first`-th read on: all, or those before the first read that finds it cancelled. */
  function Reached(token: nat -> bool, first: nat, count: nat): (reached: nat)
    ensures reached <= count
    decreases count
  {
    if count == 0 || token(first) then 0 else 1 + Reached(token, first + 1, count - 1)
  }

  lemma ReachedGoesOn(token: nat -> bool, first: nat, count: nat, i: nat)
    requires i < count && Reached(token, first, count) == i + Reached(token, first + i, count - i) && !token(first + i)
    ensures Reached(token, first, count) == i + 1 + Reached(token, first + (i + 1), count - (i + 1))
  {
    assert first + i + 1 == first + (i + 1);
  }

  /** How many local and remote entries a sweep looks at.  The token is read at the start, before each local
      entry, before the remote listing, and before each remote entry; the first read that finds it cancelled
      ends the sweep. */
  function LocalsSwept(locals: nat, token: nat -> bool): nat {
    if token(0) then 0 else Reached(token, 1, locals)
  }

  function RemotesSwept(locals: nat, remotes: nat, token: nat -> bool): nat {
    if token(0) || LocalsSwept(locals, token) < locals || token(1 + locals) then 0 else Reached(token, 2 + locals, remotes)
  }

  /** The answer that a step used: the environment's, with the directory that the code looks at. */
  predicate Uses(answer: Choice, ch: Choice) { ch == answer.(dir := ch.dir, stop := ch.stop) }

  /** Each step used the answer it got. */
  ghost predicate AllUsed(answers: nat -> Choice, choices: seq<Choice>) {
    choices == []
    || (Uses(answers(|choices| - 1), choices[|choices| - 1]) && AllUsed(answers, choices[..|choices| - 1]))
  }

  lemma PathGrows(origin: Point, choices: seq<Choice>, answers: nat -> Choice, p: Point, ch: Choice)
    requires Path(origin, choices) == p && Steady(origin, choices) && AllUsed(answers, choices)
    requires IsMoving(p.run) && Uses(answers(|choices|), ch)
    ensures var all := choices + [ch];
            Path(origin, all) == Next(p, ch) && Steady(origin, all) && AllUsed(answers, all)
  {
    assert (choices + [ch])[..|choices|] == choices;
  }

  /** Where the verifier may look into a path. */
  predicate Shown(key: int) { true }

  /** One run on the files of one machine.  `answers` is what the environment says to its steps in order;
      the sweep is given the two listings and what its reads of the token find. */
  class Host {
    const job: Job
    const answers: nat -> Choice
    const locals: seq<string>
    const remotes: seq<string>
    const token: nat -> bool
    var disk: Disk
    var step: nat
    ghost const origin: Point
    ghost var run: Run
    ghost var log: seq<What>
    ghost var choices: seq<Choice>
    var localsSeen: nat
    var remotesSeen: nat

    constructor (job: Job, disk: Disk, answers: nat -> Choice, locals: seq<string>, remotes: seq<string>, token: nat -> bool)
      ensures this.job == job && this.disk == disk && At(Locked) && choices == [] && log == [] && HasSwept(0, 0)
      ensures this.answers == answers && this.locals == locals && this.remotes == remotes && this.token == token
      ensures origin == Point(Run(job, Locked, false), [], disk)
    {
      this.job, this.disk, this.answers, this.step := job, disk, answers, 0;
      this.locals, this.remotes, this.token := locals, remotes, token;
      localsSeen, remotesSeen := 0, 0;
      run, log, choices := Run(job, Locked, false), [], [];
      origin := Point(Run(job, Locked, false), [], disk);
    }

    /** The path so far leads to this point, one answer at a time. */
    ghost predicate Leads(disk: Disk)
      reads this`run, this`log, this`choices, this`step
    {
      && Path(origin, choices) == Point(run, log, disk) && Steady(origin, choices)
      && step == |choices| && AllUsed(answers, choices)
    }

    /** The same, held back from the verifier until `Shown` is written, as most methods do not look into it. */
    ghost predicate Follows(disk: Disk)
      reads this`run, this`log, this`choices, this`step
    {
      forall key: int {:trigger Shown(key)} :: Shown(key) ==> Leads(disk)
    }

    /** The code has followed the step machine up to here. */
    ghost predicate Tracks()
      reads this
    {
      Follows(disk) && run.job == job
    }

    ghost predicate At(stage: Stage)
      reads this
    {
      Tracks() && run.stage == stage && !run.awaiting
    }

    /** The answer to the step that comes next. */
    function Now(): Choice
      reads this`step
    {
      answers(step)
    }

    /** Marker files and states are as they were. */
    twostate predicate KeepsMarkers()
      reads this
    {
      disk == old(disk).(dirs := disk.dirs)
    }

    /** One step of the machine, taken after the code has changed the files. */
    method Take(ghost ch: Choice, ghost before: Disk)
      requires Follows(before) && Uses(answers(step), ch)
      requires run.job == job && IsMoving(run)
      requires Advance(run, before, ch).disk == disk && Advance(run, before, ch).run.job == job
      modifies `run, `log, `choices, `step
      ensures Tracks() && step == old(step) + 1
      ensures run == Advance(old(run), before, ch).run
    {
      assert Shown(0);
      ghost var out := Advance(run, before, ch);
      PathGrows(origin, choices, answers, Point(run, log, before), ch);
      choices := choices + [ch];
      run, log := out.run, log + out.log;
      step := step + 1;
    }

    /** The next answer is used as it is. */
    method Move(ghost before: Disk)
      requires Follows(before)
      requires run.job == job && IsMoving(run)
      requires Advance(run, before, Now()).disk == disk && Advance(run, before, Now()).run.job == job
      modifies `run, `log, `choices, `step
      ensures Tracks() && step == old(step) + 1
      ensures run == Advance(old(run), before, old(Now())).run
    {
      Take(Now(), before);
    }

    /** A stage that passes on without an effect. */
    method Pass(ghost to: Stage)
      requires Tracks() && IsMoving(run)
      requires Advance(run, disk, Now()) == Outcome(run.(stage := to, awaiting := false), [], disk)
      modifies `run, `log, `choices, `step
      ensures At(to)
    {
      Move(disk);
    }

    method Send(ghost command: Command)
      requires Tracks() && !run.awaiting && IsMoving(run) && CommandAt(run) == Some(command)
      modifies `run, `log, `choices, `step
      ensures Tracks() && run == old(run).(awaiting := true) && step == old(step) + 1
    {
      SendStep(run, command, disk, Now());
      Move(disk);
    }

    /** The answer to the command under way; it may have done to the recovery directories what it can. */
    method Receive(command: Command, ghost asked: Run) returns (ok: bool)
      requires Tracks() && run == asked.(awaiting := true) && !asked.awaiting
      requires IsMoving(asked) && CommandAt(asked) == Some(command)
      modifies `disk, `run, `log, `choices, `step
      ensures Tracks() && KeepsMarkers() && (!ChangesDirs(command) ==> disk == old(disk))
      ensures run == asked.(stage := StageAfter(asked, command, ok)) && step == old(step) + 1
    {
      ghost var before := disk;
      var ch := Now();
      ReplyStep(asked, command, disk, ch);
      disk := Effect(job, command, disk, ch);
      ok := ch.ok;
      Move(before);
    }

    /** A command is sent and answered. */
    method Ask(command: Command) returns (ok: bool)
      requires Tracks() && !run.awaiting && IsMoving(run) && CommandAt(run) == Some(command)
      modifies `disk, `run, `log, `choices, `step
      ensures Tracks() && run == old(run).(stage := StageAfter(old(run), command, ok)) && step == old(step) + 2
      ensures KeepsMarkers() && (!ChangesDirs(command) ==> disk == old(disk))
    {
      ghost var asked := run;
      Send(command);
      ok := Receive(command, asked);
    }

    // ------------------------------------------------------------------------------- run_plan

    /** `validate_mode_markers`. */
    method ValidateModeMarkers() returns (ok: bool)
      requires At(Locked)
      modifies `run, `log, `choices, `step
      ensures ok ==> At(Admitted)
      ensures !ok ==> At(Closing(false))
      ensures ok <==> (job.Work() in disk.synced <==> job.mode.Preview? || job.mode.Sync? || job.mode.Scheduled?)
                      && (job.mode.InitialSync? ==> job.Work() in disk.previewed)
    {
      var initialized := job.Work() in disk.synced;
      ok := true;
      match job.mode {
        case InitialPreview => if initialized { ok := false; }
        case Preview => if !initialized { ok := false; }
        case InitialSync =>
          if initialized {
            ok := false;
          } else if job.Work() !in disk.previewed {
            ok := false;
          }
        case Sync => if !initialized { ok := false; }
        case Scheduled => if !initialized { ok := false; }
      }
      Move(disk);
    }

    /** The provider's binding is verified for the providers that have one. */
    method VerifyIdentity() returns (ok: bool)
      requires At(Admitted)
      modifies `disk, `run, `log, `choices, `step
      ensures ok ==> At(Bound)
      ensures !ok ==> At(Closing(false))
      ensures disk == old(disk)
    {
      ok := true;
      if job.Guarded() {
        ok := Ask(VerifyBinding);
      } else {
        Pass(Bound);
      }
    }

    /** Local paths are resolved. */
    method ResolvePaths() returns (ok: bool)
      requires At(Bound)
      modifies `run, `log, `choices, `step
      ensures ok ==> At(InputsReady)
      ensures !ok ==> At(Closing(false))
    {
      ok := Now().ok;
      Move(disk);
    }

    /** Inputs are prepared and the saved state is read: a running operation stops this one. */
    method PrepareInputs() returns (ok: bool)
      requires At(InputsReady)
      modifies `run, `log, `choices, `step
      ensures ok ==> At(StateFree) && !IsRunning(disk, job.conn)
      ensures !ok ==> At(Closing(false))
    {
      ok := Now().ok;
      Move(disk);
      if ok && job.conn in disk.state && disk.state[job.conn] == Running {
        ok := false;
      }
    }

    /** The running state is published. */
    method WriteRunning() returns (ok: bool)
      requires At(StateFree)
      modifies `disk, `run, `log, `choices, `step
      ensures ok ==> At(Working)
      ensures !ok ==> At(Closing(false))
      ensures disk == if ok then old(disk).(state := old(disk.state)[job.conn := Running]) else old(disk)
    {
      ghost var before := disk;
      ok := Now().ok;
      if ok { disk := disk.(state := disk.state[job.conn := Running]); }
      Move(before);
    }

    /** The final state is published, whatever the transaction returned. */
    method WriteFinal(result: bool, cancelled: bool) returns (ok: bool)
      requires At(Ending(result)) && cancelled == Now().cancelled
      modifies `disk, `run, `log, `choices, `step
      ensures At(Closing(result && ok))
      ensures !ok ==> disk == old(disk)
      ensures ok && result ==> disk == old(disk).(state := old(disk.state)[job.conn := Succeeded])
      ensures ok && !result && cancelled ==> disk == old(disk).(state := old(disk.state)[job.conn := OperationState.Cancelled])
      ensures ok && !result && !cancelled ==> disk == old(disk).(state := old(disk.state)[job.conn := Failed])
    {
      ghost var before := disk;
      ok := Now().ok;
      var final := if result then Succeeded else if cancelled then OperationState.Cancelled else Failed;
      if ok { disk := disk.(state := disk.state[job.conn := final]); }
      EndStepIs(run, result, before, Now());
      Move(before);
    }

    /** Everything before the transaction: what refuses leaves the files alone. */
    method Enter() returns (ok: bool)
      requires At(Locked)
      modifies `disk, `run, `log, `choices, `step
      ensures ok ==> At(Working) && disk == old(disk).(state := old(disk.state)[job.conn := Running])
      ensures !ok ==> At(Closing(false)) && disk == old(disk)
      ensures old(IsRunning(disk, job.conn)) ==> !ok
    {
      ok := ValidateModeMarkers();
      if !ok { return; }
      ok := VerifyIdentity();
      if !ok { return; }
      ok := ResolvePaths();
      if !ok { return; }
      ok := PrepareInputs();
      if !ok { return; }
      ok := WriteRunning();
    }

    /** `run_plan` from the acquired lock to the return. */
    method RunPlan() returns (ok: bool)
      requires HasSwept(0, 0)
      requires At(Locked)
      modifies this
      ensures At(Closing(ok))
      ensures ok && !job.mode.InitialPreview? && !job.mode.Preview? ==> HasSweptAll()
      ensures ok ==> MarksByMode(true) && disk.state == old(disk.state)[job.conn := Succeeded]
      ensures old(IsRunning(disk, job.conn)) ==> !ok && disk == old(disk)
      ensures disk.state - {job.conn} == old(disk.state) - {job.conn}
    {
      ok := Enter();
      if !ok { return; }
      var result := RunTransaction();
      ok := Return(result);
    }

    /** The final state and the result of a run. */
    method Return(result: bool) returns (ok: bool)
      requires At(Ending(result))
      modifies `disk, `run, `log, `choices, `step
      ensures At(Closing(ok)) && (ok ==> result)
      ensures disk == old(disk).(state := disk.state) && disk.state - {job.conn} == old(disk.state) - {job.conn}
      ensures ok ==> disk.state == old(disk.state)[job.conn := Succeeded]
    {
      var written := WriteFinal(result, Now().cancelled);
      ok := result && written;
    }

    // ------------------------------------------------------------------------ run_transaction

    /** The day is taken from the clock and the progress log is made ready. */
    method TakeDay() returns (ok: bool, day: string)
      requires At(Working)
      modifies `run, `log, `choices, `step
      ensures ok ==> At(Dated(day))
      ensures !ok ==> At(Ending(false))
    {
      ok, day := Now().ok, Now().day;
      Move(disk);
    }

    /** `validate_remote_access_marker` before the exchange. */
    method ValidateRemoteAnchor(day: string) returns (ok: bool)
      requires At(Dated(day))
      modifies `disk, `run, `log, `choices, `step
      ensures ok ==> At(Anchored(day))
      ensures !ok ==> At(Ending(false))
      ensures disk == old(disk)
    {
      ok := true;
      if job.plan.anchored && !job.mode.IsInitial() {
        ok := Ask(CatAnchor);
      } else {
        Pass(Anchored(day));
      }
    }

    /** The bisync request is built. */
    method BuildRequest(day: string) returns (ok: bool)
      requires At(Anchored(day))
      modifies `run, `log, `choices, `step
      ensures ok ==> At(if job.mode.IsPreview() then Previewing(day) else Recovering(day))
      ensures !ok ==> At(Ending(false))
    {
      ok := Now().ok;
      Move(disk);
    }

    /** The pending count of a preview, and the marker of an initial one.  `written` says whether the
        count of a OneDrive mirror and the marker could be written. */
    method FinishPreview(day: string, cancelled: bool, written: bool) returns (ok: bool)
      requires At(Counted(day)) && cancelled == Now().cancelled && written == Now().ok
      modifies `disk, `run, `log, `choices, `step
      ensures At(Ending(ok))
      ensures ok <==> (job.plan.oneDrive ==> !cancelled) && (job.plan.oneDrive || job.mode.InitialPreview? ==> written)
      ensures disk == old(disk).(previewed := old(disk.previewed) + if ok && job.mode.InitialPreview? then {job.Work()} else {})
    {
      ghost var before := disk;
      ok := true;
      if job.plan.oneDrive && cancelled {
        ok := false;
      } else if job.plan.oneDrive && !written {
        ok := false;
      } else if job.mode.InitialPreview? {
        ok := written;
        if ok { disk := disk.(previewed := disk.previewed + {job.Work()}); }
      }
      Move(before);
    }

    /** The dry run of the exchange. */
    method Rehearse(day: string) returns (ok: bool)
      requires At(Previewing(day)) && (job.mode.InitialPreview? || job.mode.Preview?)
      modifies `disk, `run, `log, `choices, `step
      ensures At(if ok then Rehearsed(day) else Ending(false))
      ensures disk == old(disk)
    {
      ok := Ask(Bisync(job.mode.IsInitial(), job.mode.IsPreview(), day));
    }

    /** The snapshot that a pending count is taken from; its failure does not end the preview. */
    method TakeSnapshot(day: string)
      requires At(Rehearsed(day))
      modifies `disk, `run, `log, `choices, `step
      ensures At(Counted(day))
      ensures disk == old(disk)
    {
      if job.plan.oneDrive {
        var estimated := Ask(PreviewSnapshot);
      } else {
        Pass(Counted(day));
      }
    }

    method RunPreview(day: string) returns (ok: bool)
      requires At(Previewing(day)) && (job.mode.InitialPreview? || job.mode.Preview?)
      modifies `disk, `run, `log, `choices, `step
      ensures At(Ending(ok))
      ensures disk == old(disk).(previewed := old(disk.previewed) + if ok && job.mode.InitialPreview? then {job.Work()} else {})
    {
      ok := Rehearse(day);
      if !ok { return; }
      TakeSnapshot(day);
      ok := FinishPreview(day, Now().cancelled, Now().ok);
    }

    /** The exchange itself. */
    method Synchronize(day: string) returns (ok: bool)
      requires At(Recovered(day))
      modifies `disk, `run, `log, `choices, `step
      ensures At(if ok then Synced(day) else Ending(false))
      ensures KeepsMarkers()
    {
      ghost var asked := run;
      ExchangeStage(run, day, true);
      ok := Ask(Bisync(job.mode.IsInitial(), job.mode.IsPreview(), day));
      ExchangeStage(asked, day, ok);
    }

    /** The second pass; after an initial synchronization it is an ordinary one. */
    method RunConvergence(day: string) returns (ok: bool)
      requires At(Synced(day)) && job.plan.verifyAfterSync
      modifies `disk, `run, `log, `choices, `step
      ensures At(if ok then Converged(day) else Ending(false))
      ensures KeepsMarkers()
    {
      var mode := if job.mode.InitialSync? then Sync else job.mode;
      ghost var asked := run;
      SecondPassStage(asked, day, true);
      ok := Ask(Bisync(mode.IsInitial(), mode.IsPreview(), day));
      SecondPassStage(asked, day, ok);
    }

    method CheckConverged(day: string) returns (ok: bool)
      requires At(Converged(day))
      modifies `disk, `run, `log, `choices, `step
      ensures At(if ok then Verified(day) else Ending(false))
      ensures KeepsMarkers()
    {
      ConvergedStage(run, day);
      ok := Ask(Check);
    }

    /** Convergence pass and check, when the plan asks for them. */
    method Converge(day: string) returns (ok: bool)
      requires At(Synced(day))
      modifies `disk, `run, `log, `choices, `step
      ensures At(if ok then Verified(day) else Ending(false))
      ensures KeepsMarkers()
    {
      ok := true;
      if job.plan.verifyAfterSync {
        ok := RunConvergence(day);
        if !ok { return; }
        ok := CheckConverged(day);
      } else {
        Pass(Verified(day));
      }
    }

    /** The local access marker is still there and still names this connection. */
    method CheckLocalAnchor(day: string) returns (ok: bool)
      requires At(Verified(day)) && job.ChecksAnchors()
      modifies `run, `log, `choices, `step
      ensures At(if ok then LocalAnchored(day) else Ending(false))
    {
      ok := Now().ok;
      Move(disk);
    }

    /** The remote access marker, for plans that have one. */
    method CheckRemoteAnchor(day: string) returns (ok: bool)
      requires At(LocalAnchored(day))
      modifies `disk, `run, `log, `choices, `step
      ensures At(if ok then RemoteAnchored(day) else Ending(false))
      ensures KeepsMarkers()
    {
      ok := true;
      if job.plan.anchored {
        ok := Ask(CatAnchor);
      } else {
        Pass(RemoteAnchored(day));
      }
    }

    method CheckContents(day: string) returns (ok: bool)
      requires At(RemoteAnchored(day))
      modifies `disk, `run, `log, `choices, `step
      ensures At(if ok then Cleaning(day, None) else Ending(false))
      ensures KeepsMarkers()
    {
      ghost var asked := run;
      ContentsStage(asked, day, true);
      ok := Ask(Check);
      ContentsStage(asked, day, ok);
    }

    /** The anchor and checksum checks of a OneDrive mirror. */
    method CheckAnchors(day: string) returns (ok: bool)
      requires At(Verified(day))
      modifies `disk, `run, `log, `choices, `step
      ensures At(if ok then Cleaning(day, None) else Ending(false))
      ensures KeepsMarkers()
    {
      ok := true;
      if job.plan.oneDrive && (job.mode.InitialSync? || job.mode.Sync?) {
        ok := CheckLocalAnchor(day);
        if !ok { return; }
        ok := CheckRemoteAnchor(day);
        if !ok { return; }
        ok := CheckContents(day);
      } else {
        UncheckedPasses(run, day, disk, Now());
        Pass(Cleaning(day, None));
      }
    }

    /** What an initial synchronization does to the markers: success leaves the sync marker and takes the
        preview marker away; a failure never takes that one away. */
    twostate predicate MarksExactly(ok: bool)
      reads this
    {
      && (ok ==> disk.synced == old(disk.synced) + {job.Work()} && disk.previewed == old(disk.previewed) - {job.Work()})
      && (!ok ==> disk.previewed == old(disk.previewed)
                  && (disk.synced == old(disk.synced) || disk.synced == old(disk.synced) + {job.Work()}))
    }

    /** What a transaction does to the markers, by its mode. */
    twostate predicate MarksByMode(ok: bool)
      reads this
    {
      if job.mode.InitialSync? then MarksExactly(ok)
      else disk.synced == old(disk.synced)
           && disk.previewed == old(disk.previewed) + if ok && job.mode.InitialPreview? then {job.Work()} else {}
    }

    /** The marker that makes a mirror initialized. */
    method WriteSyncMarker(day: string) returns (ok: bool)
      requires At(Cleaned(day)) && job.mode.InitialSync?
      modifies `disk, `run, `log, `choices, `step
      ensures At(if ok then Marked(day) else Ending(false))
      ensures disk == if ok then old(disk).(synced := old(disk.synced) + {job.Work()}) else old(disk)
    {
      ghost var before := disk;
      ok := Now().ok;
      if ok { disk := disk.(synced := disk.synced + {job.Work()}); }
      MarkStepIs(run, day, before, Now());
      Move(before);
    }

    method RemovePreviewMarker(day: string) returns (ok: bool)
      requires At(Marked(day))
      modifies `disk, `run, `log, `choices, `step
      ensures At(Ending(ok))
      ensures disk == if ok then old(disk).(previewed := old(disk.previewed) - {job.Work()}) else old(disk)
    {
      ghost var before := disk;
      ok := Now().ok;
      if ok { disk := disk.(previewed := disk.previewed - {job.Work()}); }
      UnmarkStepIs(run, day, before, Now());
      Move(before);
    }

    /** The marker of a finished initial synchronization is written, then its preview marker goes. */
    method WriteMarkers(day: string) returns (ok: bool)
      requires At(Cleaned(day)) && job.mode.InitialSync?
      modifies `disk, `run, `log, `choices, `step
      ensures At(Ending(ok)) && MarksExactly(ok) && disk.state == old(disk.state)
    {
      ok := WriteSyncMarker(day);
      if ok { ok := RemovePreviewMarker(day); }
    }

    /** Retention, whose outcome changes nothing, and the markers of an initial synchronization. */
    method FinishTransaction(day: string) returns (ok: bool)
      requires HasSwept(0, 0)
      requires At(Cleaning(day, None)) && !job.mode.InitialPreview?
      modifies this
      ensures At(Ending(ok)) && MarksByMode(ok) && disk.state == old(disk.state)
      ensures HasSweptAll()
    {
      CleanupRetention(day);
      if job.mode.InitialSync? {
        ok := WriteMarkers(day);
      } else {
        ok := true;
        Move(disk);
      }
    }

    /** Everything after a prepared recovery: the exchange, its checks, retention and markers. */
    method RunExchange(day: string) returns (ok: bool)
      requires HasSwept(0, 0)
      requires At(Recovered(day)) && !job.mode.InitialPreview?
      modifies this
      ensures At(Ending(ok)) && MarksByMode(ok) && disk.state == old(disk.state)
      ensures ok ==> HasSweptAll()
    {
      ok := Synchronize(day);
      if !ok { return; }
      ok := Converge(day);
      if !ok { return; }
      ok := CheckAnchors(day);
      if !ok { return; }
      ok := FinishTransaction(day);
    }

    /** The day, the remote anchor and the request. */
    method Open() returns (ok: bool, day: string)
      requires At(Working)
      modifies `disk, `run, `log, `choices, `step
      ensures ok ==> At(if job.mode.IsPreview() then Previewing(day) else Recovering(day))
      ensures !ok ==> At(Ending(false))
      ensures disk == old(disk)
    {
      ok, day := TakeDay();
      if !ok { return; }
      ok := ValidateRemoteAnchor(day);
      if !ok { return; }
      ok := BuildRequest(day);
    }

    /** `run_transaction`. */
    method RunTransaction() returns (ok: bool)
      requires HasSwept(0, 0)
      requires At(Working)
      modifies this
      ensures At(Ending(ok)) && MarksByMode(ok) && disk.state == old(disk.state)
      ensures ok && !job.mode.InitialPreview? && !job.mode.Preview? ==> HasSweptAll()
      ensures job.mode.InitialPreview? || job.mode.Preview? ==> disk.dirs == old(disk.dirs)
    {
      var day;
      ok, day := Open();
      if !ok { return; }
      if job.mode.IsPreview() {
        ok := RunPreview(day);
      } else {
        ok := RunSynchronization(day);
      }
    }

    method RunSynchronization(day: string) returns (ok: bool)
      requires HasSwept(0, 0)
      requires At(Recovering(day)) && !job.mode.InitialPreview?
      modifies this
      ensures At(Ending(ok)) && MarksByMode(ok) && disk.state == old(disk.state)
      ensures ok ==> HasSweptAll()
    {
      ok := PrepareRecovery(day);
      if !ok { return; }
      ok := RunExchange(day);
    }

    // ----------------------------------------------------------------------- prepare_recovery

    /** `validate_local_owner`. */
    method ValidateLocalOwner(dir: Dir, readable: bool) returns (ok: bool)
      ensures ok <==> LocalOwnerAccepted(disk.dirs, dir, job.conn, readable)
    {
      var marker := MarkerAt(disk.dirs, dir);
      if !marker.NoMarker? {
        if !readable { return false; }
        if marker != Names(job.conn) { return false; }
      } else {
        if !readable { return false; }
        if HasOther(disk.dirs, dir) { return false; }
      }
      return true;
    }

    /** The local directory: created, its owner checked, the marker written. `p` holds what the calls answer. */
    method PrepareLocalDirectory(day: string, p: Preparation) returns (ok: bool, ghost sent: seq<What>)
      modifies `disk
      ensures Prepared(ok, disk.dirs, sent) == PrepareLocal(job, day, old(disk.dirs), p)
      ensures disk == old(disk).(dirs := disk.dirs)
    {
      sent := [];
      var dir := job.LocalDir(day);
      if !p.localCreated { return false, sent; }
      disk := disk.(dirs := Made(disk.dirs, dir));
      ok := ValidateLocalOwner(dir, p.localRead);
      if !ok { return; }
      if !p.localWritten {
        if p.localDebris { disk := disk.(dirs := WithOther(disk.dirs, dir)); }
        return false, sent;
      }
      disk := disk.(dirs := WithMarker(disk.dirs, dir, Names(job.conn)));
      sent := [WroteLocalOwner(dir)];
    }

    /** The owner text that the remote marker read gives; a nonzero exit counts as no owner. */
    method ReadRemoteOwner(dir: Dir, reading: Reading) returns (stop: bool, owner: Marker)
      ensures RemoteOwner(disk.dirs, dir, reading) == if stop then None else Some(owner)
    {
      stop, owner := false, Blank;
      match reading {
        case Complete =>
          if !MarkerAt(disk.dirs, dir).NoMarker? { owner := MarkerAt(disk.dirs, dir); }
        case NonZero =>
        case Incomplete => stop := true;
        case OtherFailure => stop := true;
      }
    }

    /** The remote directory: made, its owner read, listed when nobody is named, the marker published. */
    method PrepareRemoteDirectory(day: string, p: Preparation) returns (ok: bool, ghost sent: seq<What>)
      modifies `disk
      ensures Prepared(ok, disk.dirs, sent) == PrepareRemote(job, day, old(disk.dirs), p)
      ensures disk == old(disk).(dirs := disk.dirs)
    {
      var dir := job.RemoteDir(day);
      sent := [Sent(Mkdir(dir))];
      if !p.mkdir {
        if p.mkdirMade { disk := disk.(dirs := Made(disk.dirs, dir)); }
        return false, sent;
      }
      disk := disk.(dirs := Made(disk.dirs, dir));
      sent := [Sent(Mkdir(dir)), Sent(CatOwner(dir))];
      var stop, owner := ReadRemoteOwner(dir, p.cat);
      if stop { return false, sent; }
      if owner != Blank && owner != Names(job.conn) { return false, sent; }
      if owner == Blank {
        sent := sent + [Sent(ListDir(dir))];
        if !p.list.Complete? { return false, sent; }
        if !MarkerAt(disk.dirs, dir).NoMarker? || HasOther(disk.dirs, dir) { return false, sent; }
      }
      if !p.staged { return false, sent; }
      sent := sent + [Sent(CopyOwner(dir))];
      if p.copied {
        disk := disk.(dirs := WithMarker(disk.dirs, dir, Names(job.conn)));
        return true, sent;
      }
      if p.copyLeft.Some? {
        disk := disk.(dirs := WithMarker(disk.dirs, dir, FailedUpload(p.copyLeft.value, job)));
      }
      return false, sent;
    }

    /** `prepare_recovery`. */
    method PrepareRecovery(day: string) returns (ok: bool)
      requires At(Recovering(day))
      modifies `disk, `run, `log, `choices, `step
      ensures ok ==> At(Recovered(day))
      ensures !ok ==> At(Ending(false))
      ensures KeepsMarkers()
    {
      var p := Now().prep;
      ghost var before := disk;
      ghost var prepared := Prepare(job, day, disk.dirs, p);
      ok := PrepareDirectories(day, p, prepared);
      Move(before);
    }

    method PrepareDirectories(day: string, p: Preparation, ghost prepared: Prepared) returns (ok: bool)
      requires prepared == Prepare(job, day, disk.dirs, p)
      modifies `disk
      ensures ok == prepared.ok && disk == old(disk).(dirs := prepared.dirs)
    {
      ghost var sent;
      ok, sent := PrepareLocalDirectory(day, p);
      if !ok { return; }
      ok, sent := PrepareRemoteDirectory(day, p);
    }

    // ---------------------------------------------------------------------- cleanup_retention

    /** An entry is looked at, and becomes a target or not. */
    method Look(ghost day: string, ghost dir: Dir, ghost readable: bool)
      requires At(Cleaning(day, None)) && readable == Now().ok
      requires dir.root == if dir.side.Local? then job.plan.localRecovery else job.plan.remoteRecovery
      modifies `run, `log, `choices, `step
      ensures At(Cleaning(day, if IsTarget(job, disk.dirs, dir, readable) then Some(dir) else None))
      ensures step == old(step) + 1
    {
      ghost var ch := Now().(stop := false, dir := dir);
      CleanStepIs(run, day, dir, disk, ch);
      Take(ch, disk);
    }

    /** A chosen local directory is removed, perhaps in part. */
    method RemoveLocal(day: string, dir: Dir)
      requires At(Cleaning(day, Some(dir))) && dir.side.Local?
      modifies `disk, `run, `log, `choices, `step
      ensures At(Cleaning(day, None)) && step > old(step)
      ensures KeepsMarkers()
    {
      ghost var before := disk;
      RemovalStepIs(run, day, dir, disk, Now());
      disk := disk.(dirs := Left(disk.dirs, dir, Remains(disk.dirs, dir, Now())));
      Move(before);
    }

    /** One local entry: skipped unless outdated, removed when its marker can be read and is this connection's. */
    method CleanLocalEntry(day: string, i: nat, cutoff: Retention.Name) returns (removed: bool, readable: bool)
      requires At(Cleaning(day, None)) && Calendar.Cutoff(job.clock) == Some(cutoff) && i == localsSeen < |locals|
      modifies `disk, `run, `log, `choices, `step, `localsSeen
      ensures At(Cleaning(day, None))
      ensures localsSeen == i + 1
      ensures readable == old(Now().ok)
      ensures removed == old(IsTarget(job, disk.dirs, Dir(Local, job.plan.localRecovery, locals[i]), readable))
      ensures !removed ==> disk == old(disk)
      ensures KeepsMarkers()
      ensures job.Outdates(locals[i]) <==> step > old(step)
    {
      var name := locals[i];
      var dir := Dir(Local, job.plan.localRecovery, name);
      removed, readable := false, Now().ok;
      localsSeen := localsSeen + 1;
      if !Calendar.StrictDay(NameBytes(name)) || !Calendar.Less(NameBytes(name), cutoff) { return; }
      removed := readable && MarkerAt(disk.dirs, dir) == Names(job.conn);
      Look(day, dir, readable);
      if removed { RemoveLocal(day, dir); }
    }

    /** A chosen remote directory is purged, perhaps in part. */
    method PurgeRemote(day: string, dir: Dir)
      requires At(Cleaning(day, Some(dir))) && dir.side.Remote?
      modifies `disk, `run, `log, `choices, `step
      ensures At(Cleaning(day, None)) && step > old(step)
      ensures KeepsMarkers()
    {
      PurgeStage(run, day, dir);
      var done := Ask(Purge(dir));
    }

    /** One remote entry: skipped unless outdated; else its marker is read, and it is purged when it is this connection's. */
    method CleanRemoteEntry(day: string, i: nat, cutoff: Retention.Name) returns (purged: bool, readable: bool)
      requires At(Cleaning(day, None)) && Calendar.Cutoff(job.clock) == Some(cutoff) && i == remotesSeen < |remotes|
      modifies `disk, `run, `log, `choices, `step, `remotesSeen
      ensures At(Cleaning(day, None))
      ensures remotesSeen == i + 1
      ensures readable == old(Now().ok)
      ensures purged == old(IsTarget(job, disk.dirs, Dir(Remote, job.plan.remoteRecovery, remotes[i]), readable))
      ensures !purged ==> disk == old(disk)
      ensures KeepsMarkers()
      ensures job.Outdates(remotes[i]) <==> step > old(step)
    {
      var name := remotes[i];
      var dir := Dir(Remote, job.plan.remoteRecovery, name);
      purged, readable := false, Now().ok;
      remotesSeen := remotesSeen + 1;
      if !Calendar.StrictDay(NameBytes(name)) || !Calendar.Less(NameBytes(name), cutoff) { return; }
      purged := readable && MarkerAt(disk.dirs, dir) == Names(job.conn);
      Look(day, dir, readable);
      if purged { PurgeRemote(day, dir); }
    }

    /** The cutoff of this run's clock, held back like a path. */
    ghost predicate CutoffIs(cutoff: Retention.Name) {
      forall key: int {:trigger Shown(key)} :: Shown(key) ==> Calendar.Cutoff(job.clock) == Some(cutoff)
    }

    method CleanNextLocal(day: string, cutoff: Retention.Name)
      requires At(Cleaning(day, None)) && CutoffIs(cutoff) && localsSeen < |locals|
      modifies `disk, `run, `log, `choices, `step, `localsSeen
      ensures At(Cleaning(day, None)) && KeepsMarkers() && localsSeen == old(localsSeen) + 1
    {
      assert Shown(0);
      var removed, readable := CleanLocalEntry(day, localsSeen, cutoff);
    }

    method CleanNextRemote(day: string, cutoff: Retention.Name)
      requires At(Cleaning(day, None)) && CutoffIs(cutoff) && remotesSeen < |remotes|
      modifies `disk, `run, `log, `choices, `step, `remotesSeen
      ensures At(Cleaning(day, None)) && KeepsMarkers() && remotesSeen == old(remotesSeen) + 1
    {
      assert Shown(0);
      var purged, readable := CleanRemoteEntry(day, remotesSeen, cutoff);
    }

    /** The local half: every entry until cancellation is seen. */
    method CleanLocalEntries(day: string, cutoff: Retention.Name) returns (cancelled: bool)
      requires At(Cleaning(day, None)) && CutoffIs(cutoff) && localsSeen == 0
      modifies `disk, `run, `log, `choices, `step, `localsSeen
      ensures At(Cleaning(day, None))
      ensures KeepsMarkers()
      ensures localsSeen == Reached(token, 1, |locals|) && (cancelled <==> localsSeen < |locals|)
    {
      var i := 0;
      while i < |locals| && !token(1 + i)
        invariant i <= |locals| && At(Cleaning(day, None)) && KeepsMarkers()
        invariant i == localsSeen && Reached(token, 1, |locals|) == i + Reached(token, 1 + i, |locals| - i)
        decreases |locals| - i
      {
        ReachedGoesOn(token, 1, |locals|, i);
        CleanNextLocal(day, cutoff);
        i := i + 1;
      }
      return i < |locals|;
    }

    /** The remote half, the same way. */
    method CleanRemoteEntries(day: string, cutoff: Retention.Name)
      requires At(Cleaning(day, None)) && CutoffIs(cutoff) && remotesSeen == 0
      modifies `disk, `run, `log, `choices, `step, `remotesSeen
      ensures At(Cleaning(day, None))
      ensures KeepsMarkers()
      ensures remotesSeen == Reached(token, 2 + |locals|, |remotes|)
    {
      var i, first := 0, 2 + |locals|;
      while i < |remotes| && !token(first + i)
        invariant i <= |remotes| && At(Cleaning(day, None)) && KeepsMarkers()
        invariant i == remotesSeen && Reached(token, first, |remotes|) == i + Reached(token, first + i, |remotes| - i)
        decreases |remotes| - i
      {
        ReachedGoesOn(token, first, |remotes|, i);
        CleanNextRemote(day, cutoff);
        i := i + 1;
      }
    }

    ghost predicate HasSwept(locals: nat, remotes: nat)
      reads this`localsSeen, this`remotesSeen
    {
      localsSeen == locals && remotesSeen == remotes
    }

    /** A whole sweep; a clock before the first cutoff ends it at once. */
    ghost predicate HasSweptAll()
      reads this`localsSeen, this`remotesSeen
    {
      if Calendar.Cutoff(job.clock).None? then HasSwept(0, 0)
      else HasSwept(LocalsSwept(|locals|, token), RemotesSwept(|locals|, |remotes|, token))
    }

    /** Both halves, up to cancellation. */
    method Sweep(day: string, cutoff: Option<Retention.Name>)
      requires At(Cleaning(day, None)) && HasSwept(0, 0)
      requires cutoff.Some? ==> CutoffIs(cutoff.value)
      modifies `disk, `run, `log, `choices, `step, `localsSeen, `remotesSeen
      ensures At(Cleaning(day, None)) && KeepsMarkers()
      ensures if cutoff.None? then HasSwept(0, 0)
              else HasSwept(LocalsSwept(|locals|, token), RemotesSwept(|locals|, |remotes|, token))
    {
      if !token(0) && cutoff.Some? {
        var cancelled := CleanLocalEntries(day, cutoff.value);
        if !cancelled && !token(1 + |locals|) { CleanRemoteEntries(day, cutoff.value); }
      }
    }

    /** `cleanup_retention` on the files, for any listings; its counters are those of module Retention. */
    method CleanupRetention(day: string)
      requires At(Cleaning(day, None)) && HasSwept(0, 0)
      modifies `disk, `run, `log, `choices, `step, `localsSeen, `remotesSeen
      ensures At(Cleaned(day))
      ensures KeepsMarkers()
      ensures HasSweptAll()
    {
      Sweep(day, Calendar.Cutoff(job.clock));
      StopCleaning(day);
    }

    method StopCleaning(day: string)
      requires At(Cleaning(day, None))
      modifies `run, `log, `choices, `step
      ensures At(Cleaned(day))
    {
      ghost var ch := Now().(stop := true);
      StopStepIs(run, day, disk, ch);
      Take(ch, disk);
    }
  }

  // --------------------------------------------------------------------- runs of the whole system

  function Moves(id: RunId, choices: seq<Choice>): seq<Action> {
    seq(|choices|, i requires 0 <= i < |choices| => Move(id, choices[i]))
  }

  /** A system in which run `id` stands at this point, with this much of its log written. */
  ghost predicate Stands(s: Sys, id: RunId, p: Point, before: seq<What>) {
    && id in s.runs && s.runs[id] == p.run && s.disk == p.disk
    && Of(s.trace, id) == before + p.log
  }

  lemma SteppedStands(s: Sys, id: RunId, p: Point, before: seq<What>, out: Outcome)
    requires Stands(s, id, p, before)
    ensures Stands(Stepped(s, id, out), id, Point(out.run, p.log + out.log, out.disk), before)
  {
    OfJoins(s.trace, id, p.run.job, out.log, id);
    assert before + p.log + out.log == before + (p.log + out.log);
  }

  lemma NextIsMove(s: Sys, id: RunId, p: Point, before: seq<What>, ch: Choice)
    requires Stands(s, id, p, before) && IsMoving(p.run)
    ensures Stands(Act(s, Move(id, ch)), id, Next(p, ch), before)
  {
    SteppedStands(s, id, p, before, Advance(p.run, p.disk, ch));
  }

  lemma MoveKeeps(id: RunId, before: seq<What>, ch: Choice)
    ensures KeepsStep(Act, Next, (s, p) => Stands(s, id, p, before), Goes, Move(id, ch), ch)
  {
    forall s, p | Stands(s, id, p, before) && Goes(p) ensures Stands(Act(s, Move(id, ch)), id, Next(p, ch), before) {
      NextIsMove(s, id, p, before, ch);
    }
  }

  lemma {:induction false} AfterIsRunAll(s: Sys, actions: seq<Action>)
    ensures After(s, actions) == RunAll(Act, s, actions)
  {
    if actions != [] { AfterIsRunAll(s, actions[..|actions| - 1]); }
  }

  /**
   * A path of the code is a run of the system: performed from the state in which the run holds its
   * lock, it leaves the same files and the same log, so every theorem about runs applies to it.
   */
  lemma PathIsARun(s: Sys, id: RunId, from: Point, before: seq<What>, choices: seq<Choice>)
    requires Stands(s, id, from, before) && Steady(from, choices)
    ensures Stands(After(s, Moves(id, choices)), id, Path(from, choices), before)
  {
    var related := (s: Sys, p: Point) => Stands(s, id, p, before);
    forall k | 0 <= k < |choices| ensures KeepsStep(Act, Next, related, Goes, Moves(id, choices)[k], choices[k]) {
      MoveKeeps(id, before, choices[k]);
    }
    Simulation(Act, s, Moves(id, choices), Next, from, choices, related, Goes);
    AfterIsRunAll(s, Moves(id, choices));
  }
}
