/** The bisync coordinator, one step at a time.

    A run of `run_plan` is a small program over durable files: two marker files, a state
    file, dated recovery directories on both sides, and a per-connection lock.  `Advance`
    says what one atomic step of a run does, given what the environment answered.  Every
    answer the environment can give is a `Choice`; a command may fail at any time and with
    partial effects, but a complete successful reply tells the truth about the disk.
  */
module Coordinator {
  import Calendar
  import opened Options

  type ConnectionId = nat
  type RunId = nat

  datatype Mode = InitialPreview | Preview | InitialSync | Sync | Scheduled {
    predicate IsPreview() { InitialPreview? || Preview? }
    predicate IsInitial() { InitialPreview? || InitialSync? }
  }

  /** What the plan of a connection fixes for one run.  `target` is the part of the work
      directory below the connection id, so markers belong to a connection and a target. */
  datatype Plan = Plan(teams: bool, oneDrive: bool, anchored: bool, verifyAfterSync: bool,
                       target: string, localRecovery: string, remoteRecovery: string)

  /** The constant part of a run; `clock` is the time in seconds at which its retention computes the cutoff. */
  datatype Job = Job(conn: ConnectionId, mode: Mode, plan: Plan, clock: nat) {
    function Work(): WorkDir { WorkDir(conn, plan.target) }
    function LocalDir(day: string): Dir { Dir(Local, plan.localRecovery, day) }
    function RemoteDir(day: string): Dir { Dir(Remote, plan.remoteRecovery, day) }
    /** Retention's date test: a strict date before the cutoff. */
    predicate Outdates(name: string) {
      Calendar.Cutoff(clock).Some? && Calendar.IsExpired(NameBytes(name), Calendar.Cutoff(clock).value)
    }

    predicate Guarded() { plan.teams || plan.oneDrive }
    predicate ChecksAnchors() { plan.oneDrive && (mode.InitialSync? || mode.Sync?) }
    function ConvergenceMode(): Mode { if mode.InitialSync? then Sync else mode }
  }

  /** A directory name as bytes; a character outside the single bytes is no digit and no dash. */
  function NameBytes(name: string): seq<Calendar.byte> {
    seq(|name|, i requires 0 <= i < |name| => if name[i] as int < 256 then name[i] as int else 255)
  }

  datatype WorkDir = WorkDir(conn: ConnectionId, target: string)

  datatype Side = Local | Remote
  datatype Dir = Dir(side: Side, root: string, day: string)

  /** The owner marker of a recovery directory, as its reader sees it after trimming. */
  datatype Marker = NoMarker | Blank | Names(owner: ConnectionId) | Garbled

  /** An existing recovery directory: its marker, and whether it holds anything else. */
  datatype Content = Content(marker: Marker, other: bool)

  datatype OperationState = Running | Succeeded | Failed | Cancelled

  /** Everything durable that the coordinator reads or writes. */
  datatype Disk = Disk(previewed: set<WorkDir>, synced: set<WorkDir>,
                       state: map<ConnectionId, OperationState>, dirs: map<Dir, Content>)

  datatype Command =
    | VerifyBinding
    | CatAnchor
    | Bisync(resync: bool, dryRun: bool, day: string)
    | PreviewSnapshot
    | Check
    | Mkdir(dir: Dir)
    | CatOwner(dir: Dir)
    | ListDir(dir: Dir)
    | CopyOwner(dir: Dir)
    | Purge(dir: Dir)

  /** What the trace records of a step. `Answered` is a successful, accepted reply. */
  datatype What =
    | TookLock
    | Sent(command: Command)
    | Answered(command: Command)
    | WroteLocalOwner(dir: Dir)
    | RecoveryReady(day: string)
    | LocalAnchorMatched
    | RemovedLocal(dir: Dir)
    | WrotePreviewMarker
    | WroteSyncMarker
    | WroteState(state: OperationState)
    | LostFinalState
    | TransactionEnded(ok: bool)
    | Returned(ok: bool)
    | Crashed

  datatype Stage =
    | Begin
    | Locked
    | Admitted
    | Bound
    | InputsReady
    | StateFree
    | Working
    | Dated(day: string)
    | Anchored(day: string)
    | Previewing(day: string)
    | Rehearsed(day: string)
    | Counted(day: string)
    | Recovering(day: string)
    | Recovered(day: string)
    | Synced(day: string)
    | Converged(day: string)
    | Verified(day: string)
    | LocalAnchored(day: string)
    | RemoteAnchored(day: string)
    | Cleaning(day: string, target: Option<Dir>)
    | Cleaned(day: string)
    | Marked(day: string)
    | Ending(ok: bool)
    | Closing(ok: bool)

  datatype Run = Run(job: Job, stage: Stage, awaiting: bool)

  /** How one attempt at reading the remote owner marker, or a listing, can come back. */
  datatype Reading = Complete | Incomplete | NonZero | OtherFailure

  /** The answers to one `prepare_recovery`.  The `after…` fields say what a failed or
      interrupted write leaves behind. */
  datatype Preparation = Preparation(
    localCreated: bool, localRead: bool, localWritten: bool, localDebris: bool,
    mkdir: bool, mkdirMade: bool, cat: Reading, list: Reading,
    staged: bool, copied: bool, copyLeft: Option<Marker>)

  datatype Choice = Choice(ok: bool, cancelled: bool, day: string, stop: bool, dir: Dir,
                           backedUp: bool, left: Option<Content>, prep: Preparation)

  // ---------------------------------------------------------------- recovery directories

  function MarkerAt(dirs: map<Dir, Content>, dir: Dir): Marker {
    if dir in dirs then dirs[dir].marker else NoMarker
  }

  predicate HasOther(dirs: map<Dir, Content>, dir: Dir) {
    dir in dirs && dirs[dir].other
  }

  function Made(dirs: map<Dir, Content>, dir: Dir): map<Dir, Content> {
    if dir in dirs then dirs else dirs[dir := Content(NoMarker, false)]
  }

  function WithMarker(dirs: map<Dir, Content>, dir: Dir, marker: Marker): map<Dir, Content> {
    dirs[dir := Content(marker, HasOther(dirs, dir))]
  }

  function WithOther(dirs: map<Dir, Content>, dir: Dir): map<Dir, Content> {
    dirs[dir := Content(MarkerAt(dirs, dir), true)]
  }

  function Left(dirs: map<Dir, Content>, dir: Dir, left: Option<Content>): map<Dir, Content> {
    match left
    case None => dirs - {dir}
    case Some(content) => dirs[dir := content]
  }

  /** A directory that `conn` may put its own marker on: its own, or an empty one. */
  predicate Claimable(dirs: map<Dir, Content>, dir: Dir, conn: ConnectionId) {
    MarkerAt(dirs, dir) == Names(conn) || (MarkerAt(dirs, dir).NoMarker? && !HasOther(dirs, dir))
  }

  datatype Prepared = Prepared(ok: bool, dirs: map<Dir, Content>, log: seq<What>)

  /** The local half of `prepare_recovery`: create, check the owner, publish the marker. */
  function PrepareLocal(job: Job, day: string, dirs: map<Dir, Content>, p: Preparation): Prepared {
    var dir := job.LocalDir(day);
    if !p.localCreated then Prepared(false, dirs, [])
    else
      var made := Made(dirs, dir);
      var accepted :=
        match MarkerAt(made, dir)
        case NoMarker => p.localRead && !HasOther(made, dir)
        case marker => p.localRead && marker == Names(job.conn);
      if !accepted then Prepared(false, made, [])
      else if !p.localWritten then Prepared(false, if p.localDebris then WithOther(made, dir) else made, [])
      else Prepared(true, WithMarker(made, dir, Names(job.conn)), [WroteLocalOwner(dir)])
  }

  /** The owner that the remote marker read reports, or None when preparation must stop. */
  function RemoteOwner(dirs: map<Dir, Content>, dir: Dir, cat: Reading): Option<Marker> {
    match cat
    case Complete => Some(if MarkerAt(dirs, dir).NoMarker? then Blank else MarkerAt(dirs, dir))
    case NonZero => Some(Blank)
    case Incomplete => None
    case OtherFailure => None
  }

  /** The remote half: make the directory, read its owner, list it when nobody is named,
      and publish this connection as the owner. */
  function PrepareRemote(job: Job, day: string, dirs: map<Dir, Content>, p: Preparation): Prepared {
    var dir := job.RemoteDir(day);
    if !p.mkdir then Prepared(false, if p.mkdirMade then Made(dirs, dir) else dirs, [Sent(Mkdir(dir))])
    else
      var made := Made(dirs, dir);
      var asked := [Sent(Mkdir(dir)), Sent(CatOwner(dir))];
      match RemoteOwner(made, dir, p.cat)
      case None => Prepared(false, made, asked)
      case Some(owner) =>
        if owner != Blank && owner != Names(job.conn) then Prepared(false, made, asked)
        else
          var empty := MarkerAt(made, dir).NoMarker? && !HasOther(made, dir);
          var listed := if owner == Blank then asked + [Sent(ListDir(dir))] else asked;
          if owner == Blank && (!p.list.Complete? || !empty) then Prepared(false, made, listed)
          else if !p.staged then Prepared(false, made, listed)
          else
            var sent := listed + [Sent(CopyOwner(dir))];
            if p.copied then Prepared(true, WithMarker(made, dir, Names(job.conn)), sent)
            else Prepared(false, if p.copyLeft.Some? then WithMarker(made, dir, FailedUpload(p.copyLeft.value, job)) else made, sent)
  }

  /** A failed upload can leave this connection's marker or a damaged one, never one that
      names somebody else. */
  function FailedUpload(left: Marker, job: Job): Marker {
    if left.Names? then Names(job.conn) else if left.NoMarker? then Blank else left
  }

  function Prepare(job: Job, day: string, dirs: map<Dir, Content>, p: Preparation): Prepared {
    var local := PrepareLocal(job, day, dirs, p);
    if !local.ok then local
    else
      var remote := PrepareRemote(job, day, local.dirs, p);
      Prepared(remote.ok, remote.dirs,
               local.log + remote.log + if remote.ok then [RecoveryReady(day)] else [])
  }

  // ------------------------------------------------------------------------ one step of a run

  predicate IsRunning(disk: Disk, conn: ConnectionId) {
    conn in disk.state && disk.state[conn].Running?
  }

  /** `validate_mode_markers`. */
  predicate MarkersAllow(job: Job, disk: Disk) {
    var initialized := job.Work() in disk.synced;
    match job.mode
    case InitialPreview => !initialized
    case Preview => initialized
    case InitialSync => !initialized && job.Work() in disk.previewed
    case Sync => initialized
    case Scheduled => initialized
  }

  /** The command a run sends at its present stage, if that stage sends one. */
  function CommandAt(run: Run): Option<Command> {
    var job := run.job;
    match run.stage
    case Admitted => if job.Guarded() then Some(VerifyBinding) else None
    case Dated(_) => if job.plan.anchored && !job.mode.IsInitial() then Some(CatAnchor) else None
    case Previewing(day) => Some(Bisync(job.mode.IsInitial(), job.mode.IsPreview(), day))
    case Rehearsed(_) => if job.plan.oneDrive then Some(PreviewSnapshot) else None
    case Recovered(day) => Some(Bisync(job.mode.IsInitial(), job.mode.IsPreview(), day))
    case Synced(day) =>
      var mode := job.ConvergenceMode();
      if job.plan.verifyAfterSync then Some(Bisync(mode.IsInitial(), mode.IsPreview(), day)) else None
    case Converged(_) => Some(Check)
    case LocalAnchored(_) => if job.plan.anchored then Some(CatAnchor) else None
    case RemoteAnchored(_) => Some(Check)
    case Cleaning(_, Some(dir)) => if dir.side.Remote? then Some(Purge(dir)) else None
    case _ => None
  }

  /** Where a run goes after its stage succeeded. */
  function NextStage(run: Run): Stage
    requires run.stage.Admitted? || run.stage.Dated? || run.stage.Previewing? || run.stage.Rehearsed?
          || run.stage.Recovered? || run.stage.Synced? || run.stage.Converged?
          || run.stage.LocalAnchored? || run.stage.RemoteAnchored? || run.stage.Cleaning?
  {
    match run.stage
    case Admitted => Bound
    case Dated(day) => Anchored(day)
    case Previewing(day) => Rehearsed(day)
    case Rehearsed(day) => Counted(day)
    case Recovered(day) => Synced(day)
    case Synced(day) => if run.job.plan.verifyAfterSync then Converged(day) else Verified(day)
    case Converged(day) => Verified(day)
    case LocalAnchored(day) => RemoteAnchored(day)
    case RemoteAnchored(day) => Cleaning(day, None)
    case Cleaning(day, _) => Cleaning(day, None)
  }

  datatype Outcome = Outcome(run: Run, log: seq<What>, disk: Disk)

  /** A transaction that stops goes on to write its final state. */
  function Stop(run: Run, ok: bool, log: seq<What>, disk: Disk): Outcome {
    Outcome(run.(stage := Ending(ok), awaiting := false), log + [TransactionEnded(ok)], disk)
  }

  /** A run that has not written the running state leaves without touching it. */
  function Leave(run: Run, disk: Disk): Outcome {
    Outcome(run.(stage := Closing(false), awaiting := false), [], disk)
  }

  function To(run: Run, stage: Stage, log: seq<What>, disk: Disk): Outcome {
    Outcome(run.(stage := stage, awaiting := false), log, disk)
  }

  /** What a command did to the recovery directories, whether or not it succeeded. */
  function Effect(job: Job, command: Command, disk: Disk, ch: Choice): Disk {
    match command
    case Bisync(_, dryRun, day) =>
      if dryRun || !ch.backedUp then disk
      else disk.(dirs := WithOther(WithOther(disk.dirs, job.LocalDir(day)), job.RemoteDir(day)))
    case Purge(dir) => disk.(dirs := Left(disk.dirs, dir, Remains(disk.dirs, dir, ch)))
    case _ => disk
  }

  /** A successful removal leaves nothing; a failed one may have removed any part. */
  function Remains(dirs: map<Dir, Content>, dir: Dir, ch: Choice): Option<Content> {
    if ch.ok || ch.left.None? then None
    else Some(Content(if ch.left.value.marker.NoMarker? then NoMarker else MarkerAt(dirs, dir),
                      ch.left.value.other))
  }

  function Reply(run: Run, command: Command, disk: Disk, ch: Choice): Outcome
    requires CommandAt(run) == Some(command)
  {
    var disk' := Effect(run.job, command, disk, ch);
    var answered := if ch.ok then [Answered(command)] else [];
    if ch.ok || command.PreviewSnapshot? || command.Purge? then To(run, NextStage(run), answered, disk')
    else if run.stage.Admitted? then Leave(run, disk')
    else Stop(run, false, answered, disk')
  }

  /** `run_plan` up to the running state. */
  function EnterStep(run: Run, disk: Disk, ch: Choice): Outcome
    requires Entering(run.stage)
  {
    var job := run.job;
    match run.stage
    case Locked => if MarkersAllow(job, disk) then To(run, Admitted, [], disk) else Leave(run, disk)
    case Admitted => To(run, Bound, [], disk)
    case Bound => if ch.ok then To(run, InputsReady, [], disk) else Leave(run, disk)
    case InputsReady =>
      if ch.ok && !IsRunning(disk, job.conn) then To(run, StateFree, [], disk) else Leave(run, disk)
    case StateFree =>
      if ch.ok then To(run, Working, [WroteState(Running)], disk.(state := disk.state[job.conn := Running]))
      else Leave(run, disk)
  }

  /** `run_transaction` up to recovery preparation, and the whole of a preview. */
  function OpenStep(run: Run, disk: Disk, ch: Choice): Outcome
    requires Opening(run.stage)
  {
    var job := run.job;
    match run.stage
    case Working => if ch.ok then To(run, Dated(ch.day), [], disk) else Stop(run, false, [], disk)
    case Dated(day) => To(run, Anchored(day), [], disk)
    case Anchored(day) =>
      if !ch.ok then Stop(run, false, [], disk)
      else To(run, if job.mode.IsPreview() then Previewing(day) else Recovering(day), [], disk)
    case Previewing(day) => To(run, Rehearsed(day), [], disk)
    case Rehearsed(day) => To(run, Counted(day), [], disk)
    case Counted(_) =>
      if job.plan.oneDrive && ch.cancelled then Stop(run, false, [], disk)
      else if !ch.ok && (job.plan.oneDrive || job.mode.InitialPreview?) then Stop(run, false, [], disk)
      else if job.mode.InitialPreview? then
        Stop(run, true, [WrotePreviewMarker], disk.(previewed := disk.previewed + {job.Work()}))
      else Stop(run, true, [], disk)
  }

  /** Recovery preparation and the checks after an exchange. */
  function ExchangeStep(run: Run, disk: Disk, ch: Choice): Outcome
    requires Exchanging(run.stage)
  {
    var job := run.job;
    match run.stage
    case Recovering(day) =>
      var prepared := Prepare(job, day, disk.dirs, ch.prep);
      if prepared.ok then To(run, Recovered(day), prepared.log, disk.(dirs := prepared.dirs))
      else Stop(run, false, prepared.log, disk.(dirs := prepared.dirs))
    case Recovered(day) => To(run, Synced(day), [], disk)
    case Synced(day) => To(run, Verified(day), [], disk)
    case Converged(day) => To(run, Verified(day), [], disk)
    case Verified(day) =>
      if !job.ChecksAnchors() then To(run, Cleaning(day, None), [], disk)
      else if ch.ok then To(run, LocalAnchored(day), [LocalAnchorMatched], disk)
      else Stop(run, false, [], disk)
    case LocalAnchored(day) => To(run, RemoteAnchored(day), [], disk)
    case RemoteAnchored(day) => To(run, Cleaning(day, None), [], disk)
  }

  /** Retention and the markers that end an initial synchronization. */
  function FinishStep(run: Run, disk: Disk, ch: Choice): Outcome
    requires Finishing(run.stage)
  {
    var job := run.job;
    match run.stage
    case Cleaning(day, None) => CleanStep(run, day, disk, ch)
    case Cleaning(day, Some(dir)) =>
      To(run, Cleaning(day, None), [RemovedLocal(dir)],
         disk.(dirs := Left(disk.dirs, dir, Remains(disk.dirs, dir, ch))))
    case Cleaned(day) =>
      if !job.mode.InitialSync? then Stop(run, true, [], disk)
      else if ch.ok then To(run, Marked(day), [WroteSyncMarker], disk.(synced := disk.synced + {job.Work()}))
      else Stop(run, false, [], disk)
    case Marked(_) =>
      if ch.ok then Stop(run, true, [], disk.(previewed := disk.previewed - {job.Work()}))
      else Stop(run, false, [], disk)
  }

  /** The final state, written whatever the transaction returned. */
  function EndStep(run: Run, ok: bool, disk: Disk, ch: Choice): Outcome {
    var final := if ok then Succeeded else if ch.cancelled then Cancelled else Failed;
    if ch.ok then
      To(run, Closing(ok), [WroteState(final)], disk.(state := disk.state[run.job.conn := final]))
    else To(run, Closing(false), [LostFinalState], disk)
  }

  predicate Entering(stage: Stage) {
    stage.Locked? || stage.Admitted? || stage.Bound? || stage.InputsReady? || stage.StateFree?
  }

  predicate Opening(stage: Stage) {
    stage.Working? || stage.Dated? || stage.Anchored? || stage.Previewing? || stage.Rehearsed? || stage.Counted?
  }

  predicate Exchanging(stage: Stage) {
    stage.Recovering? || stage.Recovered? || stage.Synced? || stage.Converged? || stage.Verified?
    || stage.LocalAnchored? || stage.RemoteAnchored?
  }

  predicate Finishing(stage: Stage) {
    stage.Cleaning? || stage.Cleaned? || stage.Marked?
  }

  /** Steps that send no command: file operations and decisions. */
  function LocalStep(run: Run, disk: Disk, ch: Choice): Outcome
    requires !run.stage.Begin? && !run.stage.Closing?
  {
    if Entering(run.stage) then EnterStep(run, disk, ch)
    else if Opening(run.stage) then OpenStep(run, disk, ch)
    else if Exchanging(run.stage) then ExchangeStep(run, disk, ch)
    else if Finishing(run.stage) then FinishStep(run, disk, ch)
    else EndStep(run, run.stage.ok, disk, ch)
  }

  /** What retention removes: a directory with an outdated name whose marker could be read and
      names this connection. */
  predicate IsTarget(job: Job, dirs: map<Dir, Content>, dir: Dir, readable: bool) {
    job.Outdates(dir.day) && readable && MarkerAt(dirs, dir) == Names(job.conn)
  }

  /** Retention looks at one entry of this plan's own recovery roots, or stops.  An entry
      becomes a target only when its name is outdated and its completely read marker names
      this connection; the marker of any other name is not read. */
  function CleanStep(run: Run, day: string, disk: Disk, ch: Choice): Outcome {
    var job := run.job;
    var dir := ch.dir;
    var root := if dir.side.Local? then job.plan.localRecovery else job.plan.remoteRecovery;
    var asked := if dir.side.Remote? then [Sent(CatOwner(dir))] else [];
    if ch.stop || dir.root != root then To(run, Cleaned(day), [], disk)
    else if !job.Outdates(dir.day) then To(run, Cleaning(day, None), [], disk)
    else if IsTarget(job, disk.dirs, dir, ch.ok) then
      To(run, Cleaning(day, Some(dir)), asked, disk)
    else To(run, Cleaning(day, None), asked, disk)
  }

  /** One atomic step of a run that holds its lock. */
  function Advance(run: Run, disk: Disk, ch: Choice): Outcome
    requires !run.stage.Begin? && !run.stage.Closing?
  {
    match CommandAt(run)
    case None => LocalStep(run, disk, ch)
    case Some(command) =>
      if !run.awaiting then Outcome(run.(awaiting := true), [Sent(command)], disk)
      else Reply(run, command, disk, ch)
  }
}
