/** The operation lock, the state file, and who may touch which recovery directory. */
module CoordinatorTurns {
  import opened Coordinator
  import opened CoordinatorLaws
  import opened CoordinatorRuns
  import opened CoordinatorTheorems
  import opened Options

  // --------------------------------------------------------------------- recovery directories

  /** In every reachable state and for every next step: a marker that names a connection
      changes only by a step of that connection, and whatever the step marks, uses as a backup
      target, purges or removes is its own directory, or an empty one it is marking.  So a
      non-empty directory whose owner could not be read is never claimed. */
  lemma {:induction false} RecoveryDirectoriesStayOwned(dirs: map<Dir, Content>, actions: seq<Action>, a: Action)
    ensures var s := After(Initial(dirs), actions);
            var s' := Act(s, a);
            && (forall dir :: MarkerAt(s.disk.dirs, dir).Names? && MarkerAt(s'.disk.dirs, dir) != MarkerAt(s.disk.dirs, dir) ==>
                  a.Move? && a.id in s.runs && s.runs[a.id].job.conn == MarkerAt(s.disk.dirs, dir).owner)
            && |s.trace| <= |s'.trace|
            && (forall i, dir :: |s.trace| <= i < |s'.trace| && dir in Touched(s'.trace[i].job, s'.trace[i].what) ==>
                  MayTouch(s'.trace[i].job, s'.trace[i].what, dir, s.disk.dirs))
  {
    var s := After(Initial(dirs), actions);
    AlwaysInv(dirs, actions);
    if Stepping(s, a) {
      assert OnCourse(s.trace, a.id, s.runs[a.id], s.disk);
      AdvanceIsLawful(s.runs[a.id], s.disk, a.choice);
    }
  }

  /** Over every sequence of runs a preview changes no recovery directory, sends no exchange
      and writes no sync marker. */
  lemma {:induction false} PreviewsWriteNothing(dirs: map<Dir, Content>, actions: seq<Action>)
    ensures forall e :: e in After(Initial(dirs), actions).trace && (e.job.mode.InitialPreview? || e.job.mode.Preview?) ==>
              !Writes(e.what)
  {
    if actions != [] {
      var before, a := actions[..|actions| - 1], actions[|actions| - 1];
      var s := After(Initial(dirs), before);
      PreviewsWriteNothing(dirs, before);
      AlwaysInv(dirs, before);
      if Stepping(s, a) {
        assert OnCourse(s.trace, a.id, s.runs[a.id], s.disk);
        var out := Advance(s.runs[a.id], s.disk, a.choice);
        AdvanceExplained(s.runs[a.id], s.disk, a.choice);
        forall e | e in Act(s, a).trace && e !in s.trace ensures e.what in out.log && e.job == s.runs[a.id].job {}
      }
    }
  }

  // ------------------------------------------------------------------------------------- turns

  /** An entry of one run between two of another of the same connection ends the first run. */
  ghost predicate Turns(s: Sys) {
    forall i, j | 0 <= i < j < |s.trace| && s.trace[i].job.conn == s.trace[j].job.conn ::
      s.trace[i].run == s.trace[j].run || s.trace[i].run !in s.runs
  }

  ghost predicate NoOverlap(trace: seq<Event>) {
    forall i, j, k | 0 <= i < j < k < |trace| && trace[j].job.conn == trace[i].job.conn ::
      trace[i].run == trace[k].run ==> trace[j].run == trace[i].run
  }

  lemma AppendKeepsTurns(s: Sys, s': Sys, id: RunId, job: Job, whats: seq<What>)
    requires Inv(s) && Turns(s) && NoOverlap(s.trace)
    requires id in s.runs && s.runs[id].job == job && (s.runs[id].stage.Begin? ==> job.conn !in s.locks)
    requires s'.trace == s.trace + Log(id, job, whats) && s'.runs.Keys <= s.runs.Keys
    ensures Turns(s') && NoOverlap(s'.trace)
  {
  }

  lemma ActKeepsTurns(s: Sys, a: Action)
    requires Inv(s) && Turns(s) && NoOverlap(s.trace)
    ensures Turns(Act(s, a)) && NoOverlap(Act(s, a).trace)
  {
    match a
    case Start(job) =>
      forall i | 0 <= i < |s.trace| ensures s.trace[i].run != s.next { assert s.trace[i] in s.trace; }
    case Litter(dir) =>
    case Crash(id) =>
      if id in s.runs && !s.runs[id].stage.Begin? {
        AppendKeepsTurns(s, Act(s, a), id, s.runs[id].job, [Crashed]);
      }
    case Move(id, ch) =>
      if id in s.runs { MoveKeepsTurns(s, id, ch); }
  }

  /** No two runs of one connection ever have their entries interleaved: from its first entry
      to its last a run is alone, whatever other processes try. */
  lemma {:induction false} RunsTakeTurns(dirs: map<Dir, Content>, actions: seq<Action>)
    ensures Turns(After(Initial(dirs), actions)) && NoOverlap(After(Initial(dirs), actions).trace)
  {
    if actions != [] {
      var before := actions[..|actions| - 1];
      RunsTakeTurns(dirs, before);
      AlwaysInv(dirs, before);
      ActKeepsTurns(After(Initial(dirs), before), actions[|actions| - 1]);
    }
  }

  lemma MoveKeepsTurns(s: Sys, id: RunId, ch: Choice)
    requires Inv(s) && Turns(s) && NoOverlap(s.trace) && id in s.runs
    ensures var s' := Act(s, Move(id, ch)); Turns(s') && NoOverlap(s'.trace)
  {
    var run := s.runs[id];
    var s' := Act(s, Move(id, ch));
    if run.stage.Begin? {
      if s'.trace != s.trace { AppendKeepsTurns(s, s', id, run.job, [TookLock]); }
    } else if run.stage.Closing? {
      AppendKeepsTurns(s, s', id, run.job, [Returned(run.stage.ok)]);
    } else {
      AppendKeepsTurns(s, s', id, run.job, Advance(run, s.disk, ch).log);
    }
  }

  // --------------------------------------------------------------------------------- state file

  /** The state file says running and nobody is in a transaction. */
  ghost predicate Leftover(s: Sys, c: ConnectionId) {
    IsRunning(s.disk, c) && forall id :: id in s.runs && s.runs[id].job.conn == c ==> !InTransaction(s.runs[id].stage)
  }

  predicate WritesState(e: Event, c: ConnectionId) { e.what.WroteState? && e.job.conn == c }

  /** Entry `i` is the last state write of the connection. */
  ghost predicate IsLastWrite(trace: seq<Event>, c: ConnectionId, i: nat)
    requires i < |trace|
  {
    WritesState(trace[i], c) && forall j :: i < j < |trace| ==> !WritesState(trace[j], c)
  }

  /** The connection's last state write is a run's running state, and that run then crashed or
      failed to write its final state. */
  ghost predicate LeftBehind(trace: seq<Event>, c: ConnectionId) {
    exists i, k :: 0 <= i < k < |trace| && LeftBy(trace, c, i, k)
  }

  ghost predicate LeftBy(trace: seq<Event>, c: ConnectionId, i: nat, k: nat)
    requires i < |trace| && k < |trace|
  {
    && IsLastWrite(trace, c, i) && trace[i].what == WroteState(Running)
    && trace[i].run == trace[k].run
    && (trace[k].what.Crashed? || trace[k].what.LostFinalState?)
  }

  /** A run in its transaction wrote the last state of its connection, the running one. */
  ghost predicate HoldsState(trace: seq<Event>, id: RunId, job: Job) {
    exists i :: 0 <= i < |trace| && trace[i] == Event(id, job, WroteState(Running)) && IsLastWrite(trace, job.conn, i)
  }

  ghost predicate NoWrites(more: seq<Event>, c: ConnectionId) {
    forall j :: 0 <= j < |more| ==> !WritesState(more[j], c)
  }

  lemma LeftBehindStays(trace: seq<Event>, more: seq<Event>, c: ConnectionId)
    requires LeftBehind(trace, c) && NoWrites(more, c)
    ensures LeftBehind(trace + more, c)
  {
    var i, k :| 0 <= i < k < |trace| && LeftBy(trace, c, i, k);
    assert LeftBy(trace + more, c, i, k);
  }

  lemma HoldsStateStays(trace: seq<Event>, more: seq<Event>, id: RunId, job: Job)
    requires HoldsState(trace, id, job) && NoWrites(more, job.conn)
    ensures HoldsState(trace + more, id, job)
  {
    var i :| 0 <= i < |trace| && trace[i] == Event(id, job, WroteState(Running)) && IsLastWrite(trace, job.conn, i);
    assert IsLastWrite(trace + more, job.conn, i);
  }

  /** Runs in a transaction hold their connection's state; every leftover has an origin. */
  ghost predicate StatesExplained(s: Sys) {
    && (forall id :: id in s.runs && InTransaction(s.runs[id].stage) ==> HoldsState(s.trace, id, s.runs[id].job))
    && (forall c :: Leftover(s, c) ==> LeftBehind(s.trace, c))
  }

  lemma EndsLeaveBehind(trace: seq<Event>, id: RunId, job: Job, what: What)
    requires HoldsState(trace, id, job) && (what.Crashed? || what.LostFinalState?)
    ensures LeftBehind(trace + Log(id, job, [what]), job.conn)
  {
    var all := trace + Log(id, job, [what]);
    var i :| 0 <= i < |trace| && trace[i] == Event(id, job, WroteState(Running)) && IsLastWrite(trace, job.conn, i);
    assert LeftBy(all, job.conn, i, |trace|);
  }

  lemma WritingHoldsState(trace: seq<Event>, id: RunId, job: Job)
    ensures HoldsState(trace + Log(id, job, [WroteState(Running)]), id, job)
  {
    var all := trace + Log(id, job, [WroteState(Running)]);
    assert all[|trace|] == Event(id, job, WroteState(Running)) && IsLastWrite(all, job.conn, |trace|);
  }

  /** How one step moves between the phases, and what it does to the state file. */
  ghost predicate Phases(run: Run, disk: Disk, out: Outcome) {
    && (forall c: ConnectionId :: c != run.job.conn ==> IsRunning(out.disk, c) == IsRunning(disk, c))
    && (InTransaction(out.run.stage) && !InTransaction(run.stage) ==> out.log == [WroteState(Running)])
    && (IsRunning(out.disk, run.job.conn) && !InTransaction(out.run.stage) ==>
          (InTransaction(run.stage) && out.log == [LostFinalState]) || (!InTransaction(run.stage) && IsRunning(disk, run.job.conn)))
  }

  lemma CommandPhases(run: Run, disk: Disk, ch: Choice)
    requires CommandAt(run).Some? && !run.stage.Begin? && !run.stage.Closing?
    ensures Phases(run, disk, Advance(run, disk, ch))
  {
  }

  lemma OpenPhases(run: Run, disk: Disk, ch: Choice)
    requires Entering(run.stage) || Opening(run.stage)
    ensures Phases(run, disk, LocalStep(run, disk, ch))
  {
  }

  lemma ExchangePhases(run: Run, disk: Disk, ch: Choice)
    requires Exchanging(run.stage)
    ensures Phases(run, disk, ExchangeStep(run, disk, ch))
  {
  }

  lemma EndPhases(run: Run, disk: Disk, ch: Choice)
    requires Finishing(run.stage) || run.stage.Ending?
    ensures Phases(run, disk, LocalStep(run, disk, ch))
  {
  }

  lemma AdvanceStates(run: Run, disk: Disk, ch: Choice)
    requires !run.stage.Begin? && !run.stage.Closing?
    ensures Phases(run, disk, Advance(run, disk, ch))
  {
    if CommandAt(run).Some? {
      CommandPhases(run, disk, ch);
    } else if Entering(run.stage) || Opening(run.stage) {
      OpenPhases(run, disk, ch);
    } else if Exchanging(run.stage) {
      ExchangePhases(run, disk, ch);
    } else {
      EndPhases(run, disk, ch);
    }
  }

  /** When a step writes a state, and when a run stays in its transaction. */
  lemma AdvanceWrites(run: Run, disk: Disk, ch: Choice)
    requires !run.stage.Begin? && !run.stage.Closing? && Sound(run, disk)
    ensures var out := Advance(run, disk, ch);
            && (InTransaction(run.stage) && InTransaction(out.run.stage) ==> forall what :: what in out.log ==> !what.WroteState?)
            && (IsRunning(out.disk, run.job.conn) && !InTransaction(out.run.stage) ==> forall what :: what in out.log ==> !what.WroteState?)
  {
    AdvanceExplained(run, disk, ch);
    AdvanceIsLawful(run, disk, ch);
    AdvanceStates(run, disk, ch);
    WritesAreTraced(run, Advance(run, disk, ch));
  }

  /** A running state is written on the way into the transaction, a final one on the way out. */
  lemma WritesAreTraced(run: Run, out: Outcome)
    requires forall what :: what in out.log ==> Traced(run, out, what)
    ensures forall what :: what in out.log && what.WroteState? ==>
              out.log == [what] && if what.state.Running? then run.stage.StateFree? else run.stage.Ending?
  {
    forall what | what in out.log && what.WroteState?
      ensures out.log == [what] && if what.state.Running? then run.stage.StateFree? else run.stage.Ending?
    {
      assert Traced(run, out, what);
    }
  }

  lemma LogWritesNothing(id: RunId, job: Job, whats: seq<What>, c: ConnectionId)
    requires job.conn != c || forall what :: what in whats ==> !what.WroteState?
    ensures NoWrites(Log(id, job, whats), c)
  {
    assert forall k :: 0 <= k < |whats| ==> whats[k] in whats;
  }

  lemma StepKeepsHolds(s: Sys, id: RunId, ch: Choice, other: RunId)
    requires Inv(s) && StatesExplained(s) && Stepping(s, Move(id, ch))
    requires other in Act(s, Move(id, ch)).runs && InTransaction(Act(s, Move(id, ch)).runs[other].stage)
    ensures HoldsState(Act(s, Move(id, ch)).trace, other, Act(s, Move(id, ch)).runs[other].job)
  {
    var run := s.runs[id];
    assert OnCourse(s.trace, id, run, s.disk);
    var out := Advance(run, s.disk, ch);
    AdvanceIsLawful(run, s.disk, ch);
    if other == id {
      if InTransaction(run.stage) {
        AdvanceWrites(run, s.disk, ch);
        LogWritesNothing(id, run.job, out.log, run.job.conn);
        HoldsStateStays(s.trace, Log(id, run.job, out.log), id, run.job);
      } else {
        AdvanceStates(run, s.disk, ch);
        WritingHoldsState(s.trace, id, run.job);
      }
    } else {
      LogWritesNothing(id, run.job, out.log, s.runs[other].job.conn);
      HoldsStateStays(s.trace, Log(id, run.job, out.log), other, s.runs[other].job);
    }
  }

  lemma StepKeepsLeftovers(s: Sys, id: RunId, ch: Choice, c: ConnectionId)
    requires Inv(s) && StatesExplained(s) && Stepping(s, Move(id, ch)) && Leftover(Act(s, Move(id, ch)), c)
    ensures LeftBehind(Act(s, Move(id, ch)).trace, c)
  {
    var run := s.runs[id];
    var s' := Act(s, Move(id, ch));
    assert OnCourse(s.trace, id, run, s.disk);
    var out := Advance(run, s.disk, ch);
    AdvanceStates(run, s.disk, ch);
    AdvanceIsLawful(run, s.disk, ch);
    assert s'.runs[id] == out.run;
    if c == run.job.conn && InTransaction(run.stage) {
      EndsLeaveBehind(s.trace, id, run.job, LostFinalState);
    } else {
      if c == run.job.conn { AdvanceWrites(run, s.disk, ch); }
      assert forall other :: other in s.runs && s.runs[other].job.conn == c && other != id ==> s'.runs[other] == s.runs[other];
      assert Leftover(s, c);
      LogWritesNothing(id, run.job, out.log, c);
      LeftBehindStays(s.trace, Log(id, run.job, out.log), c);
    }
  }

  lemma StepKeepsStatesExplained(s: Sys, id: RunId, ch: Choice)
    requires Inv(s) && StatesExplained(s) && Stepping(s, Move(id, ch))
    ensures StatesExplained(Act(s, Move(id, ch)))
  {
    var s' := Act(s, Move(id, ch));
    forall other | other in s'.runs && InTransaction(s'.runs[other].stage)
      ensures HoldsState(s'.trace, other, s'.runs[other].job)
    {
      StepKeepsHolds(s, id, ch, other);
    }
    forall c | Leftover(s', c) ensures LeftBehind(s'.trace, c) { StepKeepsLeftovers(s, id, ch, c); }
  }

  lemma GoneKeepsStatesExplained(s: Sys, id: RunId, what: What)
    requires Inv(s) && StatesExplained(s) && id in s.runs && !what.WroteState?
    requires what.Crashed? || !InTransaction(s.runs[id].stage)
    ensures StatesExplained(Gone(s, id, what))
  {
    var run := s.runs[id];
    var s' := Gone(s, id, what);
    var log := Log(id, run.job, [what]);
    forall other | other in s'.runs && InTransaction(s'.runs[other].stage)
      ensures HoldsState(s'.trace, other, s'.runs[other].job)
    {
      LogWritesNothing(id, run.job, [what], s.runs[other].job.conn);
      HoldsStateStays(s.trace, log, other, s.runs[other].job);
    }
    forall c | Leftover(s', c) ensures LeftBehind(s'.trace, c) {
      if c == run.job.conn && InTransaction(run.stage) {
        EndsLeaveBehind(s.trace, id, run.job, what);
      } else {
        assert forall other :: other in s.runs && s.runs[other].job.conn == c && other != id ==> s'.runs[other] == s.runs[other];
        assert Leftover(s, c);
        LogWritesNothing(id, run.job, [what], c);
        LeftBehindStays(s.trace, log, c);
      }
    }
  }

  lemma BegunKeepsStatesExplained(s: Sys, id: RunId, ch: Choice)
    requires StatesExplained(s) && id in s.runs && s.runs[id].stage.Begin?
    ensures StatesExplained(Begun(s, id, ch))
  {
    var s' := Begun(s, id, ch);
    var more := s'.trace[|s.trace|..];
    assert s'.trace == s.trace + more;
    assert forall c :: NoWrites(more, c);
    forall other | other in s'.runs && InTransaction(s'.runs[other].stage)
      ensures HoldsState(s'.trace, other, s'.runs[other].job)
    {
      HoldsStateStays(s.trace, more, other, s.runs[other].job);
    }
    forall c | Leftover(s', c) ensures LeftBehind(s'.trace, c) {
      BegunMakesNoLeftover(s, id, ch, c);
      LeftBehindStays(s.trace, more, c);
    }
  }

  lemma BegunMakesNoLeftover(s: Sys, id: RunId, ch: Choice, c: ConnectionId)
    requires id in s.runs && s.runs[id].stage.Begin? && Leftover(Begun(s, id, ch), c)
    ensures Leftover(s, c)
  {
    var s' := Begun(s, id, ch);
    assert forall other :: other in s.runs && s.runs[other].job.conn == c && other != id ==> s'.runs[other] == s.runs[other];
  }

  lemma StartMakesNoLeftover(s: Sys, job: Job, c: ConnectionId)
    requires Inv(s) && Leftover(Act(s, Start(job)), c)
    ensures Leftover(s, c)
  {
    var s' := Act(s, Start(job));
    assert forall other :: other in s.runs ==> other in s'.runs && s'.runs[other] == s.runs[other];
  }

  lemma StartKeepsStatesExplained(s: Sys, job: Job)
    requires Inv(s) && StatesExplained(s)
    ensures StatesExplained(Act(s, Start(job)))
  {
    forall c | Leftover(Act(s, Start(job)), c) ensures LeftBehind(Act(s, Start(job)).trace, c) {
      StartMakesNoLeftover(s, job, c);
    }
  }

  lemma ActKeepsStatesExplained(s: Sys, a: Action)
    requires Inv(s) && StatesExplained(s)
    ensures StatesExplained(Act(s, a))
  {
    match a
    case Start(job) => StartKeepsStatesExplained(s, job);
    case Litter(dir) => assert forall c :: Leftover(Act(s, a), c) ==> Leftover(s, c);
    case Crash(id) =>
      if id in s.runs {
        if s.runs[id].stage.Begin? { DropKeepsStatesExplained(s, id); } else { GoneKeepsStatesExplained(s, id, Crashed); }
      }
    case Move(id, ch) =>
      if id in s.runs { MoveKeepsStatesExplained(s, id, ch); }
  }

  lemma MoveKeepsStatesExplained(s: Sys, id: RunId, ch: Choice)
    requires Inv(s) && StatesExplained(s) && id in s.runs
    ensures StatesExplained(Act(s, Move(id, ch)))
  {
    if s.runs[id].stage.Begin? {
      BegunKeepsStatesExplained(s, id, ch);
    } else if s.runs[id].stage.Closing? {
      GoneKeepsStatesExplained(s, id, Returned(s.runs[id].stage.ok));
    } else {
      StepKeepsStatesExplained(s, id, ch);
    }
  }

  /** The state file says running without a live transaction only when the connection's last state
      write is the running state of a run that then crashed or failed to write its final state. */
  lemma {:induction false} RunningIsLeftByCrashOrLostWrite(dirs: map<Dir, Content>, actions: seq<Action>)
    ensures StatesExplained(After(Initial(dirs), actions))
    ensures forall c :: Leftover(After(Initial(dirs), actions), c) ==> LeftBehind(After(Initial(dirs), actions).trace, c)
  {
    if actions != [] {
      var before := actions[..|actions| - 1];
      RunningIsLeftByCrashOrLostWrite(dirs, before);
      AlwaysInv(dirs, before);
      ActKeepsStatesExplained(After(Initial(dirs), before), actions[|actions| - 1]);
    }
  }

  lemma DropKeepsStatesExplained(s: Sys, id: RunId)
    requires StatesExplained(s) && id in s.runs && s.runs[id].stage.Begin?
    ensures StatesExplained(s.(runs := s.runs - {id}))
  {
    var s' := s.(runs := s.runs - {id});
    forall c | Leftover(s', c) ensures LeftBehind(s'.trace, c) {
      assert forall other :: other in s.runs && s.runs[other].job.conn == c && other != id ==> s'.runs[other] == s.runs[other];
      assert Leftover(s, c);
    }
  }

  // What the trace says of the state file is what the file holds.

  /** A run that has lost its final write, or is gone, is in no transaction. */
  ghost predicate FileMatches(s: Sys) {
    && (forall c, i :: 0 <= i < |s.trace| && IsLastWrite(s.trace, c, i) && s.trace[i].what == WroteState(Running) ==>
          IsRunning(s.disk, c))
    && (forall k :: 0 <= k < |s.trace| && (s.trace[k].what.Crashed? || s.trace[k].what.LostFinalState?) ==>
          s.trace[k].run !in s.runs || s.runs[s.trace[k].run].stage.Closing?)
  }

  /** How a step's state writes show in the file. */
  ghost predicate WritesFile(run: Run, disk: Disk, out: Outcome) {
    && ((forall what :: what in out.log ==> !what.WroteState?) ==> out.disk.state == disk.state)
    && (WroteState(Running) in out.log ==> IsRunning(out.disk, run.job.conn))
    && (forall what :: what in out.log && what.WroteState? ==> out.log == [what])
    && (forall c :: c != run.job.conn ==> IsRunning(out.disk, c) == IsRunning(disk, c))
    && (LostFinalState in out.log ==> out.run.stage.Closing?) && Crashed !in out.log
  }

  lemma EnterWritesFile(run: Run, disk: Disk, ch: Choice)
    requires Entering(run.stage)
    ensures WritesFile(run, disk, EnterStep(run, disk, ch))
  {
    var out := EnterStep(run, disk, ch);
    if out.log != [] { assert out.log[0] == WroteState(Running) && out.log[0] in out.log; }
  }

  lemma EndWritesFile(run: Run, disk: Disk, ch: Choice)
    requires run.stage.Ending?
    ensures WritesFile(run, disk, EndStep(run, run.stage.ok, disk, ch))
  {
    var out := EndStep(run, run.stage.ok, disk, ch);
    assert out.log[0] in out.log;
  }

  lemma OpenWritesFile(run: Run, disk: Disk, ch: Choice)
    requires Opening(run.stage)
    ensures WritesFile(run, disk, OpenStep(run, disk, ch))
  {
  }

  lemma RecoverWritesFile(run: Run, disk: Disk, prepared: Prepared, out: Outcome)
    requires run.stage.Recovering?
    requires forall what :: what in prepared.log ==> IsPreparation(run.job, run.stage.day, what)
    requires out == if prepared.ok then To(run, Recovered(run.stage.day), prepared.log, disk.(dirs := prepared.dirs))
                    else Stop(run, false, prepared.log, disk.(dirs := prepared.dirs))
    ensures WritesFile(run, disk, out)
  {
  }

  lemma ExchangeWritesFile(run: Run, disk: Disk, ch: Choice)
    requires Exchanging(run.stage) && !run.stage.Recovering?
    ensures WritesFile(run, disk, ExchangeStep(run, disk, ch))
  {
  }

  lemma LookWritesFile(run: Run, disk: Disk, dir: Dir, out: Outcome)
    requires Looks(run, disk, dir, out)
    ensures WritesFile(run, disk, out)
  {
  }

  lemma RemovalWritesFile(run: Run, disk: Disk, ch: Choice)
    requires run.stage.Cleaning? && run.stage.target.Some?
    ensures WritesFile(run, disk, FinishStep(run, disk, ch))
  {
  }

  lemma MarkWritesFile(run: Run, disk: Disk, ch: Choice)
    requires run.stage.Cleaned? || run.stage.Marked?
    ensures WritesFile(run, disk, FinishStep(run, disk, ch))
  {
  }

  lemma FinishWritesFile(run: Run, disk: Disk, ch: Choice)
    requires Finishing(run.stage)
    ensures WritesFile(run, disk, FinishStep(run, disk, ch))
  {
    if !run.stage.Cleaning? {
      MarkWritesFile(run, disk, ch);
    } else if run.stage.target.Some? {
      RemovalWritesFile(run, disk, ch);
    } else {
      CleaningLooks(run, disk, ch);
      LookWritesFile(run, disk, ch.dir, FinishStep(run, disk, ch));
    }
  }

  lemma CommandWritesFile(run: Run, disk: Disk, ch: Choice)
    requires CommandAt(run).Some? && !run.stage.Begin? && !run.stage.Closing?
    ensures WritesFile(run, disk, Advance(run, disk, ch))
  {
  }

  lemma AdvanceWritesFile(run: Run, disk: Disk, ch: Choice)
    requires !run.stage.Begin? && !run.stage.Closing?
    ensures WritesFile(run, disk, Advance(run, disk, ch))
  {
    if CommandAt(run).Some? {
      CommandWritesFile(run, disk, ch);
    } else if Opening(run.stage) {
      OpenWritesFile(run, disk, ch);
    } else if run.stage.Recovering? {
      PrepareExplained(run.job, run.stage.day, disk.dirs, ch.prep);
      RecoverWritesFile(run, disk, Prepare(run.job, run.stage.day, disk.dirs, ch.prep), ExchangeStep(run, disk, ch));
    } else if Exchanging(run.stage) {
      ExchangeWritesFile(run, disk, ch);
    } else if Finishing(run.stage) {
      FinishWritesFile(run, disk, ch);
    } else if Entering(run.stage) {
      EnterWritesFile(run, disk, ch);
    } else {
      EndWritesFile(run, disk, ch);
    }
  }

  lemma LastWriteWithout(trace: seq<Event>, more: seq<Event>, c: ConnectionId, i: nat)
    requires i < |trace + more| && IsLastWrite(trace + more, c, i) && NoWrites(more, c)
    ensures i < |trace| && IsLastWrite(trace, c, i) && trace[i] == (trace + more)[i]
  {
    assert forall j :: 0 <= j < |more| ==> (trace + more)[|trace| + j] == more[j];
    assert forall j :: i < j < |trace| ==> trace[j] == (trace + more)[j];
  }

  lemma StepKeepsFileMatches(s: Sys, id: RunId, ch: Choice)
    requires Inv(s) && FileMatches(s) && Stepping(s, Move(id, ch))
    ensures FileMatches(Act(s, Move(id, ch)))
  {
    var run := s.runs[id];
    var s' := Act(s, Move(id, ch));
    var out := Advance(run, s.disk, ch);
    var log := Log(id, run.job, out.log);
    AdvanceWritesFile(run, s.disk, ch);
    forall c, i | 0 <= i < |s'.trace| && IsLastWrite(s'.trace, c, i) && s'.trace[i].what == WroteState(Running)
      ensures IsRunning(s'.disk, c)
    {
      StepKeepsOneFile(s, id, out, c, i);
    }
    forall k | 0 <= k < |s'.trace| && (s'.trace[k].what.Crashed? || s'.trace[k].what.LostFinalState?)
      ensures s'.trace[k].run !in s'.runs || s'.runs[s'.trace[k].run].stage.Closing?
    {
      if k >= |s.trace| { assert s'.trace[k].what in out.log; }
    }
  }

  lemma StepKeepsOneFile(s: Sys, id: RunId, out: Outcome, c: ConnectionId, i: nat)
    requires FileMatches(s) && id in s.runs
    requires var s' := Stepped(s, id, out);
             i < |s'.trace| && IsLastWrite(s'.trace, c, i) && s'.trace[i].what == WroteState(Running)
    requires WritesFile(s.runs[id], s.disk, out)
    ensures IsRunning(out.disk, c)
  {
    var log := Log(id, s.runs[id].job, out.log);
    if NoWrites(log, c) {
      LastWriteWithout(s.trace, log, c, i);
      if c == s.runs[id].job.conn {
        forall what | what in out.log ensures !what.WroteState? {
          var k :| 0 <= k < |out.log| && out.log[k] == what;
          assert !WritesState(log[k], c);
        }
      }
    } else {
      var k :| 0 <= k < |log| && WritesState(log[k], c);
      assert out.log[k] in out.log && |log| == 1;
      assert WritesState((s.trace + log)[|s.trace|], c);
    }
  }

  lemma GoneKeepsFileMatches(s: Sys, id: RunId, what: What)
    requires Inv(s) && FileMatches(s) && id in s.runs && !s.runs[id].stage.Begin? && !what.WroteState?
    ensures FileMatches(Gone(s, id, what))
  {
    var s' := Gone(s, id, what);
    var log := Log(id, s.runs[id].job, [what]);
    forall c, i | 0 <= i < |s'.trace| && IsLastWrite(s'.trace, c, i) && s'.trace[i].what == WroteState(Running)
      ensures IsRunning(s'.disk, c)
    {
      LogWritesNothing(id, s.runs[id].job, [what], c);
      LastWriteWithout(s.trace, log, c, i);
    }
  }

  lemma BegunKeepsFileMatches(s: Sys, id: RunId, ch: Choice)
    requires Inv(s) && FileMatches(s) && id in s.runs && s.runs[id].stage.Begin?
    ensures FileMatches(Begun(s, id, ch))
  {
    var s' := Begun(s, id, ch);
    var more := s'.trace[|s.trace|..];
    assert s'.trace == s.trace + more;
    forall c, i | 0 <= i < |s'.trace| && IsLastWrite(s'.trace, c, i) && s'.trace[i].what == WroteState(Running)
      ensures IsRunning(s'.disk, c)
    {
      LastWriteWithout(s.trace, more, c, i);
    }
    forall k | 0 <= k < |s.trace| ensures s.trace[k].run != id { assert s.trace[k] in s.trace; }
  }

  lemma ActKeepsFileMatches(s: Sys, a: Action)
    requires Inv(s) && FileMatches(s)
    ensures FileMatches(Act(s, a))
  {
    match a
    case Start(job) =>
      forall k | 0 <= k < |s.trace| ensures s.trace[k].run != s.next { assert s.trace[k] in s.trace; }
    case Litter(dir) =>
    case Crash(id) => if id in s.runs && !s.runs[id].stage.Begin? { GoneKeepsFileMatches(s, id, Crashed); }
    case Move(id, ch) =>
      if id in s.runs {
        if s.runs[id].stage.Begin? {
          BegunKeepsFileMatches(s, id, ch);
        } else if s.runs[id].stage.Closing? {
          GoneKeepsFileMatches(s, id, Returned(s.runs[id].stage.ok));
        } else {
          StepKeepsFileMatches(s, id, ch);
        }
      }
  }

  lemma {:induction false} AlwaysFileMatches(dirs: map<Dir, Content>, actions: seq<Action>)
    ensures FileMatches(After(Initial(dirs), actions))
  {
    if actions != [] {
      AlwaysFileMatches(dirs, actions[..|actions| - 1]);
      AlwaysInv(dirs, actions[..|actions| - 1]);
      ActKeepsFileMatches(After(Initial(dirs), actions[..|actions| - 1]), actions[|actions| - 1]);
    }
  }

  lemma HolderWroteLast(trace: seq<Event>, c: ConnectionId, i: nat, id: RunId, job: Job)
    requires i < |trace| && IsLastWrite(trace, c, i) && HoldsState(trace, id, job) && job.conn == c
    ensures trace[i].run == id
  {
  }

  /** A connection is left running exactly when its last state write is the running state of a run
      that then crashed or failed to write its final state. */
  lemma LeftRunningExactly(dirs: map<Dir, Content>, actions: seq<Action>, c: ConnectionId)
    ensures Leftover(After(Initial(dirs), actions), c) <==> LeftBehind(After(Initial(dirs), actions).trace, c)
  {
    var s := After(Initial(dirs), actions);
    RunningIsLeftByCrashOrLostWrite(dirs, actions);
    AlwaysFileMatches(dirs, actions);
    if LeftBehind(s.trace, c) {
      var i, k :| 0 <= i < k < |s.trace| && LeftBy(s.trace, c, i, k);
      forall id | id in s.runs && s.runs[id].job.conn == c ensures !InTransaction(s.runs[id].stage) {
        if HoldsState(s.trace, id, s.runs[id].job) { HolderWroteLast(s.trace, c, i, id, s.runs[id].job); }
      }
    }
  }

  /** A run that meets a leftover state never gets past reading it. */
  lemma AdvanceMeetsLeftover(run: Run, disk: Disk, ch: Choice)
    requires !run.stage.Begin? && !run.stage.Closing? && Sound(run, disk)
    requires IsRunning(disk, run.job.conn) && !InTransaction(run.stage)
    ensures var out := Advance(run, disk, ch);
            && IsRunning(out.disk, run.job.conn) && !InTransaction(out.run.stage)
            && (out.run.stage.Closing? ==> !out.run.stage.ok)
            && forall what :: what in out.log ==> Harmless(what)
  {
  }

  lemma StepMeetsLeftover(s: Sys, id: RunId, ch: Choice, c: ConnectionId)
    requires Inv(s) && Leftover(s, c) && Stepping(s, Move(id, ch))
    ensures var out := Advance(s.runs[id], s.disk, ch);
            && Leftover(Act(s, Move(id, ch)), c)
            && (s.runs[id].job.conn == c ==> forall what :: what in out.log ==> Harmless(what))
  {
    var run := s.runs[id];
    var s' := Act(s, Move(id, ch));
    assert OnCourse(s.trace, id, run, s.disk);
    AdvanceIsLawful(run, s.disk, ch);
    if run.job.conn == c { AdvanceMeetsLeftover(run, s.disk, ch); }
    assert forall other :: other in s.runs && other != id ==> s'.runs[other] == s.runs[other];
  }

  lemma NoStepMeetsLeftover(s: Sys, a: Action, c: ConnectionId)
    requires Inv(s) && Leftover(s, c) && !Stepping(s, a)
    ensures var s' := Act(s, a);
            && Leftover(s', c) && |s.trace| <= |s'.trace|
            && (forall i :: |s.trace| <= i < |s'.trace| && s'.trace[i].job.conn == c ==> Harmless(s'.trace[i].what))
  {
    if a.Move? && a.id in s.runs {
      assert OnCourse(s.trace, a.id, s.runs[a.id], s.disk);
      assert StateHolds(s.runs[a.id], s.disk);
    }
  }

  /** What a leftover of `c` allows from one state to a later one. */
  ghost predicate StaysLeftover(s: Sys, s': Sys, c: ConnectionId) {
    && Leftover(s', c) && |s.trace| <= |s'.trace|
    && (forall i :: |s.trace| <= i < |s'.trace| && s'.trace[i].job.conn == c ==> Harmless(s'.trace[i].what))
  }

  lemma ActStaysLeftover(s: Sys, a: Action, c: ConnectionId)
    requires Inv(s) && Leftover(s, c)
    ensures StaysLeftover(s, Act(s, a), c) && s.trace <= Act(s, a).trace
  {
    if Stepping(s, a) {
      StepMeetsLeftover(s, a.id, a.choice, c);
    } else {
      NoStepMeetsLeftover(s, a, c);
    }
  }

  /** Such a leftover stops every later run before it reads an anchor, prepares recovery,
      syncs or cleans up: it stays, and from then on this connection logs only locking,
      identity checks, crashes and failed returns. */
  lemma {:induction false} LeftoverStopsLaterRuns(dirs: map<Dir, Content>, actions: seq<Action>, more: seq<Action>,
                                                  c: ConnectionId)
    requires Leftover(After(Initial(dirs), actions), c)
    ensures StaysLeftover(After(Initial(dirs), actions), After(Initial(dirs), actions + more), c)
    decreases |more|
  {
    if more == [] {
      assert actions + more == actions;
    } else {
      var init, a := more[..|more| - 1], more[|more| - 1];
      assert (actions + more)[..|actions + more| - 1] == actions + init;
      LeftoverStopsLaterRuns(dirs, actions, init, c);
      AlwaysInv(dirs, actions + init);
      ActStaysLeftover(After(Initial(dirs), actions + init), a, c);
    }
  }

  // ------------------------------------------------------------------------------ what a run says

  /** What a run's own entries say at each phase. */
  predicate Recorded(stage: Stage, log: seq<What>) {
    match stage
    case Ending(ok) => TransactionEnded(ok) in log && TransactionEnded(!ok) !in log && WroteState(Succeeded) !in log
    case Closing(ok) => ok <==> TransactionEnded(true) in log && WroteState(Succeeded) in log
    case _ => TransactionEnded(true) !in log && TransactionEnded(false) !in log && WroteState(Succeeded) !in log
  }

  /** A return of Ok, against the transaction and the final state of the same run. */
  ghost predicate Truthful(trace: seq<Event>, e: Event) {
    e.what.Returned? ==>
      (e.what.ok <==> TransactionEnded(true) in Of(trace, e.run) && WroteState(Succeeded) in Of(trace, e.run))
  }

  ghost predicate Reports(s: Sys) {
    && (forall id :: id in s.runs ==> Recorded(s.runs[id].stage, Of(s.trace, id)))
    && (forall e :: e in s.trace && e.what.Returned? ==> e.run !in s.runs && Truthful(s.trace, e))
  }

  /** How the entries of one step move a run towards its result. */
  predicate Ends(stage: Stage, stage': Stage, whats: seq<What>) {
    match stage
    case Ending(ok) =>
      stage'.Closing? && TransactionEnded(true) !in whats && (stage'.ok <==> ok && WroteState(Succeeded) in whats)
    case _ =>
      && WroteState(Succeeded) !in whats
      && match stage'
         case Ending(ok) => TransactionEnded(ok) in whats && TransactionEnded(!ok) !in whats
         case Closing(ok) => !ok && TransactionEnded(true) !in whats
         case _ => TransactionEnded(true) !in whats && TransactionEnded(false) !in whats
  }

  lemma EnterEnds(run: Run, disk: Disk, ch: Choice)
    requires Entering(run.stage)
    ensures var out := EnterStep(run, disk, ch); Ends(run.stage, out.run.stage, out.log)
  {
  }

  lemma OpenEnds(run: Run, disk: Disk, ch: Choice)
    requires Opening(run.stage)
    ensures var out := OpenStep(run, disk, ch); Ends(run.stage, out.run.stage, out.log)
  {
  }

  lemma ExchangeEnds(run: Run, disk: Disk, ch: Choice)
    requires Exchanging(run.stage)
    ensures var out := ExchangeStep(run, disk, ch); Ends(run.stage, out.run.stage, out.log)
  {
    if run.stage.Recovering? {
      PrepareExplained(run.job, run.stage.day, disk.dirs, ch.prep);
      RecoverEnds(run, disk, Prepare(run.job, run.stage.day, disk.dirs, ch.prep));
    } else {
      CheckEnds(run, disk, ch);
    }
  }

  lemma RecoverEnds(run: Run, disk: Disk, prepared: Prepared)
    requires run.stage.Recovering?
    requires forall what :: what in prepared.log ==> IsPreparation(run.job, run.stage.day, what)
    ensures var disk' := disk.(dirs := prepared.dirs);
            var out := if prepared.ok then To(run, Recovered(run.stage.day), prepared.log, disk')
                       else Stop(run, false, prepared.log, disk');
            Ends(run.stage, out.run.stage, out.log)
  {
  }

  lemma CheckEnds(run: Run, disk: Disk, ch: Choice)
    requires Exchanging(run.stage) && !run.stage.Recovering?
    ensures var out := ExchangeStep(run, disk, ch); Ends(run.stage, out.run.stage, out.log)
  {
  }

  lemma LookEnds(run: Run, disk: Disk, dir: Dir, out: Outcome)
    requires Looks(run, disk, dir, out)
    ensures Ends(run.stage, out.run.stage, out.log)
  {
  }

  lemma RemovalEnds(run: Run, disk: Disk, ch: Choice)
    requires run.stage.Cleaning? && run.stage.target.Some?
    ensures var out := FinishStep(run, disk, ch); Ends(run.stage, out.run.stage, out.log)
  {
  }

  lemma CleaningEnds(run: Run, disk: Disk, ch: Choice)
    requires run.stage.Cleaning?
    ensures var out := FinishStep(run, disk, ch); Ends(run.stage, out.run.stage, out.log)
  {
    if run.stage.target.Some? {
      RemovalEnds(run, disk, ch);
    } else {
      CleaningLooks(run, disk, ch);
      LookEnds(run, disk, ch.dir, FinishStep(run, disk, ch));
    }
  }

  lemma MarkingEnds(run: Run, disk: Disk, ch: Choice)
    requires run.stage.Cleaned? || run.stage.Marked?
    ensures var out := FinishStep(run, disk, ch); Ends(run.stage, out.run.stage, out.log)
  {
  }

  lemma ReplyEnds(run: Run, disk: Disk, ch: Choice)
    requires CommandAt(run).Some?
    ensures var out := Reply(run, CommandAt(run).value, disk, ch); Ends(run.stage, out.run.stage, out.log)
  {
  }

  lemma AdvanceEnds(run: Run, disk: Disk, ch: Choice)
    requires !run.stage.Begin? && !run.stage.Closing?
    ensures var out := Advance(run, disk, ch); Ends(run.stage, out.run.stage, out.log)
  {
    if CommandAt(run).Some? {
      ReplyEnds(run, disk, ch);
    } else if Entering(run.stage) {
      EnterEnds(run, disk, ch);
    } else if Opening(run.stage) {
      OpenEnds(run, disk, ch);
    } else if Exchanging(run.stage) {
      ExchangeEnds(run, disk, ch);
    } else if run.stage.Cleaning? {
      CleaningEnds(run, disk, ch);
    } else if Finishing(run.stage) {
      MarkingEnds(run, disk, ch);
    }
  }

  lemma EndsRecords(stage: Stage, stage': Stage, log: seq<What>, whats: seq<What>)
    requires !stage.Closing? && Recorded(stage, log) && Ends(stage, stage', whats)
    ensures Recorded(stage', log + whats)
  {
  }

  lemma AppendKeepsReports(s: Sys, s': Sys, id: RunId, run': Run, whats: seq<What>)
    requires Inv(s) && Reports(s) && id in s.runs
    requires s'.trace == s.trace + Log(id, s.runs[id].job, whats) && s'.runs == s.runs[id := run']
    requires Recorded(run'.stage, Of(s.trace, id) + whats)
    requires Returned(true) !in whats && Returned(false) !in whats
    ensures Reports(s')
  {
    forall other | other in s'.runs ensures Recorded(s'.runs[other].stage, Of(s'.trace, other)) {
      OfJoins(s.trace, id, s.runs[id].job, whats, other);
    }
    forall e | e in s'.trace && e.what.Returned? ensures e.run !in s'.runs && Truthful(s'.trace, e) {
      assert e.what == Returned(true) || e.what == Returned(false);
      assert e in s.trace;
      OfJoins(s.trace, id, s.runs[id].job, whats, e.run);
    }
  }

  lemma GoneKeepsReports(s: Sys, id: RunId, what: What)
    requires Inv(s) && Reports(s) && id in s.runs
    requires what == Crashed || (what.Returned? && s.runs[id].stage == Closing(what.ok))
    ensures Reports(Gone(s, id, what))
  {
    var s' := Gone(s, id, what);
    forall other | other in s'.runs ensures Recorded(s'.runs[other].stage, Of(s'.trace, other)) {
      OfJoins(s.trace, id, s.runs[id].job, [what], other);
    }
    assert Recorded(s.runs[id].stage, Of(s.trace, id));
    forall e | e in s'.trace && e.what.Returned? ensures e.run !in s'.runs && Truthful(s'.trace, e) {
      OfJoins(s.trace, id, s.runs[id].job, [what], e.run);
      if e !in s.trace { assert e.run == id && e.what == what; }
    }
  }

  /** A run returns Ok exactly when its transaction succeeded and its final state was written,
      over every sequence and interleaving of runs. */
  lemma {:induction false} ReturnsAreTruthful(dirs: map<Dir, Content>, actions: seq<Action>)
    ensures Reports(After(Initial(dirs), actions))
    ensures var trace := After(Initial(dirs), actions).trace;
            forall e :: e in trace ==> Truthful(trace, e)
  {
    if actions != [] {
      var before, a := actions[..|actions| - 1], actions[|actions| - 1];
      var s := After(Initial(dirs), before);
      ReturnsAreTruthful(dirs, before);
      AlwaysInv(dirs, before);
      match a
      case Litter(dir) =>
      case Start(job) =>
        OfNobody(s.trace, s.next);
        forall e | e in s.trace ensures e.run != s.next {}
      case Crash(id) =>
        if id in s.runs && !s.runs[id].stage.Begin? { GoneKeepsReports(s, id, Crashed); }
      case Move(id, ch) =>
        if id in s.runs {
          MoveKeepsReports(s, id, ch);
        }
    }
  }

  lemma MoveKeepsReports(s: Sys, id: RunId, ch: Choice)
    requires Inv(s) && Reports(s) && id in s.runs
    ensures Reports(Act(s, Move(id, ch)))
  {
    var run := s.runs[id];
    assert OnCourse(s.trace, id, run, s.disk);
    if run.stage.Begin? {
      if ch.ok && run.job.conn !in s.locks {
        AppendKeepsReports(s, Begun(s, id, ch), id, run.(stage := Locked), [TookLock]);
      }
    } else if run.stage.Closing? {
      GoneKeepsReports(s, id, Returned(run.stage.ok));
    } else {
      AdvanceExplained(run, s.disk, ch);
      AdvanceEnds(run, s.disk, ch);
      StepKeepsReports(s, id, Advance(run, s.disk, ch));
    }
  }

  lemma StepKeepsReports(s: Sys, id: RunId, out: Outcome)
    requires Inv(s) && Reports(s) && id in s.runs && !s.runs[id].stage.Closing?
    requires LogExplained(s.runs[id], s.disk, out) && Ends(s.runs[id].stage, out.run.stage, out.log)
    ensures Reports(Stepped(s, id, out))
  {
    var run := s.runs[id];
    assert Recorded(run.stage, Of(s.trace, id));
    EndsRecords(run.stage, out.run.stage, Of(s.trace, id), out.log);
    AppendKeepsReports(s, Stepped(s, id, out), id, out.run, out.log);
  }
}
