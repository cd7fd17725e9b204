/** All runs together: any number of connections and processes, any interleaving of their
    steps, crashes at any point, and outsiders who put files into recovery directories. */
module CoordinatorRuns {
  import opened Coordinator
  import opened CoordinatorLaws
  import opened Options

  datatype Event = Event(run: RunId, job: Job, what: What)

  datatype Sys = Sys(next: RunId, runs: map<RunId, Run>, locks: map<ConnectionId, RunId>,
                     disk: Disk, trace: seq<Event>)

  datatype Action =
    | Start(job: Job)
    | Move(id: RunId, choice: Choice)
    | Crash(id: RunId)
    | Litter(dir: Dir)

  function Log(id: RunId, job: Job, whats: seq<What>): seq<Event> {
    seq(|whats|, k requires 0 <= k < |whats| => Event(id, job, whats[k]))
  }

  function Begun(s: Sys, id: RunId, ch: Choice): Sys
    requires id in s.runs
  {
    var run := s.runs[id];
    if !ch.ok || run.job.conn in s.locks then s.(runs := s.runs - {id})
    else s.(runs := s.runs[id := run.(stage := Locked)], locks := s.locks[run.job.conn := id],
            trace := s.trace + Log(id, run.job, [TookLock]))
  }

  /** The run is over: whatever ends it, the lock goes with it. */
  function Gone(s: Sys, id: RunId, what: What): Sys
    requires id in s.runs
  {
    var job := s.runs[id].job;
    s.(runs := s.runs - {id}, locks := s.locks - {job.conn}, trace := s.trace + Log(id, job, [what]))
  }

  function Stepped(s: Sys, id: RunId, out: Outcome): Sys
    requires id in s.runs
  {
    s.(runs := s.runs[id := out.run], disk := out.disk, trace := s.trace + Log(id, s.runs[id].job, out.log))
  }

  function Act(s: Sys, a: Action): Sys {
    match a
    case Start(job) => s.(next := s.next + 1, runs := s.runs[s.next := Run(job, Begin, false)])
    case Move(id, ch) =>
      if id !in s.runs then s
      else if s.runs[id].stage.Begin? then Begun(s, id, ch)
      else if s.runs[id].stage.Closing? then Gone(s, id, Returned(s.runs[id].stage.ok))
      else Stepped(s, id, Advance(s.runs[id], s.disk, ch))
    case Crash(id) =>
      if id !in s.runs then s
      else if s.runs[id].stage.Begin? then s.(runs := s.runs - {id})
      else Gone(s, id, Crashed)
    case Litter(dir) => s.(disk := s.disk.(dirs := WithOther(s.disk.dirs, dir)))
  }

  /** Nothing has run yet; recovery directories may already hold anything. */
  function Initial(dirs: map<Dir, Content>): Sys {
    Sys(0, map[], map[], Disk({}, {}, map[], dirs), [])
  }

  function After(s: Sys, actions: seq<Action>): Sys {
    if actions == [] then s
    else Act(After(s, actions[..|actions| - 1]), actions[|actions| - 1])
  }

  /** The action is a step of a run's own machine. */
  predicate Stepping(s: Sys, a: Action) {
    a.Move? && a.id in s.runs && !s.runs[a.id].stage.Begin? && !s.runs[a.id].stage.Closing?
  }

  predicate IsOutside(what: What) { what.TookLock? || what.Returned? || what.Crashed? }

  /** An action outside the run's own machine adds at most an entry of taking the lock or of leaving. */
  lemma OutsideAdds(s: Sys, a: Action) returns (more: seq<Event>)
    requires !Stepping(s, a)
    ensures Act(s, a).trace == s.trace + more && forall e :: e in more ==> IsOutside(e.what)
  {
    more := [];
    assert s.trace + [] == s.trace;
    match a
    case Start(_) =>
    case Litter(_) =>
    case Crash(id) => if id in s.runs && !s.runs[id].stage.Begin? { more := Log(id, s.runs[id].job, [Crashed]); }
    case Move(id, ch) =>
      if id in s.runs {
        var run := s.runs[id];
        if run.stage.Closing? {
          more := Log(id, run.job, [Returned(run.stage.ok)]);
        } else if ch.ok && run.job.conn !in s.locks {
          more := Log(id, run.job, [TookLock]);
        }
      }
  }

  /** What one run did, in order. */
  function Of(trace: seq<Event>, id: RunId): seq<What> {
    if trace == [] then []
    else
      var last := trace[|trace| - 1];
      Of(trace[..|trace| - 1], id) + if last.run == id then [last.what] else []
  }

  lemma {:induction false} OfJoins(trace: seq<Event>, id: RunId, job: Job, whats: seq<What>, other: RunId)
    ensures other == id ==> Of(trace + Log(id, job, whats), other) == Of(trace, other) + whats
    ensures other != id ==> Of(trace + Log(id, job, whats), other) == Of(trace, other)
    decreases |whats|
  {
    if whats == [] {
      assert trace + Log(id, job, whats) == trace;
    } else {
      var init := whats[..|whats| - 1];
      var all := trace + Log(id, job, whats);
      assert all[..|all| - 1] == trace + Log(id, job, init);
      OfJoins(trace, id, job, init, other);
    }
  }

  lemma {:induction false} OfNobody(trace: seq<Event>, id: RunId)
    requires forall e :: e in trace ==> e.run != id
    ensures Of(trace, id) == []
  {
    if trace != [] { OfNobody(trace[..|trace| - 1], id); }
  }

  lemma {:induction false} OfKeeps(trace: seq<Event>, e: Event)
    requires e in trace
    ensures e.what in Of(trace, e.run)
  {
    if trace[|trace| - 1] != e { OfKeeps(trace[..|trace| - 1], e); }
  }

  // -------------------------------------------------------------------------------- invariant

  /** The run that holds a connection's lock is the only one past its beginning. */
  ghost predicate Exclusive(s: Sys) {
    && (forall id :: id in s.runs && !s.runs[id].stage.Begin? ==>
          s.runs[id].job.conn in s.locks && s.locks[s.runs[id].job.conn] == id)
    && (forall c :: c in s.locks ==>
          s.locks[c] in s.runs && s.runs[s.locks[c]].job.conn == c && !s.runs[s.locks[c]].stage.Begin?)
  }

  ghost predicate Numbered(s: Sys) {
    && (forall id :: id in s.runs ==> id < s.next)
    && (forall e :: e in s.trace ==> e.run < s.next)
    && (forall e :: e in s.trace && e.run in s.runs ==>
          e.job == s.runs[e.run].job && !s.runs[e.run].stage.Begin?)
  }

  ghost predicate OnCourse(trace: seq<Event>, id: RunId, run: Run, disk: Disk) {
    Sound(run, disk) && (Going(run.stage) ==> Achieved(Of(trace, id)) == Due(run))
  }

  ghost predicate AllOnCourse(s: Sys) {
    forall id :: id in s.runs ==> OnCourse(s.trace, id, s.runs[id], s.disk)
  }

  ghost predicate Inv(s: Sys) {
    Exclusive(s) && Numbered(s) && AllOnCourse(s)
  }

  lemma StartKeepsInv(s: Sys, job: Job)
    requires Inv(s)
    ensures Inv(Act(s, Start(job)))
  {
  }

  lemma BegunKeepsInv(s: Sys, id: RunId, ch: Choice)
    requires Inv(s) && id in s.runs && s.runs[id].stage.Begin?
    ensures Inv(Begun(s, id, ch))
  {
    var s' := Begun(s, id, ch);
    if id in s'.runs {
      forall other | other in s'.runs ensures OnCourse(s'.trace, other, s'.runs[other], s'.disk) {
        OfJoins(s.trace, id, s.runs[id].job, [TookLock], other);
        assert OnCourse(s.trace, other, s.runs[other], s.disk);
        if other == id {
          OfNobody(s.trace, id);
          FirstAchievement(s'.runs[id]);
          LockedIsSound(s.runs[id], s.disk);
        }
      }
      BegunKeepsOrder(s, id);
    }
  }

  lemma BegunKeepsOrder(s: Sys, id: RunId)
    requires Exclusive(s) && Numbered(s) && id in s.runs && s.runs[id].job.conn !in s.locks
    ensures var run := s.runs[id];
            var s' := s.(runs := s.runs[id := run.(stage := Locked)], locks := s.locks[run.job.conn := id],
                         trace := s.trace + Log(id, run.job, [TookLock]));
            Exclusive(s') && Numbered(s')
  {
  }

  lemma LockedIsSound(run: Run, disk: Disk)
    requires run.stage.Begin? && Sound(run, disk)
    ensures Sound(run.(stage := Locked), disk)
  {
  }

  lemma FirstAchievement(run: Run)
    requires run.stage.Locked?
    ensures Achieved([] + [TookLock]) == Due(run)
  {
    AchievedOne(TookLock);
    assert [] + [TookLock] == [TookLock];
  }

  lemma GoneKeepsInv(s: Sys, id: RunId, what: What)
    requires Inv(s) && id in s.runs && !s.runs[id].stage.Begin?
    ensures Inv(Gone(s, id, what))
  {
    var s' := Gone(s, id, what);
    forall other | other in s'.runs ensures OnCourse(s'.trace, other, s'.runs[other], s'.disk) {
      OfJoins(s.trace, id, s.runs[id].job, [what], other);
      assert OnCourse(s.trace, other, s.runs[other], s.disk);
    }
  }

  /** The run that moved is on course after its step. */
  lemma MoverStaysOnCourse(trace: seq<Event>, id: RunId, run: Run, disk: Disk, ch: Choice)
    requires OnCourse(trace, id, run, disk) && !run.stage.Begin? && !run.stage.Closing?
    ensures var out := Advance(run, disk, ch);
            OnCourse(trace + Log(id, run.job, out.log), id, out.run, out.disk)
  {
    var out := Advance(run, disk, ch);
    AdvanceIsLawful(run, disk, ch);
    OfJoins(trace, id, run.job, out.log, id);
    if Going(run.stage) {
      AdvanceAchieves(run, disk, ch);
      AchievedJoins(Of(trace, id), out.log);
    } else {
      EndingGoesNowhere(run, disk, ch);
    }
  }

  lemma EndingGoesNowhere(run: Run, disk: Disk, ch: Choice)
    requires run.stage.Ending?
    ensures Advance(run, disk, ch).run.stage.Closing?
  {
  }

  /** So is every other run that holds a lock: it belongs to another connection. */
  lemma OthersStayOnCourse(trace: seq<Event>, id: RunId, run: Run, disk: Disk, ch: Choice, other: RunId, bystander: Run)
    requires OnCourse(trace, id, run, disk) && !run.stage.Begin? && !run.stage.Closing?
    requires OnCourse(trace, other, bystander, disk) && other != id
    requires bystander.stage.Begin? || bystander.job.conn != run.job.conn
    ensures var out := Advance(run, disk, ch);
            OnCourse(trace + Log(id, run.job, out.log), other, bystander, out.disk)
  {
    var out := Advance(run, disk, ch);
    AdvanceIsLawful(run, disk, ch);
    OfJoins(trace, id, run.job, out.log, other);
    if !bystander.stage.Begin? {
      SoundIsStable(bystander, run.job.conn, disk, out.disk);
    }
  }

  lemma SteppedKeepsInv(s: Sys, id: RunId, ch: Choice)
    requires Inv(s) && id in s.runs && !s.runs[id].stage.Begin? && !s.runs[id].stage.Closing?
    ensures Inv(Stepped(s, id, Advance(s.runs[id], s.disk, ch)))
  {
    var run := s.runs[id];
    assert OnCourse(s.trace, id, run, s.disk);
    AdvanceIsLawful(run, s.disk, ch);
    SteppedKeepsOrder(s, id, Advance(run, s.disk, ch));
    MoverStaysOnCourse(s.trace, id, run, s.disk, ch);
    forall other | other in s.runs && other != id
      ensures OnCourse(s.trace + Log(id, run.job, Advance(run, s.disk, ch).log), other, s.runs[other], Advance(run, s.disk, ch).disk)
    {
      assert OnCourse(s.trace, other, s.runs[other], s.disk);
      OthersStayOnCourse(s.trace, id, run, s.disk, ch, other, s.runs[other]);
    }
  }

  lemma SteppedKeepsOrder(s: Sys, id: RunId, out: Outcome)
    requires Exclusive(s) && Numbered(s) && id in s.runs && !s.runs[id].stage.Begin?
    requires out.run.job == s.runs[id].job && !out.run.stage.Begin?
    ensures Exclusive(Stepped(s, id, out)) && Numbered(Stepped(s, id, out))
  {
  }

  lemma LitterKeepsInv(s: Sys, dir: Dir)
    requires Inv(s)
    ensures Inv(Act(s, Litter(dir)))
  {
    var disk' := Act(s, Litter(dir)).disk;
    forall id | id in s.runs ensures Sound(s.runs[id], disk') {
      assert MarkerAt(disk'.dirs, dir) == MarkerAt(s.disk.dirs, dir);
    }
  }

  lemma ActKeepsInv(s: Sys, a: Action)
    requires Inv(s)
    ensures Inv(Act(s, a))
  {
    match a
    case Start(job) => StartKeepsInv(s, job);
    case Move(id, ch) =>
      if id in s.runs {
        if s.runs[id].stage.Begin? {
          BegunKeepsInv(s, id, ch);
        } else if s.runs[id].stage.Closing? {
          GoneKeepsInv(s, id, Returned(s.runs[id].stage.ok));
        } else {
          SteppedKeepsInv(s, id, ch);
        }
      }
    case Crash(id) => if id in s.runs && !s.runs[id].stage.Begin? { GoneKeepsInv(s, id, Crashed); }
    case Litter(dir) => LitterKeepsInv(s, dir);
  }

  lemma {:induction false} AlwaysInv(dirs: map<Dir, Content>, actions: seq<Action>)
    ensures Inv(After(Initial(dirs), actions))
  {
    if actions != [] {
      AlwaysInv(dirs, actions[..|actions| - 1]);
      ActKeepsInv(After(Initial(dirs), actions[..|actions| - 1]), actions[|actions| - 1]);
    }
  }

  /** All entries of a run carry the same job. */
  ghost predicate OneJob(trace: seq<Event>) {
    forall i, k :: 0 <= i < |trace| && 0 <= k < |trace| && trace[i].run == trace[k].run ==> trace[i].job == trace[k].job
  }

  lemma AppendKeepsOneJob(trace: seq<Event>, id: RunId, job: Job, log: seq<What>)
    requires OneJob(trace) && forall e :: e in trace && e.run == id ==> e.job == job
    ensures OneJob(trace + Log(id, job, log))
  {
    assert forall i :: 0 <= i < |trace| ==> trace[i] in trace;
  }

  lemma ActKeepsOneJob(s: Sys, a: Action)
    requires Inv(s) && OneJob(s.trace)
    ensures OneJob(Act(s, a).trace)
  {
    if (a.Move? || a.Crash?) && a.id in s.runs {
      var job := s.runs[a.id].job;
      if s.runs[a.id].stage.Begin? {
        if a.Move? { AppendKeepsOneJob(s.trace, a.id, job, [TookLock]); }
      } else if a.Crash? {
        AppendKeepsOneJob(s.trace, a.id, job, [Crashed]);
      } else if s.runs[a.id].stage.Closing? {
        AppendKeepsOneJob(s.trace, a.id, job, [Returned(s.runs[a.id].stage.ok)]);
      } else {
        AppendKeepsOneJob(s.trace, a.id, job, Advance(s.runs[a.id], s.disk, a.choice).log);
      }
    }
  }

  lemma {:induction false} AlwaysOneJob(dirs: map<Dir, Content>, actions: seq<Action>)
    ensures OneJob(After(Initial(dirs), actions).trace)
  {
    if actions != [] {
      AlwaysOneJob(dirs, actions[..|actions| - 1]);
      AlwaysInv(dirs, actions[..|actions| - 1]);
      ActKeepsOneJob(After(Initial(dirs), actions[..|actions| - 1]), actions[|actions| - 1]);
    }
  }
}
