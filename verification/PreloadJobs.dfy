/** Directory preload jobs: starting, monitoring, cancelling and finishing generations. */
module PreloadJobs {
  import opened Options

  type ConnectionId = nat
  type Generation = nat
  type CallerId = nat

  /** What the reference-counted control of one generation holds. */
  datatype Control = Control(conn: ConnectionId, cancelled: bool, done: bool)

  /** The shared registry, and every control ever handed out. */
  datatype Registry = Registry(next: Generation, active: map<ConnectionId, Generation>, controls: map<Generation, Control>)

  predicate IsActive(r: Registry, g: Generation) {
    g in r.controls && r.controls[g].conn in r.active && r.active[r.controls[g].conn] == g
  }

  predicate IsDone(r: Registry, g: Generation) {
    g in r.controls && r.controls[g].done
  }

  function Cancelled(r: Registry, g: Generation): Registry
    requires g in r.controls
  {
    r.(controls := r.controls[g := r.controls[g].(cancelled := true)])
  }

  function MarkedDone(r: Registry, g: Generation): Registry
    requires g in r.controls
  {
    r.(controls := r.controls[g := r.controls[g].(done := true)])
  }

  /** Remove `g` from the registry, unless a newer generation has taken its place. */
  function Unregistered(r: Registry, g: Generation): Registry {
    if IsActive(r, g) then r.(active := r.active - {r.controls[g].conn}) else r
  }

  /** A new generation replaces and cancels the registered one. */
  function Started(r: Registry, conn: ConnectionId): Registry {
    var r' := if conn in r.active && r.active[conn] in r.controls then Cancelled(r, r.active[conn]) else r;
    Registry(r.next + 1, r.active[conn := r.next], r'.controls[r.next := Control(conn, false, false)])
  }

  /** `ACTIVE_PRELOADS` and its operations, each under the registry's mutex. */
  class ActivePreloads {
    var next: Generation
    var active: map<ConnectionId, Generation>
    var controls: map<Generation, Control>

    function View(): Registry
      reads this
    {
      Registry(next, active, controls)
    }

    ghost predicate Valid()
      reads this
    {
      RegistryInv(View())
    }

    constructor ()
      ensures Valid() && View() == Registry(0, map[], map[])
    {
      next, active, controls := 0, map[], map[];
    }

    method Start(conn: ConnectionId, timeoutIsZero: bool) returns (job: Option<Generation>)
      requires Valid()
      modifies this
      ensures Valid()
      ensures timeoutIsZero ==> job.None? && View() == old(View())
      ensures !timeoutIsZero ==> job == Some(old(next)) && View() == Started(old(View()), conn)
    {
      if timeoutIsZero { return None; }
      if conn in active {
        var previous := active[conn];
        active := active - {conn};
        controls := controls[previous := controls[previous].(cancelled := true)];
      }
      var generation := next;
      next := next + 1;
      active := active[conn := generation];
      controls := controls[generation := Control(conn, false, false)];
      return Some(generation);
    }

    method CurrentControl(conn: ConnectionId, g: Generation) returns (control: Option<Generation>)
      requires Valid()
      ensures control == if g in controls && controls[g].conn == conn && IsActive(View(), g) then Some(g) else None
    {
      if conn in active && active[conn] == g { return Some(g); }
      return None;
    }

    method Finish(g: Generation)
      requires Valid() && g in controls
      modifies this`controls, this`active
      ensures Valid()
      ensures View() == Unregistered(MarkedDone(old(View()), g), g)
      ensures forall c :: c in old(active) && old(active[c]) != g ==> c in active && active[c] == old(active[c])
    {
      controls := controls[g := controls[g].(done := true)];
      var conn := controls[g].conn;
      if conn in active && active[conn] == g {
        active := active - {conn};
      }
    }
  }

  /** Registered generations exist and belong where they are registered; every other started
      generation has been cancelled or is done. */
  ghost predicate RegistryInv(r: Registry) {
    && (forall c :: c in r.active ==> r.active[c] in r.controls && r.controls[r.active[c]].conn == c)
    && (forall g :: g in r.controls ==> g < r.next)
    && (forall g :: g in r.controls && !IsActive(r, g) ==> r.controls[g].cancelled || r.controls[g].done)
  }

  // ------------------------------------------------------------------------------ all interleavings

  /** Where the one monitor of a generation is. */
  datatype Monitor =
    | Unmonitored
    | Admitted
    | Between                // alive, no command future outstanding
    | InCommand              // waiting for a command future, which is never dropped
    | Leaving                // about to finish
    | Noting                 // done is set, still registered
    | Over

  /** Where a `cancel_with_timeout` is.  `woken` says its armed notification has fired. */
  datatype Caller =
    | Holding(g: Generation)
    | Asked(g: Generation)
    | Armed(g: Generation, woken: bool)
    | Waiting(g: Generation, woken: bool)
    | Finishing(g: Generation)
    | Detaching(g: Generation)
    | Answered(result: CancelResult)

  datatype CancelResult = NothingActive | Stopped(g: Generation) | StillStopping(g: Generation)

  datatype Event =
    | Gated(g: Generation, online: bool)
    | Sent(g: Generation)
    | Resolved(g: Generation)
    | DoneByMonitor(g: Generation)
    | DoneByCaller(g: Generation)
    | Returned(caller: CallerId, result: CancelResult)

  datatype Sys = Sys(registry: Registry, monitors: map<Generation, Monitor>, callers: map<CallerId, Caller>, trace: seq<Event>)

  datatype Action =
    | Start(conn: ConnectionId)
    | Monitoring(g: Generation, online: bool)
    | Command(g: Generation)
    | Leave(g: Generation)
    | Cancel(caller: CallerId, conn: ConnectionId)
    | Proceed(caller: CallerId)
    | TimeOut(caller: CallerId)

  /** `notify_waiters`: every notification armed for this generation fires. */
  function Woken(callers: map<CallerId, Caller>, g: Generation): map<CallerId, Caller> {
    map id | id in callers ::
      match callers[id]
      case Armed(h, w) => Armed(h, w || h == g)
      case Waiting(h, w) => Waiting(h, w || h == g)
      case other => other
  }

  function MonitorStep(s: Sys, g: Generation, online: bool): Sys
    requires g in s.monitors && g in s.registry.controls
  {
    match s.monitors[g]
    case Unmonitored => s.(monitors := s.monitors[g := if IsActive(s.registry, g) then Admitted else Over])
    case Admitted =>
      s.(monitors := s.monitors[g := if online then Between else Leaving], trace := s.trace + [Gated(g, online)])
    case Leaving =>
      s.(registry := MarkedDone(s.registry, g), monitors := s.monitors[g := Noting],
         callers := Woken(s.callers, g), trace := s.trace + [DoneByMonitor(g)])
    case Noting => s.(registry := Unregistered(s.registry, g), monitors := s.monitors[g := Over])
    case _ => s
  }

  function CommandStep(s: Sys, g: Generation): Sys
    requires g in s.monitors
  {
    match s.monitors[g]
    case Between => s.(monitors := s.monitors[g := InCommand], trace := s.trace + [Sent(g)])
    case InCommand => s.(monitors := s.monitors[g := Between], trace := s.trace + [Resolved(g)])
    case _ => s
  }

  function Answer(s: Sys, id: CallerId, result: CancelResult): Sys {
    s.(callers := s.callers[id := Answered(result)], trace := s.trace + [Returned(id, result)])
  }

  function CallerStep(s: Sys, id: CallerId): Sys
    requires id in s.callers
  {
    match s.callers[id]
    case Holding(g) =>
      if g in s.registry.controls then s.(registry := Cancelled(s.registry, g), callers := s.callers[id := Asked(g)]) else s
    case Asked(g) => s.(callers := s.callers[id := Armed(g, false)])
    case Armed(g, woken) =>
      s.(callers := s.callers[id := if IsDone(s.registry, g) then Finishing(g) else Waiting(g, woken)])
    case Waiting(g, woken) => if woken then s.(callers := s.callers[id := Finishing(g)]) else s
    case Finishing(g) =>
      if g in s.registry.controls then
        s.(registry := MarkedDone(s.registry, g), callers := Woken(s.callers[id := Detaching(g)], g),
           trace := s.trace + [DoneByCaller(g)])
      else s
    case Detaching(g) => Answer(s.(registry := Unregistered(s.registry, g)), id, Stopped(g))
    case Answered(_) => s
  }

  function Act(s: Sys, a: Action): Sys {
    match a
    case Start(conn) =>
      s.(registry := Started(s.registry, conn), monitors := s.monitors[s.registry.next := Unmonitored])
    case Monitoring(g, online) => if g in s.monitors && g in s.registry.controls then MonitorStep(s, g, online) else s
    case Command(g) => if g in s.monitors then CommandStep(s, g) else s
    case Leave(g) => if g in s.monitors && s.monitors[g].Between? then s.(monitors := s.monitors[g := Leaving]) else s
    case Cancel(id, conn) =>
      if id in s.callers then s
      else if conn in s.registry.active then s.(callers := s.callers[id := Holding(s.registry.active[conn])])
      else Answer(s, id, NothingActive)
    case Proceed(id) => if id in s.callers then CallerStep(s, id) else s
    case TimeOut(id) =>
      if id in s.callers && s.callers[id].Waiting? then
        var g := s.callers[id].g;
        if IsDone(s.registry, g) then s.(callers := s.callers[id := Finishing(g)]) else Answer(s, id, StillStopping(g))
      else s
  }

  const EMPTY := Sys(Registry(0, map[], map[]), map[], map[], [])

  function After(actions: seq<Action>): Sys {
    if actions == [] then EMPTY
    else Act(After(actions[..|actions| - 1]), actions[|actions| - 1])
  }

  // ------------------------------------------------------------------------------------ invariant

  /** A monitor past its last command is the only one that can have set `done` first. */
  predicate MonitorFollows(r: Registry, g: Generation, monitor: Monitor) {
    && (IsDone(r, g) ==> monitor.Noting? || monitor.Over?)
    && (monitor.Noting? ==> IsDone(r, g))
  }

  /** A caller only ever finishes a generation that is done already, and whoever still waits
      for a generation that is done has been woken. */
  predicate CallerFollows(r: Registry, caller: Caller) {
    match caller
    case Holding(g) => g in r.controls
    case Asked(g) => g in r.controls
    case Armed(g, woken) => g in r.controls && (woken ==> IsDone(r, g))
    case Waiting(g, woken) => g in r.controls && (woken <==> IsDone(r, g))
    case Finishing(g) => IsDone(r, g)
    case Detaching(g) => IsDone(r, g)
    case Answered(_) => true
  }

  ghost predicate Inv(s: Sys) {
    && RegistryInv(s.registry)
    && s.monitors.Keys == s.registry.controls.Keys
    && (forall g :: g in s.monitors ==> MonitorFollows(s.registry, g, s.monitors[g]))
    && (forall id :: id in s.callers ==> CallerFollows(s.registry, s.callers[id]))
  }

  /** A step that neither sets `done` nor forgets a control leaves everybody following. */
  lemma QuietStep(r: Registry, r': Registry)
    requires forall g :: g in r.controls ==> g in r'.controls && r'.controls[g].done == r.controls[g].done
    requires forall g :: g in r'.controls && g !in r.controls ==> !r'.controls[g].done
    ensures forall g :: IsDone(r', g) == IsDone(r, g)
    ensures forall caller :: CallerFollows(r, caller) ==> CallerFollows(r', caller)
    ensures forall g, monitor :: MonitorFollows(r, g, monitor) ==> MonitorFollows(r', g, monitor)
  {
  }

  lemma StartKeepsInv(s: Sys, conn: ConnectionId)
    requires Inv(s)
    ensures Inv(Act(s, Start(conn)))
  {
    QuietStep(s.registry, Started(s.registry, conn));
    StartKeepsRegistry(s.registry, conn);
  }

  lemma StartKeepsRegistry(r: Registry, conn: ConnectionId)
    requires RegistryInv(r)
    ensures RegistryInv(Started(r, conn))
  {
  }

  lemma CancelKeepsRegistry(r: Registry, g: Generation)
    requires RegistryInv(r) && g in r.controls
    ensures RegistryInv(Cancelled(r, g)) && RegistryInv(MarkedDone(r, g))
  {
    assert forall h :: h in r.controls ==> IsActive(Cancelled(r, g), h) == IsActive(r, h);
    assert forall h :: h in r.controls ==> IsActive(MarkedDone(r, g), h) == IsActive(r, h);
  }

  lemma UnregisterKeepsRegistry(r: Registry, g: Generation)
    requires RegistryInv(r) && IsDone(r, g)
    ensures RegistryInv(Unregistered(r, g))
  {
    var r' := Unregistered(r, g);
    assert forall h :: h in r.controls && IsActive(r, h) && h != g ==> IsActive(r', h);
  }

  /** Setting `done` and firing the armed notifications keeps every caller following. */
  lemma WakingKeepsCallers(r: Registry, callers: map<CallerId, Caller>, g: Generation)
    requires g in r.controls && forall id :: id in callers ==> CallerFollows(r, callers[id])
    ensures forall id :: id in callers ==> CallerFollows(MarkedDone(r, g), Woken(callers, g)[id])
  {
  }

  lemma DoneKeepsMonitors(r: Registry, monitors: map<Generation, Monitor>, g: Generation)
    requires g in monitors && g in r.controls && (monitors[g].Noting? || monitors[g].Over?)
    requires forall h :: h in monitors && h != g ==> MonitorFollows(r, h, monitors[h])
    ensures forall h :: h in monitors ==> MonitorFollows(MarkedDone(r, g), h, monitors[h])
  {
    assert forall h :: h != g ==> IsDone(MarkedDone(r, g), h) == IsDone(r, h);
  }

  lemma MonitorKeepsInv(s: Sys, g: Generation, online: bool)
    requires Inv(s) && g in s.monitors && g in s.registry.controls
    ensures Inv(MonitorStep(s, g, online))
  {
    assert MonitorFollows(s.registry, g, s.monitors[g]);
    match s.monitors[g]
    case Leaving =>
      CancelKeepsRegistry(s.registry, g);
      WakingKeepsCallers(s.registry, s.callers, g);
      DoneKeepsMonitors(s.registry, s.monitors[g := Noting], g);
    case Noting =>
      UnregisterKeepsRegistry(s.registry, g);
      QuietStep(s.registry, Unregistered(s.registry, g));
    case _ =>
  }

  lemma CallerKeepsInv(s: Sys, id: CallerId)
    requires Inv(s) && id in s.callers
    ensures Inv(CallerStep(s, id))
  {
    assert CallerFollows(s.registry, s.callers[id]);
    match s.callers[id]
    case Holding(g) =>
      CancelKeepsRegistry(s.registry, g);
      QuietStep(s.registry, Cancelled(s.registry, g));
    case Finishing(g) =>
      assert MonitorFollows(s.registry, g, s.monitors[g]);
      CancelKeepsRegistry(s.registry, g);
      WakingKeepsCallers(s.registry, s.callers[id := Detaching(g)], g);
      DoneKeepsMonitors(s.registry, s.monitors, g);
    case Detaching(g) =>
      UnregisterKeepsRegistry(s.registry, g);
      QuietStep(s.registry, Unregistered(s.registry, g));
    case _ =>
  }

  lemma WorkKeepsInv(s: Sys, a: Action)
    requires Inv(s) && (a.Command? || a.Leave?)
    ensures Inv(Act(s, a))
  {
    if a.g in s.monitors { assert MonitorFollows(s.registry, a.g, s.monitors[a.g]); }
  }

  lemma CallKeepsInv(s: Sys, a: Action)
    requires Inv(s) && (a.Cancel? || a.TimeOut?)
    ensures Inv(Act(s, a))
  {
  }

  lemma ActKeepsInv(s: Sys, a: Action)
    requires Inv(s)
    ensures Inv(Act(s, a))
  {
    match a
    case Start(conn) => StartKeepsInv(s, conn);
    case Monitoring(g, online) => if g in s.monitors && g in s.registry.controls { MonitorKeepsInv(s, g, online); }
    case Command(g) => WorkKeepsInv(s, a);
    case Leave(g) => WorkKeepsInv(s, a);
    case Cancel(id, conn) => CallKeepsInv(s, a);
    case Proceed(id) => if id in s.callers { CallerKeepsInv(s, id); }
    case TimeOut(id) => CallKeepsInv(s, a);
  }

  lemma {:induction false} AlwaysInv(actions: seq<Action>)
    ensures Inv(After(actions))
  {
    if actions != [] {
      AlwaysInv(actions[..|actions| - 1]);
      ActKeepsInv(After(actions[..|actions| - 1]), actions[|actions| - 1]);
    }
  }

  /** A registered generation leaves the registry only when a newer one replaces it or when it
      is done; so a late `finish` of an older generation never unregisters a newer one. */
  lemma {:induction false} RegisteredUntilDoneOrReplaced(actions: seq<Action>, a: Action, conn: ConnectionId)
    requires conn in After(actions).registry.active
    ensures var s := After(actions);
            var s' := Act(s, a);
            a == Start(conn) || (conn in s'.registry.active && s'.registry.active[conn] == s.registry.active[conn])
            || IsDone(s.registry, s.registry.active[conn])
  {
    var s := After(actions);
    AlwaysInv(actions);
    if a.Proceed? && a.caller in s.callers { assert CallerFollows(s.registry, s.callers[a.caller]); }
    if a.Monitoring? && a.g in s.monitors { assert MonitorFollows(s.registry, a.g, s.monitors[a.g]); }
  }

  /** Every generation that was started and is no longer registered is cancelled or done. */
  lemma UnregisteredIsCancelledOrDone(actions: seq<Action>, g: Generation)
    requires g in After(actions).registry.controls && !IsActive(After(actions).registry, g)
    ensures After(actions).registry.controls[g].cancelled || After(actions).registry.controls[g].done
  {
    AlwaysInv(actions);
  }

  // ---------------------------------------------------------------------- what a cancel promises

  /** Command futures of `g` sent and not yet resolved. */
  function InFlight(trace: seq<Event>, g: Generation): int {
    if trace == [] then 0
    else
      InFlight(trace[..|trace| - 1], g)
      + if trace[|trace| - 1] == Sent(g) then 1 else if trace[|trace| - 1] == Resolved(g) then -1 else 0
  }

  predicate IsCommand(e: Event, g: Generation) { e == Sent(g) || e == Resolved(g) }

  /** What an entry of the trace says about the entries before it. */
  ghost predicate Explained(before: seq<Event>, e: Event) {
    match e
    case Sent(g) => DoneByMonitor(g) !in before && Gated(g, true) in before
    case Resolved(g) => DoneByMonitor(g) !in before
    case DoneByMonitor(g) => InFlight(before, g) == 0 && DoneByMonitor(g) !in before
    case DoneByCaller(g) => DoneByMonitor(g) in before
    case Returned(_, Stopped(g)) => DoneByMonitor(g) in before && InFlight(before, g) == 0
    case Returned(_, StillStopping(g)) => DoneByMonitor(g) !in before
    case _ => true
  }

  /** Commands outstanding, as the monitors show it. */
  function Outstanding(monitors: map<Generation, Monitor>, g: Generation): int {
    if g in monitors && monitors[g].InCommand? then 1 else 0
  }

  function Change(e: Event, g: Generation): int {
    if e == Sent(g) then 1 else if e == Resolved(g) then -1 else 0
  }

  ghost predicate AllExplained(trace: seq<Event>) {
    forall k :: 0 <= k < |trace| ==> Explained(trace[..k], trace[k])
  }

  predicate IsWorking(monitor: Monitor) { monitor.Between? || monitor.InCommand? }

  ghost predicate TraceInv(s: Sys) {
    && (forall g :: IsDone(s.registry, g) <==> DoneByMonitor(g) in s.trace)
    && (forall g :: InFlight(s.trace, g) == Outstanding(s.monitors, g))
    && (forall g :: g in s.monitors && IsWorking(s.monitors[g]) ==> Gated(g, true) in s.trace)
    && AllExplained(s.trace)
  }

  lemma AppendExplained(trace: seq<Event>, e: Event)
    requires AllExplained(trace) && Explained(trace, e)
    ensures AllExplained(trace + [e])
    ensures forall g :: InFlight(trace + [e], g) == InFlight(trace, g) + Change(e, g)
  {
    forall k | 0 <= k < |trace + [e]| ensures Explained((trace + [e])[..k], (trace + [e])[k]) {
      assert (trace + [e])[..k] == trace[..k];
    }
    assert (trace + [e])[..|trace|] == trace;
  }

  /** A step that logs nothing and moves no monitor into or out of a command. */
  lemma SilentKeepsTrace(s: Sys, s': Sys)
    requires TraceInv(s) && s'.trace == s.trace
    requires forall g :: IsDone(s'.registry, g) == IsDone(s.registry, g)
    requires forall g :: Outstanding(s'.monitors, g) == Outstanding(s.monitors, g)
    requires forall g :: g in s'.monitors && IsWorking(s'.monitors[g]) ==> g in s.monitors && IsWorking(s.monitors[g])
    ensures TraceInv(s')
  {
  }

  lemma LoudKeepsTrace(s: Sys, s': Sys, e: Event)
    requires TraceInv(s) && s'.trace == s.trace + [e] && Explained(s.trace, e)
    requires forall g :: IsDone(s'.registry, g) <==> IsDone(s.registry, g) || e == DoneByMonitor(g)
    requires forall g :: Outstanding(s'.monitors, g) == Outstanding(s.monitors, g) + Change(e, g)
    requires forall g :: g in s'.monitors && IsWorking(s'.monitors[g]) ==>
               (g in s.monitors && IsWorking(s.monitors[g])) || e == Gated(g, true)
    ensures TraceInv(s')
  {
    AppendExplained(s.trace, e);
  }

  lemma GateKeepsTrace(s: Sys, g: Generation, online: bool)
    requires Inv(s) && TraceInv(s) && g in s.monitors && g in s.registry.controls && s.monitors[g].Admitted?
    ensures TraceInv(MonitorStep(s, g, online))
  {
    assert Outstanding(s.monitors, g) == 0;
    LoudKeepsTrace(s, MonitorStep(s, g, online), Gated(g, online));
  }

  lemma DoneKeepsTrace(s: Sys, g: Generation, online: bool)
    requires Inv(s) && TraceInv(s) && g in s.monitors && g in s.registry.controls && s.monitors[g].Leaving?
    ensures TraceInv(MonitorStep(s, g, online))
  {
    assert MonitorFollows(s.registry, g, s.monitors[g]);
    assert Outstanding(s.monitors, g) == 0;
    LoudKeepsTrace(s, MonitorStep(s, g, online), DoneByMonitor(g));
  }

  lemma MonitorKeepsTrace(s: Sys, g: Generation, online: bool)
    requires Inv(s) && TraceInv(s) && g in s.monitors && g in s.registry.controls
    ensures TraceInv(MonitorStep(s, g, online))
  {
    if s.monitors[g].Leaving? {
      DoneKeepsTrace(s, g, online);
    } else if s.monitors[g].Admitted? {
      GateKeepsTrace(s, g, online);
    } else {
      SilentKeepsTrace(s, MonitorStep(s, g, online));
    }
  }

  lemma CommandKeepsTrace(s: Sys, g: Generation)
    requires Inv(s) && TraceInv(s) && g in s.monitors
    ensures TraceInv(CommandStep(s, g))
  {
    assert MonitorFollows(s.registry, g, s.monitors[g]);
    if s.monitors[g].Between? {
      LoudKeepsTrace(s, CommandStep(s, g), Sent(g));
    } else if s.monitors[g].InCommand? {
      LoudKeepsTrace(s, CommandStep(s, g), Resolved(g));
    }
  }

  lemma CallerKeepsTrace(s: Sys, id: CallerId)
    requires Inv(s) && TraceInv(s) && id in s.callers
    ensures TraceInv(CallerStep(s, id))
  {
    var s' := CallerStep(s, id);
    assert CallerFollows(s.registry, s.callers[id]);
    match s.callers[id]
    case Finishing(g) => LoudKeepsTrace(s, s', DoneByCaller(g));
    case Detaching(g) =>
      assert MonitorFollows(s.registry, g, s.monitors[g]);
      assert Outstanding(s.monitors, g) == 0;
      LoudKeepsTrace(s, s', Returned(id, Stopped(g)));
    case _ => SilentKeepsTrace(s, s');
  }

  lemma CallActsKeepTrace(s: Sys, a: Action)
    requires Inv(s) && TraceInv(s) && (a.Cancel? || a.TimeOut?)
    ensures TraceInv(Act(s, a))
  {
    var s' := Act(s, a);
    if s'.trace == s.trace {
      SilentKeepsTrace(s, s');
    } else if a.Cancel? {
      LoudKeepsTrace(s, s', Returned(a.caller, NothingActive));
    } else {
      LoudKeepsTrace(s, s', Returned(a.caller, StillStopping(s.callers[a.caller].g)));
    }
  }

  lemma OtherActsKeepTrace(s: Sys, a: Action)
    requires Inv(s) && TraceInv(s) && (a.Start? || a.Leave?)
    ensures TraceInv(Act(s, a))
  {
    SilentKeepsTrace(s, Act(s, a));
  }

  lemma ActKeepsTrace(s: Sys, a: Action)
    requires Inv(s) && TraceInv(s)
    ensures TraceInv(Act(s, a))
  {
    match a
    case Monitoring(g, online) => if g in s.monitors && g in s.registry.controls { MonitorKeepsTrace(s, g, online); }
    case Command(g) => if g in s.monitors { CommandKeepsTrace(s, g); }
    case Proceed(id) => if id in s.callers { CallerKeepsTrace(s, id); }
    case Start(_) => OtherActsKeepTrace(s, a);
    case Leave(_) => OtherActsKeepTrace(s, a);
    case _ => CallActsKeepTrace(s, a);
  }

  lemma {:induction false} AlwaysTraced(actions: seq<Action>)
    ensures TraceInv(After(actions))
  {
    if actions != [] {
      AlwaysInv(actions[..|actions| - 1]);
      AlwaysTraced(actions[..|actions| - 1]);
      ActKeepsTrace(After(actions[..|actions| - 1]), actions[|actions| - 1]);
    }
  }

  /** For every interleaving: when a cancel reports that the registered generation has stopped,
      that generation's own monitor was the first to set `done`, none of its commands is
      outstanding, and none is sent or resolved at any later time. */
  lemma StoppedMeansNoCommands(actions: seq<Action>, k: nat, caller: CallerId, g: Generation)
    requires k < |After(actions).trace| && After(actions).trace[k] == Returned(caller, Stopped(g))
    ensures var trace := After(actions).trace;
            && InFlight(trace[..k], g) == 0
            && (forall j :: k <= j < |trace| ==> !IsCommand(trace[j], g))
            && (exists i :: 0 <= i < k && trace[i] == DoneByMonitor(g)
                  && (forall j :: 0 <= j < i ==> trace[j] != DoneByMonitor(g) && trace[j] != DoneByCaller(g)))
  {
    var trace := After(actions).trace;
    AlwaysTraced(actions);
    assert Explained(trace[..k], trace[k]);
    assert DoneByMonitor(g) in trace[..k];
    var i :| 0 <= i < k && trace[i] == DoneByMonitor(g);
    assert Explained(trace[..i], trace[i]);
    forall j | 0 <= j < i ensures trace[j] != DoneByMonitor(g) && trace[j] != DoneByCaller(g) {
      assert trace[j] in trace[..i];
      assert Explained(trace[..j], trace[j]);
      assert forall e :: e in trace[..j] ==> e in trace[..i];
    }
    forall j | k <= j < |trace| ensures !IsCommand(trace[j], g) {
      assert Explained(trace[..j], trace[j]);
      assert trace[i] in trace[..j];
    }
  }

  // ------------------------------------------------------------------ what a cancel has done

  predicate IsCancelled(r: Registry, g: Generation) { g in r.controls && r.controls[g].cancelled }

  /** A call that has got past reading the registry has cancelled the generation it read. */
  predicate HasCancelled(r: Registry, caller: Caller) {
    match caller
    case Holding(_) => true
    case Asked(g) => IsCancelled(r, g)
    case Armed(g, _) => IsCancelled(r, g)
    case Waiting(g, _) => IsCancelled(r, g)
    case Finishing(g) => IsCancelled(r, g)
    case Detaching(g) => IsCancelled(r, g)
    case Answered(_) => true
  }

  /** What an answer has behind it: the generation is cancelled, and a stopped one has left the registry. */
  predicate AnswerHolds(r: Registry, e: Event) {
    match e
    case Returned(_, Stopped(g)) => IsCancelled(r, g) && !IsActive(r, g)
    case Returned(_, StillStopping(g)) => IsCancelled(r, g)
    case _ => true
  }

  ghost predicate CallsHaveCancelled(s: Sys) {
    && (forall id :: id in s.callers ==> HasCancelled(s.registry, s.callers[id]))
    && (forall e :: e in s.trace ==> AnswerHolds(s.registry, e))
  }

  /** Nothing that happens to the registry takes a cancellation back or registers a generation again. */
  ghost predicate Advances(r: Registry, r': Registry) {
    forall g :: g in r.controls ==>
      g in r'.controls && (IsCancelled(r, g) ==> IsCancelled(r', g)) && (!IsActive(r, g) ==> !IsActive(r', g))
  }

  lemma AdvancesKeeps(r: Registry, r': Registry)
    requires Advances(r, r')
    ensures forall caller :: HasCancelled(r, caller) ==> HasCancelled(r', caller)
    ensures forall e :: AnswerHolds(r, e) ==> AnswerHolds(r', e)
  {
  }

  lemma OperationsAdvance(r: Registry, g: Generation)
    requires RegistryInv(r) && g in r.controls
    ensures Advances(r, Cancelled(r, g)) && Advances(r, MarkedDone(r, g)) && Advances(r, Unregistered(r, g))
  {
  }

  lemma StartAdvances(r: Registry, conn: ConnectionId)
    requires RegistryInv(r)
    ensures Advances(r, Started(r, conn))
  {
  }

  lemma RegistryAdvances(s: Sys, a: Action)
    requires Inv(s)
    ensures Advances(s.registry, Act(s, a).registry)
  {
    match a
    case Start(conn) => StartAdvances(s.registry, conn);
    case Monitoring(g, online) => if g in s.monitors && g in s.registry.controls { MonitorAdvances(s, g, online); }
    case Proceed(id) => if id in s.callers { CallerAdvances(s, id); }
    case _ => OtherKeepsRegistry(s, a);
  }

  lemma OtherKeepsRegistry(s: Sys, a: Action)
    requires !a.Start? && !a.Monitoring? && !a.Proceed?
    ensures Act(s, a).registry == s.registry
  {
  }

  lemma MonitorAdvances(s: Sys, g: Generation, online: bool)
    requires RegistryInv(s.registry) && g in s.monitors && g in s.registry.controls
    ensures Advances(s.registry, MonitorStep(s, g, online).registry)
  {
    OperationsAdvance(s.registry, g);
  }

  lemma CallerAdvances(s: Sys, id: CallerId)
    requires Inv(s) && id in s.callers
    ensures Advances(s.registry, CallerStep(s, id).registry)
  {
    assert CallerFollows(s.registry, s.callers[id]);
    if !s.callers[id].Answered? { OperationsAdvance(s.registry, s.callers[id].g); }
  }

  /** Waking the callers takes nobody back behind its cancellation. */
  lemma WokenHaveCancelled(r: Registry, callers: map<CallerId, Caller>, g: Generation)
    requires forall id :: id in callers ==> HasCancelled(r, callers[id])
    ensures forall id :: id in callers ==> HasCancelled(r, Woken(callers, g)[id])
  {
  }

  /** The step moves callers only to where they have cancelled, and answers only what holds. */
  ghost predicate Honest(s: Sys, s': Sys) {
    && (forall id :: id in s'.callers ==> HasCancelled(s'.registry, s'.callers[id]))
    && (forall e :: e in s'.trace && e !in s.trace ==> AnswerHolds(s'.registry, e))
  }

  lemma CallerIsHonest(s: Sys, id: CallerId)
    requires Inv(s) && id in s.callers
    requires forall other :: other in s.callers ==> HasCancelled(CallerStep(s, id).registry, s.callers[other])
    requires HasCancelled(s.registry, s.callers[id])
    ensures Honest(s, CallerStep(s, id))
  {
    assert CallerFollows(s.registry, s.callers[id]);
    match s.callers[id]
    case Finishing(g) => WokenHaveCancelled(CallerStep(s, id).registry, s.callers[id := Detaching(g)], g);
    case _ =>
  }

  lemma MonitorIsHonest(s: Sys, g: Generation, online: bool)
    requires g in s.monitors && g in s.registry.controls
    requires forall id :: id in s.callers ==> HasCancelled(MonitorStep(s, g, online).registry, s.callers[id])
    ensures Honest(s, MonitorStep(s, g, online))
  {
    WokenHaveCancelled(MonitorStep(s, g, online).registry, s.callers, g);
  }

  lemma OtherIsHonest(s: Sys, a: Action)
    requires !a.Proceed? && !a.Monitoring?
    requires forall id :: id in s.callers ==> HasCancelled(s.registry, s.callers[id])
    requires forall id :: id in s.callers ==> HasCancelled(Act(s, a).registry, s.callers[id])
    ensures Honest(s, Act(s, a))
  {
    if a.TimeOut? && a.caller in s.callers { assert HasCancelled(s.registry, s.callers[a.caller]); }
  }

  lemma StepCancels(s: Sys, a: Action)
    requires Inv(s) && CallsHaveCancelled(s)
    ensures CallsHaveCancelled(Act(s, a))
  {
    RegistryAdvances(s, a);
    AdvancesKeeps(s.registry, Act(s, a).registry);
    match a
    case Proceed(id) => if id in s.callers { CallerIsHonest(s, id); }
    case Monitoring(g, online) => if g in s.monitors && g in s.registry.controls { MonitorIsHonest(s, g, online); }
    case _ => OtherIsHonest(s, a);
  }

  /** In every reachable state each call past its first step has cancelled the generation it is about;
      every answer `stopped` or `still stopping` leaves that generation cancelled for good, and a
      stopped one out of the registry for good. */
  lemma {:induction false} CancelCancels(actions: seq<Action>)
    ensures CallsHaveCancelled(After(actions))
  {
    if actions != [] {
      var before, a := actions[..|actions| - 1], actions[|actions| - 1];
      CancelCancels(before);
      AlwaysInv(before);
      StepCancels(After(before), a);
    }
  }

  // ------------------------------------------------------------------------------------- progress

  /** How many own steps a call is away from its answer. */
  function StepsLeft(caller: Caller): nat {
    match caller
    case Holding(_) => 6
    case Asked(_) => 5
    case Armed(_, _) => 4
    case Waiting(_, _) => 3
    case Finishing(_) => 2
    case Detaching(_) => 1
    case Answered(_) => 0
  }

  lemma WakingDoesNotDelay(callers: map<CallerId, Caller>, g: Generation, id: CallerId)
    requires id in callers
    ensures id in Woken(callers, g) && StepsLeft(Woken(callers, g)[id]) == StepsLeft(callers[id])
  {
  }

  lemma MonitorsDoNotDelay(s: Sys, g: Generation, online: bool, id: CallerId)
    requires id in s.callers && g in s.monitors && g in s.registry.controls
    ensures id in MonitorStep(s, g, online).callers
    ensures StepsLeft(MonitorStep(s, g, online).callers[id]) == StepsLeft(s.callers[id])
  {
    WakingDoesNotDelay(s.callers, g, id);
  }

  lemma CallsDoNotDelay(s: Sys, other: CallerId, id: CallerId)
    requires id in s.callers && other in s.callers
    ensures id in CallerStep(s, other).callers
    ensures StepsLeft(CallerStep(s, other).callers[id]) <= StepsLeft(s.callers[id])
  {
    if s.callers[other].Finishing? {
      var g := s.callers[other].g;
      WakingDoesNotDelay(s.callers[other := Detaching(g)], g, id);
    }
  }

  lemma OthersDoNotDelay(s: Sys, a: Action, id: CallerId)
    requires id in s.callers
    ensures id in Act(s, a).callers && StepsLeft(Act(s, a).callers[id]) <= StepsLeft(s.callers[id])
  {
    match a
    case Monitoring(g, online) => if g in s.monitors && g in s.registry.controls { MonitorsDoNotDelay(s, g, online, id); }
    case Proceed(other) => if other in s.callers { CallsDoNotDelay(s, other, id); }
    case _ =>
  }

  /** The own step of a call, or the timeout where it waits. */
  function OwnAction(caller: Caller, id: CallerId): Action { if caller.Waiting? then TimeOut(id) else Proceed(id) }

  lemma OwnStepHelps(s: Sys, id: CallerId)
    requires Inv(s) && id in s.callers && !s.callers[id].Answered?
    ensures var next := Act(s, OwnAction(s.callers[id], id)).callers;
            id in next && StepsLeft(next[id]) < StepsLeft(s.callers[id])
  {
  }

  lemma WaitingEnds(s: Sys, id: CallerId)
    requires id in s.callers && s.callers[id].Waiting? && CallerFollows(s.registry, s.callers[id])
    ensures var g := s.callers[id].g;
            if IsDone(s.registry, g) then Act(s, Proceed(id)).callers[id] == Finishing(g)
            else Act(s, TimeOut(id)).callers[id] == Answered(StillStopping(g))
  {
  }

  /** Every call comes to an answer: in every reachable state its own step, or the timeout where it
      waits, brings it nearer, a timeout before `done` answers at once, and nobody sets it back. */
  lemma CallsAreAnswered(actions: seq<Action>, id: CallerId, a: Action)
    requires id in After(actions).callers
    ensures var s := After(actions);
            var caller := s.callers[id];
            var next := Act(s, OwnAction(caller, id)).callers;
            && (!caller.Answered? ==> id in next && StepsLeft(next[id]) < StepsLeft(caller))
            && (caller.Waiting? ==>
                  if IsDone(s.registry, caller.g) then Act(s, Proceed(id)).callers[id] == Finishing(caller.g)
                  else Act(s, TimeOut(id)).callers[id] == Answered(StillStopping(caller.g)))
            && id in Act(s, a).callers && StepsLeft(Act(s, a).callers[id]) <= StepsLeft(caller)
  {
    AlwaysInv(actions);
    var s := After(actions);
    OthersDoNotDelay(s, a, id);
    if !s.callers[id].Answered? { OwnStepHelps(s, id); }
    if s.callers[id].Waiting? { WaitingEnds(s, id); }
  }

  /** How far a monitor that sends no further command is from its end. */
  function MonitorStepsLeft(monitor: Monitor): nat {
    match monitor
    case Unmonitored => 6
    case Admitted => 5
    case InCommand => 4
    case Between => 3
    case Leaving => 2
    case Noting => 1
    case Over => 0
  }

  /** The own step of a monitor on its way out. */
  function WayOut(monitor: Monitor, g: Generation, online: bool): Action {
    if monitor.InCommand? then Command(g) else if monitor.Between? then Leave(g) else Monitoring(g, online)
  }

  lemma WayOutHelps(s: Sys, g: Generation, online: bool)
    requires g in s.monitors && g in s.registry.controls
    ensures var next := Act(s, WayOut(s.monitors[g], g, online));
            && g in next.monitors
            && (!s.monitors[g].Over? ==> MonitorStepsLeft(next.monitors[g]) < MonitorStepsLeft(s.monitors[g]))
            && (s.monitors[g].Leaving? ==> IsDone(next.registry, g))
            && (s.monitors[g].Noting? ==> !IsActive(next.registry, g))
  {
  }

  /** Every monitor can come to its end by its own steps; on the way it sets `done` and then takes its
      generation out of the registry. */
  lemma MonitorsEnd(actions: seq<Action>, g: Generation, online: bool)
    requires g in After(actions).monitors
    ensures var s := After(actions);
            var next := Act(s, WayOut(s.monitors[g], g, online));
            && g in next.monitors
            && (!s.monitors[g].Over? ==> MonitorStepsLeft(next.monitors[g]) < MonitorStepsLeft(s.monitors[g]))
            && (s.monitors[g].Leaving? ==> IsDone(next.registry, g))
            && (s.monitors[g].Noting? ==> !IsActive(next.registry, g))
  {
    AlwaysInv(actions);
    WayOutHelps(After(actions), g, online);
  }

  // -------------------------------------------------------------- when an unmount may go ahead

  lemma Then(actions: seq<Action>, a: Action)
    ensures After(actions + [a]) == Act(After(actions), a)
  {
    assert (actions + [a])[..|actions|] == actions;
  }

  lemma InFlightJoins(trace: seq<Event>, e: Event, g: Generation)
    ensures InFlight(trace + [e], g) == InFlight(trace, g) + Change(e, g)
  {
    assert (trace + [e])[..|trace|] == trace;
  }

  predicate Belongs(r: Registry, g: Generation, conn: ConnectionId) {
    g in r.controls && r.controls[g].conn == conn
  }

  /** A monitor that may still send a command or has one outstanding. */
  predicate IsLive(monitor: Monitor) { monitor.Admitted? || monitor.Between? || monitor.InCommand? }

  /** A generation that is no longer registered and will never send a command again. */
  predicate IsSettled(s: Sys, g: Generation) {
    g in s.registry.controls && g in s.monitors && !IsActive(s.registry, g) && !IsLive(s.monitors[g])
  }

  /** No generation of the connection but the registered one is live. */
  ghost predicate NoOrphans(s: Sys, conn: ConnectionId) {
    forall g :: Belongs(s.registry, g, conn) && !IsActive(s.registry, g) ==> IsSettled(s, g)
  }

  /** A step of the jobs leaves a settled generation settled and logs no command of it. */
  ghost predicate LeavesSettled(s: Sys, s': Sys, g: Generation) {
    && IsSettled(s', g) && s.trace <= s'.trace
    && forall j :: |s.trace| <= j < |s'.trace| ==> !IsCommand(s'.trace[j], g)
  }

  lemma MonitorLeavesSettled(s: Sys, a: Action, g: Generation)
    requires Inv(s) && IsSettled(s, g) && (a.Monitoring? || a.Command? || a.Leave?)
    ensures LeavesSettled(s, Act(s, a), g)
  {
  }

  lemma CallerLeavesSettled(s: Sys, a: Action, g: Generation)
    requires Inv(s) && IsSettled(s, g) && (a.Cancel? || a.Proceed? || a.TimeOut?)
    ensures LeavesSettled(s, Act(s, a), g)
  {
  }

  lemma SettledStays(s: Sys, a: Action, g: Generation)
    requires Inv(s) && IsSettled(s, g)
    ensures LeavesSettled(s, Act(s, a), g)
  {
    match a
    case Start(_) => assert g < s.registry.next;
    case Monitoring(_, _) => MonitorLeavesSettled(s, a, g);
    case Command(_) => MonitorLeavesSettled(s, a, g);
    case Leave(_) => MonitorLeavesSettled(s, a, g);
    case _ => CallerLeavesSettled(s, a, g);
  }

  /** From then on the trace holds no command of a settled generation. */
  lemma {:induction false} SettledForever(actions: seq<Action>, more: seq<Action>, g: Generation)
    requires IsSettled(After(actions), g)
    ensures var before, after := After(actions), After(actions + more);
            && IsSettled(after, g) && before.trace <= after.trace
            && forall j :: |before.trace| <= j < |after.trace| ==> !IsCommand(after.trace[j], g)
    decreases |more|
  {
    if more == [] {
      assert actions + more == actions;
    } else {
      var init, a := more[..|more| - 1], more[|more| - 1];
      SettledForever(actions, init, g);
      AlwaysInv(actions + init);
      assert actions + more == (actions + init) + [a];
      Then(actions + init, a);
      SettledStays(After(actions + init), a, g);
    }
  }

  lemma {:induction false} NoCommandsNoChange(before: seq<Event>, trace: seq<Event>, g: Generation)
    requires before <= trace && forall j :: |before| <= j < |trace| ==> !IsCommand(trace[j], g)
    ensures InFlight(trace, g) == InFlight(before, g)
    decreases |trace|
  {
    if |trace| > |before| {
      NoCommandsNoChange(before, trace[..|trace| - 1], g);
    } else {
      assert trace == before;
    }
  }

  /** At position `k` no command of `g` is outstanding, and none is sent or resolved from there on. */
  ghost predicate IsIdleFrom(trace: seq<Event>, k: nat, g: Generation)
    requires k <= |trace|
  {
    InFlight(trace[..k], g) == 0 && forall j :: k <= j < |trace| ==> !IsCommand(trace[j], g)
  }

  lemma SettledIsIdle(actions: seq<Action>, more: seq<Action>, k: nat, g: Generation)
    requires IsSettled(After(actions), g) && |After(actions).trace| <= k <= |After(actions + more).trace|
    ensures IsIdleFrom(After(actions + more).trace, k, g)
  {
    var before, trace := After(actions).trace, After(actions + more).trace;
    AlwaysTraced(actions);
    SettledForever(actions, more, g);
    NoCommandsNoChange(before, trace[..k], g);
  }

  // ----------------------------------------------------------------------- replaced generations

  /** Action `k` is a start that replaces `g` while it is registered. */
  ghost predicate ReplacedBy(actions: seq<Action>, k: nat, g: Generation)
    requires k < |actions|
  {
    var r := After(actions[..k]).registry;
    IsActive(r, g) && actions[k] == Start(r.controls[g].conn)
  }

  ghost predicate IsReplaced(actions: seq<Action>, g: Generation) {
    exists k :: 0 <= k < |actions| && ReplacedBy(actions, k, g)
  }

  lemma ReplacedStays(actions: seq<Action>, a: Action, g: Generation)
    ensures IsReplaced(actions, g) ==> IsReplaced(actions + [a], g)
    ensures IsActive(After(actions).registry, g) && a == Start(After(actions).registry.controls[g].conn) ==>
              IsReplaced(actions + [a], g)
  {
    var all := actions + [a];
    assert all[..|actions|] == actions;
    if IsReplaced(actions, g) {
      var k :| 0 <= k < |actions| && ReplacedBy(actions, k, g);
      assert all[..k] == actions[..k];
      assert ReplacedBy(all, k, g);
    }
    if IsActive(After(actions).registry, g) && a == Start(After(actions).registry.controls[g].conn) {
      assert ReplacedBy(all, |actions|, g);
    }
  }

  /** How one step can unregister a generation. */
  ghost predicate LeavesRegistry(s: Sys, a: Action, g: Generation) {
    g in Act(s, a).registry.controls && !IsActive(Act(s, a).registry, g) ==>
      && g in s.registry.controls
      && (IsActive(s.registry, g) ==> IsDone(s.registry, g) || a == Start(s.registry.controls[g].conn))
      && (IsDone(s.registry, g) ==> IsDone(Act(s, a).registry, g))
  }

  lemma CallerLeavesRegistry(s: Sys, id: CallerId, g: Generation)
    requires Inv(s)
    ensures LeavesRegistry(s, Proceed(id), g)
  {
    if id in s.callers { assert CallerFollows(s.registry, s.callers[id]); }
  }

  lemma MonitorLeavesRegistry(s: Sys, m: Generation, online: bool, g: Generation)
    requires Inv(s)
    ensures LeavesRegistry(s, Monitoring(m, online), g)
  {
    if m in s.monitors { assert MonitorFollows(s.registry, m, s.monitors[m]); }
  }

  lemma StepLeavesRegistry(s: Sys, a: Action, g: Generation)
    requires Inv(s)
    ensures LeavesRegistry(s, a, g)
  {
    match a
    case Proceed(id) => CallerLeavesRegistry(s, id, g);
    case Monitoring(m, online) => MonitorLeavesRegistry(s, m, online, g);
    case _ =>
  }

  /** An unregistered generation is done unless a start replaced it while it was registered. */
  lemma {:induction false} UnregisteredIsDoneOrReplaced(actions: seq<Action>, g: Generation)
    requires g in After(actions).registry.controls && !IsActive(After(actions).registry, g)
    ensures IsDone(After(actions).registry, g) || IsReplaced(actions, g)
  {
    if actions != [] {
      var before, a := actions[..|actions| - 1], actions[|actions| - 1];
      assert actions == before + [a];
      AlwaysInv(before);
      StepLeavesRegistry(After(before), a, g);
      ReplacedStays(before, a, g);
      if !IsActive(After(before).registry, g) { UnregisteredIsDoneOrReplaced(before, g); }
    }
  }

  lemma DoneIsNotLive(s: Sys, g: Generation)
    requires Inv(s) && IsDone(s.registry, g) && !IsActive(s.registry, g)
    ensures IsSettled(s, g)
  {
    assert MonitorFollows(s.registry, g, s.monitors[g]);
  }

  /** An unregistered generation that nothing replaced is done, has no command outstanding, and
      whatever happens next never sends or resolves one. */
  lemma UnreplacedIsOver(actions: seq<Action>, more: seq<Action>, g: Generation)
    requires g in After(actions).registry.controls && !IsActive(After(actions).registry, g)
    requires !IsReplaced(actions, g)
    ensures IsDone(After(actions).registry, g)
    ensures var before, after := After(actions).trace, After(actions + more).trace;
            |before| <= |after| && InFlight(before, g) == 0 && IsIdleFrom(after, |before|, g)
  {
    UnregisteredIsDoneOrReplaced(actions, g);
    AlwaysInv(actions);
    AlwaysTraced(actions);
    DoneIsNotLive(After(actions), g);
    SettledForever(actions, more, g);
    SettledIsIdle(actions, more, |After(actions).trace|, g);
    assert After(actions + more).trace[..|After(actions).trace|] == After(actions).trace;
  }

  // ------------------------------------------------------------------------- what Ok is worth

  /** The two results that `cancel_before_unmount` turns into Ok. */
  predicate IsOk(e: Event, caller: CallerId) {
    e.Returned? && e.caller == caller && !e.result.StillStopping?
  }

  /** Whatever follows this call, an Ok finds every generation the connection had at the call
      without a command, and leaves it without one for good. */
  ghost predicate UnmountIsSafe(actions: seq<Action>, caller: CallerId, conn: ConnectionId) {
    forall more, k :: OkFollows(actions, caller, conn, more, k) ==> AllIdle(actions, caller, conn, more, k)
  }

  function Called(actions: seq<Action>, caller: CallerId, conn: ConnectionId, more: seq<Action>): seq<Action> {
    actions + [Cancel(caller, conn)] + more
  }

  ghost predicate OkFollows(actions: seq<Action>, caller: CallerId, conn: ConnectionId, more: seq<Action>, k: nat) {
    var trace := After(Called(actions, caller, conn, more)).trace;
    |After(actions).trace| <= k < |trace| && IsOk(trace[k], caller)
  }

  ghost predicate AllIdle(actions: seq<Action>, caller: CallerId, conn: ConnectionId, more: seq<Action>, k: nat)
    requires OkFollows(actions, caller, conn, more, k)
  {
    forall g :: Belongs(After(actions).registry, g, conn) ==>
      IsIdleFrom(After(Called(actions, caller, conn, more)).trace, k, g)
  }

  /** A call that found `g` registered keeps to `g`. */
  predicate Concerns(caller: Caller, g: Generation) {
    match caller
    case Answered(result) => result == Stopped(g) || result == StillStopping(g)
    case other => other.g == g
  }

  /** The answers a call may give once it has looked into the registry. */
  predicate IsAnswer(found: Option<Generation>, result: CancelResult) {
    match found
    case None => result == NothingActive
    case Some(g) => result == Stopped(g) || result == StillStopping(g)
  }

  ghost predicate KeepsTo(s: Sys, caller: CallerId, found: Option<Generation>, from: nat) {
    && caller in s.callers
    && (if found.Some? then Concerns(s.callers[caller], found.value) else s.callers[caller] == Answered(NothingActive))
    && from <= |s.trace|
    && (forall j :: from <= j < |s.trace| && s.trace[j].Returned? && s.trace[j].caller == caller ==>
          IsAnswer(found, s.trace[j].result))
  }

  lemma StepKeepsTo(s: Sys, a: Action, caller: CallerId, found: Option<Generation>, from: nat)
    requires KeepsTo(s, caller, found, from)
    ensures KeepsTo(Act(s, a), caller, found, from)
  {
  }

  function Found(r: Registry, conn: ConnectionId): Option<Generation> {
    if conn in r.active then Some(r.active[conn]) else None
  }

  lemma CallBegins(s: Sys, caller: CallerId, conn: ConnectionId)
    requires caller !in s.callers
    ensures KeepsTo(Act(s, Cancel(caller, conn)), caller, Found(s.registry, conn), |s.trace|)
  {
  }

  lemma {:induction false} CallKeepsTo(actions: seq<Action>, caller: CallerId, conn: ConnectionId, more: seq<Action>)
    requires caller !in After(actions).callers
    ensures KeepsTo(After(Called(actions, caller, conn, more)), caller, Found(After(actions).registry, conn),
                    |After(actions).trace|)
    decreases |more|
  {
    if more == [] {
      assert Called(actions, caller, conn, more) == actions + [Cancel(caller, conn)];
      Then(actions, Cancel(caller, conn));
      CallBegins(After(actions), caller, conn);
    } else {
      var init, a := more[..|more| - 1], more[|more| - 1];
      CallKeepsTo(actions, caller, conn, init);
      assert Called(actions, caller, conn, more) == Called(actions, caller, conn, init) + [a];
      Then(Called(actions, caller, conn, init), a);
      StepKeepsTo(After(Called(actions, caller, conn, init)), a, caller, Found(After(actions).registry, conn),
                  |After(actions).trace|);
    }
  }

  /** Without orphans an Ok answer is worth what it says. */
  lemma NoOrphansIsSafe(actions: seq<Action>, caller: CallerId, conn: ConnectionId)
    requires caller !in After(actions).callers && NoOrphans(After(actions), conn)
    ensures UnmountIsSafe(actions, caller, conn)
  {
    forall more, k | OkFollows(actions, caller, conn, more, k) ensures AllIdle(actions, caller, conn, more, k) {
      forall g | Belongs(After(actions).registry, g, conn)
        ensures IsIdleFrom(After(Called(actions, caller, conn, more)).trace, k, g)
      {
        OneIsIdle(actions, caller, conn, more, k, g);
      }
    }
  }

  lemma OneIsIdle(actions: seq<Action>, caller: CallerId, conn: ConnectionId, more: seq<Action>, k: nat, g: Generation)
    requires caller !in After(actions).callers && NoOrphans(After(actions), conn)
    requires OkFollows(actions, caller, conn, more, k) && Belongs(After(actions).registry, g, conn)
    ensures IsIdleFrom(After(Called(actions, caller, conn, more)).trace, k, g)
  {
    var all := Called(actions, caller, conn, more);
    if IsActive(After(actions).registry, g) {
      CallKeepsTo(actions, caller, conn, more);
      assert After(all).trace[k] == Returned(caller, Stopped(g));
      StoppedMeansNoCommands(all, k, caller, g);
    } else {
      assert all == actions + ([Cancel(caller, conn)] + more);
      SettledIsIdle(actions, [Cancel(caller, conn)] + more, k, g);
    }
  }

  // ---------------------------------------------------------------- an orphan outlives the answer

  lemma BusyIsNotIdle(actions: seq<Action>, g: Generation)
    requires var s := After(actions);
             && g in s.monitors && s.monitors[g].InCommand? && g in s.registry.controls
             && s.trace != [] && s.trace[|s.trace| - 1].Returned?
    ensures !IsIdleFrom(After(actions).trace, |After(actions).trace| - 1, g)
  {
    var trace := After(actions).trace;
    AlwaysTraced(actions);
    assert trace == trace[..|trace| - 1] + [trace[|trace| - 1]];
    InFlightJoins(trace[..|trace| - 1], trace[|trace| - 1], g);
  }

  lemma SendingIsNotIdle(trace: seq<Event>, between: seq<Event>, k: nat, g: Generation)
    requires k <= |trace|
    ensures !IsIdleFrom(trace + between + [Sent(g)], k, g)
  {
    assert (trace + between + [Sent(g)])[|trace + between|] == Sent(g);
  }

  lemma NextCommandSends(actions: seq<Action>, g: Generation)
    requires g in After(actions).monitors && After(actions).monitors[g].Between?
    ensures After(actions + [Command(g)]).trace == After(actions).trace + [Sent(g)]
  {
    Then(actions, Command(g));
  }

  lemma GateOpens(actions: seq<Action>, g: Generation)
    requires var s := After(actions); g in s.monitors && s.monitors[g].Admitted? && g in s.registry.controls
    ensures var s, next := After(actions), After(actions + [Monitoring(g, true)]);
            next.trace == s.trace + [Gated(g, true)] && g in next.monitors && next.monitors[g].Between?
  {
    Then(actions, Monitoring(g, true));
  }

  /** A live generation next to a call that has just been answered sends a command or has one outstanding. */
  lemma OrphanRuns(actions: seq<Action>, g: Generation) returns (more: seq<Action>)
    requires var s := After(actions);
             && g in s.monitors && IsLive(s.monitors[g]) && g in s.registry.controls
             && s.trace != [] && s.trace[|s.trace| - 1].Returned?
    ensures var k := |After(actions).trace| - 1;
            && After(actions).trace <= After(actions + more).trace
            && !IsIdleFrom(After(actions + more).trace, k, g)
  {
    var trace, monitor := After(actions).trace, After(actions).monitors[g];
    if monitor.InCommand? {
      more := [];
      assert actions + more == actions;
      BusyIsNotIdle(actions, g);
    } else if monitor.Between? {
      more := [Command(g)];
      NextCommandSends(actions, g);
      SendingIsNotIdle(trace, [], |trace| - 1, g);
      assert trace + [] == trace;
    } else {
      GateOpens(actions, g);
      NextCommandSends(actions + [Monitoring(g, true)], g);
      more := [Monitoring(g, true), Command(g)];
      assert actions + more == actions + [Monitoring(g, true)] + [Command(g)];
      SendingIsNotIdle(trace, [Gated(g, true)], |trace| - 1, g);
    }
  }

  /** A call in progress on `a`, and a live bystander. */
  ghost predicate Beside(s: Sys, caller: CallerId, at: Caller, g: Generation, m: Monitor) {
    caller in s.callers && s.callers[caller] == at && g in s.monitors && g in s.registry.controls && s.monitors[g] == m
  }

  predicate HasMonitor(s: Sys, a: Generation, m: Monitor) {
    a in s.registry.controls && a in s.monitors && s.monitors[a] == m
  }

  predicate CanLeave(m: Monitor) { IsLive(m) || m.Unmonitored? }

  /** The step that brings a monitor nearer to leaving, and where it is then. */
  function Nudge(m: Monitor, a: Generation): Action {
    match m
    case InCommand => Command(a)
    case Between => Leave(a)
    case _ => Monitoring(a, false)
  }

  function Nudged(m: Monitor): Monitor {
    match m
    case Unmonitored => Admitted
    case InCommand => Between
    case _ => Leaving
  }

  function ToLeaving(m: Monitor): nat {
    if m.Unmonitored? || m.InCommand? then 2 else if m.Admitted? || m.Between? then 1 else 0
  }

  lemma NudgeMoves(s: Sys, caller: CallerId, a: Generation, g: Generation, m: Monitor)
    requires Beside(s, caller, Holding(a), g, m) && a != g && IsActive(s.registry, a)
    requires a in s.monitors && CanLeave(s.monitors[a])
    ensures var s' := Act(s, Nudge(s.monitors[a], a));
            Beside(s', caller, Holding(a), g, m) && IsActive(s'.registry, a) && HasMonitor(s', a, Nudged(s.monitors[a]))
  {
  }

  /** The monitor of the registered generation can always be brought to leave. */
  lemma MonitorLeaves(actions: seq<Action>, caller: CallerId, a: Generation, g: Generation, m: Monitor)
    returns (more: seq<Action>)
    requires Beside(After(actions), caller, Holding(a), g, m) && a != g && IsActive(After(actions).registry, a)
    requires a in After(actions).monitors
    requires CanLeave(After(actions).monitors[a]) || After(actions).monitors[a].Leaving?
    ensures Beside(After(actions + more), caller, Holding(a), g, m) && HasMonitor(After(actions + more), a, Leaving)
    decreases ToLeaving(After(actions).monitors[a])
  {
    var at := After(actions).monitors[a];
    if at.Leaving? {
      more := [];
      assert actions + more == actions;
    } else {
      Then(actions, Nudge(at, a));
      NudgeMoves(After(actions), caller, a, g, m);
      var rest := MonitorLeaves(actions + [Nudge(at, a)], caller, a, g, m);
      more := [Nudge(at, a)] + rest;
      assert actions + more == actions + [Nudge(at, a)] + rest;
    }
  }

  lemma LeavingFinishes(s: Sys, caller: CallerId, a: Generation, g: Generation, m: Monitor)
    requires Beside(s, caller, Holding(a), g, m) && a != g && HasMonitor(s, a, Leaving)
    ensures var s' := Act(s, Monitoring(a, true)); Beside(s', caller, Holding(a), g, m) && IsDone(s'.registry, a)
  {
  }

  /** So it can be brought to be done, while the call still holds it. */
  lemma MonitorFinishes(actions: seq<Action>, caller: CallerId, a: Generation, g: Generation, m: Monitor)
    returns (more: seq<Action>)
    requires Beside(After(actions), caller, Holding(a), g, m) && a != g && IsActive(After(actions).registry, a)
    ensures Beside(After(actions + more), caller, Holding(a), g, m) && IsDone(After(actions + more).registry, a)
  {
    AlwaysInv(actions);
    assert MonitorFollows(After(actions).registry, a, After(actions).monitors[a]);
    RegisteredIsNotOver(actions, a);
    if After(actions).monitors[a].Noting? {
      more := [];
      assert actions + more == actions;
    } else {
      var leave := MonitorLeaves(actions, caller, a, g, m);
      Then(actions + leave, Monitoring(a, true));
      LeavingFinishes(After(actions + leave), caller, a, g, m);
      more := leave + [Monitoring(a, true)];
      assert actions + more == actions + leave + [Monitoring(a, true)];
    }
  }

  predicate NoneOver(s: Sys) {
    forall g :: g in s.monitors && IsActive(s.registry, g) ==> !s.monitors[g].Over?
  }

  lemma MonitorKeepsNoneOver(s: Sys, a: Action)
    requires Inv(s) && NoneOver(s) && (a.Monitoring? || a.Command? || a.Leave?)
    ensures NoneOver(Act(s, a))
  {
    if a.g in s.monitors { assert MonitorFollows(s.registry, a.g, s.monitors[a.g]); }
  }

  lemma CallerKeepsNoneOver(s: Sys, a: Action)
    requires Inv(s) && NoneOver(s) && (a.Cancel? || a.Proceed? || a.TimeOut?)
    ensures NoneOver(Act(s, a))
  {
  }

  lemma StepKeepsNoneOver(s: Sys, a: Action)
    requires Inv(s) && NoneOver(s)
    ensures NoneOver(Act(s, a))
  {
    match a
    case Start(_) =>
    case Monitoring(_, _) => MonitorKeepsNoneOver(s, a);
    case Command(_) => MonitorKeepsNoneOver(s, a);
    case Leave(_) => MonitorKeepsNoneOver(s, a);
    case _ => CallerKeepsNoneOver(s, a);
  }

  lemma {:induction false} AlwaysNoneOver(actions: seq<Action>)
    ensures NoneOver(After(actions))
  {
    if actions != [] {
      AlwaysNoneOver(actions[..|actions| - 1]);
      AlwaysInv(actions[..|actions| - 1]);
      StepKeepsNoneOver(After(actions[..|actions| - 1]), actions[|actions| - 1]);
    }
  }

  lemma RegisteredIsNotOver(actions: seq<Action>, a: Generation)
    requires IsActive(After(actions).registry, a)
    ensures a in After(actions).monitors && !After(actions).monitors[a].Over?
  {
    AlwaysInv(actions);
    AlwaysNoneOver(actions);
  }

  /** A call in progress on a done generation, and a live bystander. */
  ghost predicate Ready(s: Sys, caller: CallerId, at: Caller, a: Generation, g: Generation, m: Monitor) {
    Beside(s, caller, at, g, m) && IsDone(s.registry, a)
  }

  lemma Arms(actions: seq<Action>, caller: CallerId, a: Generation, g: Generation, m: Monitor)
    requires Ready(After(actions), caller, Holding(a), a, g, m)
    ensures Ready(After(actions + [Proceed(caller)]), caller, Asked(a), a, g, m)
    ensures After(actions).trace == After(actions + [Proceed(caller)]).trace
  {
    Then(actions, Proceed(caller));
  }

  lemma Listens(actions: seq<Action>, caller: CallerId, a: Generation, g: Generation, m: Monitor)
    requires Ready(After(actions), caller, Asked(a), a, g, m)
    ensures Ready(After(actions + [Proceed(caller)]), caller, Armed(a, false), a, g, m)
    ensures After(actions).trace == After(actions + [Proceed(caller)]).trace
  {
    Then(actions, Proceed(caller));
  }

  lemma SeesDone(actions: seq<Action>, caller: CallerId, a: Generation, g: Generation, m: Monitor)
    requires Ready(After(actions), caller, Armed(a, false), a, g, m)
    ensures Ready(After(actions + [Proceed(caller)]), caller, Finishing(a), a, g, m)
    ensures After(actions).trace == After(actions + [Proceed(caller)]).trace
  {
    Then(actions, Proceed(caller));
  }

  /** A call has just been given this answer, and the bystander is where it was. */
  ghost predicate HasAnswered(s: Sys, caller: CallerId, result: CancelResult, g: Generation, m: Monitor, from: nat) {
    && g in s.monitors && s.monitors[g] == m && g in s.registry.controls
    && from < |s.trace| && s.trace[|s.trace| - 1] == Returned(caller, result)
  }

  lemma Detaches(actions: seq<Action>, caller: CallerId, a: Generation, g: Generation, m: Monitor)
    returns (all: seq<Action>)
    requires Ready(After(actions), caller, Finishing(a), a, g, m)
    ensures actions <= all && HasAnswered(After(all), caller, Stopped(a), g, m, |After(actions).trace|)
  {
    Then(actions, Proceed(caller));
    var noted := actions + [Proceed(caller)];
    assert Beside(After(noted), caller, Detaching(a), g, m);
    Then(noted, Proceed(caller));
    all := noted + [Proceed(caller)];
  }

  /** A call that holds a done generation goes on to its answer in its own steps. */
  lemma CallIsAnswered(actions: seq<Action>, caller: CallerId, a: Generation, g: Generation, m: Monitor)
    returns (all: seq<Action>)
    requires Ready(After(actions), caller, Holding(a), a, g, m)
    ensures actions <= all && HasAnswered(After(all), caller, Stopped(a), g, m, |After(actions).trace|)
  {
    var one := actions + [Proceed(caller)];
    var two := one + [Proceed(caller)];
    var three := two + [Proceed(caller)];
    Arms(actions, caller, a, g, m);
    Listens(one, caller, a, g, m);
    SeesDone(two, caller, a, g, m);
    all := Detaches(three, caller, a, g, m);
    assert actions <= three;
  }

  lemma {:induction false} TraceGrows(actions: seq<Action>, all: seq<Action>)
    requires actions <= all
    ensures After(actions).trace <= After(all).trace
    decreases |all|
  {
    if |all| > |actions| {
      var init, a := all[..|all| - 1], all[|all| - 1];
      TraceGrows(actions, init);
      StepGrows(After(init), a);
    } else {
      assert all == actions;
    }
  }

  lemma StepGrows(s: Sys, a: Action)
    ensures s.trace <= Act(s, a).trace
  {
  }

  /** With an orphan about, some continuation answers the call while the orphan is live. */
  lemma AnswerBesideOrphan(actions: seq<Action>, caller: CallerId, conn: ConnectionId, g: Generation)
    returns (all: seq<Action>)
    requires caller !in After(actions).callers && Belongs(After(actions).registry, g, conn)
    requires !IsActive(After(actions).registry, g) && g in After(actions).monitors
    ensures actions + [Cancel(caller, conn)] <= all
    ensures HasAnswered(After(all), caller, OkResult(After(actions).registry, conn), g, After(actions).monitors[g],
                        |After(actions).trace|)
  {
    var s, m := After(actions), After(actions).monitors[g];
    var called := actions + [Cancel(caller, conn)];
    Then(actions, Cancel(caller, conn));
    if conn in s.registry.active {
      AlwaysInv(actions);
      var a := s.registry.active[conn];
      assert Beside(After(called), caller, Holding(a), g, m) && IsActive(After(called).registry, a);
      var finish := MonitorFinishes(called, caller, a, g, m);
      all := CallIsAnswered(called + finish, caller, a, g, m);
      TraceGrows(actions, called + finish);
      assert called <= called + finish;
    } else {
      all := called;
    }
  }

  /** The Ok that a call can be given in this state. */
  function OkResult(r: Registry, conn: ConnectionId): CancelResult {
    if conn in r.active then Stopped(r.active[conn]) else NothingActive
  }

  /** What an orphan can do to an answer. */
  ghost predicate OutlivesAnswer(actions: seq<Action>, caller: CallerId, conn: ConnectionId, g: Generation,
                                 more: seq<Action>, k: nat)
  {
    var trace := After(Called(actions, caller, conn, more)).trace;
    && |After(actions).trace| <= k < |trace|
    && trace[k] == Returned(caller, OkResult(After(actions).registry, conn))
    && !IsIdleFrom(trace, k, g)
  }

  /** A live generation that is no longer registered can outlive either Ok: with a registered
      generation beside it the answer is that this one has stopped, without one that nothing was
      active, and in both cases the orphan has a command outstanding or sends another. */
  lemma OrphanOutlivesAnswer(actions: seq<Action>, caller: CallerId, conn: ConnectionId, g: Generation)
    returns (more: seq<Action>, k: nat)
    requires caller !in After(actions).callers && Belongs(After(actions).registry, g, conn)
    requires !IsActive(After(actions).registry, g) && g in After(actions).monitors && IsLive(After(actions).monitors[g])
    ensures OutlivesAnswer(actions, caller, conn, g, more, k)
  {
    var all := AnswerBesideOrphan(actions, caller, conn, g);
    var later := OrphanRuns(all, g);
    k := |After(all).trace| - 1;
    more := Remainder(actions + [Cancel(caller, conn)], all, later);
  }

  lemma Remainder(called: seq<Action>, all: seq<Action>, later: seq<Action>) returns (more: seq<Action>)
    requires called <= all
    ensures called + more == all + later
  {
    more := all[|called|..] + later;
  }

  /** Exactly when an Ok before an unmount can be relied on, in every reachable state and for
      everything that can follow: no generation of the connection that is no longer registered
      may still send a command. */
  lemma UnmountIsSafeExactly(actions: seq<Action>, caller: CallerId, conn: ConnectionId)
    requires caller !in After(actions).callers
    ensures UnmountIsSafe(actions, caller, conn) <==> NoOrphans(After(actions), conn)
  {
    if NoOrphans(After(actions), conn) {
      NoOrphansIsSafe(actions, caller, conn);
    } else {
      AlwaysInv(actions);
      var s := After(actions);
      var g :| Belongs(s.registry, g, conn) && !IsActive(s.registry, g) && !IsSettled(s, g);
      var more, k := OrphanOutlivesAnswer(actions, caller, conn, g);
      assert OkFollows(actions, caller, conn, more, k) && !AllIdle(actions, caller, conn, more, k);
    }
  }

  /** No start of the connection came while one of its generations was registered. */
  ghost predicate NeverReplaced(actions: seq<Action>, conn: ConnectionId) {
    forall k :: 0 <= k < |actions| && actions[k] == Start(conn) ==> conn !in After(actions[..k]).registry.active
  }

  lemma NeverReplacedIsNotReplaced(actions: seq<Action>, conn: ConnectionId, g: Generation)
    requires NeverReplaced(actions, conn) && Belongs(After(actions).registry, g, conn)
    ensures !IsReplaced(actions, g)
  {
    if IsReplaced(actions, g) {
      var k :| 0 <= k < |actions| && ReplacedBy(actions, k, g);
      ControlsKeepConnection(actions, k, g);
    }
  }

  lemma {:induction false} ControlsKeepConnection(actions: seq<Action>, k: nat, g: Generation)
    requires k <= |actions| && g in After(actions[..k]).registry.controls
    ensures g in After(actions).registry.controls
    ensures After(actions).registry.controls[g].conn == After(actions[..k]).registry.controls[g].conn
    decreases |actions|
  {
    if k < |actions| {
      var init := actions[..|actions| - 1];
      assert init[..k] == actions[..k];
      ControlsKeepConnection(init, k, g);
      AlwaysInv(init);
      StepKeepsConnection(After(init), actions[|actions| - 1], g);
    } else {
      assert actions[..k] == actions;
    }
  }

  lemma StepKeepsConnection(s: Sys, a: Action, g: Generation)
    requires Inv(s) && g in s.registry.controls
    ensures g in Act(s, a).registry.controls && Act(s, a).registry.controls[g].conn == s.registry.controls[g].conn
  {
    assert g < s.registry.next;
  }

  /** A connection whose registered generation is never replaced by a start can rely on every Ok,
      be it that the registered generation has stopped or that nothing was active. */
  lemma UnmountIsSafeUnlessReplaced(actions: seq<Action>, caller: CallerId, conn: ConnectionId)
    requires caller !in After(actions).callers && NeverReplaced(actions, conn)
    ensures UnmountIsSafe(actions, caller, conn)
  {
    AlwaysInv(actions);
    var s := After(actions);
    forall g | Belongs(s.registry, g, conn) && !IsActive(s.registry, g) ensures IsSettled(s, g) {
      NeverReplacedIsNotReplaced(actions, conn, g);
      UnregisteredIsDoneOrReplaced(actions, g);
      DoneIsNotLive(s, g);
    }
    UnmountIsSafeExactly(actions, caller, conn);
  }

  /** A registered generation caught in a command by a start becomes such an orphan. */
  lemma ReplacedInCommandIsUnsafe(actions: seq<Action>, caller: CallerId, conn: ConnectionId)
    requires conn in After(actions).registry.active && caller !in After(actions).callers
    requires var g := After(actions).registry.active[conn];
             g in After(actions).monitors && After(actions).monitors[g].InCommand?
    ensures !UnmountIsSafe(actions + [Start(conn)], caller, conn)
  {
    var g := After(actions).registry.active[conn];
    AlwaysInv(actions);
    Then(actions, Start(conn));
    OrphanIsUnsafe(actions + [Start(conn)], caller, conn, g);
  }

  /** Once the newer generation has finished, a call finds nothing registered and is no safer. */
  lemma ReplacedThenNothingActive(actions: seq<Action>, caller: CallerId, conn: ConnectionId)
    returns (later: seq<Action>)
    requires conn in After(actions).registry.active && caller !in After(actions).callers
    requires var g := After(actions).registry.active[conn];
             g in After(actions).monitors && After(actions).monitors[g].InCommand?
    ensures actions + [Start(conn)] <= later && conn !in After(later).registry.active
    ensures !UnmountIsSafe(later, caller, conn)
  {
    var g, a := After(actions).registry.active[conn], After(actions).registry.next;
    AlwaysInv(actions);
    Then(actions, Start(conn));
    later := NewerLeaves(actions + [Start(conn)], caller, conn, g, a);
    OrphanIsUnsafe(later, caller, conn, g);
  }

  /** A fresh generation can run to its end beside an orphan. */
  lemma NewerLeaves(actions: seq<Action>, caller: CallerId, conn: ConnectionId, g: Generation, a: Generation)
    returns (later: seq<Action>)
    requires Orphan(After(actions), caller, conn, g) && NewerAt(After(actions), conn, a, Unmonitored) && a != g
    ensures actions <= later && Orphan(After(later), caller, conn, g) && conn !in After(later).registry.active
  {
    var two := NewerMoves(actions, caller, conn, g, a, Unmonitored, Admitted);
    var three := NewerMoves(two, caller, conn, g, a, Admitted, Leaving);
    var four := NewerMoves(three, caller, conn, g, a, Leaving, Noting);
    AlwaysInv(four);
    NewerUnregisters(After(four), caller, conn, g, a);
    Then(four, Monitoring(a, false));
    later := four + [Monitoring(a, false)];
  }

  lemma NewerUnregisters(s: Sys, caller: CallerId, conn: ConnectionId, g: Generation, a: Generation)
    requires Orphan(s, caller, conn, g) && NewerAt(s, conn, a, Noting) && a != g
    ensures var s' := Act(s, Monitoring(a, false)); Orphan(s', caller, conn, g) && conn !in s'.registry.active
  {
  }

  lemma OrphanIsUnsafe(actions: seq<Action>, caller: CallerId, conn: ConnectionId, g: Generation)
    requires Orphan(After(actions), caller, conn, g)
    ensures !UnmountIsSafe(actions, caller, conn)
  {
    assert !IsSettled(After(actions), g);
    UnmountIsSafeExactly(actions, caller, conn);
  }

  /** `g` is an orphan of the connection in the middle of a command. */
  ghost predicate Orphan(s: Sys, caller: CallerId, conn: ConnectionId, g: Generation) {
    && caller !in s.callers && Belongs(s.registry, g, conn) && !IsActive(s.registry, g)
    && g in s.monitors && s.monitors[g].InCommand?
  }

  ghost predicate NewerAt(s: Sys, conn: ConnectionId, a: Generation, m: Monitor) {
    Belongs(s.registry, a, conn) && IsActive(s.registry, a) && a in s.monitors && s.monitors[a] == m
  }

  lemma NewerMoves(actions: seq<Action>, caller: CallerId, conn: ConnectionId, g: Generation, a: Generation,
                   m: Monitor, next: Monitor)
    returns (all: seq<Action>)
    requires Orphan(After(actions), caller, conn, g) && NewerAt(After(actions), conn, a, m) && a != g
    requires (m.Unmonitored? && next.Admitted?) || (m.Admitted? && next.Leaving?) || (m.Leaving? && next.Noting?)
    ensures actions <= all && Orphan(After(all), caller, conn, g) && NewerAt(After(all), conn, a, next)
  {
    Then(actions, Monitoring(a, false));
    all := actions + [Monitoring(a, false)];
  }

  /** Both kinds of Ok can be given beside an orphan in a reachable state. */
  lemma SupersededMayStillRun()
    ensures exists actions, caller, conn :: conn in After(actions).registry.active && !UnmountIsSafe(actions, caller, conn)
    ensures exists actions, caller, conn :: conn !in After(actions).registry.active && !UnmountIsSafe(actions, caller, conn)
  {
    var first := FirstRuns();
    ReplacedInCommandIsUnsafe(first, 3, 7);
    Then(first, Start(7));
    var later := ReplacedThenNothingActive(first, 3, 7);
  }

  /** Generation 0 of connection 7 is monitored and has a command outstanding. */
  lemma FirstRuns() returns (actions: seq<Action>)
    ensures var r := Started(Registry(0, map[], map[]), 7);
            After(actions) == Sys(r, map[0 := InCommand], map[], [Gated(0, true), Sent(0)])
  {
    var one := [Start(7)];
    var two := one + [Monitoring(0, true)];
    var three := two + [Monitoring(0, true)];
    assert one[..0] == [];
    assert After(one) == Act(EMPTY, Start(7));
    Then(one, Monitoring(0, true));
    Then(two, Monitoring(0, true));
    Then(three, Command(0));
    actions := three + [Command(0)];
  }
}
