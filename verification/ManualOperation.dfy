/** `ManualOperationControl`: one `finish` against any number of `cancel_and_wait` callers. */
module ManualOperation {

  type CallerId = nat

  /** How far `finish` is: it stores the flag, then notifies. */
  datatype Finish = NotCalled | Stored | Notified

  /** Where a `cancel_and_wait` is.  A notification counts from the moment it is created. */
  datatype Caller =
    | Entered
    | CancelRequested
    | FirstCheckFailed
    | Listening(fired: bool)
    | Asleep(fired: bool)
    | AwakeAgain
    | Returned(result: bool)

  datatype Event = StoredFlag | Called(id: CallerId) | Answered(id: CallerId, result: bool)

  datatype Sys = Sys(cancelled: bool, finish: Finish, callers: map<CallerId, Caller>, trace: seq<Event>)

  datatype Action = FinishStep | Call(id: CallerId) | Step(id: CallerId) | TimeOut(id: CallerId)

  predicate Completed(s: Sys) { !s.finish.NotCalled? }

  function Fire(caller: Caller): Caller {
    match caller
    case Listening(_) => Listening(true)
    case Asleep(_) => Asleep(true)
    case other => other
  }

  /** `notify_waiters`. */
  function FireAll(callers: map<CallerId, Caller>): map<CallerId, Caller> {
    map id | id in callers :: Fire(callers[id])
  }

  function Answer(s: Sys, id: CallerId, result: bool): Sys {
    s.(callers := s.callers[id := Returned(result)], trace := s.trace + [Answered(id, result)])
  }

  function To(s: Sys, id: CallerId, caller: Caller): Sys {
    s.(callers := s.callers[id := caller])
  }

  function CallerStep(s: Sys, id: CallerId): Sys
    requires id in s.callers
  {
    match s.callers[id]
    case Entered => To(s, id, CancelRequested).(cancelled := true)
    case CancelRequested => if Completed(s) then Answer(s, id, true) else To(s, id, FirstCheckFailed)
    case FirstCheckFailed => To(s, id, Listening(false))
    case Listening(fired) => if Completed(s) then Answer(s, id, true) else To(s, id, Asleep(fired))
    case Asleep(fired) => if fired then To(s, id, AwakeAgain) else s
    case AwakeAgain => Answer(s, id, Completed(s))
    case Returned(_) => s
  }

  function Act(s: Sys, a: Action): Sys {
    match a
    case FinishStep =>
      (match s.finish
       case NotCalled => s.(finish := Stored, trace := s.trace + [StoredFlag])
       case Stored => s.(finish := Notified, callers := FireAll(s.callers))
       case Notified => s)
    case Call(id) =>
      if id in s.callers then s
      else s.(callers := s.callers[id := Entered], trace := s.trace + [Called(id)])
    case Step(id) => if id in s.callers then CallerStep(s, id) else s
    case TimeOut(id) => if id in s.callers && s.callers[id].Asleep? then To(s, id, AwakeAgain) else s
  }

  const INITIAL := Sys(false, NotCalled, map[], [])

  function After(actions: seq<Action>): Sys {
    if actions == [] then INITIAL
    else Act(After(actions[..|actions| - 1]), actions[|actions| - 1])
  }

  // -------------------------------------------------------------------------------- invariant

  /** Whoever went to sleep did so before the flag was stored, so the notification reaches it. */
  ghost predicate Inv(s: Sys) {
    && (s.finish.Notified? ==> forall id :: id in s.callers && s.callers[id].Asleep? ==> s.callers[id].fired)
    && (Completed(s) <==> StoredFlag in s.trace)
    && (forall id :: id in s.callers && !s.callers[id].Entered? ==> s.cancelled)
    && (forall k, id, result :: 0 <= k < |s.trace| && s.trace[k] == Answered(id, result) ==>
          (result <==> StoredFlag in s.trace[..k]))
  }

  lemma AppendKeepsAnswers(trace: seq<Event>, e: Event)
    requires forall k, id, result :: 0 <= k < |trace| && trace[k] == Answered(id, result) ==> (result <==> StoredFlag in trace[..k])
    requires e.Answered? ==> (e.result <==> StoredFlag in trace)
    ensures var t := trace + [e];
            forall k, id, result :: 0 <= k < |t| && t[k] == Answered(id, result) ==> (result <==> StoredFlag in t[..k])
  {
    var t := trace + [e];
    forall k, id, result | 0 <= k < |t| && t[k] == Answered(id, result) ensures result <==> StoredFlag in t[..k] {
      assert t[..k] == trace[..k];
      assert trace[..|trace|] == trace;
    }
  }

  lemma ActKeepsInv(s: Sys, a: Action)
    requires Inv(s)
    ensures Inv(Act(s, a))
  {
    var s' := Act(s, a);
    if s'.trace != s.trace {
      assert s'.trace == s.trace + [s'.trace[|s.trace|]];
      AppendKeepsAnswers(s.trace, s'.trace[|s.trace|]);
    }
  }

  lemma {:induction false} AlwaysInv(actions: seq<Action>)
    ensures Inv(After(actions))
  {
    if actions != [] {
      AlwaysInv(actions[..|actions| - 1]);
      ActKeepsInv(After(actions[..|actions| - 1]), actions[|actions| - 1]);
    }
  }

  // --------------------------------------------------------------------------------- promises

  /** How many of its own steps a caller is from returning. */
  function Distance(caller: Caller): nat {
    match caller
    case Entered => 6
    case CancelRequested => 5
    case FirstCheckFailed => 4
    case Listening(_) => 3
    case Asleep(_) => 2
    case AwakeAgain => 1
    case Returned(_) => 0
  }

  /** In every interleaving, once `finish` has completed nobody stays asleep: each caller's next
      step brings it nearer to returning, and no other step sets it back. */
  lemma NobodyStaysAsleep(actions: seq<Action>, id: CallerId, a: Action)
    requires After(actions).finish.Notified? && id in After(actions).callers && !After(actions).callers[id].Returned?
    ensures var s := After(actions);
            && Distance(Act(s, Step(id)).callers[id]) < Distance(s.callers[id])
            && Act(s, a).finish.Notified? && Distance(Act(s, a).callers[id]) <= Distance(s.callers[id])
  {
    AlwaysInv(actions);
  }

  /** A call returns true exactly when the flag is visible at its last read. */
  lemma AnswerIsWhatWasVisible(actions: seq<Action>, k: nat, id: CallerId, result: bool)
    requires k < |After(actions).trace| && After(actions).trace[k] == Answered(id, result)
    ensures result <==> StoredFlag in After(actions).trace[..k]
  {
    AlwaysInv(actions);
  }

  /** Either of the two reads before the sleep sees a completion at once. */
  lemma CompletionIsSeenAtOnce(actions: seq<Action>, id: CallerId)
    requires Completed(After(actions)) && id in After(actions).callers
    ensures var caller := After(actions).callers[id];
            caller.CancelRequested? || caller.Listening? ==> Act(After(actions), Step(id)).callers[id] == Returned(true)
  {
  }

  /** `finish` completes at its first step and has notified after its second; a wait that times out ends
      with what is visible then. */
  lemma FinishAndTimeoutEnd(actions: seq<Action>, id: CallerId)
    ensures var s := After(actions);
            && Completed(Act(s, FinishStep)) && Act(Act(s, FinishStep), FinishStep).finish.Notified?
            && (id in s.callers && s.callers[id].Asleep? ==>
                  Act(Act(s, TimeOut(id)), Step(id)).callers[id] == Returned(Completed(s)))
  {
  }

  /** Whoever is awake again was notified of a completion, or timed out. */
  predicate WokeFor(s: Sys, actions: seq<Action>, id: CallerId)
    requires id in s.callers
  {
    match s.callers[id]
    case Listening(fired) => fired ==> Completed(s)
    case Asleep(fired) => fired ==> Completed(s)
    case AwakeAgain => Completed(s) || TimeOut(id) in actions
    case _ => true
  }

  ghost predicate Timed(s: Sys, actions: seq<Action>) {
    && (forall id :: id in s.callers ==> WokeFor(s, actions, id))
    && (forall id :: Answered(id, false) in s.trace ==> TimeOut(id) in actions)
  }

  lemma ActKeepsTimed(s: Sys, actions: seq<Action>, a: Action)
    requires Timed(s, actions)
    ensures Timed(Act(s, a), actions + [a])
  {
  }

  /** A call returns false only if its wait timed out: nobody wakes without being notified. */
  lemma {:induction false} FalseOnlyAfterTimeout(actions: seq<Action>)
    ensures Timed(After(actions), actions)
    ensures forall id :: Answered(id, false) in After(actions).trace ==> TimeOut(id) in actions
  {
    if actions != [] {
      var before, a := actions[..|actions| - 1], actions[|actions| - 1];
      FalseOnlyAfterTimeout(before);
      ActKeepsTimed(After(before), before, a);
      assert before + [a] == actions;
    }
  }

  /** Anyone may call at any time, and the first thing a call does is to cancel the operation. */
  lemma CallsCancel(actions: seq<Action>, id: CallerId)
    requires id !in After(actions).callers
    ensures var s := Act(Act(After(actions), Call(id)), Step(id));
            id in s.callers && s.callers[id] == CancelRequested && s.cancelled
  {
  }

  /** After completion every later call returns true. */
  lemma LaterCallsSucceed(actions: seq<Action>, i: nat, k: nat, id: CallerId, result: bool)
    requires i < k < |After(actions).trace| && StoredFlag in After(actions).trace[..i]
    requires After(actions).trace[i] == Called(id) && After(actions).trace[k] == Answered(id, result)
    ensures result
  {
    AlwaysInv(actions);
    var trace := After(actions).trace;
    var j :| 0 <= j < i && trace[..i][j] == StoredFlag;
    assert trace[..k][j] == StoredFlag;
  }
}
