/**
 * Creating an OAuth remote: `NewRemote` in microsoft_oauth.rs and `authenticate` in onedrive.rs.
 * Strings are byte strings, so their lengths are those the code compares.
 */
module OAuth {

  datatype Remote = Remote(backend: string, settings: nat)

  datatype Failure =
    | InvalidRemoteName
    | ExistingRemote
    | Cancelled
    | CommandFailed
    | TooManySteps
    | Rejected
    | InvalidResponse
    | Unstructured
    | CleanupRequired
    | InvalidMetadata
    | WrongDrive
    | UnsupportedQuestion
    | NotVerified

  datatype Result<T> = Ok(value: T) | Err(failure: Failure)

  /** The `Error` member of a response, when it is there. */
  datatype ErrorMember = NoError | ErrorText(text: string) | OtherError

  datatype Option<T> = None | Some(value: T)

  /** A question of the conversation; the drive question lists the drives it offers, if it is well formed. */
  datatype Question =
    | ConfigIsLocal
    | ConfigType
    | ConfigDriveId(offered: Option<seq<string>>)
    | ConfigDriveOk
    | OtherQuestion

  datatype Response = Response(error: ErrorMember, state: Result<string>, question: Question)

  /** What a configuration command comes back with. */
  datatype Reply = Answer(response: Response) | Failing | Incomplete | NotJson

  datatype Step = Create | Continue(question: Question, state: string, answer: string)

  /** The three checks of a new remote: its identity, the identity saved before, the folder to mount. */
  datatype Check = Identity | Acceptance | Subtree

  /** What goes to rclone or the provider, and what came back where the code depends on it. */
  datatype Command =
    | Dump(failure: Option<Failure>)
    | Configure(name: string, step: Step, reply: Reply)
    | Delete(name: string, ok: bool)
    | FoundDrive(drive: string)
    | NoDrive
    | Checked(name: string, check: Check, ok: bool)

  function Configures(sent: seq<Command>): nat {
    if sent == [] then 0
    else Configures(sent[..|sent| - 1]) + (if sent[|sent| - 1].Configure? then 1 else 0)
  }

  predicate IsChoice(c: Command) { c.Configure? && c.step.Continue? && c.step.question.ConfigDriveId? }

  /** The last configuration command before position i. */
  ghost predicate IsLast(sent: seq<Command>, i: nat, j: int)
    requires i <= |sent|
  {
    0 <= j < i && sent[j].Configure? && forall k :: j < k < i ==> !sent[k].Configure?
  }

  /** The answer that each question gets: the drive is the one the provider named and one of at most
      forty offered, and it is confirmed only after it was chosen. */
  ghost predicate IsRightAnswer(sent: seq<Command>, i: nat, question: Question, answer: string)
    requires i <= |sent|
  {
    match question
    case ConfigIsLocal => answer == "true"
    case ConfigType => answer == "onedrive"
    case ConfigDriveId(offered) =>
      offered.Some? && |offered.value| <= 40 && answer in offered.value && exists j :: 0 <= j < i && sent[j] == FoundDrive(answer)
    case ConfigDriveOk => answer == "true" && exists j :: 0 <= j < i && IsChoice(sent[j])
    case OtherQuestion => false
  }

  /** A configuration command fits what came before it: creation is the first, and every other one
      answers the question of the last reply, with the state that came with it. */
  ghost predicate Fits(sent: seq<Command>, i: nat, step: Step)
    requires i <= |sent|
  {
    match step
    case Create => forall j :: 0 <= j < i ==> !sent[j].Configure?
    case Continue(question, state, answer) =>
      && IsRightAnswer(sent, i, question, answer) && state != ""
      && exists j :: IsLast(sent, i, j) && IsAnswer(sent[j].reply, question, state)
  }

  predicate IsAnswer(reply: Reply, question: Question, state: string) {
    reply.Answer? && reply.response.question == question && reply.response.state == Ok(state)
  }

  ghost predicate AllFit(sent: seq<Command>) {
    forall i :: 0 <= i < |sent| && sent[i].Configure? ==> Fits(sent, i, sent[i].step)
  }

  ghost predicate OnlyDumps(sent: seq<Command>) { forall i :: 0 <= i < |sent| ==> sent[i].Dump? }

  /** The conversation is over: its last reply has an empty state. */
  ghost predicate IsOver(sent: seq<Command>, i: nat)
    requires i <= |sent|
  {
    exists j :: IsLast(sent, i, j) && sent[j].reply.Answer? && sent[j].reply.response.state == Ok("")
  }

  /** The checks of one verification: in order, up to the first that fails. */
  function Checks(name: string, passed: nat): seq<Command>
    requires passed <= 3
  {
    if passed == 0 then [Checked(name, Identity, false)]
    else if passed == 1 then [Checked(name, Identity, true), Checked(name, Acceptance, false)]
    else [Checked(name, Identity, true), Checked(name, Acceptance, true), Checked(name, Subtree, passed == 3)]
  }

  /** All three checks of this remote passed, in order, once the conversation was over, and none failed. */
  ghost predicate Verified(sent: seq<Command>, name: string) {
    (exists i :: VerifiedAt(sent, name, i)) && !HasFailedCheck(sent)
  }

  ghost predicate VerifiedAt(sent: seq<Command>, name: string, i: int) {
    && 0 <= i && i + 3 <= |sent| && IsOver(sent, i)
    && sent[i] == Checked(name, Identity, true) && sent[i + 1] == Checked(name, Acceptance, true)
    && sent[i + 2] == Checked(name, Subtree, true)
    && forall n :: i <= n < |sent| ==> !sent[n].Configure? && !sent[n].Delete?
  }

  ghost predicate HasFailedCheck(sent: seq<Command>) {
    exists i :: 0 <= i < |sent| && sent[i].Checked? && !sent[i].ok
  }

  /** rclone and its shared configuration file; every command may do anything the real one may. */
  class Rclone {
    var config: map<string, Remote>
    var sent: seq<Command>

    /** Anything may have happened to one remote, and to no other. */
    twostate predicate OnlyTouches(name: string)
      reads this
    {
      config - {name} == old(config) - {name}
    }

    /** One more entry. */
    twostate predicate Adds(c: Command)
      reads this
    {
      sent == old(sent) + [c]
    }

    /** The reply to the last command. */
    ghost function Heard(): Reply
      reads this
    {
      if sent != [] && sent[|sent| - 1].Configure? then sent[|sent| - 1].reply else Failing
    }

    method Dumped() returns (dump: Result<map<string, Remote>>)
      modifies this`sent
      ensures sent == old(sent) + [Dump(if dump.Ok? then None else Some(dump.failure))]
      ensures dump.Ok? ==> dump.value == config
      ensures dump.Err? ==> dump.failure == InvalidResponse || dump.failure == CommandFailed
    {
      var outcome: int := *;
      dump := if outcome == 0 then Ok(config) else if outcome == 1 then Err(InvalidResponse) else Err(CommandFailed);
      sent := sent + [Dump(if dump.Ok? then None else Some(dump.failure))];
    }

    method Configure(name: string, step: Step) returns (reply: Reply)
      modifies this
      ensures OnlyTouches(name)
      ensures sent == old(sent) + [Command.Configure(name, step, reply)]
    {
      var gone: bool, remote: Remote := *, *;
      config := if gone then config - {name} else config[name := remote];
      reply := *;
      sent := sent + [Command.Configure(name, step, reply)];
    }

    method Remove(name: string) returns (ok: bool)
      modifies this
      ensures OnlyTouches(name)
      ensures ok ==> name !in config
      ensures sent == old(sent) + [Delete(name, ok)]
    {
      ok := *;
      sent := sent + [Delete(name, ok)];
      var gone: bool := *;
      if ok || gone { config := config - {name}; }
    }
  }

  predicate IsNameChar(c: char) { 'a' <= c <= 'z' || 'A' <= c <= 'Z' || '0' <= c <= '9' || c in "_-." }

  predicate IsRemoteName(name: string) {
    0 < |name| <= 96
    && forall i :: 0 <= i < |name| ==> IsNameChar(name[i])
  }

  /** A name has one to 96 characters: letters and digits of ASCII, underscores, dashes and dots. */
  lemma RemoteNamesAre(name: string)
    ensures IsRemoteName(name) <==>
              && 1 <= |name| <= 96
              && forall c :: c in name ==>
                   65 <= c as int <= 90 || 97 <= c as int <= 122 || 48 <= c as int <= 57 || c == '_' || c == '-' || c == '.'
  {
    assert forall i :: 0 <= i < |name| ==> name[i] in name;
  }

  /** A reply is accepted exactly when it is a complete answer without an error text. */
  function Judged(reply: Reply): (result: Result<Response>)
    ensures result.Ok? <==> reply.Answer? && (reply.response.error == NoError || reply.response.error == ErrorText(""))
    ensures result.Ok? ==> reply == Answer(result.value)
    ensures result == Err(Rejected) <==> reply.Answer? && reply.response.error.ErrorText? && reply.response.error != ErrorText("")
    ensures result.Err? ==> result.failure in {CommandFailed, InvalidResponse, Unstructured, Rejected}
  {
    match reply
    case Failing => Err(CommandFailed)
    case Incomplete => Err(InvalidResponse)
    case NotJson => Err(Unstructured)
    case Answer(response) =>
      if response.error == NoError || response.error == ErrorText("") then Ok(response)
      else if response.error.ErrorText? then Err(Rejected)
      else Err(InvalidResponse)
  }

  predicate EndsIn(sent: seq<Command>, failure: Failure) {
    sent != [] &&
    match sent[|sent| - 1]
    case Dump(f) => f == Some(failure)
    case Configure(_, _, reply) => Judged(reply) == Err(failure)
    case _ => false
  }

  predicate IsTooLong(sent: seq<Command>, r: Response) {
    r.state.Ok?
    && (|r.state.value| > 16 * 1024
        || (sent != [] && sent[|sent| - 1].FoundDrive? && |sent[|sent| - 1].drive| > 16 * 1024))
  }

  predicate LacksDrive(sent: seq<Command>, question: Question) {
    question.ConfigDriveId? && sent != []
    && (sent[|sent| - 1].NoDrive? || (sent[|sent| - 1].FoundDrive? && question.offered.None?))
  }

  predicate OffersOthers(sent: seq<Command>, question: Question) {
    question.ConfigDriveId? && question.offered.Some? && sent != [] && sent[|sent| - 1].FoundDrive?
    && (|question.offered.value| > 40 || sent[|sent| - 1].drive !in question.offered.value)
  }

  /** Why a conversation fails, as its entries and the last accepted reply show it. */
  ghost predicate HasCause(failure: Failure, sent: seq<Command>) {
    match failure
    case TooManySteps => Configures(sent) == 12
    case Rejected => EndsIn(sent, failure)
    case Unstructured => EndsIn(sent, failure)
    case CommandFailed => EndsIn(sent, failure)
    case InvalidResponse => EndsIn(sent, failure) || exists r :: Heard(sent, r) && IsTooLong(sent, r)
    case UnsupportedQuestion =>
      exists r :: Heard(sent, r) && (r.question.OtherQuestion? || (r.question.ConfigDriveOk? && !HasChosen(sent)))
    case InvalidMetadata => exists r :: Heard(sent, r) && (r.state.Err? || LacksDrive(sent, r.question))
    case WrongDrive => exists r :: Heard(sent, r) && OffersOthers(sent, r.question)
    case NotVerified => HasFailedCheck(sent)
    case _ => false
  }

  /** The last reply was accepted and has an empty state. */
  ghost predicate IsDone(sent: seq<Command>) {
    exists r :: Heard(sent, r) && Judged(Answer(r)).Ok? && r.state == Ok("")
  }

  /** A failed conversation: the token was found cancelled when the next entry was due, or there is another
      cause; and it was not over, unless a check failed.  `start` entries were there before. */
  ghost predicate Ends(failure: Failure, sent: seq<Command>, cancels: nat -> bool, start: nat) {
    && (if failure == Cancelled then cancels(start + |sent|) else HasCause(failure, sent))
    && (failure != NotVerified ==> !IsDone(sent))
  }

  /** A rollback looks the name up, and when that worked and found it, deletes it. */
  predicate IsUndo(undo: seq<Command>, name: string) {
    || undo == []
    || (|undo| == 1 && undo[0].Dump?)
    || (|undo| == 2 && undo[0] == Dump(None) && undo[1].Delete? && undo[1].name == name)
  }

  /** It worked: nothing was to be done, the name was not there, or its deletion succeeded. */
  predicate HasUndone(undo: seq<Command>) {
    undo == [] || (undo[0] == Dump(None) && (|undo| == 1 || (undo[1].Delete? && undo[1].ok)))
  }

  /** Ownership of a name that was seen to be free. */
  class NewRemote {
    const name: string
    const isSharePoint: bool
    var started: bool
    var steps: nat

    ghost predicate Valid()
      reads this
    {
      steps <= Maximum() && (started <==> steps > 0)
    }

    function Maximum(): nat { if isSharePoint then 8 else 12 }

    constructor (name: string, isSharePoint: bool)
      ensures this.name == name && this.isSharePoint == isSharePoint
      ensures Valid() && !started && steps == 0
    {
      this.name, this.isSharePoint := name, isSharePoint;
      started, steps := false, 0;
    }

    /** `execute`: within the step budget, one command is sent and its answer looked at. */
    method Execute(rclone: Rclone, step: Step, cancelled: bool) returns (result: Result<Response>)
      requires Valid()
      modifies this, rclone
      ensures Valid()
      ensures rclone.OnlyTouches(name)
      ensures cancelled || old(steps) >= Maximum() ==>
                && rclone.sent == old(rclone.sent) && rclone.config == old(rclone.config)
                && steps == old(steps) && started == old(started)
                && result == Err(if cancelled then Cancelled else TooManySteps)
      ensures !cancelled && old(steps) < Maximum() ==>
                && rclone.Adds(Command.Configure(name, step, rclone.Heard())) && steps == old(steps) + 1
                && result == Judged(rclone.Heard())
    {
      if cancelled { return Err(Cancelled); }
      if steps >= Maximum() { return Err(TooManySteps); }
      steps := steps + 1;
      started := true;
      var reply := rclone.Configure(name, step);
      match reply
      case Failing => return Err(CommandFailed);
      case Incomplete => return Err(InvalidResponse);
      case NotJson => return Err(Unstructured);
      case Answer(response) =>
        match response.error
        case ErrorText(text) => if text != "" { return Err(Rejected); } return Ok(response);
        case NoError => return Ok(response);
        case OtherError => return Err(InvalidResponse);
    }

    /** `create`: only once. */
    method CreateRemote(rclone: Rclone, cancelled: bool) returns (result: Result<Response>)
      requires Valid()
      modifies this, rclone
      ensures Valid()
      ensures rclone.OnlyTouches(name)
      ensures old(started) ==> result == Err(InvalidResponse)
      ensures old(started) || cancelled ==> rclone.sent == old(rclone.sent) && rclone.config == old(rclone.config)
                                            && steps == old(steps) && started == old(started)
      ensures !old(started) && cancelled ==> result == Err(Cancelled)
      ensures !old(started) && !cancelled ==>
                && rclone.Adds(Command.Configure(name, Create, rclone.Heard())) && steps == old(steps) + 1
                && result == Judged(rclone.Heard())
    {
      if started { return Err(InvalidResponse); }
      result := Execute(rclone, Create, cancelled);
    }

    /** Whether an answer may be sent: creation has begun, and neither state nor answer is out of bounds. */
    predicate MayContinue(state: string, answer: string)
      reads this
    {
      started && 0 < |state| <= 16 * 1024 && |answer| <= 16 * 1024
    }

    /** `continue_with`: never before `create`, never without a state. */
    method ContinueWith(rclone: Rclone, question: Question, state: string, answer: string, cancelled: bool)
      returns (result: Result<Response>)
      requires Valid()
      modifies this, rclone
      ensures Valid() && started == old(started)
      ensures rclone.OnlyTouches(name)
      ensures !old(MayContinue(state, answer)) || cancelled || old(steps) >= Maximum() ==>
                && rclone.sent == old(rclone.sent) && rclone.config == old(rclone.config) && steps == old(steps)
                && result == Err(if !old(MayContinue(state, answer)) then InvalidResponse else if cancelled then Cancelled else TooManySteps)
      ensures old(MayContinue(state, answer)) && !cancelled && old(steps) < Maximum() ==>
                && rclone.Adds(Command.Configure(name, Continue(question, state, answer), rclone.Heard()))
                && steps == old(steps) + 1 && result == Judged(rclone.Heard())
    {
      if !started || state == "" || |state| > 16 * 1024 || |answer| > 16 * 1024 {
        return Err(InvalidResponse);
      }
      result := Execute(rclone, Continue(question, state, answer), cancelled);
    }

    /** `rollback`: a started creation is looked up and removed; success means the name is free. */
    method Rollback(rclone: Rclone) returns (ok: bool)
      requires Valid()
      modifies rclone
      ensures rclone.OnlyTouches(name)
      ensures old(rclone.sent) <= rclone.sent
      ensures !started ==> ok && rclone.sent == old(rclone.sent) && rclone.config == old(rclone.config)
      ensures started && ok ==> name !in rclone.config
      ensures started ==>
                var undo := rclone.sent[|old(rclone.sent)|..];
                && IsUndo(undo, name) && undo != [] && (ok <==> HasUndone(undo))
                && (undo[0].failure.None? ==> (|undo| == 2 <==> name in old(rclone.config)))
                && (|undo| == 1 ==> rclone.config == old(rclone.config))
    {
      if !started { return true; }
      var dump := rclone.Dumped();
      if dump.Err? { return false; }
      if name in dump.value {
        ok := rclone.Remove(name);
        assert rclone.sent == old(rclone.sent) + [Dump(None), Delete(name, ok)];
        return;
      }
      return true;
    }
  }

  /** `NewRemote::prepare`: the capability exists only for a name that the configuration did not hold. */
  method Prepare(rclone: Rclone, name: string, isSharePoint: bool, cancelled: bool) returns (result: Result<NewRemote>)
    modifies rclone
    ensures rclone.config == old(rclone.config)
    ensures result.Ok? ==>
              && fresh(result.value) && result.value.Valid() && !result.value.started && result.value.steps == 0
              && result.value.name == name && result.value.isSharePoint == isSharePoint
              && name !in rclone.config && IsRemoteName(name)
    ensures name in rclone.config ==> result.Err?
    ensures !IsRemoteName(name) ==> result == Err(InvalidRemoteName) && rclone.sent == old(rclone.sent)
    ensures IsRemoteName(name) && cancelled ==> result == Err(Cancelled) && rclone.sent == old(rclone.sent)
    ensures IsRemoteName(name) && !cancelled ==>
              if result.Ok? || result == Err(ExistingRemote) then
                rclone.sent == old(rclone.sent) + [Dump(None)] && (result.Ok? <==> name !in rclone.config)
              else
                rclone.sent == old(rclone.sent) + [Dump(Some(result.failure))] && result.failure in {InvalidResponse, CommandFailed}
  {
    if !IsRemoteName(name) { return Err(InvalidRemoteName); }
    if cancelled { return Err(Cancelled); }
    var dump := rclone.Dumped();
    if dump.Err? { return Err(dump.failure); }
    if name in dump.value { return Err(ExistingRemote); }
    var remote := new NewRemote(name, isSharePoint);
    return Ok(remote);
  }

  // ---------------------------------------------------------------------------- the conversation

  predicate IsOwn(c: Command, name: string) {
    match c
    case Dump(_) => true
    case FoundDrive(_) => true
    case NoDrive => true
    case Configure(n, _, _) => n == name
    case Checked(n, _, _) => n == name
    case Delete(_, _) => false
  }

  /** The entries of one conversation: about one name, counted, deleting nothing, each fitting what came before. */
  ghost predicate IsConversation(sent: seq<Command>, name: string, steps: nat) {
    && (forall i :: 0 <= i < |sent| ==> IsOwn(sent[i], name))
    && Configures(sent) == steps
    && AllFit(sent)
  }

  ghost predicate HasChosen(sent: seq<Command>) { exists j :: 0 <= j < |sent| && IsChoice(sent[j]) }

  /** The last reply is this one. */
  ghost predicate Heard(sent: seq<Command>, response: Response) {
    exists j :: IsLast(sent, |sent|, j) && sent[j].reply == Answer(response)
  }

  lemma FitsStays(sent: seq<Command>, more: seq<Command>, i: nat, step: Step)
    requires i <= |sent| && Fits(sent, i, step)
    ensures Fits(sent + more, i, step)
  {
    assert forall k :: 0 <= k < i ==> (sent + more)[k] == sent[k];
    if step.Continue? {
      RightStays(sent, more, i, step.question, step.answer);
      var j :| IsLast(sent, i, j) && IsAnswer(sent[j].reply, step.question, step.state);
      assert IsLast(sent + more, i, j);
    }
  }

  lemma RightStays(sent: seq<Command>, more: seq<Command>, i: nat, question: Question, answer: string)
    requires i <= |sent| && IsRightAnswer(sent, i, question, answer)
    ensures IsRightAnswer(sent + more, i, question, answer)
  {
    assert forall k :: 0 <= k < i ==> (sent + more)[k] == sent[k];
    match question
    case ConfigDriveId(_) =>
      var j :| 0 <= j < i && sent[j] == FoundDrive(answer);
      assert (sent + more)[j] == FoundDrive(answer);
    case ConfigDriveOk =>
      var j :| 0 <= j < i && IsChoice(sent[j]);
      assert IsChoice((sent + more)[j]);
    case _ =>
  }

  lemma FitsEnough(sent: seq<Command>, c: Command)
    requires AllFit(sent) && (c.Configure? ==> Fits(sent, |sent|, c.step))
    ensures AllFit(sent + [c])
  {
    var all := sent + [c];
    forall i | 0 <= i < |all| && all[i].Configure? ensures Fits(all, i, all[i].step) {
      FitsStays(sent, [c], i, all[i].step);
    }
  }

  lemma OneMoreCommand(sent: seq<Command>, name: string, steps: nat, c: Command)
    requires IsConversation(sent, name, steps) && IsOwn(c, name)
    requires c.Configure? ==> Fits(sent, |sent|, c.step)
    ensures IsConversation(sent + [c], name, steps + if c.Configure? then 1 else 0)
    ensures HasChosen(sent + [c]) <==> HasChosen(sent) || IsChoice(c)
  {
    FitsEnough(sent, c);
    ChoiceJoins(sent, c);
    assert (sent + [c])[..|sent|] == sent;
  }

  lemma ChoiceJoins(sent: seq<Command>, c: Command)
    ensures HasChosen(sent + [c]) <==> HasChosen(sent) || IsChoice(c)
  {
    var all := sent + [c];
    if HasChosen(sent) {
      var j :| 0 <= j < |sent| && IsChoice(sent[j]);
      assert IsChoice(all[j]);
    }
    if IsChoice(c) { assert IsChoice(all[|sent|]); }
  }

  lemma HeardNow(sent: seq<Command>, c: Command)
    requires c.Configure? && c.reply.Answer?
    ensures Heard(sent + [c], c.reply.response)
  {
    assert IsLast(sent + [c], |sent| + 1, |sent|);
  }

  lemma HeardStays(sent: seq<Command>, more: seq<Command>, response: Response)
    requires Heard(sent, response) && forall i :: 0 <= i < |more| ==> !more[i].Configure?
    ensures Heard(sent + more, response)
  {
    var j :| IsLast(sent, |sent|, j) && sent[j].reply == Answer(response);
    assert IsLast(sent + more, |sent + more|, j);
  }

  lemma Regroup(a: seq<Command>, b: seq<Command>, c: seq<Command>)
    ensures a + b + c == a + (b + c)
  {
  }

  lemma HeardIsUnique(sent: seq<Command>, a: Response, b: Response)
    requires Heard(sent, a) && Heard(sent, b)
    ensures a == b
  {
  }

  lemma NotDoneYet(sent: seq<Command>, response: Response)
    requires Heard(sent, response) && response.state != Ok("")
    ensures !IsDone(sent)
  {
    forall r | Heard(sent, r) ensures r == response { HeardIsUnique(sent, response, r); }
  }

  /** A refused reply is the cause, and the conversation was not over with it. */
  lemma RefusedIsCause(before: seq<Command>, c: Command)
    requires c.Configure? && Judged(c.reply).Err?
    ensures HasCause(Judged(c.reply).failure, before + [c]) && !IsDone(before + [c])
    ensures Judged(c.reply).failure != Cancelled && Judged(c.reply).failure != NotVerified
  {
    var all := before + [c];
    assert all[|all| - 1] == c && EndsIn(all, Judged(c.reply).failure);
    forall r | Heard(all, r) ensures c.reply == Answer(r) { HeardNowIs(before, c, r); }
  }

  lemma HeardNowIs(before: seq<Command>, c: Command, r: Response)
    requires c.Configure? && Heard(before + [c], r)
    ensures c.reply == Answer(r)
  {
    var all := before + [c];
    var j :| IsLast(all, |all|, j) && all[j].reply == Answer(r);
    assert all[|before|] == c;
  }

  /** An unanswered question is the cause. */
  lemma UnansweredIsCause(before: seq<Command>, asked: seq<Command>, response: Response, selected: bool, failure: Failure,
                          cancelled: bool)
    requires Heard(before, response) && response.state.Ok? && response.state != Ok("") && (selected <==> HasChosen(before))
    requires Heard(before + asked, response) && (HasChosen(before + asked) <==> HasChosen(before))
    requires Unanswered(failure, response.question, selected, cancelled, asked)
    ensures failure == Cancelled ==> cancelled && asked == []
    ensures failure != Cancelled ==> HasCause(failure, before + asked)
    ensures failure != NotVerified && !IsDone(before + asked)
  {
    NotDoneYet(before + asked, response);
    if asked != [] { assert (before + asked)[|before + asked| - 1] == asked[|asked| - 1]; }
  }

  /** What one more answer does to the conversation, whether or not it was sent. */
  ghost predicate Continues(before: seq<Command>, extra: seq<Command>, name: string, steps: nat, question: Question,
                            result: Result<Response>)
  {
    && IsConversation(before + extra, name, steps) && Unchecked(extra)
    && (result.Ok? ==> (HasChosen(before + extra) <==> HasChosen(before) || question.ConfigDriveId?)
                       && Heard(before + extra, result.value))
  }

  lemma NothingSent(before: seq<Command>, name: string, steps: nat, question: Question, failure: Failure)
    requires IsConversation(before, name, steps)
    ensures Continues(before, [], name, steps, question, Err(failure))
  {
    assert before + [] == before;
  }

  lemma OneSent(before: seq<Command>, name: string, steps: nat, c: Command)
    requires IsConversation(before, name, steps) && IsOwn(c, name)
    requires c.Configure? && c.step.Continue? && Fits(before, |before|, c.step)
    ensures Continues(before, [c], name, steps + 1, c.step.question, Judged(c.reply))
  {
    OneMoreCommand(before, name, steps, c);
    if Judged(c.reply).Ok? { HeardNow(before, c); }
  }

  /** `primary`: the provider names the drive of the expected account, or refuses. */
  method Primary(rclone: Rclone) returns (found: Option<string>)
    modifies rclone`sent
    ensures rclone.sent == old(rclone.sent) + [if found.Some? then FoundDrive(found.value) else NoDrive]
  {
    found := *;
    rclone.sent := rclone.sent + [if found.Some? then FoundDrive(found.value) else NoDrive];
  }

  /** The question has no answer: why, and what was asked in vain. */
  predicate Unanswered(failure: Failure, question: Question, selected: bool, cancelled: bool, asked: seq<Command>) {
    match question
    case ConfigDriveId(offered) =>
      if asked == [] then failure == Cancelled && cancelled
      else
        (match asked[|asked| - 1]
         case Dump(f) => f == Some(failure) && failure in {InvalidResponse, CommandFailed}
         case NoDrive => failure == InvalidMetadata
         case FoundDrive(drive) =>
           if offered.None? then failure == InvalidMetadata
           else failure == WrongDrive && (|offered.value| > 40 || drive !in offered.value)
         case _ => false)
    case ConfigDriveOk => failure == UnsupportedQuestion && !selected && asked == []
    case OtherQuestion => failure == UnsupportedQuestion && asked == []
    case _ => false
  }

  /** The drive question: the expected drive is looked up and must be among those offered. */
  method ChooseDrive(rclone: Rclone, offered: Option<seq<string>>, cancelled: bool)
    returns (result: Result<string>, ghost extra: seq<Command>)
    modifies rclone`sent
    ensures rclone.sent == old(rclone.sent) + extra
    ensures Unchecked(extra) && forall i :: 0 <= i < |extra| ==> extra[i].Dump? || extra[i].FoundDrive? || extra[i].NoDrive?
    ensures result.Ok? ==> extra == [Dump(None), FoundDrive(result.value)]
                           && offered.Some? && |offered.value| <= 40 && result.value in offered.value
    ensures result.Err? ==> Unanswered(result.failure, ConfigDriveId(offered), true, cancelled, extra)
    ensures extra == [] <==> cancelled
  {
    extra := [];
    if cancelled { return Err(Cancelled), extra; }
    ghost var before := rclone.sent;
    var dump := rclone.Dumped();
    extra := rclone.sent[|before|..];
    if dump.Err? { return Err(dump.failure), extra; }
    var found := Primary(rclone);
    extra := rclone.sent[|before|..];
    if found.None? { return Err(InvalidMetadata), extra; }
    if offered.None? { return Err(InvalidMetadata), extra; }
    if |offered.value| > 40 || found.value !in offered.value { return Err(WrongDrive), extra; }
    return Ok(found.value), extra;
  }

  /** One check of the new remote. */
  method RunCheck(rclone: Rclone, name: string, check: Check) returns (ok: bool)
    modifies rclone`sent
    ensures rclone.sent == old(rclone.sent) + [Checked(name, check, ok)]
  {
    ok := *;
    rclone.sent := rclone.sent + [Checked(name, check, ok)];
  }

  /** Verification of the new remote: its identity, the one saved before, and the folder to mount.  What
      the checks read of the configuration is part of them. */
  method Verify(rclone: Rclone, name: string) returns (result: Result<()>, ghost passed: nat)
    modifies rclone`sent
    ensures passed <= 3 && rclone.sent == old(rclone.sent) + Checks(name, passed)
    ensures result == if passed == 3 then Ok(()) else Err(NotVerified)
  {
    ghost var before := rclone.sent;
    var ok := RunCheck(rclone, name, Identity);
    if !ok { return Err(NotVerified), 0; }
    ok := RunCheck(rclone, name, Acceptance);
    assert rclone.sent == before + [Checked(name, Identity, true), Checked(name, Acceptance, ok)];
    if !ok { return Err(NotVerified), 1; }
    ok := RunCheck(rclone, name, Subtree);
    assert rclone.sent == before + [Checked(name, Identity, true), Checked(name, Acceptance, true), Checked(name, Subtree, ok)];
    return if ok then Ok(()) else Err(NotVerified), if ok then 3 else 2;
  }

  /** The answer goes to rclone with the state it belongs to. */
  method SendAnswer(remote: NewRemote, rclone: Rclone, response: Response, state: string, answer: string,
                    cancels: nat -> bool, ghost before: seq<Command>)
    returns (result: Result<Response>, ghost extra: seq<Command>)
    requires remote.Valid() && remote.started && !remote.isSharePoint && IsConversation(before, remote.name, remote.steps)
    requires Heard(before, response) && response.state == Ok(state) && state != ""
    requires Fits(before, |before|, Continue(response.question, state, answer))
    requires |answer| > 16 * 1024 ==> before[|before| - 1] == FoundDrive(answer)
    requires |before| <= |rclone.sent|
    modifies remote, rclone
    ensures remote.Valid() && remote.started
    ensures rclone.OnlyTouches(remote.name)
    ensures rclone.sent == old(rclone.sent) + extra
    ensures Continues(before, extra, remote.name, remote.steps, response.question, result)
    ensures result.Ok? ==> remote.steps == old(remote.steps) + 1
    ensures result.Err? ==> Ends(result.failure, before + extra, cancels, |old(rclone.sent)| - |before|)
    ensures result.Err? ==> result.failure != NotVerified
  {
    ghost var steps, sent := remote.steps, rclone.sent;
    extra := [];
    var cancelled := cancels(|rclone.sent|);
    result := remote.ContinueWith(rclone, response.question, state, answer, cancelled);
    if rclone.sent == sent {
      NothingSent(before, remote.name, steps, response.question, result.failure);
      NotDoneYet(before, response);
      assert before + [] == before;
    } else {
      ghost var c := Command.Configure(remote.name, Continue(response.question, state, answer), rclone.Heard());
      OneSent(before, remote.name, steps, c);
      extra := [c];
      if result.Err? { RefusedIsCause(before, c); }
    }
  }

  /** The answer to one question, before it is sent. */
  method FindAnswer(rclone: Rclone, question: Question, selected: bool, cancelled: bool)
    returns (answer: Result<string>, ghost asked: seq<Command>)
    modifies rclone`sent
    ensures rclone.sent == old(rclone.sent) + asked
    ensures Unchecked(asked) && forall i :: 0 <= i < |asked| ==> asked[i].Dump? || asked[i].FoundDrive? || asked[i].NoDrive?
    ensures question.ConfigIsLocal? ==> answer == Ok("true") && asked == []
    ensures question.ConfigType? ==> answer == Ok("onedrive") && asked == []
    ensures question.ConfigDriveOk? ==> answer == (if selected then Ok("true") else Err(UnsupportedQuestion)) && asked == []
    ensures question.OtherQuestion? ==> answer == Err(UnsupportedQuestion) && asked == []
    ensures question.ConfigDriveId? && answer.Ok? ==>
              asked == [Dump(None), FoundDrive(answer.value)]
              && question.offered.Some? && |question.offered.value| <= 40 && answer.value in question.offered.value
    ensures answer.Err? ==> Unanswered(answer.failure, question, selected, cancelled, asked)
  {
    asked := [];
    match question
    case ConfigIsLocal => return Ok("true"), asked;
    case ConfigType => return Ok("onedrive"), asked;
    case ConfigDriveId(offered) => answer, asked := ChooseDrive(rclone, offered, cancelled);
    case ConfigDriveOk => return if selected then Ok("true") else Err(UnsupportedQuestion), asked;
    case OtherQuestion => return Err(UnsupportedQuestion), asked;
  }

  /** Entries of its own that configure nothing leave the conversation as it is. */
  lemma {:induction false} QuietMore(before: seq<Command>, more: seq<Command>, name: string, steps: nat)
    requires IsConversation(before, name, steps)
    requires forall i :: 0 <= i < |more| ==> IsOwn(more[i], name) && !more[i].Configure?
    ensures IsConversation(before + more, name, steps) && (HasChosen(before + more) <==> HasChosen(before))
    decreases |more|
  {
    if more == [] {
      assert before + more == before;
    } else {
      var init, last := more[..|more| - 1], more[|more| - 1];
      QuietMore(before, init, name, steps);
      OneMoreCommand(before + init, name, steps, last);
      Regroup(before, init, [last]);
      assert init + [last] == more;
    }
  }

  lemma UncheckedJoins(a: seq<Command>, b: seq<Command>)
    requires Unchecked(a) && Unchecked(b)
    ensures Unchecked(a + b)
  {
  }

  lemma AnswerFits(sent: seq<Command>, response: Response, state: string, answer: string)
    requires Heard(sent, response) && response.state == Ok(state) && state != ""
    requires match response.question
             case ConfigIsLocal => answer == "true"
             case ConfigType => answer == "onedrive"
             case ConfigDriveId(offered) =>
               && offered.Some? && |offered.value| <= 40 && answer in offered.value
               && sent != [] && sent[|sent| - 1] == FoundDrive(answer)
             case ConfigDriveOk => answer == "true" && HasChosen(sent)
             case OtherQuestion => false
    ensures Fits(sent, |sent|, Continue(response.question, state, answer))
  {
    var j :| IsLast(sent, |sent|, j) && sent[j].reply == Answer(response);
    assert IsAnswer(sent[j].reply, response.question, state);
  }

  /** One question answered; the answer goes to rclone with the state it came with. */
  method AnswerQuestion(remote: NewRemote, rclone: Rclone, response: Response, state: string, selected: bool,
                        cancels: nat -> bool, ghost before: seq<Command>)
    returns (result: Result<Response>, chosen: bool, ghost extra: seq<Command>)
    requires remote.Valid() && remote.started && !remote.isSharePoint && IsConversation(before, remote.name, remote.steps)
    requires Heard(before, response) && response.state == Ok(state) && state != ""
    requires (selected <==> HasChosen(before)) && |before| <= |rclone.sent|
    modifies remote, rclone
    ensures remote.Valid() && remote.started
    ensures rclone.OnlyTouches(remote.name)
    ensures rclone.sent == old(rclone.sent) + extra && IsConversation(before + extra, remote.name, remote.steps)
    ensures Unchecked(extra)
    ensures result.Ok? ==> (chosen <==> HasChosen(before + extra)) && remote.steps == old(remote.steps) + 1
    ensures result.Ok? ==> Heard(before + extra, result.value)
    ensures result.Err? ==> Ends(result.failure, before + extra, cancels, |old(rclone.sent)| - |before|)
    ensures response.question.OtherQuestion? ==> result == Err(UnsupportedQuestion) && extra == []
    ensures response.question.ConfigDriveOk? && !selected ==> result == Err(UnsupportedQuestion) && extra == []
  {
    var answer;
    answer, extra := FindAnswer(rclone, response.question, selected, cancels(|rclone.sent|));
    QuietMore(before, extra, remote.name, remote.steps);
    HeardStays(before, extra, response);
    chosen := selected || response.question.ConfigDriveId?;
    if answer.Err? {
      UnansweredIsCause(before, extra, response, selected, answer.failure, cancels(|old(rclone.sent)|));
      return Err(answer.failure), chosen, extra;
    }
    AnswerFits(before + extra, response, state, answer.value);
    ghost var asked := extra;
    result, extra := SendAnswer(remote, rclone, response, state, answer.value, cancels, before + asked);
    UncheckedJoins(asked, extra);
    Regroup(before, asked, extra);
    Regroup(old(rclone.sent), asked, extra);
    extra := asked + extra;
  }

  /** The first command of the conversation. */
  method Begin(remote: NewRemote, rclone: Rclone, cancels: nat -> bool, ghost base: seq<Command>, ghost before: seq<Command>)
    returns (created: Result<Response>, ghost told: seq<Command>)
    requires remote.Valid() && !remote.started && remote.steps == 0 && OnlyDumps(before) && rclone.sent == base + before
    modifies remote, rclone
    ensures Talking(remote, rclone, base, told) && Unchecked(told) && remote.steps <= 1 && !HasChosen(told)
    ensures !remote.started ==> rclone.config == old(rclone.config) && created.Err? && told == before
    ensures created.Ok? ==> Heard(told, created.value)
    ensures created.Err? ==> Ends(created.failure, told, cancels, |base|) && created.failure != NotVerified
  {
    told := before;
    NoneConfigures(before);
    created := remote.CreateRemote(rclone, cancels(|rclone.sent|));
    if remote.started {
      ghost var c := Command.Configure(remote.name, Create, rclone.Heard());
      OneMoreCommand(before, remote.name, 0, c);
      if created.Ok? { HeardNow(before, c); } else { RefusedIsCause(before, c); }
      told := before + [c];
      assert base + before + [c] == base + told;
    }
  }

  /** What holds of the conversation after every command. */
  twostate predicate Talking(remote: NewRemote, rclone: Rclone, base: seq<Command>, told: seq<Command>)
    reads remote, rclone
  {
    && remote.Valid()
    && rclone.OnlyTouches(remote.name)
    && rclone.sent == base + told
    && IsConversation(told, remote.name, remote.steps)
  }

  ghost predicate Unchecked(sent: seq<Command>) { forall i :: 0 <= i < |sent| ==> !sent[i].Checked? }

  /** The checks decide: all passed means verified, any other outcome leaves a failed one. */
  lemma ChecksDecide(before: seq<Command>, name: string, passed: nat, response: Response)
    requires passed <= 3 && Unchecked(before) && Heard(before, response) && response.state == Ok("")
    ensures var all := before + Checks(name, passed);
            (passed == 3 ==> Verified(all, name)) && (passed < 3 ==> HasFailedCheck(all))
  {
    var all := before + Checks(name, passed);
    var j :| IsLast(before, |before|, j) && before[j].reply == Answer(response);
    assert IsLast(all, |before|, j);
    if passed == 3 {
      assert VerifiedAt(all, name, |before|);
    } else {
      assert all[|all| - 1].Checked? && !all[|all| - 1].ok;
    }
  }

  lemma UncheckedIsUnverified(sent: seq<Command>, name: string)
    requires Unchecked(sent)
    ensures !Verified(sent, name) && !HasFailedCheck(sent)
  {
  }

  /** One round: the question of the last reply is answered. */
  method TakeTurn(remote: NewRemote, rclone: Rclone, response: Response, state: string, selected: bool, cancels: nat -> bool,
                  ghost base: seq<Command>, ghost before: seq<Command>)
    returns (result: Result<Response>, chosen: bool, ghost told: seq<Command>)
    requires remote.Valid() && remote.started && !remote.isSharePoint && IsConversation(before, remote.name, remote.steps)
    requires Heard(before, response) && response.state == Ok(state) && state != ""
    requires (selected <==> HasChosen(before)) && Unchecked(before) && rclone.sent == base + before
    modifies remote, rclone
    ensures Talking(remote, rclone, base, told) && Unchecked(told) && remote.started
    ensures !Verified(told, remote.name) && !HasFailedCheck(told)
    ensures result.Ok? ==> (chosen <==> HasChosen(told)) && remote.steps == old(remote.steps) + 1 && Heard(told, result.value)
    ensures result.Err? ==> Ends(result.failure, told, cancels, |base|) && result.failure != CleanupRequired
  {
    ghost var asked;
    result, chosen, asked := AnswerQuestion(remote, rclone, response, state, selected, cancels, before);
    told := before + asked;
    assert base + before + asked == base + told;
    UncheckedJoins(before, asked);
    UncheckedIsUnverified(told, remote.name);
  }

  lemma MalformedEnds(sent: seq<Command>, response: Response, cancels: nat -> bool, start: nat)
    requires Heard(sent, response) && response.state.Err?
    ensures Ends(InvalidMetadata, sent, cancels, start)
  {
    NotDoneYet(sent, response);
  }

  lemma FailedCheckEnds(sent: seq<Command>, cancels: nat -> bool, start: nat)
    requires HasFailedCheck(sent)
    ensures Ends(NotVerified, sent, cancels, start)
  {
  }

  /** The conversation of `authenticate`: create, answer at most twelve questions, verify.  `told` is
      `before` with all that follows. */
  method Converse(remote: NewRemote, rclone: Rclone, cancels: nat -> bool, ghost base: seq<Command>, ghost before: seq<Command>)
    returns (result: Result<()>, ghost told: seq<Command>)
    requires remote.Valid() && !remote.started && !remote.isSharePoint && remote.steps == 0
    requires OnlyDumps(before) && rclone.sent == base + before
    modifies remote, rclone
    ensures Talking(remote, rclone, base, told)
    ensures !remote.started ==> rclone.config == old(rclone.config) && result.Err? && told == before
    ensures Decides(result, told, remote.name)
    ensures result.Err? ==> Ends(result.failure, told, cancels, |base|)
  {
    result := Err(UnsupportedQuestion);
    var created;
    created, told := Begin(remote, rclone, cancels, base, before);
    UncheckedIsUnverified(told, remote.name);
    if created.Err? { return Err(created.failure), told; }
    var response := created.value;
    var selected := false;
    for round := 0 to 12
      invariant Talking(remote, rclone, base, told) && Unchecked(told)
      invariant remote.started && remote.steps == round + 1
      invariant selected <==> HasChosen(told)
      invariant Heard(told, response)
    {
      // A response with an error text never gets here: `Execute` has refused it.
      UncheckedIsUnverified(told, remote.name);
      if response.state.Err? {
        MalformedEnds(told, response, cancels, |base|);
        return Err(InvalidMetadata), told;
      }
      var state := response.state.value;
      if state == "" {
        result, told := Conclude(remote, rclone, base, told, response);
        if result.Err? { FailedCheckEnds(told, cancels, |base|); }
        return;
      }
      var next;
      next, selected, told := TakeTurn(remote, rclone, response, state, selected, cancels, base, told);
      if next.Err? { return Err(next.failure), told; }
      response := next.value;
    }
    // The thirteenth command would exceed the budget of twelve, so the loop never runs to its end.
    assert false;
  }

  /** Success is what the checks say it is. */
  ghost predicate Decides(result: Result<()>, sent: seq<Command>, name: string) {
    && (result.Ok? <==> Verified(sent, name))
    && (HasFailedCheck(sent) ==> result == Err(NotVerified))
    && (result.Err? ==> result.failure != CleanupRequired)
  }

  /** The conversation is over: the remote is verified. */
  method Conclude(remote: NewRemote, rclone: Rclone, ghost base: seq<Command>, ghost before: seq<Command>, ghost response: Response)
    returns (result: Result<()>, ghost told: seq<Command>)
    requires IsConversation(before, remote.name, remote.steps) && Unchecked(before) && rclone.sent == base + before
    requires Heard(before, response) && response.state == Ok("")
    modifies rclone`sent
    ensures rclone.sent == base + told && IsConversation(told, remote.name, remote.steps)
    ensures Decides(result, told, remote.name)
    ensures result.Err? ==> result == Err(NotVerified) && HasFailedCheck(told)
  {
    ghost var passed;
    result, passed := Verify(rclone, remote.name);
    told := before + Checks(remote.name, passed);
    assert base + before + Checks(remote.name, passed) == base + told;
    QuietMore(before, Checks(remote.name, passed), remote.name, remote.steps);
    ChecksDecide(before, remote.name, passed, response);
  }

  /** The rollback after a failed conversation. */
  method Undo(remote: NewRemote, rclone: Rclone) returns (ok: bool, ghost undo: seq<Command>)
    requires remote.Valid()
    modifies rclone
    ensures rclone.OnlyTouches(remote.name) && rclone.sent == old(rclone.sent) + undo
    ensures IsUndo(undo, remote.name) && (ok <==> HasUndone(undo))
    ensures remote.started <==> undo != []
    ensures !remote.started ==> rclone.config == old(rclone.config)
    ensures remote.started && ok ==> remote.name !in rclone.config
  {
    ok := remote.Rollback(rclone);
    undo := rclone.sent[|old(rclone.sent)|..];
  }

  /**
   * The commands of a whole run: at most twelve configure the remote, each fits what came before it,
   * and one deletion at most ends a failed run on a name that was free.
   */
  ghost predicate IsLedger(sent: seq<Command>, name: string, wasThere: bool, failed: bool) {
    && Configures(sent) <= 12
    && (Configures(sent) == 0 || wasThere ==> OnlyDumps(sent))
    && AllFit(sent)
    && (forall i :: 0 <= i < |sent| && sent[i].Configure? ==> sent[i].name == name)
    && (forall i :: 0 <= i < |sent| && sent[i].Delete? ==> failed && i == |sent| - 1 && sent[i].name == name)
  }

  /** A failed conversation is rolled back. */
  method Retreat(remote: NewRemote, rclone: Rclone, ghost base: seq<Command>, ghost told: seq<Command>, failure: Failure)
    returns (result: Result<()>, ghost undo: seq<Command>)
    requires remote.Valid() && !remote.isSharePoint && IsConversation(told, remote.name, remote.steps)
    requires rclone.sent == base + told
    requires !remote.started ==> OnlyDumps(told)
    modifies rclone
    ensures rclone.OnlyTouches(remote.name) && rclone.sent == base + told + undo
    ensures result == Err(if HasUndone(undo) then failure else CleanupRequired)
    ensures IsUndo(undo, remote.name) && (remote.started <==> undo != [])
    ensures !remote.started ==> rclone.config == old(rclone.config)
    ensures remote.started && HasUndone(undo) ==> remote.name !in rclone.config
    ensures IsLedger(told + undo, remote.name, false, true)
  {
    var ok;
    ok, undo := Undo(remote, rclone);
    UndoIsLedger(told, undo, remote.name, remote.steps);
    return Err(if ok then failure else CleanupRequired), undo;
  }

  /** What a run comes to from the creation on: what was told and undone, and how the conversation ended. */
  twostate predicate ComesTo(rclone: Rclone, name: string, new result: Result<()>, base: seq<Command>, told: seq<Command>,
                             new ended: Result<()>, undo: seq<Command>)
    reads rclone
  {
    && rclone.OnlyTouches(name)
    && rclone.sent == base + told + undo
    && (result.Ok? <==> Verified(told, name))
    && (HasFailedCheck(told) ==> ended == Err(NotVerified))
    && result == (if HasUndone(undo) then ended else Err(CleanupRequired))
    && IsUndo(undo, name) && (undo != [] <==> ended.Err? && Configures(told) > 0)
    && (Configures(told) == 0 ==> result.Err? && rclone.config == old(rclone.config))
    && (result.Err? && result.failure != CleanupRequired ==> rclone.config == old(rclone.config))
  }

  lemma NothingUndone(base: seq<Command>, told: seq<Command>)
    ensures told + [] == told && base + told + [] == base + told
  {
  }

  /** The conversation, and the rollback when it fails. */
  method Attempt(remote: NewRemote, rclone: Rclone, cancels: nat -> bool, ghost base: seq<Command>, ghost before: seq<Command>)
    returns (result: Result<()>, ghost told: seq<Command>, ghost ended: Result<()>, ghost undo: seq<Command>)
    requires remote.Valid() && !remote.started && !remote.isSharePoint && remote.steps == 0
    requires OnlyDumps(before) && rclone.sent == base + before && remote.name !in rclone.config
    modifies remote, rclone
    ensures ComesTo(rclone, remote.name, result, base, told, ended, undo)
    ensures IsLedger(told + undo, remote.name, false, result.Err?)
    ensures ended.Err? ==> Ends(ended.failure, told, cancels, |base|)
    ensures ended.Err? ==> ended.failure !in {CleanupRequired, InvalidRemoteName, ExistingRemote}
  {
    undo := [];
    result, told := Converse(remote, rclone, cancels, base, before);
    NoneConfigures(told);
    NothingUndone(base, told);
    ended := result;
    if result.Err? {
      result, undo := Retreat(remote, rclone, base, told, result.failure);
      if remote.started && HasUndone(undo) { BackAsFound(old(rclone.config), rclone.config, remote.name); }
    }
  }

  /**
   * `authenticate` from the name check on. A remote that was there before is untouched, other names
   * never change, success means that the new remote passed its three checks after the last command,
   * every failure has its cause among the entries, a check that fails fails the run, and any failure
   * but CleanupRequired, which means that the rollback failed, leaves the configuration as it was found.
   */
  method Authenticate(rclone: Rclone, name: string, cancels: nat -> bool)
    returns (result: Result<()>, ghost told: seq<Command>, ghost ended: Result<()>, ghost undo: seq<Command>)
    modifies rclone
    ensures ComesTo(rclone, name, result, old(rclone.sent), told, ended, undo)
    ensures IsLedger(told + undo, name, name in old(rclone.config), result.Err?)
    ensures name in old(rclone.config) ==> result.Err? && Configures(told) == 0
    ensures ended == Err(InvalidRemoteName) <==> !IsRemoteName(name)
    ensures ended == Err(ExistingRemote) ==> name in old(rclone.config)
    ensures ended.Err? && ended.failure !in {InvalidRemoteName, ExistingRemote} ==>
              Ends(ended.failure, told, cancels, |old(rclone.sent)|)
  {
    ghost var base := rclone.sent;
    var prepared := Prepare(rclone, name, false, cancels(|rclone.sent|));
    told, undo := rclone.sent[|base|..], [];
    UncheckedIsUnverified(told, name);
    NoneConfigures(told);
    NothingUndone(base, told);
    if prepared.Err? {
      result, ended := Err(prepared.failure), Err(prepared.failure);
      return;
    }
    var remote := prepared.value;
    result, told, ended, undo := Attempt(remote, rclone, cancels, base, told);
  }

  lemma BackAsFound(before: map<string, Remote>, after: map<string, Remote>, name: string)
    requires after - {name} == before - {name} && name !in before && name !in after
    ensures after == before
  {
    assert before - {name} == before && after - {name} == after;
  }

  lemma {:induction false} ConfiguresJoin(a: seq<Command>, b: seq<Command>)
    ensures Configures(a + b) == Configures(a) + Configures(b)
    decreases |b|
  {
    if b == [] {
      assert a + b == a;
    } else {
      assert (a + b)[..|a + b| - 1] == a + b[..|b| - 1];
      ConfiguresJoin(a, b[..|b| - 1]);
    }
  }

  lemma {:induction false} NoneConfigures(sent: seq<Command>)
    ensures Configures(sent) == 0 <==> forall i :: 0 <= i < |sent| ==> !sent[i].Configure?
  {
    if sent != [] { NoneConfigures(sent[..|sent| - 1]); }
  }

  lemma AllFitStays(told: seq<Command>, undo: seq<Command>)
    requires AllFit(told) && forall i :: 0 <= i < |undo| ==> !undo[i].Configure?
    ensures AllFit(told + undo)
  {
    var all := told + undo;
    forall i | 0 <= i < |all| && all[i].Configure? ensures Fits(all, i, all[i].step) {
      FitsStays(told, undo, i, told[i].step);
    }
  }

  /** Rolling back adds a dump and at most one deletion, and those only after a configuration command. */
  lemma UndoIsLedger(told: seq<Command>, undo: seq<Command>, name: string, steps: nat)
    requires IsConversation(told, name, steps) && steps <= 12 && IsUndo(undo, name)
    requires steps == 0 ==> OnlyDumps(told) && undo == []
    ensures IsLedger(told + undo, name, false, true) && Configures(told + undo) == steps
  {
    NoneConfigures(undo);
    ConfiguresJoin(told, undo);
    AllFitStays(told, undo);
    if undo == [] { assert told + undo == told; }
  }
}
