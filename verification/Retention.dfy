/** `cleanup_retention`: which expired recovery directories go, and what is counted. */
module Retention {
  import opened Calendar
  import opened Options
  import opened Text

  type Name = seq<byte>

  /** What inspecting one local entry shows, and whether removing it would work. */
  datatype Look =
    | NoMetadata
    | NotDirectory
    | NoMarker
    | MarkerNotFile
    | MarkerUnreadable
    | MarkerText(text: string, removable: bool)

  datatype LocalEntry = Unreadable | Entry(name: Name, look: Look)

  /** One line of the remote listing; `owner` is the marker when it was read completely. */
  datatype RemoteEntry = RemoteEntry(line: Name, owner: Option<string>, purgeable: bool)

  datatype Fate = Kept | Removed | Foreign | Unverified | RemovalFailed

  datatype RemoteCommand = ListRoot | CatOwner(name: Name) | Purge(name: Name)

  const SLASH: byte := 47

  /** `trim_end_matches('/')`. */
  function TrimSlashes(line: Name): Name {
    TrimTrailing(line, SLASH)
  }

  // ------------------------------------------------------------------------- what each entry earns

  /** Specification: an expired local directory whose marker names this connection goes. */
  function LocalFate(e: LocalEntry, id: string, cutoff: Name): Fate {
    if e.Unreadable? || !IsExpired(e.name, cutoff) then Kept
    else if !e.look.MarkerText? then Unverified
    else if TrimEnd(e.look.text) != id then Foreign
    else if e.look.removable then Removed
    else RemovalFailed
  }

  function RemoteFate(e: RemoteEntry, id: string, cutoff: Name): Fate {
    if !IsExpired(TrimSlashes(e.line), cutoff) then Kept
    else if e.owner.None? then Unverified
    else if TrimEnd(e.owner.value) != id then Foreign
    else if e.purgeable then Removed
    else RemovalFailed
  }

  /** The fate of a local entry: nothing that is not an expired name is touched; of those a marker that
      cannot be read in full leaves the ownership unverified, one that names somebody else protects the
      directory, and one that names this connection dooms it. */
  lemma LocalFateIs(e: LocalEntry, id: string, cutoff: Name)
    ensures var candidate := e.Entry? && StrictDay(e.name) && Less(e.name, cutoff);
            && (LocalFate(e, id, cutoff) == Kept <==> !candidate)
            && (LocalFate(e, id, cutoff) == Unverified <==>
                  candidate && e.look in {Look.NoMetadata, NotDirectory, Look.NoMarker, MarkerNotFile, MarkerUnreadable})
            && (LocalFate(e, id, cutoff) == Foreign <==> candidate && e.look.MarkerText? && TrimEnd(e.look.text) != id)
            && (LocalFate(e, id, cutoff) == Removed <==> candidate && e.look.MarkerText? && TrimEnd(e.look.text) == id && e.look.removable)
            && (LocalFate(e, id, cutoff) == RemovalFailed <==>
                  candidate && e.look.MarkerText? && TrimEnd(e.look.text) == id && !e.look.removable)
  {
  }

  lemma RemoteFateIs(e: RemoteEntry, id: string, cutoff: Name)
    ensures var name := TrimTrailing(e.line, 47);
            var candidate := StrictDay(name) && Less(name, cutoff);
            && (RemoteFate(e, id, cutoff) == Kept <==> !candidate)
            && (RemoteFate(e, id, cutoff) == Unverified <==> candidate && e.owner.None?)
            && (RemoteFate(e, id, cutoff) == Foreign <==> candidate && e.owner.Some? && TrimEnd(e.owner.value) != id)
            && (RemoteFate(e, id, cutoff) == Removed <==> candidate && e.owner.Some? && TrimEnd(e.owner.value) == id && e.purgeable)
            && (RemoteFate(e, id, cutoff) == RemovalFailed <==>
                  candidate && e.owner.Some? && TrimEnd(e.owner.value) == id && !e.purgeable)
            && (CatOwner(name) in SentFor(e, id, cutoff) <==> candidate)
            && (Purge(name) in SentFor(e, id, cutoff) <==> candidate && e.owner.Some? && TrimEnd(e.owner.value) == id)
  {
  }

  function LocalCount(entries: seq<LocalEntry>, id: string, cutoff: Name, fate: Fate): nat {
    if entries == [] then 0
    else
      var last := entries[|entries| - 1];
      LocalCount(entries[..|entries| - 1], id, cutoff, fate) + if LocalFate(last, id, cutoff) == fate then 1 else 0
  }

  function UnreadableCount(entries: seq<LocalEntry>): nat {
    if entries == [] then 0
    else UnreadableCount(entries[..|entries| - 1]) + if entries[|entries| - 1].Unreadable? then 1 else 0
  }

  function LocalRemoved(entries: seq<LocalEntry>, id: string, cutoff: Name): seq<Name> {
    if entries == [] then []
    else
      var last := entries[|entries| - 1];
      LocalRemoved(entries[..|entries| - 1], id, cutoff) + if LocalFate(last, id, cutoff).Removed? then [last.name] else []
  }

  function RemoteCount(entries: seq<RemoteEntry>, id: string, cutoff: Name, fate: Fate): nat {
    if entries == [] then 0
    else
      var last := entries[|entries| - 1];
      RemoteCount(entries[..|entries| - 1], id, cutoff, fate) + if RemoteFate(last, id, cutoff) == fate then 1 else 0
  }

  /** What one line of the listing sends. */
  function SentFor(e: RemoteEntry, id: string, cutoff: Name): seq<RemoteCommand> {
    var name := TrimSlashes(e.line);
    match RemoteFate(e, id, cutoff)
    case Kept => []
    case Unverified => [CatOwner(name)]
    case Foreign => [CatOwner(name)]
    case Removed => [CatOwner(name), Purge(name)]
    case RemovalFailed => [CatOwner(name), Purge(name)]
  }

  /** The commands that the remote half sends for these lines, in order. */
  function RemoteSent(entries: seq<RemoteEntry>, id: string, cutoff: Name): seq<RemoteCommand> {
    if entries == [] then []
    else RemoteSent(entries[..|entries| - 1], id, cutoff) + SentFor(entries[|entries| - 1], id, cutoff)
  }

  // ------------------------------------------------------------------------------- conservation

  function LocalCandidates(entries: seq<LocalEntry>, cutoff: Name): nat {
    if entries == [] then 0
    else
      var last := entries[|entries| - 1];
      LocalCandidates(entries[..|entries| - 1], cutoff) + if last.Entry? && IsExpired(last.name, cutoff) then 1 else 0
  }

  function RemoteCandidates(entries: seq<RemoteEntry>, cutoff: Name): nat {
    if entries == [] then 0
    else
      var last := entries[|entries| - 1];
      RemoteCandidates(entries[..|entries| - 1], cutoff) + if IsExpired(TrimSlashes(last.line), cutoff) then 1 else 0
  }

  /** Every expired local candidate is removed, foreign, unverified or failed, and counted once. */
  lemma {:induction false} LocalConservation(entries: seq<LocalEntry>, id: string, cutoff: Name)
    ensures LocalCandidates(entries, cutoff) ==
              LocalCount(entries, id, cutoff, Removed) + LocalCount(entries, id, cutoff, Foreign)
              + LocalCount(entries, id, cutoff, Unverified) + LocalCount(entries, id, cutoff, RemovalFailed)
    ensures |LocalRemoved(entries, id, cutoff)| == LocalCount(entries, id, cutoff, Removed)
  {
    if entries != [] { LocalConservation(entries[..|entries| - 1], id, cutoff); }
  }

  lemma {:induction false} RemoteConservation(entries: seq<RemoteEntry>, id: string, cutoff: Name)
    ensures RemoteCandidates(entries, cutoff) ==
              RemoteCount(entries, id, cutoff, Removed) + RemoteCount(entries, id, cutoff, Foreign)
              + RemoteCount(entries, id, cutoff, Unverified) + RemoteCount(entries, id, cutoff, RemovalFailed)
  {
    if entries != [] { RemoteConservation(entries[..|entries| - 1], id, cutoff); }
  }

  function Purges(sent: seq<RemoteCommand>): nat {
    if sent == [] then 0 else Purges(sent[..|sent| - 1]) + if sent[|sent| - 1].Purge? then 1 else 0
  }

  lemma {:induction false} PurgesJoin(a: seq<RemoteCommand>, b: seq<RemoteCommand>)
    ensures Purges(a + b) == Purges(a) + Purges(b)
    decreases |b|
  {
    if b == [] {
      assert a + b == a;
    } else {
      assert (a + b)[..|a + b| - 1] == a + b[..|b| - 1];
      PurgesJoin(a, b[..|b| - 1]);
    }
  }

  lemma PurgesOne(command: RemoteCommand)
    ensures Purges([command]) == if command.Purge? then 1 else 0
  {
    assert [command][..0] == [];
    assert Purges([command][..0]) == 0;
  }

  lemma OnePurge(e: RemoteEntry, id: string, cutoff: Name)
    ensures var fate := RemoteFate(e, id, cutoff);
            Purges(SentFor(e, id, cutoff)) == if fate.Removed? || fate.RemovalFailed? then 1 else 0
  {
    var name := TrimSlashes(e.line);
    PurgesOne(CatOwner(name));
    PurgesOne(Purge(name));
    PurgesJoin([CatOwner(name)], [Purge(name)]);
    assert [CatOwner(name), Purge(name)] == [CatOwner(name)] + [Purge(name)];
  }

  /** Every purge sent removes its directory or fails. */
  lemma {:induction false} PurgesAreCounted(entries: seq<RemoteEntry>, id: string, cutoff: Name)
    ensures Purges(RemoteSent(entries, id, cutoff)) ==
              RemoteCount(entries, id, cutoff, Removed) + RemoteCount(entries, id, cutoff, RemovalFailed)
  {
    if entries != [] {
      var init, last := entries[..|entries| - 1], entries[|entries| - 1];
      PurgesAreCounted(init, id, cutoff);
      PurgesJoin(RemoteSent(init, id, cutoff), SentFor(last, id, cutoff));
      OnePurge(last, id, cutoff);
    }
  }

  /** A removed local directory is a strict date before the cutoff whose marker, read in full,
      names this connection. */
  lemma {:induction false} LocalRemovedAreOwnedAndExpired(entries: seq<LocalEntry>, id: string, cutoff: Name,
                                                          name: Name)
    ensures name in LocalRemoved(entries, id, cutoff) <==>
              exists e :: e in entries && e.Entry? && e.name == name && IsExpired(name, cutoff)
                && e.look.MarkerText? && TrimEnd(e.look.text) == id && e.look.removable
  {
    if entries != [] {
      var init, last := entries[..|entries| - 1], entries[|entries| - 1];
      LocalRemovedAreOwnedAndExpired(init, id, cutoff, name);
      assert forall e :: e in entries <==> e in init || e == last;
    }
  }

  /** The remote half purges a directory only right after reading its marker in full, and only
      for a strict date before the cutoff that names this connection. */
  lemma {:induction false} PurgedAreOwnedAndExpired(entries: seq<RemoteEntry>, id: string, cutoff: Name, k: nat)
    requires k < |RemoteSent(entries, id, cutoff)| && RemoteSent(entries, id, cutoff)[k].Purge?
    ensures var name := RemoteSent(entries, id, cutoff)[k].name;
            && k > 0 && RemoteSent(entries, id, cutoff)[k - 1] == CatOwner(name)
            && IsExpired(name, cutoff)
            && exists e :: e in entries && TrimSlashes(e.line) == name && e.owner.Some? && TrimEnd(e.owner.value) == id
  {
    var init, last := entries[..|entries| - 1], entries[|entries| - 1];
    if k < |RemoteSent(init, id, cutoff)| {
      PurgedAreOwnedAndExpired(init, id, cutoff, k);
      var name := RemoteSent(init, id, cutoff)[k].name;
      var e :| e in init && TrimSlashes(e.line) == name && e.owner.Some? && TrimEnd(e.owner.value) == id;
      assert e in entries;
    } else {
      assert last in entries;
    }
  }

  // -------------------------------------------------------------------------------- the operation

  /** `RetentionCleanupIssues`, with the directories removed and the commands sent. */
  class Cleanup {
    var localListingFailed: bool
    var localEntriesUnreadable: nat
    var localOwnershipUnverified: nat
    var localDeletionsFailed: nat
    var remoteListingFailed: bool
    var remoteOwnershipUnverified: nat
    var remoteDeletionsFailed: nat
    var cancelled: bool
    var removed: seq<Name>
    var sent: seq<RemoteCommand>
    var checks: nat

    constructor ()
      ensures Untouched() && checks == 0
    {
      localListingFailed, remoteListingFailed, cancelled := false, false, false;
      localEntriesUnreadable, localOwnershipUnverified, localDeletionsFailed := 0, 0, 0;
      remoteOwnershipUnverified, remoteDeletionsFailed := 0, 0;
      removed, sent, checks := [], [], 0;
    }

    /** The counters after the first `n` local entries. */
    ghost predicate LocalDone(entries: seq<LocalEntry>, n: nat, id: string, cutoff: Name)
      requires n <= |entries|
      reads this
    {
      && localEntriesUnreadable == UnreadableCount(entries[..n])
      && localOwnershipUnverified == LocalCount(entries[..n], id, cutoff, Unverified)
      && localDeletionsFailed == LocalCount(entries[..n], id, cutoff, RemovalFailed)
      && removed == LocalRemoved(entries[..n], id, cutoff)
    }

    ghost predicate RemoteDone(entries: seq<RemoteEntry>, n: nat, id: string, cutoff: Name)
      requires n <= |entries|
      reads this
    {
      && remoteOwnershipUnverified == RemoteCount(entries[..n], id, cutoff, Unverified)
      && remoteDeletionsFailed == RemoteCount(entries[..n], id, cutoff, RemovalFailed)
      && sent == [ListRoot] + RemoteSent(entries[..n], id, cutoff)
    }

    /** One look at the cancellation token, which trips at its `cancelAt`-th look. */
    method CheckCancelled(cancelAt: Option<nat>) returns (seen: bool)
      modifies this`checks, this`cancelled
      ensures seen == (cancelAt.Some? && old(checks) >= cancelAt.value)
      ensures cancelled == (old(cancelled) || seen) && checks == old(checks) + 1
    {
      seen := cancelAt.Some? && checks >= cancelAt.value;
      cancelled := cancelled || seen;
      checks := checks + 1;
    }

    /** The sweep goes on until the first look at the token that finds it cancelled: the one numbered
        `cancelAt`, or the next one when that is past. */
    ghost predicate LooksUntil(cancelAt: Option<nat>, before: nat)
      reads this
    {
      && (cancelled ==> cancelAt.Some? && checks == 1 + if cancelAt.value < before then before else cancelAt.value)
      && (!cancelled && cancelAt.Some? ==> checks == before || checks <= cancelAt.value)
    }

    /** One more look of the sweep. */
    method LookAgain(cancelAt: Option<nat>, ghost before: nat) returns (stop: bool)
      requires LooksUntil(cancelAt, before) && !cancelled && before <= checks
      modifies this`checks, this`cancelled
      ensures LooksUntil(cancelAt, before) && checks == old(checks) + 1 && cancelled == stop
    {
      stop := CheckCancelled(cancelAt);
    }

    /** One readable local entry. */
    method CleanLocalEntry(entries: seq<LocalEntry>, n: nat, id: string, cutoff: Name)
      requires n < |entries| && entries[n].Entry? && LocalDone(entries, n, id, cutoff)
      modifies this`localOwnershipUnverified, this`localDeletionsFailed, this`removed
      ensures LocalDone(entries, n + 1, id, cutoff)
    {
      var entry := entries[n];
      assert entries[..n + 1][..n] == entries[..n];
      if !StrictDay(entry.name) || !Less(entry.name, cutoff) {
      } else if entry.look.NoMetadata? {
        localOwnershipUnverified := localOwnershipUnverified + 1;
      } else if entry.look.NotDirectory? {
        localOwnershipUnverified := localOwnershipUnverified + 1;
      } else if entry.look.NoMarker? {
        localOwnershipUnverified := localOwnershipUnverified + 1;
      } else if entry.look.MarkerNotFile? {
        localOwnershipUnverified := localOwnershipUnverified + 1;
      } else if entry.look.MarkerUnreadable? {
        localOwnershipUnverified := localOwnershipUnverified + 1;
      } else if TrimEnd(entry.look.text) == id {
        if entry.look.removable {
          removed := removed + [entry.name];
        } else {
          localDeletionsFailed := localDeletionsFailed + 1;
        }
      }
    }

    method CountUnreadable(entries: seq<LocalEntry>, n: nat, id: string, cutoff: Name)
      requires n < |entries| && entries[n].Unreadable? && LocalDone(entries, n, id, cutoff)
      modifies this`localEntriesUnreadable
      ensures LocalDone(entries, n + 1, id, cutoff) && localEntriesUnreadable == old(localEntriesUnreadable) + 1
    {
      assert entries[..n + 1][..n] == entries[..n];
      localEntriesUnreadable := localEntriesUnreadable + 1;
    }

    method CleanLocal(entries: seq<LocalEntry>, id: string, cutoff: Name, cancelAt: Option<nat>) returns (done: nat)
      requires LocalDone(entries, 0, id, cutoff) && !cancelled
      modifies this`checks, this`cancelled, this`localEntriesUnreadable, this`localOwnershipUnverified,
               this`localDeletionsFailed, this`removed
      ensures done <= |entries| && LocalDone(entries, done, id, cutoff)
      ensures !cancelled ==> done == |entries| && checks == old(checks) + |entries| - UnreadableCount(entries)
      ensures LooksUntil(cancelAt, old(checks))
    {
      done := 0;
      while done < |entries|
        invariant done <= |entries| && LocalDone(entries, done, id, cutoff) && !cancelled
        invariant old(checks) <= checks == old(checks) + done - localEntriesUnreadable
        invariant LooksUntil(cancelAt, old(checks))
      {
        if entries[done].Unreadable? {
          CountUnreadable(entries, done, id, cutoff);
        } else {
          var stop := LookAgain(cancelAt, old(checks));
          if stop { return; }
          CleanLocalEntry(entries, done, id, cutoff);
        }
        done := done + 1;
      }
      assert entries[..|entries|] == entries;
    }

    lemma RemoteGrows(entries: seq<RemoteEntry>, n: nat, id: string, cutoff: Name)
      requires n < |entries|
      ensures forall fate :: RemoteCount(entries[..n + 1], id, cutoff, fate) ==
                RemoteCount(entries[..n], id, cutoff, fate) + if RemoteFate(entries[n], id, cutoff) == fate then 1 else 0
      ensures [ListRoot] + RemoteSent(entries[..n + 1], id, cutoff) ==
                [ListRoot] + RemoteSent(entries[..n], id, cutoff) + SentFor(entries[n], id, cutoff)
    {
      assert entries[..n + 1][..n] == entries[..n];
    }

    /** One line of the remote listing. */
    method CleanRemoteEntry(entry: RemoteEntry, id: string, cutoff: Name)
      modifies this`remoteOwnershipUnverified, this`remoteDeletionsFailed, this`sent
      ensures sent == old(sent) + SentFor(entry, id, cutoff)
      ensures remoteOwnershipUnverified ==
                old(remoteOwnershipUnverified) + if RemoteFate(entry, id, cutoff).Unverified? then 1 else 0
      ensures remoteDeletionsFailed == old(remoteDeletionsFailed) + if RemoteFate(entry, id, cutoff).RemovalFailed? then 1 else 0
    {
      var name := TrimSlashes(entry.line);
      if StrictDay(name) && Less(name, cutoff) {
        sent := sent + [CatOwner(name)];
        if entry.owner.None? {
          remoteOwnershipUnverified := remoteOwnershipUnverified + 1;
        } else if TrimEnd(entry.owner.value) == id {
          sent := sent + [Purge(name)];
          if !entry.purgeable {
            remoteDeletionsFailed := remoteDeletionsFailed + 1;
          }
        }
      }
    }

    method CleanNextRemote(entries: seq<RemoteEntry>, n: nat, id: string, cutoff: Name)
      requires n < |entries| && RemoteDone(entries, n, id, cutoff)
      modifies this`remoteOwnershipUnverified, this`remoteDeletionsFailed, this`sent
      ensures RemoteDone(entries, n + 1, id, cutoff)
    {
      RemoteGrows(entries, n, id, cutoff);
      CleanRemoteEntry(entries[n], id, cutoff);
    }

    /** One more look and, unless it stops the sweep, one more line. */
    method VisitRemote(entries: seq<RemoteEntry>, n: nat, id: string, cutoff: Name, cancelAt: Option<nat>, ghost before: nat)
      returns (stop: bool)
      requires n < |entries| && RemoteDone(entries, n, id, cutoff)
      requires LooksUntil(cancelAt, before) && !cancelled && before <= checks
      modifies this`checks, this`cancelled, this`remoteOwnershipUnverified, this`remoteDeletionsFailed, this`sent
      ensures RemoteDone(entries, if stop then n else n + 1, id, cutoff)
      ensures LooksUntil(cancelAt, before) && checks == old(checks) + 1 && cancelled == stop
    {
      stop := LookAgain(cancelAt, before);
      if !stop { CleanNextRemote(entries, n, id, cutoff); }
    }

    method CleanRemote(entries: seq<RemoteEntry>, id: string, cutoff: Name, cancelAt: Option<nat>) returns (done: nat)
      requires RemoteDone(entries, 0, id, cutoff) && !cancelled
      modifies this`checks, this`cancelled, this`remoteOwnershipUnverified, this`remoteDeletionsFailed, this`sent
      ensures done <= |entries| && RemoteDone(entries, done, id, cutoff)
      ensures !cancelled ==> done == |entries| && checks == old(checks) + |entries|
      ensures LooksUntil(cancelAt, old(checks))
    {
      done := 0;
      while done < |entries|
        invariant done <= |entries| && RemoteDone(entries, done, id, cutoff) && !cancelled
        invariant checks == old(checks) + done
        invariant LooksUntil(cancelAt, old(checks))
      {
        var stop := VisitRemote(entries, done, id, cutoff, cancelAt, old(checks));
        if stop { return; }
        done := done + 1;
      }
    }

    /** The state before anything has been looked at. */
    ghost predicate Untouched()
      reads this
    {
      !cancelled && !localListingFailed && !remoteListingFailed && NothingCounted()
    }

    /** Nothing was removed, sent or counted. */
    ghost predicate NothingCounted()
      reads this
    {
      && removed == [] && sent == []
      && localEntriesUnreadable == localOwnershipUnverified == localDeletionsFailed == 0
      && remoteOwnershipUnverified == remoteDeletionsFailed == 0
    }

    /** How the local half ended: everything looked at, the listing failed, or cancellation was seen. */
    ghost predicate LocalHalf(local: Option<seq<LocalEntry>>, id: string, cutoff: Name, done: nat)
      reads this
    {
      && (localListingFailed <==> local.None?)
      && (local.None? ==> removed == [] && localEntriesUnreadable == localOwnershipUnverified == localDeletionsFailed == 0)
      && (local.Some? ==> done <= |local.value| && LocalDone(local.value, done, id, cutoff))
      && (!cancelled && local.Some? ==> done == |local.value|)
    }

    ghost predicate RemoteHalf(remote: Option<seq<RemoteEntry>>, id: string, cutoff: Name, done: nat)
      reads this
    {
      && (remoteListingFailed <==> remote.None? && sent != [])
      && (sent == [] ==> cancelled)
      && (sent == [] || remote.None? ==> remoteOwnershipUnverified == remoteDeletionsFailed == 0)
      && (sent != [] && remote.Some? ==> done <= |remote.value| && RemoteDone(remote.value, done, id, cutoff))
      && (remote.None? ==> sent == [] || sent == [ListRoot])
      && (!cancelled && remote.Some? ==> done == |remote.value|)
    }

    /** Local candidates: removed, foreign, unverified or failed, as the fields count them. */
    ghost predicate LocalAccounted(entries: seq<LocalEntry>, id: string, cutoff: Name)
      reads this
    {
      LocalCandidates(entries, cutoff) ==
        |removed| + LocalCount(entries, id, cutoff, Foreign) + localOwnershipUnverified + localDeletionsFailed
    }

    /** Remote candidates: purged, foreign or unverified, and of the purged some have failed. */
    ghost predicate RemoteAccounted(entries: seq<RemoteEntry>, id: string, cutoff: Name)
      reads this
    {
      && RemoteCandidates(entries, cutoff) ==
           Purges(sent) + RemoteCount(entries, id, cutoff, Foreign) + remoteOwnershipUnverified
      && Purges(sent) == RemoteCount(entries, id, cutoff, Removed) + remoteDeletionsFailed
    }

    lemma LocalIsAccounted(entries: seq<LocalEntry>, id: string, cutoff: Name)
      requires LocalDone(entries, |entries|, id, cutoff)
      ensures LocalAccounted(entries, id, cutoff)
    {
      assert entries[..|entries|] == entries;
      LocalConservation(entries, id, cutoff);
    }

    lemma RemoteIsAccounted(entries: seq<RemoteEntry>, id: string, cutoff: Name)
      requires RemoteDone(entries, |entries|, id, cutoff)
      ensures RemoteAccounted(entries, id, cutoff)
    {
      assert entries[..|entries|] == entries;
      RemoteConservation(entries, id, cutoff);
      PurgesAreCounted(entries, id, cutoff);
      PurgesJoin([ListRoot], RemoteSent(entries, id, cutoff));
      PurgesOne(ListRoot);
    }

    method RunLocal(local: Option<seq<LocalEntry>>, id: string, cutoff: Name, cancelAt: Option<nat>) returns (done: nat)
      requires Untouched()
      modifies this`checks, this`cancelled, this`localListingFailed, this`localEntriesUnreadable,
               this`localOwnershipUnverified, this`localDeletionsFailed, this`removed
      ensures LocalHalf(local, id, cutoff, done)
      ensures LooksUntil(cancelAt, old(checks))
      ensures !cancelled ==> checks == old(checks) + if local.Some? then |local.value| - UnreadableCount(local.value) else 0
    {
      done := 0;
      if local.Some? {
        done := CleanLocal(local.value, id, cutoff, cancelAt);
      } else {
        localListingFailed := true;
      }
    }

    method RunRemote(remote: Option<seq<RemoteEntry>>, id: string, cutoff: Name, cancelAt: Option<nat>)
      returns (done: nat)
      requires !cancelled && !remoteListingFailed && sent == []
      requires remoteOwnershipUnverified == remoteDeletionsFailed == 0
      modifies this`checks, this`cancelled, this`remoteListingFailed, this`remoteOwnershipUnverified,
               this`remoteDeletionsFailed, this`sent
      ensures RemoteHalf(remote, id, cutoff, done)
      ensures LooksUntil(cancelAt, old(checks))
      ensures !cancelled ==> checks == old(checks) + 1 + if remote.Some? then |remote.value| else 0
    {
      done := 0;
      var stop := CheckCancelled(cancelAt);
      if stop { return; }
      sent := sent + [ListRoot];
      if remote.None? {
        remoteListingFailed := true;
        return;
      }
      done := CleanRemote(remote.value, id, cutoff, cancelAt);
    }

    /** Looks at the token for the entries: one before each readable local one and each remote one. */
    static function LooksFor(local: Option<seq<LocalEntry>>, remote: Option<seq<RemoteEntry>>): int {
      (if local.Some? then |local.value| - UnreadableCount(local.value) else 0) + (if remote.Some? then |remote.value| else 0)
    }

    /** The whole sweep.  `local` and `remote` are None when the listing fails or is incomplete;
        the results say how far each half got before it was interrupted. */
    method Run(now: nat, id: string, local: Option<seq<LocalEntry>>, remote: Option<seq<RemoteEntry>>,
               cancelAt: Option<nat>)
      returns (localDone: nat, remoteDone: nat)
      requires Untouched() && checks == 0
      modifies this
      ensures cancelled <==> cancelAt.Some? && cancelAt.value < checks
      ensures cancelled ==> checks == cancelAt.value + 1
      ensures !cancelled && Cutoff(now).Some? ==> checks == 2 + LooksFor(local, remote)
      ensures cancelAt == Some(0) ==> cancelled && NothingCounted() && !localListingFailed && !remoteListingFailed
      ensures Cutoff(now).None? && cancelAt != Some(0) ==>
                !cancelled && NothingCounted() && localListingFailed && remoteListingFailed
      ensures Cutoff(now).Some? && cancelAt != Some(0) ==>
                LocalHalf(local, id, Cutoff(now).value, localDone) && RemoteHalf(remote, id, Cutoff(now).value, remoteDone)
      ensures Cutoff(now).Some? && !cancelled ==>
                && (local.Some? ==> LocalAccounted(local.value, id, Cutoff(now).value))
                && (remote.Some? ==> RemoteAccounted(remote.value, id, Cutoff(now).value))
    {
      localDone, remoteDone := 0, 0;
      var stop := CheckCancelled(cancelAt);
      if stop { return; }
      var limit := Cutoff(now);
      if limit.None? {
        localListingFailed, remoteListingFailed := true, true;
        return;
      }
      localDone := RunLocal(local, id, limit.value, cancelAt);
      if cancelled { return; }
      remoteDone := RunRemote(remote, id, limit.value, cancelAt);
      if !cancelled {
        if local.Some? { LocalIsAccounted(local.value, id, limit.value); }
        if remote.Some? { RemoteIsAccounted(remote.value, id, limit.value); }
      }
    }
  }
}
