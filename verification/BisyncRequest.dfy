/** `bisync_request`: the arguments of one rclone bisync command. */
module BisyncRequest {
  import opened Coordinator
  import opened Text

  datatype Base = Base(arguments: seq<string>, remoteRecovery: string, localRecovery: string, logFile: string)

  const BACKUP_REMOTE := "--backup-dir1"
  const BACKUP_LOCAL := "--backup-dir2"
  const RESYNC := "--resync"
  const DRY_RUN := "--dry-run"

  /** `Path::join` of a relative name. */
  function JoinPath(path: string, name: string): string {
    if path == [] then name else if path[|path| - 1] == '/' then path + name else path + "/" + name
  }

  function RemoteBackup(base: Base, day: string): string { TrimTrailing(base.remoteRecovery, '/') + "/" + day }

  function LocalBackup(base: Base, day: string): string { JoinPath(base.localRecovery, day) }

  predicate IsBackupFlag(argument: string) { argument == BACKUP_REMOTE || argument == BACKUP_LOCAL }

  function BackupFor(base: Base, flag: string, day: string): string {
    if flag == BACKUP_REMOTE then RemoteBackup(base, day) else LocalBackup(base, day)
  }

  /** The plan's arguments with each backup directory replaced by its dated one. */
  function Dated(base: Base, arguments: seq<string>, day: string): seq<string>
    decreases |arguments|
  {
    if arguments == [] then []
    else if IsBackupFlag(arguments[0]) then
      [arguments[0], BackupFor(base, arguments[0], day)] + Dated(base, if |arguments| > 1 then arguments[2..] else [], day)
    else [arguments[0]] + Dated(base, arguments[1..], day)
  }

  function Rest(arguments: seq<string>, index: nat): seq<string> {
    if index <= |arguments| then arguments[index..] else []
  }

  /** What each mode adds to the plan's arguments. */
  function Tail(base: Base, mode: Mode, stamp: string): seq<string> {
    match mode
    case InitialPreview => ["--suffix", "-" + stamp, "--resync", "--dry-run"]
    case Preview => ["--suffix", "-" + stamp, "--dry-run"]
    case InitialSync => ["--suffix", "-" + stamp, "--resync"]
    case Sync => ["--suffix", "-" + stamp]
    case Scheduled =>
      ["--suffix", "-" + stamp, "--use-json-log", "--log-file", base.logFile, "--log-level", "INFO"]
  }

  /** The index loop over the plan's arguments. */
  method DateBackups(base: Base, day: string) returns (arguments: seq<string>)
    ensures arguments == Dated(base, base.arguments, day)
  {
    arguments := [];
    var index := 0;
    while index < |base.arguments|
      invariant index <= |base.arguments| + 1
      invariant arguments + Dated(base, Rest(base.arguments, index), day) == Dated(base, base.arguments, day)
      decreases |base.arguments| - index
    {
      var argument := base.arguments[index];
      DatedUnfolds(base, base.arguments, index, day);
      if IsBackupFlag(argument) {
        var value := BackupFor(base, argument, day);
        Regroup(arguments, [argument, value], Dated(base, Rest(base.arguments, index + 2), day));
        arguments := arguments + [argument, value];
        index := index + 2;
      } else {
        Regroup(arguments, [argument], Dated(base, Rest(base.arguments, index + 1), day));
        arguments := arguments + [argument];
        index := index + 1;
      }
    }
  }

  lemma DatedUnfolds(base: Base, arguments: seq<string>, index: nat, day: string)
    requires index < |arguments|
    ensures Dated(base, Rest(arguments, index), day) ==
              if IsBackupFlag(arguments[index]) then
                [arguments[index], BackupFor(base, arguments[index], day)] + Dated(base, Rest(arguments, index + 2), day)
              else [arguments[index]] + Dated(base, Rest(arguments, index + 1), day)
  {
    var rest := Rest(arguments, index);
    assert rest[0] == arguments[index] && rest[1..] == Rest(arguments, index + 1);
    assert (if |rest| > 1 then rest[2..] else []) == Rest(arguments, index + 2);
  }

  lemma Regroup(a: seq<string>, b: seq<string>, c: seq<string>)
    ensures a + (b + c) == (a + b) + c
  {
  }

  method Build(base: Base, mode: Mode, day: string, stamp: string) returns (arguments: seq<string>)
    ensures arguments == Dated(base, base.arguments, day) + Tail(base, mode, stamp)
  {
    arguments := DateBackups(base, day);
    arguments := arguments + ["--suffix", "-" + stamp];
    if mode.IsInitial() {
      arguments := arguments + [RESYNC];
    }
    if mode.IsPreview() {
      arguments := arguments + [DRY_RUN];
    }
    if mode == Scheduled {
      arguments := arguments + ["--use-json-log", "--log-file", base.logFile, "--log-level", "INFO"];
    }
  }

  /** Values printed by the clock begin with a digit. */
  predicate Printed(s: string) { s != [] && '0' <= s[0] <= '9' }

  predicate IsModeFlag(s: string) { s == RESYNC || s == DRY_RUN }

  predicate IsDigit(c: char) { '0' <= c <= '9' }

  /** A dated directory ends in the day, after a slash unless the day is all of it. */
  lemma DatedValueShape(base: Base, flag: string, day: string)
    ensures var value := BackupFor(base, flag, day);
            |value| >= |day| && value[|value| - |day|..] == day
            && (|value| == |day| || value[|value| - |day| - 1] == '/')
  {
  }

  lemma FlagDigits(flag: string)
    requires IsModeFlag(flag) || IsBackupFlag(flag)
    ensures forall k :: 0 <= k < |flag| && IsDigit(flag[k]) ==> k > 0 && flag[k - 1] == 'r'
  {
  }

  lemma DatedValueIsNoFlag(base: Base, flag: string, day: string)
    requires Printed(day)
    ensures !IsModeFlag(BackupFor(base, flag, day)) && !IsBackupFlag(BackupFor(base, flag, day))
  {
    var value := BackupFor(base, flag, day);
    DatedValueShape(base, flag, day);
    assert value[|value| - |day|] == day[0];
    if IsModeFlag(value) || IsBackupFlag(value) { FlagDigits(value); }
  }

  lemma {:induction false} DatedAddsNoFlag(base: Base, arguments: seq<string>, day: string, flag: string)
    requires Printed(day) && IsModeFlag(flag) && flag !in arguments
    ensures flag !in Dated(base, arguments, day)
    decreases |arguments|
  {
    if arguments != [] {
      if IsBackupFlag(arguments[0]) {
        DatedValueIsNoFlag(base, arguments[0], day);
        DatedAddsNoFlag(base, if |arguments| > 1 then arguments[2..] else [], day, flag);
      } else {
        DatedAddsNoFlag(base, arguments[1..], day, flag);
      }
    }
  }

  /** A plan that contains neither flag gets `--resync` exactly in the initial modes and
      `--dry-run` exactly in the previews. */
  lemma FlagsFollowMode(base: Base, mode: Mode, day: string, stamp: string)
    requires Printed(day) && Printed(stamp) && !IsModeFlag(base.logFile)
    requires RESYNC !in base.arguments && DRY_RUN !in base.arguments
    ensures var arguments := Dated(base, base.arguments, day) + Tail(base, mode, stamp);
            && ("--resync" in arguments <==> mode.InitialPreview? || mode.InitialSync?)
            && ("--dry-run" in arguments <==> mode.InitialPreview? || mode.Preview?)
  {
    DatedAddsNoFlag(base, base.arguments, day, RESYNC);
    DatedAddsNoFlag(base, base.arguments, day, DRY_RUN);
    assert ("-" + stamp)[1] == stamp[0];
    assert RESYNC[1] == '-' && DRY_RUN[1] == '-';
    assert |"--suffix"| == |RESYNC| && "--suffix"[2] != RESYNC[2];
    assert |"--use-json-log"| != |RESYNC| && |"--use-json-log"| != |DRY_RUN|;
    assert |"--log-file"| != |RESYNC| && |"--log-file"| != |DRY_RUN|;
    assert |"--log-level"| != |RESYNC| && |"--log-level"| != |DRY_RUN|;
    assert |"INFO"| != |RESYNC| && |"INFO"| != |DRY_RUN|;
    assert |"--suffix"| != |DRY_RUN|;
  }

  /** The two dated directories: the remote one below the recovery path without its trailing slashes,
      the local one joined to the recovery directory. */
  lemma DatedDirectories(base: Base, day: string)
    ensures exists root :: root <= base.remoteRecovery && (root != [] ==> root[|root| - 1] != '/')
              && (forall i :: |root| <= i < |base.remoteRecovery| ==> base.remoteRecovery[i] == '/')
              && BackupFor(base, "--backup-dir1", day) == root + "/" + day
    ensures var dir := base.localRecovery;
            BackupFor(base, "--backup-dir2", day) == if dir == [] || dir[|dir| - 1] == '/' then dir + day else dir + "/" + day
  {
    var root := TrimTrailing(base.remoteRecovery, '/');
    assert root <= base.remoteRecovery && BackupFor(base, "--backup-dir1", day) == root + "/" + day;
  }

  /** The arguments that are neither a backup flag nor the value after one. */
  function Others(arguments: seq<string>): seq<string>
    decreases |arguments|
  {
    if arguments == [] then []
    else if arguments[0] == "--backup-dir1" || arguments[0] == "--backup-dir2" then
      Others(if |arguments| > 1 then arguments[2..] else [])
    else [arguments[0]] + Others(arguments[1..])
  }

  /** Dating the backups keeps every other argument, in order. */
  lemma {:induction false} OthersAreKept(base: Base, arguments: seq<string>, day: string)
    ensures Others(Dated(base, arguments, day)) == Others(arguments)
    decreases |arguments|
  {
    if arguments != [] {
      var dated := Dated(base, arguments, day);
      if IsBackupFlag(arguments[0]) {
        var rest := if |arguments| > 1 then arguments[2..] else [];
        assert dated[2..] == Dated(base, rest, day);
        OthersAreKept(base, rest, day);
      } else {
        assert dated[1..] == Dated(base, arguments[1..], day);
        OthersAreKept(base, arguments[1..], day);
      }
    }
  }

  /** Wherever a backup flag stands in the request it is followed by this day's directory on
      its own side, so backups never leave the directory that was prepared. */
  lemma {:induction false} BackupsAreDated(base: Base, arguments: seq<string>, day: string, k: nat)
    requires Printed(day) && k < |Dated(base, arguments, day)| && IsBackupFlag(Dated(base, arguments, day)[k])
    ensures k + 1 < |Dated(base, arguments, day)|
    ensures Dated(base, arguments, day)[k + 1] == BackupFor(base, Dated(base, arguments, day)[k], day)
    decreases |arguments|
  {
    if IsBackupFlag(arguments[0]) {
      DatedValueIsNoFlag(base, arguments[0], day);
      if k >= 2 { BackupsAreDated(base, if |arguments| > 1 then arguments[2..] else [], day, k - 2); }
    } else if k >= 1 {
      BackupsAreDated(base, arguments[1..], day, k - 1);
    }
  }
}
