/** `Config::validate`: which local trees, caches and recovery directories may coexist. */
module ConfigTargets {
  import opened Options
  import opened Paths
  import opened Text

  datatype Provider = OneDrive | OtherProvider

  datatype Engine = Rclone | LegacyOnedrive

  datatype Mode =
    | OnlineMount(cache: Option<string>)
    | OfflineMirror(recovery: string, intervalMinutes: nat, engine: Engine)

  /** `findings` are the messages of the field checks that look at no path. */
  datatype Connection = Connection(
    id: nat,
    provider: Provider,
    localPath: string,
    mode: Mode,
    findings: seq<string>)

  datatype Document = Document(findings: seq<string>, connections: seq<Connection>)

  datatype Problem =
    | Field(finding: string)
    | DuplicateConnectionId(id: nat)
    | InvalidLocalPath(id: nat, path: string)
    | UnsafeSystemPath(id: nat, at: Location)
    | InvalidCacheDirectory(id: nat, path: string)
    | InvalidRecoveryDirectory(id: nat, path: string)
    | InvalidSyncInterval(id: nat)
    | ConflictingTargets(first: nat, second: nat, firstAt: Location, secondAt: Location)

  datatype Target = Target(owner: nat, at: Location, isLocal: bool)

  const SYSTEM_DIRECTORIES: seq<string> := [
    "bin", "boot", "dev", "etc", "lib", "lib64", "proc", "root", "run", "sbin", "sys", "usr", "var"]

  const UNSAFE: seq<Location> := [
    [], ["bin"], ["boot"], ["dev"], ["etc"], ["lib"], ["lib64"], ["proc"], ["root"], ["run"], ["sbin"], ["sys"],
    ["usr"], ["var"]]

  /** `is_unsafe_system_path`. */
  predicate IsUnsafeSystemPath(l: Location) {
    exists i :: 0 <= i < |UNSAFE| && (l == UNSAFE[i] || (UNSAFE[i] != [] && UNSAFE[i] <= l))
  }

  /** Unsafe means the root itself, or anything at or below a system directory. */
  lemma UnsafeMeansRootOrBelowSystem(l: Location)
    ensures IsUnsafeSystemPath(l) <==> l == [] || l[0] in SYSTEM_DIRECTORIES
  {
    if l == [] {
      assert l == UNSAFE[0];
    } else if l[0] in SYSTEM_DIRECTORIES {
      var i :| 0 <= i < |SYSTEM_DIRECTORIES| && SYSTEM_DIRECTORIES[i] == l[0];
      assert UNSAFE[i + 1] == [l[0]];
    }
  }

  predicate IsOneDriveMirror(c: Connection) {
    c.provider.OneDrive? && c.mode.OfflineMirror? && c.mode.engine.Rclone?
  }

  /** `validate_online_mount` and `validate_offline_mirror` accept such a side directory. */
  predicate FitsBeside(path: string, local: Location) {
    var side := Normalized(path);
    side.Some? && !Overlap(local, side.value) && !IsUnsafeSystemPath(side.value)
  }

  // ------------------------------------------------------------------- what one document reports

  function ModeReport(c: Connection, local: Location): seq<Problem> {
    match c.mode
    case OnlineMount(cache) =>
      if cache.Some? && !FitsBeside(cache.value, local) then [InvalidCacheDirectory(c.id, cache.value)] else []
    case OfflineMirror(recovery, minutes, _) =>
      MirrorReport(c.id, local, recovery, minutes)
  }

  function MirrorReport(id: nat, local: Location, recovery: string, minutes: nat): seq<Problem> {
    (if FitsBeside(recovery, local) then [] else [InvalidRecoveryDirectory(id, recovery)])
    + (if minutes == 0 then [InvalidSyncInterval(id)] else [])
  }

  function PathReport(c: Connection): seq<Problem> {
    var local := Normalized(c.localPath);
    if local.None? then [InvalidLocalPath(c.id, c.localPath)]
    else
      SystemReport(c.id, local.value) + ModeReport(c, local.value)
  }

  function SystemReport(id: nat, local: Location): seq<Problem> {
    if IsUnsafeSystemPath(local) then [UnsafeSystemPath(id, local)] else []
  }

  function Fields(findings: seq<string>): seq<Problem> {
    seq(|findings|, i requires 0 <= i < |findings| => Field(findings[i]))
  }

  /**
   * A connection with its paths resolved: `side` is the cache of an online mount or the recovery
   * directory of a mirror, and `own` lists what is wrong with the connection by itself.
   */
  datatype View = View(
    id: nat,
    oneDriveMirror: bool,
    offline: bool,
    local: Option<Location>,
    hasSide: bool,
    side: Option<Location>,
    own: seq<Problem>)

  function OwnReport(c: Connection): seq<Problem> { Fields(c.findings) + PathReport(c) }

  function ViewOf(c: Connection): View {
    var local := Normalized(c.localPath);
    match c.mode
    case OnlineMount(None) => View(c.id, false, false, local, false, None, OwnReport(c))
    case OnlineMount(Some(cache)) => View(c.id, false, false, local, true, Normalized(cache), OwnReport(c))
    case OfflineMirror(recovery, _, _) =>
      View(c.id, IsOneDriveMirror(c), true, local, true, Normalized(recovery), OwnReport(c))
  }

  function Views(cs: seq<Connection>): seq<View> {
    seq(|cs|, i requires 0 <= i < |cs| => ViewOf(cs[i]))
  }

  function Ids(vs: seq<View>): set<nat> { set v | v in vs :: v.id }

  function Duplicate(id: nat, seen: set<nat>): seq<Problem> {
    if id in seen then [DuplicateConnectionId(id)] else []
  }

  function ReportLists(vs: seq<View>): seq<seq<Problem>> {
    seq(|vs|, i requires 0 <= i < |vs| => Duplicate(vs[i].id, Ids(vs[..i])) + vs[i].own)
  }

  function ConnectionReport(vs: seq<View>): seq<Problem> { Flatten(ReportLists(vs)) }

  function Recovery(v: View): Option<Location> { if v.offline then v.side else None }

  function RecoveryTarget(id: nat, recovery: Option<Location>): seq<Target> {
    if recovery.Some? then [Target(id, recovery.value, false)] else []
  }

  /** The directories of one connection that enter the pairwise comparison. */
  function TargetsOf(v: View): seq<Target> {
    if v.local.None? then [] else RecoveryTarget(v.id, Recovery(v)) + [Target(v.id, v.local.value, true)]
  }

  function TargetLists(vs: seq<View>): seq<seq<Target>> {
    seq(|vs|, i requires 0 <= i < |vs| => TargetsOf(vs[i]))
  }

  function Targets(vs: seq<View>): seq<Target> { Flatten(TargetLists(vs)) }

  predicate MustCheck(first: Target, second: Target, oneDrive: set<nat>) {
    (first.isLocal && second.isLocal) || first.owner in oneDrive || second.owner in oneDrive
  }

  predicate Conflicting(first: Target, second: Target, oneDrive: set<nat>) {
    first.owner != second.owner && MustCheck(first, second, oneDrive) && Overlap(first.at, second.at)
  }

  function Conflict(first: Target, second: Target): Problem {
    ConflictingTargets(first.owner, second.owner, first.at, second.at)
  }

  function ConflictTest(oneDrive: set<nat>): (Target, Target) -> bool {
    (first: Target, second: Target) => Conflicting(first, second, oneDrive)
  }

  function RowReport(targets: seq<Target>, i: nat, upTo: nat, test: (Target, Target) -> bool): seq<Problem>
    requires i < upTo <= |targets|
  {
    if upTo == i + 1 then []
    else
      RowReport(targets, i, upTo - 1, test)
      + (if test(targets[i], targets[upTo - 1]) then [Conflict(targets[i], targets[upTo - 1])] else [])
  }

  function Rows(targets: seq<Target>, test: (Target, Target) -> bool): seq<seq<Problem>> {
    seq(|targets|, i requires 0 <= i < |targets| => RowReport(targets, i, |targets|, test))
  }

  function OneDriveIds(vs: seq<View>): set<nat> { set v | v in vs && v.oneDriveMirror :: v.id }

  function Report(d: Document): seq<Problem> {
    var vs := Views(d.connections);
    Fields(d.findings) + ConnectionReport(vs) + TargetReport(vs)
  }

  function TargetReport(vs: seq<View>): seq<Problem> {
    Flatten(Rows(Targets(vs), ConflictTest(OneDriveIds(vs))))
  }

  // ----------------------------------------------------------------------------------- the code

  /** `validate_online_mount`. */
  method ValidateOnlineMount(id: nat, local: Location, cache: Option<string>, soFar: seq<Problem>)
    returns (errors: seq<Problem>)
    ensures errors == if cache.Some? && !FitsBeside(cache.value, local) then soFar + [InvalidCacheDirectory(id, cache.value)] else soFar
  {
    errors := soFar;
    if cache.Some? {
      var side := NormalizeAbsolute(cache.value);
      if side.None? || Overlap(local, side.value) || IsUnsafeSystemPath(side.value) {
        errors := errors + [InvalidCacheDirectory(id, cache.value)];
      }
    }
  }

  /** `validate_offline_mirror`. */
  method ValidateOfflineMirror(id: nat, local: Location, recovery: string, minutes: nat, soFar: seq<Problem>)
    returns (errors: seq<Problem>)
    ensures errors == soFar + MirrorReport(id, local, recovery, minutes)
  {
    errors := soFar;
    var side := NormalizeAbsolute(recovery);
    if side.None? || Overlap(local, side.value) || IsUnsafeSystemPath(side.value) {
      errors := errors + [InvalidRecoveryDirectory(id, recovery)];
    }
    if minutes == 0 {
      errors := errors + [InvalidSyncInterval(id)];
    }
  }

  /** The checks that depend on the mode, and the recovery directory if it enters the comparison. */
  method ValidateMode(c: Connection, local: Location, soFar: seq<Problem>)
    returns (errors: seq<Problem>, targets: seq<Target>)
    ensures errors == soFar + ModeReport(c, local)
    ensures targets == RecoveryTarget(c.id, Recovery(ViewOf(c)))
  {
    targets := [];
    match c.mode
    case OnlineMount(cache) =>
      errors := ValidateOnlineMount(c.id, local, cache, soFar);
    case OfflineMirror(path, minutes, _) =>
      errors := ValidateOfflineMirror(c.id, local, path, minutes, soFar);
      var recovery := NormalizeAbsolute(path);
      if recovery.Some? {
        targets := [Target(c.id, recovery.value, false)];
      }
  }

  method RefuseSystemPath(id: nat, local: Location, soFar: seq<Problem>) returns (errors: seq<Problem>)
    ensures errors == soFar + SystemReport(id, local)
  {
    errors := soFar;
    if IsUnsafeSystemPath(local) {
      errors := errors + [UnsafeSystemPath(id, local)];
    }
  }

  lemma Regroup(a: seq<Problem>, b: seq<Problem>, c: seq<Problem>, d: seq<Problem>)
    ensures a + b + c + d == a + (b + (c + d))
  {
  }

  /** The checks of one connection, and the directories it contributes to the comparison. */
  method ValidateConnection(c: Connection, soFar: seq<Problem>) returns (errors: seq<Problem>, targets: seq<Target>)
    ensures errors == soFar + ViewOf(c).own
    ensures targets == TargetsOf(ViewOf(c))
  {
    errors, targets := soFar + Fields(c.findings), [];
    var local := NormalizeAbsolute(c.localPath);
    if local.None? {
      errors := errors + [InvalidLocalPath(c.id, c.localPath)];
      return;
    }
    errors := RefuseSystemPath(c.id, local.value, errors);
    errors, targets := ValidateMode(c, local.value, errors);
    Regroup(soFar, Fields(c.findings), SystemReport(c.id, local.value), ModeReport(c, local.value));
    targets := targets + [Target(c.id, local.value, true)];
  }

  /** The loop over connections: problems found and comparison targets collected, in order. */
  method ValidateConnections(cs: seq<Connection>, soFar: seq<Problem>)
    returns (errors: seq<Problem>, targets: seq<Target>)
    ensures errors == soFar + ConnectionReport(Views(cs))
    ensures targets == Targets(Views(cs))
  {
    errors, targets := soFar, [];
    var seen: set<nat> := {};
    for n := 0 to |cs|
      invariant Progress(cs, n, soFar, seen, errors, targets)
    {
      var c := cs[n];
      ghost var before, seenBefore, targetsBefore := errors, seen, targets;
      if c.id in seen {
        errors := errors + [DuplicateConnectionId(c.id)];
      }
      ghost var middle := errors;
      seen := seen + {c.id};
      var found;
      errors, found := ValidateConnection(c, errors);
      targets := targets + found;
      OneMoreConnection(cs, n, soFar, seenBefore, before, middle, targetsBefore, found, errors);
    }
    AllConnections(cs, soFar, seen, errors, targets);
  }

  /** What the loop has collected after the first `n` connections. */
  ghost predicate Progress(cs: seq<Connection>, n: nat, soFar: seq<Problem>, seen: set<nat>, errors: seq<Problem>,
                           targets: seq<Target>)
    requires n <= |cs|
  {
    var vs := Views(cs);
    && seen == Ids(vs[..n])
    && errors == soFar + Flatten(ReportLists(vs)[..n])
    && targets == Flatten(TargetLists(vs)[..n])
  }

  lemma AllConnections(cs: seq<Connection>, soFar: seq<Problem>, seen: set<nat>, errors: seq<Problem>,
                       targets: seq<Target>)
    requires Progress(cs, |cs|, soFar, seen, errors, targets)
    ensures errors == soFar + ConnectionReport(Views(cs)) && targets == Targets(Views(cs))
  {
    var vs := Views(cs);
    assert ReportLists(vs)[..|cs|] == ReportLists(vs) && TargetLists(vs)[..|cs|] == TargetLists(vs);
  }

  lemma OneMoreConnection(cs: seq<Connection>, n: nat, soFar: seq<Problem>, seen: set<nat>, before: seq<Problem>,
                          middle: seq<Problem>, targets: seq<Target>, found: seq<Target>, after: seq<Problem>)
    requires n < |cs| && Progress(cs, n, soFar, seen, before, targets)
    requires cs[n].id in seen ==> middle == before + [DuplicateConnectionId(cs[n].id)]
    requires cs[n].id !in seen ==> middle == before
    requires after == middle + ViewOf(cs[n]).own && found == TargetsOf(ViewOf(cs[n]))
    ensures Progress(cs, n + 1, soFar, seen + {cs[n].id}, after, targets + found)
  {
    var vs := Views(cs);
    assert vs[n] == ViewOf(cs[n]) && vs[n].id == cs[n].id;
    OneMoreView(vs, n);
    Appended(soFar, Flatten(ReportLists(vs)[..n]), Duplicate(vs[n].id, seen), vs[n].own, middle);
  }

  lemma Appended(a: seq<Problem>, b: seq<Problem>, c: seq<Problem>, d: seq<Problem>, middle: seq<Problem>)
    requires middle == if c == [] then a + b else a + b + c
    ensures middle + d == a + (b + (c + d))
  {
  }

  lemma OneMoreView(vs: seq<View>, n: nat)
    requires n < |vs|
    ensures Ids(vs[..n + 1]) == Ids(vs[..n]) + {vs[n].id}
    ensures Flatten(TargetLists(vs)[..n + 1]) == Flatten(TargetLists(vs)[..n]) + TargetsOf(vs[n])
    ensures Flatten(ReportLists(vs)[..n + 1]) ==
              Flatten(ReportLists(vs)[..n]) + (Duplicate(vs[n].id, Ids(vs[..n])) + vs[n].own)
  {
    assert vs[..n + 1][..n] == vs[..n] && vs[..n + 1] == vs[..n] + [vs[n]];
    assert TargetLists(vs)[..n + 1][..n] == TargetLists(vs)[..n];
    assert ReportLists(vs)[..n + 1][..n] == ReportLists(vs)[..n];
  }

  /** The pairwise loop. */
  method ComparePairs(targets: seq<Target>, oneDrive: set<nat>, soFar: seq<Problem>) returns (errors: seq<Problem>)
    ensures errors == soFar + Flatten(Rows(targets, ConflictTest(oneDrive)))
  {
    errors := soFar;
    ghost var test := ConflictTest(oneDrive);
    ghost var rows := Rows(targets, test);
    for index := 0 to |targets|
      invariant errors == soFar + Flatten(rows[..index])
    {
      var first := targets[index];
      ghost var row := errors;
      for other := index + 1 to |targets|
        invariant errors == row + RowReport(targets, index, other, test)
      {
        var second := targets[other];
        var mustCheck := (first.isLocal && second.isLocal) || first.owner in oneDrive || second.owner in oneDrive;
        if first.owner != second.owner && mustCheck && Overlap(first.at, second.at) {
          errors := errors + [ConflictingTargets(first.owner, second.owner, first.at, second.at)];
        }
      }
      FlattenPrefix(rows, index);
    }
    assert rows[..|targets|] == rows;
  }

  /** `Config::validate`; the result is Ok exactly when no problem is returned. */
  method Validate(d: Document) returns (errors: seq<Problem>)
    ensures errors == Report(d)
  {
    var oneDrive := set c | c in d.connections && IsOneDriveMirror(c) :: c.id;
    var targets;
    errors, targets := ValidateConnections(d.connections, Fields(d.findings));
    errors := ComparePairs(targets, oneDrive, errors);
    MirrorIds(d.connections);
  }

  lemma MirrorIds(cs: seq<Connection>)
    ensures (set c | c in cs && IsOneDriveMirror(c) :: c.id) == OneDriveIds(Views(cs))
  {
    var vs := Views(cs);
    forall c | c in cs ensures ViewOf(c) in vs {
      var i :| 0 <= i < |cs| && cs[i] == c;
      assert vs[i] == ViewOf(c);
    }
    forall v | v in vs ensures exists c :: c in cs && v == ViewOf(c) {
      var i :| 0 <= i < |vs| && vs[i] == v;
      assert cs[i] in cs && v == ViewOf(cs[i]);
    }
  }

  // -------------------------------------------------------------- every conflict, and only those

  ghost predicate RowHas(targets: seq<Target>, i: nat, upTo: nat, test: (Target, Target) -> bool, p: Problem)
    requires i < upTo <= |targets|
  {
    exists j :: i < j < upTo && test(targets[i], targets[j]) && p == Conflict(targets[i], targets[j])
  }

  lemma {:induction false} RowReportIs(targets: seq<Target>, i: nat, upTo: nat, test: (Target, Target) -> bool,
                                       p: Problem)
    requires i < upTo <= |targets|
    ensures p in RowReport(targets, i, upTo, test) <==> RowHas(targets, i, upTo, test, p)
  {
    if upTo > i + 1 { RowReportIs(targets, i, upTo - 1, test, p); }
  }

  /** A problem is reported exactly when some pair of targets, in this order, conflicts in that way. */
  lemma PairReportIs(targets: seq<Target>, test: (Target, Target) -> bool, p: Problem)
    ensures p in Flatten(Rows(targets, test)) <==> exists i :: 0 <= i < |targets| && RowHas(targets, i, |targets|, test, p)
  {
    FlattenMember(Rows(targets, test), p);
    forall i | 0 <= i < |targets| ensures p in Rows(targets, test)[i] <==> RowHas(targets, i, |targets|, test, p) {
      RowReportIs(targets, i, |targets|, test, p);
    }
  }

  /** Two connections with different ids whose compared directories overlap. */
  predicate Clash(vs: seq<View>, p: nat, k: nat, q: nat, m: nat)
    requires p < |vs| && q < |vs| && k < |TargetsOf(vs[p])| && m < |TargetsOf(vs[q])|
  {
    Conflicting(TargetsOf(vs[p])[k], TargetsOf(vs[q])[m], OneDriveIds(vs))
  }

  lemma ClashIsListed(vs: seq<View>, p: nat, k: nat, q: nat, m: nat)
    requires p < q < |vs|
    requires k < |TargetsOf(vs[p])| && m < |TargetsOf(vs[q])|
    requires Clash(vs, p, k, q, m)
    ensures Conflict(TargetsOf(vs[p])[k], TargetsOf(vs[q])[m]) in TargetReport(vs)
  {
    var i, j := SpotsInOrder(vs, p, k, q, m);
    var test := ConflictTest(OneDriveIds(vs));
    assert test(Targets(vs)[i], Targets(vs)[j]);
    assert RowHas(Targets(vs), i, |Targets(vs)|, test, Conflict(Targets(vs)[i], Targets(vs)[j]));
    PairReportIs(Targets(vs), test, Conflict(Targets(vs)[i], Targets(vs)[j]));
  }

  lemma SpotsInOrder(vs: seq<View>, p: nat, k: nat, q: nat, m: nat) returns (i: nat, j: nat)
    requires p < q < |vs|
    requires k < |TargetsOf(vs[p])| && m < |TargetsOf(vs[q])|
    ensures i < j < |Targets(vs)|
    ensures Targets(vs)[i] == TargetsOf(vs[p])[k] && Targets(vs)[j] == TargetsOf(vs[q])[m]
  {
    var lists := TargetLists(vs);
    assert lists[p] == TargetsOf(vs[p]) && lists[q] == TargetsOf(vs[q]);
    i, j := FlattenOrder(lists, p, k, q, m);
  }

  /** Two compared directories of different connections come from two list positions in order. */
  lemma SpotsBelong(vs: seq<View>, i: nat, j: nat) returns (p: nat, k: nat, q: nat, m: nat)
    requires i < j < |Targets(vs)| && Targets(vs)[i].owner != Targets(vs)[j].owner
    ensures p < q < |vs| && k < |TargetsOf(vs[p])| && m < |TargetsOf(vs[q])|
    ensures Targets(vs)[i] == TargetsOf(vs[p])[k] && Targets(vs)[j] == TargetsOf(vs[q])[m]
  {
    p, k := FlattenHas(TargetLists(vs), i);
    q, m := FlattenHas(TargetLists(vs), j);
    if q < p { FlattenGrows(TargetLists(vs), q, p); }
    OneOwner(vs[p]);
  }

  lemma OneOwner(v: View)
    ensures forall k :: 0 <= k < |TargetsOf(v)| ==> TargetsOf(v)[k].owner == v.id
  {
  }

  /** Every clash between two connections is reported by name and path, whatever else is wrong. */
  lemma {:induction false} EveryClashIsReported(d: Document, p: nat, k: nat, q: nat, m: nat)
    requires p < q < |d.connections|
    requires k < |TargetsOf(Views(d.connections)[p])| && m < |TargetsOf(Views(d.connections)[q])|
    requires Clash(Views(d.connections), p, k, q, m)
    ensures Conflict(TargetsOf(Views(d.connections)[p])[k], TargetsOf(Views(d.connections)[q])[m]) in Report(d)
  {
    ClashIsListed(Views(d.connections), p, k, q, m);
  }

  // ----------------------------------------------------------------- what acceptance guarantees

  /** No absolute path lies inside both trees. */
  ghost predicate Disjoint(a: Location, b: Location) {
    !exists x: Location :: Inside(x, a) && Inside(x, b)
  }

  ghost predicate DisjointIfAny(a: Option<Location>, b: Option<Location>) {
    a.Some? && b.Some? ==> Disjoint(a.value, b.value)
  }

  predicate SafePlace(l: Location) { l != [] && l[0] !in SYSTEM_DIRECTORIES }

  /** A side directory is well formed, outside the system and beside the local tree. */
  ghost predicate FitsWell(path: string, local: Location) {
    Normalized(path).Some? && SafePlace(Normalized(path).value) && Disjoint(local, Normalized(path).value)
  }

  /** A connection whose own fields and directories are all in order. */
  ghost predicate WellPlaced(c: Connection) {
    var local := Normalized(c.localPath);
    && c.findings == [] && local.Some? && SafePlace(local.value)
    && match c.mode
       case OnlineMount(None) => true
       case OnlineMount(Some(cache)) => FitsWell(cache, local.value)
       case OfflineMirror(recovery, minutes, _) => minutes > 0 && FitsWell(recovery, local.value)
  }

  /** A OneDrive mirror that rclone synchronizes: its directories are compared with everything. */
  ghost predicate IsCompared(c: Connection) {
    c.provider == OneDrive && match c.mode case OfflineMirror(_, _, engine) => engine == Rclone case OnlineMount(_) => false
  }

  ghost function RecoveryTree(c: Connection): Option<Location> {
    match c.mode case OfflineMirror(recovery, _, _) => Normalized(recovery) case OnlineMount(_) => None
  }

  /** The trees of two connections that the configuration promises to keep apart. */
  ghost predicate KeptApart(c: Connection, d: Connection) {
    var local, other := Normalized(c.localPath), Normalized(d.localPath);
    && DisjointIfAny(local, other)
    && (IsCompared(c) || IsCompared(d) ==>
          && DisjointIfAny(RecoveryTree(c), other)
          && DisjointIfAny(local, RecoveryTree(d))
          && DisjointIfAny(RecoveryTree(c), RecoveryTree(d)))
  }

  ghost predicate Apart(v: View, w: View) {
    && DisjointIfAny(v.local, w.local)
    && (v.oneDriveMirror || w.oneDriveMirror ==>
          && DisjointIfAny(Recovery(v), w.local)
          && DisjointIfAny(v.local, Recovery(w))
          && DisjointIfAny(Recovery(v), Recovery(w)))
  }

  lemma ViewHasTrees(c: Connection)
    ensures ViewOf(c).oneDriveMirror <==> IsCompared(c)
    ensures ViewOf(c).local == Normalized(c.localPath) && Recovery(ViewOf(c)) == RecoveryTree(c)
  {
  }

  lemma ViewsKeepApart(c: Connection, d: Connection)
    ensures Apart(ViewOf(c), ViewOf(d)) <==> KeptApart(c, d)
  {
    ViewHasTrees(c);
    ViewHasTrees(d);
  }

  ghost predicate UniqueIds(vs: seq<View>) {
    forall p, q :: 0 <= p < q < |vs| ==> vs[p].id != vs[q].id
  }

  ghost predicate AllApart(vs: seq<View>) {
    forall p, q :: 0 <= p < q < |vs| ==> Apart(vs[p], vs[q])
  }

  ghost predicate Acceptable(d: Document) {
    var cs := d.connections;
    d.findings == [] && AreWellPlaced(cs) && HaveOwnIds(cs) && AreKeptApart(cs)
  }

  ghost predicate AreWellPlaced(cs: seq<Connection>) { forall c :: c in cs ==> WellPlaced(c) }

  ghost predicate HaveOwnIds(cs: seq<Connection>) { forall p, q :: 0 <= p < q < |cs| ==> cs[p].id != cs[q].id }

  ghost predicate AreKeptApart(cs: seq<Connection>) { forall p, q :: 0 <= p < q < |cs| ==> KeptApart(cs[p], cs[q]) }

  lemma ViewsAreAcceptable(cs: seq<Connection>)
    ensures UniqueIds(Views(cs)) <==> HaveOwnIds(cs)
    ensures AllApart(Views(cs)) <==> AreKeptApart(cs)
  {
    var vs := Views(cs);
    assert forall p :: 0 <= p < |cs| ==> vs[p].id == cs[p].id;
    forall p, q | 0 <= p < q < |cs| ensures Apart(vs[p], vs[q]) <==> KeptApart(cs[p], cs[q]) {
      ViewsKeepApart(cs[p], cs[q]);
    }
  }

  lemma FitsIsSafe(path: string, local: Location)
    ensures FitsBeside(path, local) <==>
              FitsWell(path, local)
  {
    if Normalized(path).Some? {
      UnsafeMeansRootOrBelowSystem(Normalized(path).value);
      OverlapMeansSharedPath(local, Normalized(path).value);
    }
  }

  lemma OwnReportIsEmpty(c: Connection)
    ensures ViewOf(c).own == [] <==> WellPlaced(c)
  {
    if Normalized(c.localPath).Some? {
      var local := Normalized(c.localPath).value;
      UnsafeMeansRootOrBelowSystem(local);
      if c.mode.OfflineMirror? {
        FitsIsSafe(c.mode.recovery, local);
      } else if c.mode.cache.Some? {
        FitsIsSafe(c.mode.cache.value, local);
      }
    }
  }

  lemma ConnectionReportIsEmpty(vs: seq<View>)
    ensures ConnectionReport(vs) == [] <==> (forall p :: 0 <= p < |vs| ==> vs[p].own == []) && UniqueIds(vs)
  {
    FlattenEmpty(ReportLists(vs));
    forall q | 0 <= q < |vs|
      ensures ReportLists(vs)[q] == [] <==> vs[q].own == [] && forall p :: 0 <= p < q ==> vs[p].id != vs[q].id
    {
      assert vs[q].id in Ids(vs[..q]) <==> exists p :: 0 <= p < q && vs[..q][p].id == vs[q].id;
      assert forall p :: 0 <= p < q ==> vs[..q][p] == vs[p];
    }
  }

  lemma OneDriveIsById(vs: seq<View>, p: nat)
    requires p < |vs| && UniqueIds(vs)
    ensures vs[p].id in OneDriveIds(vs) <==> vs[p].oneDriveMirror
  {
    assert forall v :: v in vs && v.id == vs[p].id ==> v == vs[p];
  }

  /** Two connections are kept apart exactly when none of their compared directories clash. */
  lemma PairApart(vs: seq<View>, p: nat, q: nat)
    requires p < q < |vs| && UniqueIds(vs)
    requires vs[p].local.Some? && vs[q].local.Some?
    ensures Apart(vs[p], vs[q]) <==>
              forall k, m :: 0 <= k < |TargetsOf(vs[p])| && 0 <= m < |TargetsOf(vs[q])| ==> !Clash(vs, p, k, q, m)
  {
    var v, w := vs[p], vs[q];
    OneDriveIsById(vs, p);
    OneDriveIsById(vs, q);
    var ts, us := TargetsOf(v), TargetsOf(w);
    var oneDrive := OneDriveIds(vs);
    OverlapMeansSharedPath(v.local.value, w.local.value);
    if v.offline && v.side.Some? { OverlapMeansSharedPath(v.side.value, w.local.value); }
    if w.offline && w.side.Some? { OverlapMeansSharedPath(v.local.value, w.side.value); }
    if v.offline && v.side.Some? && w.offline && w.side.Some? { OverlapMeansSharedPath(v.side.value, w.side.value); }
    EachPair(v, w, oneDrive);
    assert forall k, m :: 0 <= k < |ts| && 0 <= m < |us| ==>
      (Clash(vs, p, k, q, m) <==> Conflicting(ts[k], us[m], oneDrive));
  }

  predicate OverlapIfAny(a: Option<Location>, b: Option<Location>) {
    a.Some? && b.Some? && Overlap(a.value, b.value)
  }

  /** The comparisons between two connections: local with local always, the rest when one is a mirror. */
  lemma EachPair(v: View, w: View, oneDrive: set<nat>)
    requires v.local.Some? && w.local.Some? && v.id != w.id
    requires v.id in oneDrive <==> v.oneDriveMirror
    requires w.id in oneDrive <==> w.oneDriveMirror
    ensures (exists k, m :: 0 <= k < |TargetsOf(v)| && 0 <= m < |TargetsOf(w)|
                            && Conflicting(TargetsOf(v)[k], TargetsOf(w)[m], oneDrive)) <==>
              || OverlapIfAny(v.local, w.local)
              || ((v.oneDriveMirror || w.oneDriveMirror)
                  && (OverlapIfAny(Recovery(v), w.local) || OverlapIfAny(v.local, Recovery(w))
                      || OverlapIfAny(Recovery(v), Recovery(w))))
  {
    var ts, us := TargetsOf(v), TargetsOf(w);
    var vl, wl := Target(v.id, v.local.value, true), Target(w.id, w.local.value, true);
    assert ts[|ts| - 1] == vl && us[|us| - 1] == wl;
    assert Conflicting(ts[|ts| - 1], us[|us| - 1], oneDrive) <==> OverlapIfAny(v.local, w.local);
    if Recovery(v).Some? {
      assert Conflicting(ts[0], us[|us| - 1], oneDrive) <==>
        (v.oneDriveMirror || w.oneDriveMirror) && OverlapIfAny(Recovery(v), w.local);
    }
    if Recovery(w).Some? {
      assert Conflicting(ts[|ts| - 1], us[0], oneDrive) <==>
        (v.oneDriveMirror || w.oneDriveMirror) && OverlapIfAny(v.local, Recovery(w));
    }
    if Recovery(v).Some? && Recovery(w).Some? {
      assert Conflicting(ts[0], us[0], oneDrive) <==>
        (v.oneDriveMirror || w.oneDriveMirror) && OverlapIfAny(Recovery(v), Recovery(w));
    }
  }

  /** No pair of targets conflicts when no two connections clash. */
  lemma NoPairNoClash(vs: seq<View>)
    requires UniqueIds(vs)
    requires forall p, q, k, m :: 0 <= p < q < |vs| && 0 <= k < |TargetsOf(vs[p])| && 0 <= m < |TargetsOf(vs[q])| ==>
               !Clash(vs, p, k, q, m)
    ensures TargetReport(vs) == []
  {
    var targets, test := Targets(vs), ConflictTest(OneDriveIds(vs));
    if TargetReport(vs) != [] {
      PairReportIs(targets, test, TargetReport(vs)[0]);
      var i :| 0 <= i < |targets| && RowHas(targets, i, |targets|, test, TargetReport(vs)[0]);
      var j :| i < j < |targets| && test(targets[i], targets[j]);
      var p, k, q, m := SpotsBelong(vs, i, j);
      assert Clash(vs, p, k, q, m);
      assert false;
    }
  }

  /** `validate` returns Ok exactly for the documents whose directory trees are safe and kept apart. */
  lemma AcceptedExactlyWhenApart(d: Document)
    ensures Report(d) == [] <==> Acceptable(d)
  {
    var vs := Views(d.connections);
    ConnectionReportIs(d.connections);
    if ConnectionReport(vs) == [] { TargetReportIs(d.connections); }
  }

  lemma ConnectionReportIs(cs: seq<Connection>)
    ensures ConnectionReport(Views(cs)) == [] <==> AreWellPlaced(cs) && HaveOwnIds(cs)
  {
    ViewsAreAcceptable(cs);
    ConnectionReportIsEmpty(Views(cs));
    OwnReportsAreEmpty(cs);
  }

  lemma LocalsAreThere(cs: seq<Connection>)
    requires ConnectionReport(Views(cs)) == []
    ensures UniqueIds(Views(cs)) && forall p :: 0 <= p < |cs| ==> Views(cs)[p].local.Some?
  {
    ConnectionReportIsEmpty(Views(cs));
    OwnReportsAreEmpty(cs);
    forall p | 0 <= p < |cs| ensures Views(cs)[p].local.Some? {
      assert cs[p] in cs;
    }
  }

  lemma TargetReportIs(cs: seq<Connection>)
    requires ConnectionReport(Views(cs)) == []
    ensures TargetReport(Views(cs)) == [] <==> AreKeptApart(cs)
  {
    LocalsAreThere(cs);
    ViewsAreAcceptable(cs);
    ApartMeansNoReport(Views(cs));
  }

  // ----------------------------------------------------------------------- the cause of a problem

  /** What is wrong with one connection by itself when this problem is reported of it. */
  ghost predicate IsOwnProblem(c: Connection, p: Problem) {
    var local := Normalized(c.localPath);
    match p
    case Field(finding) => finding in c.findings
    case InvalidLocalPath(id, path) => id == c.id && path == c.localPath && local.None?
    case UnsafeSystemPath(id, at) => id == c.id && local == Some(at) && !SafePlace(at)
    case InvalidCacheDirectory(id, path) =>
      id == c.id && local.Some? && c.mode == OnlineMount(Some(path)) && !FitsWell(path, local.value)
    case InvalidRecoveryDirectory(id, path) =>
      id == c.id && local.Some? && c.mode.OfflineMirror? && c.mode.recovery == path && !FitsWell(path, local.value)
    case InvalidSyncInterval(id) => id == c.id && local.Some? && c.mode.OfflineMirror? && c.mode.intervalMinutes == 0
    case DuplicateConnectionId(_) => false
    case ConflictingTargets(_, _, _, _) => false
  }

  lemma OwnProblemIs(c: Connection, p: Problem)
    ensures p in ViewOf(c).own <==> IsOwnProblem(c, p)
  {
    FieldsHold(c.findings, p);
    if Normalized(c.localPath).Some? {
      var local := Normalized(c.localPath).value;
      UnsafeMeansRootOrBelowSystem(local);
      ModeProblemIs(c, local, p);
    }
  }

  lemma FieldsHold(findings: seq<string>, p: Problem)
    ensures p in Fields(findings) <==> p.Field? && p.finding in findings
  {
    if p.Field? && p.finding in findings {
      var i :| 0 <= i < |findings| && findings[i] == p.finding;
      assert Fields(findings)[i] == p;
    }
  }

  lemma ModeProblemIs(c: Connection, local: Location, p: Problem)
    requires Normalized(c.localPath) == Some(local)
    ensures p in ModeReport(c, local) <==>
              (p.InvalidCacheDirectory? || p.InvalidRecoveryDirectory? || p.InvalidSyncInterval?) && IsOwnProblem(c, p)
  {
    match c.mode
    case OnlineMount(None) =>
    case OnlineMount(Some(cache)) => FitsIsSafe(cache, local);
    case OfflineMirror(recovery, _, _) => FitsIsSafe(recovery, local);
  }

  /** Two connections that this conflict is about: ids and places in the order of the document. */
  ghost predicate IsPairProblem(c: Connection, d: Connection, compared: bool, p: Problem) {
    && p.ConflictingTargets? && p.first == c.id && p.second == d.id && c.id != d.id
    && Normalized(c.localPath).Some? && Normalized(d.localPath).Some? && !Disjoint(p.firstAt, p.secondAt)
    && (|| (Some(p.firstAt) == Normalized(c.localPath) && Some(p.secondAt) == Normalized(d.localPath))
        || (compared && Some(p.firstAt) in [Normalized(c.localPath), RecoveryTree(c)]
                     && Some(p.secondAt) in [Normalized(d.localPath), RecoveryTree(d)]))
  }

  /** Some connection with this id is compared with everything. */
  ghost predicate HasCompared(cs: seq<Connection>, id: nat) {
    exists c :: c in cs && c.id == id && IsCompared(c)
  }

  /** The cause of a problem: a finding of the document, a connection by itself, an id used before, or a pair. */
  ghost predicate HasCause(d: Document, p: Problem) {
    var cs := d.connections;
    || (p.Field? && p.finding in d.findings)
    || (exists c :: c in cs && IsOwnProblem(c, p))
    || (p.DuplicateConnectionId? && exists i, j :: 0 <= i < j < |cs| && cs[i].id == cs[j].id == p.id)
    || (exists i, j :: 0 <= i < j < |cs|
          && IsPairProblem(cs[i], cs[j], HasCompared(cs, cs[i].id) || HasCompared(cs, cs[j].id), p))
  }

  /** The j-th connection gives rise to this problem: by itself, or by an id that was there before. */
  ghost predicate IsReportedAt(cs: seq<Connection>, j: int, p: Problem)
    requires 0 <= j < |cs|
  {
    IsOwnProblem(cs[j], p) || (p.DuplicateConnectionId? && p.id == cs[j].id && exists i :: 0 <= i < j && cs[i].id == p.id)
  }

  lemma ReportListIs(cs: seq<Connection>, j: nat, p: Problem)
    requires j < |cs|
    ensures p in ReportLists(Views(cs))[j] <==> IsReportedAt(cs, j, p)
  {
    OwnProblemIs(cs[j], p);
    DuplicateIs(cs, j, p);
  }

  lemma ReportedSomewhere(cs: seq<Connection>, p: Problem)
    ensures (exists j :: 0 <= j < |cs| && IsReportedAt(cs, j, p)) <==>
              || (exists c :: c in cs && IsOwnProblem(c, p))
              || (p.DuplicateConnectionId? && exists i, j :: 0 <= i < j < |cs| && cs[i].id == cs[j].id == p.id)
  {
    if j :| 0 <= j < |cs| && IsReportedAt(cs, j, p) {
      assert cs[j] in cs;
    }
    if c :| c in cs && IsOwnProblem(c, p) {
      var j :| 0 <= j < |cs| && cs[j] == c;
      assert IsReportedAt(cs, j, p);
    }
    if p.DuplicateConnectionId? {
      if i, j :| 0 <= i < j < |cs| && cs[i].id == cs[j].id == p.id {
        assert IsReportedAt(cs, j, p);
      }
    }
  }

  lemma ConnectionProblemIs(cs: seq<Connection>, p: Problem)
    ensures p in ConnectionReport(Views(cs)) <==>
              || (exists c :: c in cs && IsOwnProblem(c, p))
              || (p.DuplicateConnectionId? && exists i, j :: 0 <= i < j < |cs| && cs[i].id == cs[j].id == p.id)
  {
    var lists := ReportLists(Views(cs));
    FlattenMember(lists, p);
    forall j | 0 <= j < |cs| ensures p in lists[j] <==> IsReportedAt(cs, j, p) {
      ReportListIs(cs, j, p);
    }
    ReportedSomewhere(cs, p);
  }

  lemma SeenBefore(cs: seq<Connection>, j: nat, id: nat)
    requires j <= |cs|
    ensures id in Ids(Views(cs)[..j]) <==> exists i :: 0 <= i < j && cs[i].id == id
  {
    var before := Views(cs)[..j];
    assert forall i :: 0 <= i < j ==> before[i].id == cs[i].id;
    forall i | 0 <= i < j && cs[i].id == id ensures id in Ids(before) { assert before[i] in before; }
  }

  lemma DuplicateIs(cs: seq<Connection>, j: nat, p: Problem)
    requires j < |cs|
    ensures p in Duplicate(cs[j].id, Ids(Views(cs)[..j])) <==>
              p == DuplicateConnectionId(cs[j].id) && exists i :: 0 <= i < j && cs[i].id == cs[j].id
  {
    SeenBefore(cs, j, cs[j].id);
  }

  lemma ComparedIds(cs: seq<Connection>, id: nat)
    ensures id in OneDriveIds(Views(cs)) <==> HasCompared(cs, id)
  {
    var vs := Views(cs);
    if id in OneDriveIds(vs) {
      var v :| v in vs && v.oneDriveMirror && v.id == id;
      var i :| 0 <= i < |vs| && vs[i] == v;
      assert cs[i] in cs && IsCompared(cs[i]);
    }
    if HasCompared(cs, id) {
      var c :| c in cs && c.id == id && IsCompared(c);
      var i :| 0 <= i < |cs| && cs[i] == c;
      assert vs[i] in vs && vs[i].oneDriveMirror;
    }
  }

  /** One pair of compared directories, seen from the connections they belong to. */
  lemma PairProblemIs(c: Connection, d: Connection, oneDrive: set<nat>, p: Problem)
    ensures (exists k, m :: 0 <= k < |TargetsOf(ViewOf(c))| && 0 <= m < |TargetsOf(ViewOf(d))|
               && Conflicting(TargetsOf(ViewOf(c))[k], TargetsOf(ViewOf(d))[m], oneDrive)
               && p == Conflict(TargetsOf(ViewOf(c))[k], TargetsOf(ViewOf(d))[m]))
            <==> IsPairProblem(c, d, c.id in oneDrive || d.id in oneDrive, p)
  {
    var ts, us := TargetsOf(ViewOf(c)), TargetsOf(ViewOf(d));
    var compared := c.id in oneDrive || d.id in oneDrive;
    TargetsAre(c);
    TargetsAre(d);
    forall k, m | 0 <= k < |ts| && 0 <= m < |us| && Conflicting(ts[k], us[m], oneDrive) && p == Conflict(ts[k], us[m])
      ensures IsPairProblem(c, d, compared, p)
    {
      OverlapMeansSharedPath(ts[k].at, us[m].at);
    }
    if IsPairProblem(c, d, compared, p) {
      OverlapMeansSharedPath(p.firstAt, p.secondAt);
      var bothLocal := Some(p.firstAt) == Normalized(c.localPath) && Some(p.secondAt) == Normalized(d.localPath);
      var k := if bothLocal then |ts| - 1 else TargetAt(c, p.firstAt);
      var m := if bothLocal then |us| - 1 else TargetAt(d, p.secondAt);
      assert Conflicting(ts[k], us[m], oneDrive) && p == Conflict(ts[k], us[m]);
    }
  }

  lemma TargetsAre(c: Connection)
    ensures var ts := TargetsOf(ViewOf(c));
            && (ts != [] <==> Normalized(c.localPath).Some?)
            && (ts != [] ==> ts[|ts| - 1] == Target(c.id, Normalized(c.localPath).value, true))
            && (forall k :: 0 <= k < |ts| ==>
                  ts[k].owner == c.id && (ts[k].isLocal ==> Some(ts[k].at) == Normalized(c.localPath))
                  && Some(ts[k].at) in [Normalized(c.localPath), RecoveryTree(c)])
  {
  }

  function TargetAt(c: Connection, at: Location): (k: nat)
    requires Normalized(c.localPath).Some? && Some(at) in [Normalized(c.localPath), RecoveryTree(c)]
    ensures k < |TargetsOf(ViewOf(c))| && TargetsOf(ViewOf(c))[k].at == at
  {
    if Some(at) == Normalized(c.localPath) then |TargetsOf(ViewOf(c))| - 1 else 0
  }

  lemma TargetProblemIs(cs: seq<Connection>, p: Problem)
    ensures p in TargetReport(Views(cs)) <==>
              exists i, j :: 0 <= i < j < |cs|
                && IsPairProblem(cs[i], cs[j], HasCompared(cs, cs[i].id) || HasCompared(cs, cs[j].id), p)
  {
    var vs := Views(cs);
    if p in TargetReport(vs) { ReportedComesFromPair(cs, p); }
    if exists i, j :: 0 <= i < j < |cs| && IsPairProblem(cs[i], cs[j], HasCompared(cs, cs[i].id) || HasCompared(cs, cs[j].id), p) {
      var i, j :| 0 <= i < j < |cs| && IsPairProblem(cs[i], cs[j], HasCompared(cs, cs[i].id) || HasCompared(cs, cs[j].id), p);
      PairIsReported(cs, i, j, p);
    }
  }

  lemma ReportedComesFromPair(cs: seq<Connection>, p: Problem)
    requires p in TargetReport(Views(cs))
    ensures exists i, j :: 0 <= i < j < |cs|
              && IsPairProblem(cs[i], cs[j], HasCompared(cs, cs[i].id) || HasCompared(cs, cs[j].id), p)
  {
    var vs := Views(cs);
    var targets, oneDrive := Targets(vs), OneDriveIds(vs);
    PairReportIs(targets, ConflictTest(oneDrive), p);
    var a :| 0 <= a < |targets| && RowHas(targets, a, |targets|, ConflictTest(oneDrive), p);
    var b :| a < b < |targets| && ConflictTest(oneDrive)(targets[a], targets[b]) && p == Conflict(targets[a], targets[b]);
    var i, k, j, m := SpotsBelong(vs, a, b);
    assert vs[i] == ViewOf(cs[i]) && vs[j] == ViewOf(cs[j]);
    assert Conflicting(TargetsOf(vs[i])[k], TargetsOf(vs[j])[m], oneDrive);
    PairProblemIs(cs[i], cs[j], oneDrive, p);
    ComparedIds(cs, cs[i].id);
    ComparedIds(cs, cs[j].id);
  }

  lemma PairIsReported(cs: seq<Connection>, i: nat, j: nat, p: Problem)
    requires i < j < |cs|
    requires IsPairProblem(cs[i], cs[j], HasCompared(cs, cs[i].id) || HasCompared(cs, cs[j].id), p)
    ensures p in TargetReport(Views(cs))
  {
    var vs := Views(cs);
    var oneDrive := OneDriveIds(vs);
    assert vs[i] == ViewOf(cs[i]) && vs[j] == ViewOf(cs[j]);
    ComparedIds(cs, cs[i].id);
    ComparedIds(cs, cs[j].id);
    PairProblemIs(cs[i], cs[j], oneDrive, p);
    var k, m :| 0 <= k < |TargetsOf(vs[i])| && 0 <= m < |TargetsOf(vs[j])|
      && Conflicting(TargetsOf(vs[i])[k], TargetsOf(vs[j])[m], oneDrive)
      && p == Conflict(TargetsOf(vs[i])[k], TargetsOf(vs[j])[m]);
    ClashIsListed(vs, i, k, j, m);
  }

  /** A problem is reported exactly when something in the document causes it. */
  lemma EveryProblemHasItsCause(d: Document, p: Problem)
    ensures p in Report(d) <==> HasCause(d, p)
  {
    FieldsHold(d.findings, p);
    ConnectionProblemIs(d.connections, p);
    TargetProblemIs(d.connections, p);
  }

  lemma OwnReportsAreEmpty(cs: seq<Connection>)
    ensures (forall p :: 0 <= p < |cs| ==> Views(cs)[p].own == []) <==> AreWellPlaced(cs)
  {
    forall c | c in cs ensures ViewOf(c).own == [] <==> WellPlaced(c) {
      OwnReportIsEmpty(c);
    }
    assert forall p :: 0 <= p < |cs| ==> Views(cs)[p] == ViewOf(cs[p]) && cs[p] in cs;
  }

  lemma ApartMeansNoReport(vs: seq<View>)
    requires UniqueIds(vs)
    requires forall p :: 0 <= p < |vs| ==> vs[p].local.Some?
    ensures TargetReport(vs) == [] <==> AllApart(vs)
  {
    if AllApart(vs) {
      forall p, q, k, m | 0 <= p < q < |vs| && 0 <= k < |TargetsOf(vs[p])| && 0 <= m < |TargetsOf(vs[q])|
        ensures !Clash(vs, p, k, q, m)
      {
        PairApart(vs, p, q);
      }
      NoPairNoClash(vs);
    } else {
      var p, q :| 0 <= p < q < |vs| && !Apart(vs[p], vs[q]);
      PairApart(vs, p, q);
      var k, m :| 0 <= k < |TargetsOf(vs[p])| && 0 <= m < |TargetsOf(vs[q])| && Clash(vs, p, k, q, m);
      ClashIsListed(vs, p, k, q, m);
    }
  }
}
