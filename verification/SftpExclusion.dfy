/** Which directories the SFTP preload leaves out, down to the arguments given to `find`. */
module SftpExclusion {
  import opened Options
  import opened Paths
  import opened Text

  const SYSTEMS: seq<Location> := [["proc"], ["sys"], ["dev"]]

  /** A path below `base` as `Path::join` writes it and as `find` prints it. */
  function Under(base: string, relative: Location): string {
    if relative == [] then base
    else if base != [] && base[|base| - 1] == '/' then base + Join(relative, "/")
    else base + "/" + Join(relative, "/")
  }

  /** The names of an absolute remote path; `Path::starts_with` and `strip_prefix` compare whole components. */
  function Absolute(names: Location): seq<Component> { [RootDir] + Normals(names) }

  predicate StartsWith(path: seq<Component>, prefix: seq<Component>) { prefix <= path }

  /** The rest of the system directories that lie below a remote root. */
  function Below(remote: Location, systems: seq<Location>): seq<Location> {
    if systems == [] then []
    else
      var last := systems[|systems| - 1];
      Below(remote, systems[..|systems| - 1]) + (if remote <= last then [last[|remote|..]] else [])
  }

  predicate IsSystem(path: Location, systems: seq<Location>) {
    exists i :: 0 <= i < |systems| && systems[i] <= path
  }

  /** Relative locations left out: everything when the remote is itself inside a system directory. */
  function Excluded(remote: Location, systems: seq<Location>): seq<Location> {
    if IsSystem(remote, systems) then [[]] else Below(remote, systems)
  }

  lemma NormalsOrder(a: Location, b: Location)
    ensures Absolute(a) <= Absolute(b) <==> a <= b
    ensures a <= b ==> Absolute(b)[|Absolute(a)|..] == Normals(b[|a|..])
  {
    assert forall i :: 0 <= i < |a| ==> Absolute(a)[i + 1] == Normal(a[i]);
    assert forall i :: 0 <= i < |b| ==> Absolute(b)[i + 1] == Normal(b[i]);
    if Absolute(a) <= Absolute(b) {
      forall i | 0 <= i < |a| ensures a[i] == b[i] {
        assert Absolute(a)[i + 1] == Absolute(b)[i + 1];
      }
    }
  }

  /** A remote, given by its components, starts with a system directory. */
  predicate StartsInSystem(remote: seq<Component>, systems: seq<Location>) {
    exists i :: 0 <= i < |systems| && StartsWith(remote, Absolute(systems[i]))
  }

  /** The parts of the system directories that remain below a remote. */
  function Stripped(remote: seq<Component>, systems: seq<Location>): seq<Location>
    requires remote != []
  {
    if systems == [] then []
    else
      var last := systems[|systems| - 1];
      Stripped(remote, systems[..|systems| - 1])
      + (if StartsWith(Absolute(last), remote) then [last[|remote| - 1..]] else [])
  }

  /** What is left out for a remote given by its components, whatever they are. */
  function ExcludedFrom(remote: seq<Component>, systems: seq<Location>): seq<Location>
    requires remote != []
  {
    if StartsInSystem(remote, systems) then [[]] else Stripped(remote, systems)
  }

  /** The loop of `sftp_excluded_paths` over the system directories. */
  method ExcludedPaths(local: string, remote: seq<Component>, systems: seq<Location>) returns (excluded: seq<string>)
    requires remote != []
    ensures excluded == Texts(local, ExcludedFrom(remote, systems))
  {
    excluded := [];
    for i := 0 to |systems|
      invariant !StartsInSystem(remote, systems[..i])
      invariant excluded == Texts(local, Stripped(remote, systems[..i]))
    {
      assert systems[..i + 1][..i] == systems[..i];
      var system := Absolute(systems[i]);
      if StartsWith(remote, system) {
        return [local];
      }
      if StartsWith(system, remote) {
        excluded := excluded + [Under(local, systems[i][|remote| - 1..])];
      }
    }
    assert systems[..|systems|] == systems;
  }

  /** For a remote of plain names these are the locations computed from the names. */
  lemma {:induction false} StrippedIsBelow(names: Location, systems: seq<Location>)
    ensures Stripped(Absolute(names), systems) == Below(names, systems)
  {
    if systems != [] {
      StrippedIsBelow(names, systems[..|systems| - 1]);
      NormalsOrder(names, systems[|systems| - 1]);
    }
  }

  lemma ExcludedFromNames(names: Location, systems: seq<Location>)
    ensures ExcludedFrom(Absolute(names), systems) == Excluded(names, systems)
  {
    StrippedIsBelow(names, systems);
    forall i | 0 <= i < |systems|
      ensures StartsWith(Absolute(names), Absolute(systems[i])) <==> systems[i] <= names
    {
      NormalsOrder(systems[i], names);
    }
  }

  /** Below a remote with `..` in it no system directory is found. */
  lemma {:induction false} NothingBelowParents(remote: seq<Component>, systems: seq<Location>)
    requires remote != [] && ParentDir in remote
    ensures Stripped(remote, systems) == []
  {
    if systems != [] {
      NothingBelowParents(remote, systems[..|systems| - 1]);
      var k :| 0 <= k < |remote| && remote[k] == ParentDir;
      var last := Absolute(systems[|systems| - 1]);
      assert forall j :: 0 <= j < |last| ==> last[j] != ParentDir;
    }
  }

  lemma {:induction false} PartsAreNormal(pieces: seq<string>) returns (names: Location)
    requires ParentDir !in Parts(pieces)
    ensures Parts(pieces) == Normals(names)
  {
    names := [];
    if pieces != [] {
      var init, last := pieces[..|pieces| - 1], pieces[|pieces| - 1];
      names := PartsAreNormal(init);
      if Part(last) == [Normal(last)] {
        assert Normals(names + [last]) == Normals(names) + [Normal(last)];
        names := names + [last];
      }
    }
  }

  /** An absolute path without `..` has just the names it normalizes to. */
  lemma PlainAbsolute(path: string)
    requires IsAbsolute(path) && ParentDir !in Components(path)
    ensures Normalized(path).Some? && Components(path) == Absolute(Normalized(path).value)
  {
    assert forall c :: c in Parts(Split(path)) ==> c in Components(path);
    var names := PartsAreNormal(Split(path));
    var root: seq<Component> := [RootDir];
    assert root[..0] == [];
    assert Resolve(root) == Some([]);
    ResolveNormals(root, names);
    var top: Location := [];
    assert top + names == names;
  }

  /**
   * `sftp_excluded_paths`. A remote of plain names excludes by those names; one with `..` in it,
   * which `is_unsafe_remote_subpath` rejects, excludes all when it starts in a system directory
   * and else nothing.
   */
  method SftpExcludedPaths(isSftp: bool, local: string, subpath: Option<string>) returns (excluded: seq<string>)
    ensures !isSftp || subpath.None? || !IsAbsolute(subpath.value) ==> excluded == []
    ensures isSftp && subpath.Some? && IsAbsolute(subpath.value) ==>
              var remote := Components(subpath.value);
              if ParentDir !in remote
              then Normalized(subpath.value).Some?
                   && excluded == Texts(local, Excluded(Normalized(subpath.value).value, SYSTEMS))
              else excluded == if StartsInSystem(remote, SYSTEMS) then [local] else []
  {
    if !isSftp || subpath.None? || !IsAbsolute(subpath.value) { return []; }
    var remote := Components(subpath.value);
    excluded := ExcludedPaths(local, remote, SYSTEMS);
    if ParentDir !in remote {
      PlainAbsolute(subpath.value);
      ExcludedFromNames(Normalized(subpath.value).value, SYSTEMS);
    } else {
      NothingBelowParents(remote, SYSTEMS);
    }
  }

  function Texts(base: string, relatives: seq<Location>): seq<string> {
    seq(|relatives|, i requires 0 <= i < |relatives| => Under(base, relatives[i]))
  }

  lemma {:induction false} BelowIs(remote: Location, systems: seq<Location>, relative: Location)
    ensures relative in Below(remote, systems) <==>
              exists i :: 0 <= i < |systems| && remote <= systems[i] && relative == systems[i][|remote|..]
  {
    if systems != [] {
      var init := systems[..|systems| - 1];
      BelowIs(remote, init, relative);
      assert forall i :: 0 <= i < |init| ==> init[i] == systems[i];
    }
  }

  lemma PrefixOfJoined(a: Location, b: Location, x: Location)
    ensures a <= b + x <==> a <= b || (b <= a && a[|b|..] <= x)
  {
    if b <= a && a[|b|..] <= x {
      assert a == b + a[|b|..];
    }
    if a <= b + x && !(a <= b) {
      assert forall i :: 0 <= i < |b| ==> a[i] == (b + x)[i];
      assert forall i :: 0 <= i < |a| - |b| ==> a[|b|..][i] == (b + x)[|b| + i] == x[i];
    }
  }

  predicate InExcluded(x: Location, excluded: seq<Location>) {
    exists i :: 0 <= i < |excluded| && excluded[i] <= x
  }

  /** A relative path is left out exactly when the remote path it stands for is in a system directory. */
  lemma ExcludedExactlySystem(remote: Location, systems: seq<Location>, x: Location)
    ensures InExcluded(x, Excluded(remote, systems)) <==> IsSystem(remote + x, systems)
  {
    var excluded := Excluded(remote, systems);
    if IsSystem(remote, systems) {
      var i :| 0 <= i < |systems| && systems[i] <= remote;
      assert systems[i] <= remote + x;
      assert excluded[0] <= x;
    } else {
      if InExcluded(x, excluded) {
        var k :| 0 <= k < |excluded| && excluded[k] <= x;
        BelowIs(remote, systems, excluded[k]);
        var i :| 0 <= i < |systems| && remote <= systems[i] && excluded[k] == systems[i][|remote|..];
        PrefixOfJoined(systems[i], remote, x);
      }
      if IsSystem(remote + x, systems) {
        var i :| 0 <= i < |systems| && systems[i] <= remote + x;
        PrefixOfJoined(systems[i], remote, x);
        BelowIs(remote, systems, systems[i][|remote|..]);
      }
    }
  }

  // ---------------------------------------------------------------------------- find's patterns

  predicate IsSpecial(c: char) { c == '\\' || c == '*' || c == '?' || c == '[' || c == ']' }

  function Escape(path: string): string {
    if path == [] then []
    else (if IsSpecial(path[0]) then ['\\', path[0]] else [path[0]]) + Escape(path[1..])
  }

  datatype Bracket = Bracket(negated: bool, members: string, rest: string)

  /** The index of the `]` that closes a bracket expression; one in first place is an ordinary member. */
  function Closing(p: string, from: nat, first: bool): Option<nat>
    ensures Closing(p, from, first).Some? ==> from <= Closing(p, from, first).value < |p|
    decreases |p| - from
  {
    if from >= |p| then None
    else if p[from] == ']' && !first then Some(from)
    else Closing(p, from + 1, false)
  }

  function ReadBracket(p: string): Option<Bracket>
    ensures ReadBracket(p).Some? ==> |ReadBracket(p).value.rest| < |p|
  {
    if p == [] || p[0] != '[' then None
    else
      var negated := |p| > 1 && p[1] == '!';
      var start := if negated then 2 else 1;
      var end := Closing(p, start, true);
      if end.None? then None else Some(Bracket(negated, p[start..end.value], p[end.value + 1..]))
  }

  predicate Among(c: char, members: string) {
    if members == [] then false
    else if |members| >= 3 && members[1] == '-' then members[0] <= c <= members[2] || Among(c, members[3..])
    else c == members[0] || Among(c, members[1..])
  }

  /** Shell pattern matching as `find -path` applies it: a slash is an ordinary character. */
  predicate Matches(p: string, text: string)
    decreases |p| + |text|
  {
    if p == [] then text == []
    else if p[0] == '\\' then |p| > 1 && text != [] && text[0] == p[1] && Matches(p[2..], text[1..])
    else if p[0] == '*' then Matches(p[1..], text) || (text != [] && Matches(p, text[1..]))
    else if p[0] == '?' then text != [] && Matches(p[1..], text[1..])
    else if ReadBracket(p).Some? then
      var b := ReadBracket(p).value;
      text != [] && Among(text[0], b.members) != b.negated && Matches(b.rest, text[1..])
    else text != [] && text[0] == p[0] && Matches(p[1..], text[1..])
  }

  /** An escaped path, used as a pattern, matches itself and nothing else. */
  lemma {:induction false} EscapedMatchesOnlyItself(path: string, text: string)
    ensures Matches(Escape(path), text) <==> text == path
    decreases |path|
  {
    if path != [] {
      var p := Escape(path);
      var c, rest := path[0], path[1..];
      assert path == [c] + rest;
      if IsSpecial(c) {
        assert p[2..] == Escape(rest);
      } else {
        assert p[0] == c && p[1..] == Escape(rest);
      }
      if text != [] {
        assert text == [text[0]] + text[1..];
        EscapedMatchesOnlyItself(rest, text[1..]);
      }
    }
  }

  // ---------------------------------------------------------------------------------- arguments

  /** `-path p1 -o -path p2 ...`. */
  function Alternatives(paths: seq<string>): seq<string> {
    if paths == [] then []
    else
      var before := paths[..|paths| - 1];
      Alternatives(before) + (if before == [] then [] else ["-o"]) + ["-path", Escape(paths[|paths| - 1])]
  }

  function DepthArguments(depth: Option<string>): seq<string> {
    if depth.None? then [] else ["-maxdepth", depth.value]
  }

  function PruneArguments(paths: seq<string>): seq<string> {
    if paths == [] then [] else ["("] + Alternatives(paths) + [")", "-prune", "-o"]
  }

  /** The whole argument list. */
  function Arguments(mountpoint: string, depth: Option<string>, excluded: seq<string>): seq<string> {
    ["-P", mountpoint, "-xdev"] + DepthArguments(depth) + PruneArguments(excluded) + ["-type", "d", "-printf", ""]
  }

  /** The loop of `traversal_request_excluding`. */
  method AddPrune(front: seq<string>, excluded: seq<string>) returns (args: seq<string>)
    requires excluded != []
    ensures args == front + PruneArguments(excluded)
  {
    args := front + ["("];
    for index := 0 to |excluded|
      invariant args == front + (["("] + Alternatives(excluded[..index]))
    {
      assert excluded[..index + 1][..index] == excluded[..index];
      if index > 0 {
        args := args + ["-o"];
      }
      var pattern := EscapeLoop(excluded[index]);
      args := args + ["-path"] + [pattern];
    }
    assert excluded[..|excluded|] == excluded;
    args := args + [")", "-prune", "-o"];
  }

  /** `traversal_request_excluding`. */
  method TraversalArguments(mountpoint: string, depth: Option<string>, excluded: seq<string>)
    returns (args: seq<string>)
    ensures args == Arguments(mountpoint, depth, excluded)
  {
    args := ["-P", mountpoint, "-xdev"];
    if depth.Some? {
      args := args + ["-maxdepth", depth.value];
    }
    assert args == ["-P", mountpoint, "-xdev"] + DepthArguments(depth);
    ghost var front := args;
    if excluded != [] {
      args := AddPrune(args, excluded);
    }
    assert args == front + PruneArguments(excluded);
    args := args + ["-type", "d", "-printf", ""];
  }

  method EscapeLoop(path: string) returns (pattern: string)
    ensures pattern == Escape(path)
  {
    pattern := "";
    for i := 0 to |path|
      invariant pattern + Escape(path[i..]) == Escape(path)
    {
      assert path[i..][1..] == path[i + 1..];
      pattern := pattern + (if IsSpecial(path[i]) then ['\\', path[i]] else [path[i]]);
    }
  }

  /** What `find` makes of the alternatives: does some `-path` test hold of the printed path? */
  predicate Tests(args: seq<string>, printed: string) {
    |args| >= 2 && args[|args| - 2] == "-path"
    && (Matches(args[|args| - 1], printed)
        || (|args| >= 3 && args[|args| - 3] == "-o" && Tests(args[..|args| - 3], printed)))
  }

  lemma OneTest(pattern: string, printed: string)
    ensures Tests(["-path", pattern], printed) <==> Matches(pattern, printed)
  {
  }

  /** One more alternative is one more test. */
  lemma OneMoreTest(args: seq<string>, pattern: string, printed: string)
    ensures Tests(args + ["-o", "-path", pattern], printed) <==> Matches(pattern, printed) || Tests(args, printed)
  {
    var all := args + ["-o", "-path", pattern];
    assert all[..|all| - 3] == args && all[|all| - 3] == "-o" && all[|all| - 2] == "-path";
  }

  lemma JoinThree(a: seq<string>, x: string, y: string, z: string)
    ensures a + [x] + [y, z] == a + [x, y, z] && a + [] + [y, z] == a + [y, z]
  {
  }

  lemma AlternativesGrow(before: seq<string>, last: string)
    ensures before == [] ==> Alternatives(before + [last]) == ["-path", Escape(last)]
    ensures before != [] ==> Alternatives(before + [last]) == Alternatives(before) + ["-o", "-path", Escape(last)]
  {
    var all := before + [last];
    assert all[..|all| - 1] == before && all[|all| - 1] == last;
    JoinThree(Alternatives(before), "-o", "-path", Escape(last));
  }

  /** The alternatives hold of a printed path exactly when it is one of the excluded paths. */
  lemma {:induction false} TestsAreEqualities(paths: seq<string>, printed: string)
    ensures Tests(Alternatives(paths), printed) <==> printed in paths
  {
    if paths != [] {
      var before, last := paths[..|paths| - 1], paths[|paths| - 1];
      assert paths == before + [last];
      TestsAreEqualities(before, printed);
      AlternativesGrow(before, last);
      EscapedMatchesOnlyItself(last, printed);
      if before == [] {
        OneTest(Escape(last), printed);
      } else {
        OneMoreTest(Alternatives(before), Escape(last), printed);
      }
    }
  }

  // --------------------------------------------------------------------------------- end to end

  lemma JoinIsInjective(a: Location, b: Location)
    requires IsLocation(a) && IsLocation(b) && a != [] && b != []
    requires Join(a, "/") == Join(b, "/")
    ensures a == b
  {
    SplitJoined(a, '/');
    SplitJoined(b, '/');
  }

  lemma UnderIsInjective(base: string, a: Location, b: Location)
    requires IsLocation(a) && IsLocation(b) && Under(base, a) == Under(base, b)
    ensures a == b
  {
    JoinIsNotEmpty(a);
    JoinIsNotEmpty(b);
    if a != [] && b != [] {
      var front := if base != [] && base[|base| - 1] == '/' then base else base + "/";
      assert Under(base, a) == front + Join(a, "/") && Under(base, b) == front + Join(b, "/");
      assert Under(base, a)[|front|..] == Join(a, "/") && Under(base, b)[|front|..] == Join(b, "/");
      JoinIsInjective(a, b);
    }
  }

  lemma JoinIsNotEmpty(a: Location)
    requires IsLocation(a)
    ensures a != [] ==> Join(a, "/") != []
  {
    if a != [] { assert IsName(a[0]); }
  }

  /** A directory as `find` prints it: its name below its parent. */
  function Printed(base: string, x: Location): string {
    if x == [] then base
    else
      var parent := Printed(base, x[..|x| - 1]);
      (if parent != [] && parent[|parent| - 1] == '/' then parent else parent + "/") + x[|x| - 1]
  }

  lemma {:induction false} JoinEnds(names: Location, last: string)
    requires names != []
    ensures Join(names + [last], "/") == Join(names, "/") + "/" + last
  {
    if |names| == 1 {
      assert (names + [last])[1..] == [last];
    } else {
      assert (names + [last])[1..] == names[1..] + [last];
      JoinEnds(names[1..], last);
    }
  }

  lemma {:induction false} JoinEndsInName(names: Location)
    requires IsLocation(names) && names != []
    ensures Join(names, "/") != [] && Join(names, "/")[|Join(names, "/")| - 1] != '/'
  {
    if |names| == 1 {
      assert names[0][|names[0]| - 1] in names[0];
    } else {
      JoinEndsInName(names[1..]);
    }
  }

  lemma UnderGrows(base: string, init: Location, last: string)
    requires init != [] && IsLocation(init)
    ensures var u := Under(base, init);
            u != [] && u[|u| - 1] != '/' && Under(base, init + [last]) == u + "/" + last
  {
    JoinEnds(init, last);
    JoinEndsInName(init);
    var front := if base != [] && base[|base| - 1] == '/' then base else base + "/";
    assert Under(base, init) == front + Join(init, "/");
    assert Under(base, init + [last]) == front + (Join(init, "/") + "/" + last);
    assert front + (Join(init, "/") + "/" + last) == front + Join(init, "/") + "/" + last;
  }

  lemma PrintedGrows(base: string, init: Location, last: string)
    ensures var parent := Printed(base, init);
            Printed(base, init + [last]) == (if parent != [] && parent[|parent| - 1] == '/' then parent else parent + "/") + last
  {
    assert (init + [last])[..|init|] == init;
  }

  /** Paths are joined as `find` prints them. */
  lemma {:induction false} UnderIsPrinted(base: string, x: Location)
    requires IsLocation(x)
    ensures Under(base, x) == Printed(base, x)
  {
    if x != [] {
      var init, last := x[..|x| - 1], x[|x| - 1];
      assert x == init + [last];
      PrintedGrows(base, init, last);
      UnderIsPrinted(base, init);
      if init != [] { UnderGrows(base, init, last); } else { assert x == [last]; }
    }
  }

  /** The list makes `find` stop at a printed path: its tests, then `-prune`, and only else the listing. */
  ghost predicate StopsAt(args: seq<string>, mountpoint: string, depth: Option<string>, printed: string) {
    exists tests :: Tests(tests, printed)
      && args == ["-P", mountpoint, "-xdev"] + (if depth.None? then [] else ["-maxdepth", depth.value])
                 + ["("] + tests + [")", "-prune", "-o", "-type", "d", "-printf", ""]
  }

  lemma StopsByTests(mountpoint: string, depth: Option<string>, excluded: seq<string>, printed: string)
    ensures StopsAt(Arguments(mountpoint, depth, excluded), mountpoint, depth, printed) <==> Tests(Alternatives(excluded), printed)
  {
    var args := Arguments(mountpoint, depth, excluded);
    var front := ["-P", mountpoint, "-xdev"] + (if depth.None? then [] else ["-maxdepth", depth.value]);
    var end := [")", "-prune", "-o", "-type", "d", "-printf", ""];
    if excluded == [] {
      assert args == front + ["-type", "d", "-printf", ""];
    } else {
      assert args == front + ["("] + Alternatives(excluded) + end;
    }
    forall tests | Tests(tests, printed) && args == front + ["("] + tests + end ensures tests == Alternatives(excluded) {
      assert |args| == |front| + |tests| + 8;
      if excluded != [] { SameMiddle(front + ["("], tests, Alternatives(excluded), end); }
    }
  }

  lemma SameMiddle(front: seq<string>, a: seq<string>, b: seq<string>, end: seq<string>)
    requires front + a + end == front + b + end
    ensures a == b
  {
    var all := front + a + end;
    assert a == all[|front|..|all| - |end|] && b == all[|front|..|all| - |end|];
  }

  /** `find` stops at or above a relative path when it stops at one of the paths on the way to it. */
  ghost predicate Pruned(args: seq<string>, local: string, depth: Option<string>, x: Location) {
    exists k :: 0 <= k <= |x| && StopsAt(args, local, depth, Printed(local, x[..k]))
  }

  /** The system directories of the server. */
  predicate InSystem(path: Location) { path != [] && (path[0] == "proc" || path[0] == "sys" || path[0] == "dev") }

  lemma SystemIs(path: Location)
    ensures IsSystem(path, SYSTEMS) <==> InSystem(path)
  {
    assert SYSTEMS[0] == ["proc"] && SYSTEMS[1] == ["sys"] && SYSTEMS[2] == ["dev"] && |SYSTEMS| == 3;
    if path != [] { assert forall name :: [name] <= path <==> path[0] == name; }
  }

  lemma SystemNames(remote: Location, i: nat)
    requires IsLocation(remote) && i < |Excluded(remote, SYSTEMS)|
    ensures IsLocation(Excluded(remote, SYSTEMS)[i])
  {
    var e := Excluded(remote, SYSTEMS)[i];
    if !IsSystem(remote, SYSTEMS) {
      assert e in Below(remote, SYSTEMS);
      BelowIs(remote, SYSTEMS, e);
      var s :| 0 <= s < |SYSTEMS| && remote <= SYSTEMS[s] && e == SYSTEMS[s][|remote|..];
      assert IsName(SYSTEMS[s][0]);
    }
  }

  /**
   * The traversal of a mounted remote root, with the argument list built for it, skips a directory
   * exactly when, on the server, the directory is /proc, /sys or /dev or lies below one of them.
   */
  lemma TraversalSkipsExactlySystem(local: string, depth: Option<string>, remote: Location, x: Location)
    requires IsLocation(remote) && IsLocation(x)
    ensures Pruned(Arguments(local, depth, Texts(local, Excluded(remote, SYSTEMS))), local, depth, x) <==> InSystem(remote + x)
  {
    var excluded := Excluded(remote, SYSTEMS);
    var texts := Texts(local, excluded);
    ExcludedExactlySystem(remote, SYSTEMS, x);
    SystemIs(remote + x);
    forall k | 0 <= k <= |x|
      ensures StopsAt(Arguments(local, depth, texts), local, depth, Printed(local, x[..k])) <==> x[..k] in excluded
    {
      StopsAtExcluded(local, depth, remote, x[..k]);
    }
    if exists k :: 0 <= k <= |x| && x[..k] in excluded {
      var k :| 0 <= k <= |x| && x[..k] in excluded;
      var i :| 0 <= i < |excluded| && excluded[i] == x[..k];
      assert excluded[i] <= x;
    }
    if InExcluded(x, excluded) {
      var i :| 0 <= i < |excluded| && excluded[i] <= x;
      assert x[..|excluded[i]|] == excluded[i];
    }
  }

  lemma StopsAtExcluded(local: string, depth: Option<string>, remote: Location, y: Location)
    requires IsLocation(remote) && IsLocation(y)
    ensures var excluded := Excluded(remote, SYSTEMS);
            StopsAt(Arguments(local, depth, Texts(local, excluded)), local, depth, Printed(local, y)) <==> y in excluded
  {
    var excluded := Excluded(remote, SYSTEMS);
    var texts := Texts(local, excluded);
    UnderIsPrinted(local, y);
    StopsByTests(local, depth, texts, Under(local, y));
    TestsAreEqualities(texts, Under(local, y));
    if Under(local, y) in texts {
      var i :| 0 <= i < |texts| && texts[i] == Under(local, y);
      SystemNames(remote, i);
      UnderIsInjective(local, excluded[i], y);
    }
    if y in excluded {
      var i :| 0 <= i < |excluded| && excluded[i] == y;
      assert texts[i] == Under(local, y);
    }
  }
}
