/** Unix paths as Rust's `Path` reads them, and `normalize_absolute`. */
module Paths {
  import opened Options
  import opened Text

  datatype Component = RootDir | CurDir | ParentDir | Normal(name: string)

  predicate IsAbsolute(path: string) { path != [] && path[0] == '/' }

  /** The pieces between slashes. */
  function Split(s: string): seq<string> { SplitOn(s, '/') }

  function Part(piece: string): seq<Component> {
    if piece == "" || piece == "." then [] else if piece == ".." then [ParentDir] else [Normal(piece)]
  }

  function Parts(pieces: seq<string>): seq<Component> {
    if pieces == [] then [] else Parts(pieces[..|pieces| - 1]) + Part(pieces[|pieces| - 1])
  }

  /** `Path::components`: repeated slashes and inner dots vanish, a leading dot stays. */
  function Components(path: string): seq<Component> {
    (if IsAbsolute(path) then [RootDir] else if Split(path)[0] == "." then [CurDir] else []) + Parts(Split(path))
  }

  // ------------------------------------------------------------------------------ normalization

  type Location = seq<string>

  /** One component further. */
  function Walk(from: Option<Location>, component: Component): Option<Location> {
    if from.None? then None
    else
      match component
      case RootDir => from
      case CurDir => from
      case ParentDir => if from.value == [] then None else Some(from.value[..|from.value| - 1])
      case Normal(name) => Some(from.value + [name])
  }

  /** Where a component list leads from the root, or None if it climbs above it. */
  function Resolve(components: seq<Component>): Option<Location> {
    if components == [] then Some([])
    else Walk(Resolve(components[..|components| - 1]), components[|components| - 1])
  }

  lemma ResolveOneMore(components: seq<Component>, c: Component)
    ensures Resolve(components + [c]) == Walk(Resolve(components), c)
  {
    assert (components + [c])[..|components|] == components;
  }

  function Normalized(path: string): Option<Location> {
    if IsAbsolute(path) then Resolve(Components(path)) else None
  }

  /** `normalize_absolute`: a stack of names, pushed and popped component by component. */
  method NormalizeAbsolute(path: string) returns (result: Option<Location>)
    ensures result == Normalized(path)
  {
    if !IsAbsolute(path) { return None; }
    var components := Components(path);
    var normalized: Location := [];
    for i := 0 to |components|
      invariant Resolve(components[..i]) == Some(normalized)
      invariant i == |components| ==> components[..i] == components
    {
      assert components[..i + 1][..i] == components[..i];
      match components[i] {
        case RootDir =>
        case CurDir =>
        case Normal(name) => normalized := normalized + [name];
        case ParentDir =>
          if normalized == [] {
            ClimbingStaysNone(components, i + 1);
            return None;
          }
          normalized := normalized[..|normalized| - 1];
      }
      assert i + 1 == |components| ==> components[..i + 1] == components;
    }
    assert components[..|components|] == components;
    return Some(normalized);
  }

  lemma {:induction false} ClimbingStaysNone(components: seq<Component>, k: nat)
    requires k <= |components| && Resolve(components[..k]).None?
    ensures Resolve(components).None?
    decreases |components|
  {
    if k < |components| {
      var init := components[..|components| - 1];
      assert init[..k] == components[..k];
      ClimbingStaysNone(init, k);
    } else {
      assert components[..k] == components;
    }
  }

  /** Levels gained or lost by a component list. */
  function Climb(components: seq<Component>): int {
    if components == [] then 0
    else
      Climb(components[..|components| - 1])
      + match components[|components| - 1] case Normal(_) => 1 case ParentDir => -1 case _ => 0
  }

  lemma {:induction false} ResolveDepth(components: seq<Component>)
    ensures Resolve(components).Some? ==> |Resolve(components).value| == Climb(components)
    ensures Resolve(components).Some? <==> forall k :: 0 <= k <= |components| ==> Climb(components[..k]) >= 0
  {
    if components == [] {
      assert forall k :: 0 <= k <= 0 ==> components[..k] == [];
    } else {
      var init := components[..|components| - 1];
      ResolveDepth(init);
      assert forall k :: 0 <= k <= |init| ==> components[..k] == init[..k];
      assert components[..|components|] == components && init[..|init|] == init;
      if Resolve(init).Some? {
        assert forall k :: 0 <= k <= |components| ==> k <= |init| || components[..k] == components;
      }
    }
  }

  /** None exactly for a relative path, or one with a prefix that climbs above the root. */
  lemma NormalizedIsNone(path: string)
    ensures Normalized(path).None? <==>
              !IsAbsolute(path) || exists k :: 0 <= k <= |Components(path)| && Climb(Components(path)[..k]) < 0
  {
    ResolveDepth(Components(path));
  }

  // -------------------------------------------------------------------------------- idempotence

  /** A directory entry's name. */
  predicate IsName(s: string) {
    s != "" && s != "." && s != ".." && '/' !in s
  }

  predicate IsLocation(l: Location) {
    forall i :: 0 <= i < |l| ==> IsName(l[i])
  }

  function Render(l: Location): string { "/" + Join(l, "/") }

  lemma {:induction false} PartsAreNames(pieces: seq<string>)
    requires forall i :: 0 <= i < |pieces| ==> '/' !in pieces[i]
    ensures forall i :: 0 <= i < |Parts(pieces)| && Parts(pieces)[i].Normal? ==> IsName(Parts(pieces)[i].name)
  {
    if pieces != [] { PartsAreNames(pieces[..|pieces| - 1]); }
  }

  lemma {:induction false} ResolvesToNames(components: seq<Component>)
    requires forall i :: 0 <= i < |components| && components[i].Normal? ==> IsName(components[i].name)
    ensures Resolve(components).Some? ==> IsLocation(Resolve(components).value)
  {
    if components != [] { ResolvesToNames(components[..|components| - 1]); }
  }

  lemma NormalizedIsLocation(path: string)
    ensures Normalized(path).Some? ==> IsLocation(Normalized(path).value)
  {
    PiecesLackSeparator(path, '/');
    PartsAreNames(Split(path));
    ResolvesToNames(Components(path));
  }

  lemma {:induction false} PartsJoin(a: seq<string>, b: seq<string>)
    ensures Parts(a + b) == Parts(a) + Parts(b)
    decreases |b|
  {
    if b == [] {
      assert a + b == a;
    } else {
      assert (a + b)[..|a + b| - 1] == a + b[..|b| - 1];
      PartsJoin(a, b[..|b| - 1]);
    }
  }

  function Normals(l: Location): seq<Component> {
    seq(|l|, i requires 0 <= i < |l| => Normal(l[i]))
  }

  lemma {:induction false} PartsOfNames(l: Location)
    requires IsLocation(l)
    ensures Parts(l) == Normals(l)
  {
    if l != [] { PartsOfNames(l[..|l| - 1]); }
  }

  lemma {:induction false} ResolveNormals(components: seq<Component>, l: Location)
    requires Resolve(components).Some?
    ensures Resolve(components + Normals(l)) == Some(Resolve(components).value + l)
    decreases |l|
  {
    if l == [] {
      assert components + Normals(l) == components && Resolve(components).value + l == Resolve(components).value;
    } else {
      var init, last := l[..|l| - 1], l[|l| - 1];
      assert components + Normals(l) == (components + Normals(init)) + [Normal(last)];
      ResolveNormals(components, init);
      ResolveOneMore(components + Normals(init), Normal(last));
      assert Resolve(components).value + init + [last] == Resolve(components).value + l;
    }
  }

  lemma OnePart(piece: string)
    ensures Parts([piece]) == Part(piece)
  {
    assert [piece][..0] == [];
    assert Parts([piece]) == Parts([piece][..0]) + Part(piece);
  }

  /** The pieces of a rendered location after its leading slash. */
  function PiecesOf(l: Location): seq<string> { if l == [] then [""] else l }

  lemma RenderedPieces(l: Location)
    requires IsLocation(l)
    ensures Split(Render(l)) == [""] + PiecesOf(l)
  {
    assert Render(l) == [] + "/" + Join(l, "/");
    SplitJoins([], Join(l, "/"), '/');
    if l != [] { SplitJoined(l, '/'); }
  }

  lemma PartsOfRendered(l: Location)
    requires IsLocation(l)
    ensures Parts([""] + PiecesOf(l)) == Normals(l)
  {
    PartsJoin([""], PiecesOf(l));
    OnePart("");
    PartsOfNames(l);
  }

  lemma RenderedComponents(l: Location)
    requires IsLocation(l)
    ensures Components(Render(l)) == [RootDir] + Normals(l)
  {
    RenderedPieces(l);
    PartsOfRendered(l);
  }

  /** Rendering a location and normalizing it again gives it back. */
  lemma RenderedIsNormal(l: Location)
    requires IsLocation(l)
    ensures Normalized(Render(l)) == Some(l)
  {
    RenderedComponents(l);
    var root: seq<Component> := [RootDir];
    assert root[..0] == [];
    assert Resolve(root) == Some([]);
    ResolveNormals(root, l);
    var top: Location := [];
    assert top + l == l;
  }

  /** `normalize_absolute` is idempotent. */
  lemma NormalizeIsIdempotent(path: string)
    ensures Normalized(path).Some? ==> Normalized(Render(Normalized(path).value)) == Normalized(path)
  {
    NormalizedIsLocation(path);
    if Normalized(path).Some? { RenderedIsNormal(Normalized(path).value); }
  }

  lemma ComponentsStep(path: string, piece: string)
    requires IsAbsolute(path) && '/' !in piece
    ensures Components(path + "/" + piece) == Components(path) + Part(piece)
  {
    SplitJoins(path, piece, '/');
    SplitOnePiece(piece, '/');
    PartsJoin(Split(path), [piece]);
    OnePart(piece);
  }

  /** What appending a name, a dot, or a pair of dots to an absolute path means. */
  lemma NormalizedStep(path: string, piece: string)
    requires IsAbsolute(path) && '/' !in piece
    ensures Normalized(path + "/" + piece) ==
              var base := Normalized(path);
              if base.None? then None
              else if piece == "" || piece == "." then base
              else if piece == ".." then if base.value == [] then None else Some(base.value[..|base.value| - 1])
              else Some(base.value + [piece])
  {
    ComponentsStep(path, piece);
    var before := Components(path);
    if piece == "" || piece == "." {
      assert before + Part(piece) == before;
    } else {
      ResolveOneMore(before, if piece == ".." then ParentDir else Normal(piece));
    }
  }

  // ------------------------------------------------------------------------------------ overlap

  /** `starts_with` on normalized paths is a prefix of names. */
  predicate Overlap(a: Location, b: Location) { a == b || b <= a || a <= b }

  /** A location is in the tree below a directory, or is the directory. */
  predicate Inside(x: Location, tree: Location) { tree <= x }

  /** Two directory trees overlap exactly when some absolute path lies inside both. */
  lemma OverlapMeansSharedPath(a: Location, b: Location)
    ensures Overlap(a, b) <==> exists x: Location :: Inside(x, a) && Inside(x, b)
  {
    if Overlap(a, b) {
      var x := if a <= b then b else a;
      assert Inside(x, a) && Inside(x, b);
    }
    forall x: Location | Inside(x, a) && Inside(x, b) ensures Overlap(a, b) {
      if |a| <= |b| {
        assert forall i :: 0 <= i < |a| ==> a[i] == x[i] && b[i] == x[i];
      } else {
        assert forall i :: 0 <= i < |b| ==> a[i] == x[i] && b[i] == x[i];
      }
    }
  }
}
