/** `sample_inventory`: a directory tree counted and listed with a work stack. */
module Inventory {
  import opened Folds
  import opened Text

  const MAX_ENTRIES := 20_000
  const MAX_DEPTH := 64
  const MAX_BYTES := 2 * 1024 * 1024 * 1024
  const U64_LIMIT := 0x1_0000_0000_0000_0000

  /** What lies at a path; `chunks` are the sizes of the successful chunks before the end of a file. */
  datatype Node =
    | Directory(entries: seq<Entry>)
    | File(declared: nat, chunks: seq<nat>, digest: string)
    | Symlink
    | Special
    | Unreadable

  datatype Entry = Entry(name: string, isText: bool, node: Node)

  /** One line of the listing: relative name, kind (0 directory, 1 file), and content digest. */
  datatype Record = Record(name: string, kind: nat, digest: string)

  datatype Item = Item(path: seq<string>, isText: bool, node: Node)

  datatype SampleTree = SampleTree(files: nat, bytes: nat, directories: nat, maxDepth: nat, records: seq<Record>)

  datatype Failure = Cancelled | InvalidInput | VerificationFailed | InputOutput

  datatype Outcome = Done(tree: SampleTree) | Failed(failure: Failure)

  // --------------------------------------------------------------------------- the recursive fold

  /** Everything a tree adds up to; `bad` says which kinds of trouble occur in it. */
  datatype Total = Total(
    count: nat,
    files: nat,
    bytes: nat,
    directories: nat,
    maxDepth: nat,
    records: multiset<Record>,
    refused: bool,
    mismatched: bool,
    broken: bool,
    polls: nat)

  const NOTHING := Total(0, 0, 0, 0, 0, multiset{}, false, false, false, 0)

  function Max(a: nat, b: nat): nat { if a < b then b else a }

  function Plus(a: Total, b: Total): Total {
    Total(a.count + b.count, a.files + b.files, a.bytes + b.bytes, a.directories + b.directories, Max(a.maxDepth, b.maxDepth),
          a.records + b.records, a.refused || b.refused, a.mismatched || b.mismatched, a.broken || b.broken,
          a.polls + b.polls)
  }

  function Sum(chunks: seq<nat>): nat {
    if chunks == [] then 0 else Sum(chunks[..|chunks| - 1]) + chunks[|chunks| - 1]
  }

  function Name(path: seq<string>): string { Join(path, "/") }

  /** What one node adds by itself; the token is polled once for it, and before every read of a file. */
  function Own(item: Item): Total {
    var refused := !item.isText;
    match item.node
    case Directory(_) =>
      Total(1, 0, 0, 1, |item.path|, multiset{Record(Name(item.path), 0, "")}, refused, false, false, 1)
    case File(declared, chunks, digest) =>
      Total(1, 1, declared, 0, |item.path|, multiset{Record(Name(item.path), 1, digest)}, refused, Sum(chunks) != declared, false,
            |chunks| + 2)
    case Symlink => Total(1, 0, 0, 0, |item.path|, multiset{}, true, false, false, 1)
    case Special => Total(1, 0, 0, 0, |item.path|, multiset{}, true, false, false, 1)
    case Unreadable => Total(1, 0, 0, 0, |item.path|, multiset{}, refused, false, true, 1)
  }

  function Child(item: Item, e: Entry): Item { Item(item.path + [e.name], item.isText && e.isText, e.node) }

  function SumAll(totals: seq<Total>): Total {
    if totals == [] then NOTHING else Plus(SumAll(totals[..|totals| - 1]), totals[|totals| - 1])
  }

  function Fold(item: Item): Total
    decreases item.node
  {
    match item.node
    case Directory(entries) =>
      Plus(Own(item), SumAll(seq(|entries|, i requires 0 <= i < |entries| => Fold(Child(item, entries[i])))))
    case _ => Own(item)
  }

  /** The entries of a directory as items. */
  function Children(item: Item): seq<Item>
    requires item.node.Directory?
  {
    seq(|item.node.entries|, i requires 0 <= i < |item.node.entries| => Child(item, item.node.entries[i]))
  }

  function Root(node: Node): Item { Item([], true, node) }

  /** A tree the prototype accepts. */
  predicate IsAcceptable(t: Total) {
    !t.refused && !t.mismatched && !t.broken && t.count <= 20_000 && t.maxDepth <= 64 && t.bytes <= 2_147_483_648
  }

  /** What an error other than cancellation proves about the tree. */
  predicate Explains(t: Total, failure: Failure) {
    match failure
    case Cancelled => true
    case InvalidInput => t.refused || t.count > 20_000 || t.maxDepth > 64 || t.bytes > 2_147_483_648
    case VerificationFailed => t.mismatched
    case InputOutput => t.broken
  }

  // ------------------------------------------------------------------------------ record ordering

  predicate TextLeq(a: string, b: string) {
    a == [] || (b != [] && (a[0] < b[0] || (a[0] == b[0] && TextLeq(a[1..], b[1..]))))
  }

  /** The order of texts: a beginning first, else by the first character that differs. */
  lemma {:induction false} TextOrderIs(a: string, b: string)
    ensures TextLeq(a, b) <==>
              a <= b || exists k :: 0 <= k < |a| && k < |b| && a[..k] == b[..k] && a[k] < b[k]
  {
    if a != [] && b != [] {
      TextOrderIs(a[1..], b[1..]);
      assert a == [a[0]] + a[1..] && b == [b[0]] + b[1..];
      if a[0] == b[0] {
        assert forall k :: 0 < k <= |a| && k <= |b| ==> (a[..k] == b[..k] <==> a[1..][..k - 1] == b[1..][..k - 1]) by {
          forall k | 0 < k <= |a| && k <= |b| ensures a[..k] == b[..k] <==> a[1..][..k - 1] == b[1..][..k - 1] {
            assert a[..k] == [a[0]] + a[1..][..k - 1] && b[..k] == [b[0]] + b[1..][..k - 1];
          }
        }
        forall k | 0 <= k < |a[1..]| && k < |b[1..]| && a[1..][..k] == b[1..][..k] && a[1..][k] < b[1..][k]
          ensures a[..k + 1] == b[..k + 1] && a[k + 1] < b[k + 1]
        {
        }
      } else if a[0] < b[0] {
        assert a[..0] == b[..0];
      }
    }
  }

  /** Of one name a directory comes before a file. */
  lemma DirectoryBeforeFile(name: string, a: string, b: string)
    ensures Leq(Record(name, 0, a), Record(name, 1, b)) && !Leq(Record(name, 1, b), Record(name, 0, a))
  {
  }

  lemma {:induction false} TextIsTotal(a: string, b: string)
    ensures TextLeq(a, b) || TextLeq(b, a)
    ensures TextLeq(a, b) && TextLeq(b, a) ==> a == b
  {
    if a != [] && b != [] {
      TextIsTotal(a[1..], b[1..]);
      if a[0] == b[0] && a[1..] == b[1..] {
        assert a == [a[0]] + a[1..] && b == [b[0]] + b[1..];
      }
    }
  }

  lemma {:induction false} TextIsTransitive(a: string, b: string, c: string)
    requires TextLeq(a, b) && TextLeq(b, c)
    ensures TextLeq(a, c)
  {
    if a != [] && b != [] && c != [] && a[0] == b[0] == c[0] { TextIsTransitive(a[1..], b[1..], c[1..]); }
  }

  /** The order of the tuples `(name, kind, digest)`. */
  predicate Leq(a: Record, b: Record) {
    if a.name != b.name then TextLeq(a.name, b.name)
    else if a.kind != b.kind then a.kind < b.kind
    else TextLeq(a.digest, b.digest)
  }

  lemma LeqIsTotal(a: Record, b: Record)
    ensures Leq(a, b) || Leq(b, a)
    ensures Leq(a, b) && Leq(b, a) ==> a == b
  {
    TextIsTotal(a.name, b.name);
    TextIsTotal(a.digest, b.digest);
  }

  lemma LeqIsTransitive(a: Record, b: Record, c: Record)
    requires Leq(a, b) && Leq(b, c)
    ensures Leq(a, c)
  {
    if a.name == b.name == c.name {
      if a.kind == b.kind == c.kind { TextIsTransitive(a.digest, b.digest, c.digest); }
    } else if a.name != b.name && b.name != c.name {
      TextIsTransitive(a.name, b.name, c.name);
      if a.name == c.name { TextIsTotal(a.name, b.name); }
    }
  }

  predicate IsSorted(records: seq<Record>) {
    forall i, j :: 0 <= i < j < |records| ==> Leq(records[i], records[j])
  }

  lemma HeadRemoved(a: seq<Record>)
    requires a != []
    ensures multiset(a[1..]) == multiset(a) - multiset{a[0]}
  {
    assert a == [a[0]] + a[1..];
  }

  lemma LeastIsFirst(a: seq<Record>, b: seq<Record>)
    requires IsSorted(a) && IsSorted(b) && a != [] && b != []
    requires a[0] in b && b[0] in a
    ensures a[0] == b[0]
  {
    var i :| 0 <= i < |b| && b[i] == a[0];
    var j :| 0 <= j < |a| && a[j] == b[0];
    LeqIsTotal(a[0], b[0]);
    if i > 0 && j > 0 { assert Leq(b[0], b[i]) && Leq(a[0], a[j]); }
  }

  /** A multiset of records has only one sorted listing. */
  lemma {:induction false} SortedIsUnique(a: seq<Record>, b: seq<Record>)
    requires IsSorted(a) && IsSorted(b) && multiset(a) == multiset(b)
    ensures a == b
  {
    assert |multiset(a)| == |a| && |multiset(b)| == |b|;
    if a != [] {
      assert a[0] in multiset(b) && b[0] in multiset(a);
      LeastIsFirst(a, b);
      HeadRemoved(a);
      HeadRemoved(b);
      SortedIsUnique(a[1..], b[1..]);
      assert a == [a[0]] + a[1..] && b == [b[0]] + b[1..];
    }
  }

  /** Where a record goes in a sorted listing. */
  method Position(sorted: seq<Record>, r: Record) returns (k: nat)
    requires IsSorted(sorted)
    ensures k <= |sorted|
    ensures forall i :: 0 <= i < k ==> Leq(sorted[i], r)
    ensures forall i :: k <= i < |sorted| ==> Leq(r, sorted[i])
  {
    k := 0;
    while k < |sorted| && Leq(sorted[k], r)
      invariant k <= |sorted|
      invariant forall i :: 0 <= i < k ==> Leq(sorted[i], r)
    {
      k := k + 1;
    }
    if k < |sorted| {
      LeqIsTotal(sorted[k], r);
      forall i | k < i < |sorted| ensures Leq(r, sorted[i]) {
        LeqIsTransitive(r, sorted[k], sorted[i]);
      }
    }
  }

  method Insert(sorted: seq<Record>, r: Record) returns (next: seq<Record>)
    requires IsSorted(sorted)
    ensures IsSorted(next) && multiset(next) == multiset(sorted) + multiset{r}
  {
    var k := Position(sorted, r);
    next := sorted[..k] + [r] + sorted[k..];
    assert sorted == sorted[..k] + sorted[k..];
  }

  method SortRecords(records: seq<Record>) returns (sorted: seq<Record>)
    ensures IsSorted(sorted) && multiset(sorted) == multiset(records)
  {
    sorted := [];
    for n := 0 to |records|
      invariant IsSorted(sorted) && multiset(sorted) == multiset(records[..n])
    {
      sorted := Insert(sorted, records[n]);
      assert records[..n + 1] == records[..n] + [records[n]];
    }
    assert records[..|records|] == records;
  }

  // ------------------------------------------------------------------------ totals in any order

  /** Everything below a list of items, such as the work stack. */
  function FoldItems(items: seq<Item>): Total { SumOf(Fold, Plus, NOTHING, items) }

  lemma PlusIsSum()
    ensures IsSumOperation(Plus, NOTHING)
  {
  }

  lemma {:induction false} FoldItemsIsSum(items: seq<Item>, totals: seq<Total>)
    requires |totals| == |items| && forall i :: 0 <= i < |items| ==> totals[i] == Fold(items[i])
    ensures FoldItems(items) == SumAll(totals)
  {
    if items != [] { FoldItemsIsSum(items[..|items| - 1], totals[..|totals| - 1]); }
  }

  lemma {:induction false} FoldDirectory(item: Item)
    requires item.node.Directory?
    ensures Fold(item) == Plus(Own(item), FoldItems(Children(item)))
  {
    var entries := item.node.entries;
    var totals := seq(|entries|, i requires 0 <= i < |entries| => Fold(Child(item, entries[i])));
    FoldItemsIsSum(Children(item), totals);
  }

  lemma {:induction false} ItemsHoldNodes(items: seq<Item>)
    ensures FoldItems(items).count >= |items|
  {
    if items != [] { ItemsHoldNodes(items[..|items| - 1]); }
  }

  lemma PlusSwaps(a: Total, b: Total, c: Total)
    ensures Plus(Plus(a, b), c) == Plus(Plus(a, c), b)
    ensures Plus(Plus(a, b), c) == Plus(a, Plus(b, c))
  {
  }

  // ----------------------------------------------------------------- what the totals mean in a tree

  function FilesIn(node: Node): nat {
    match node
    case Directory(entries) => Sum(seq(|entries|, i requires 0 <= i < |entries| => FilesIn(entries[i].node)))
    case File(_, _, _) => 1
    case _ => 0
  }

  function BytesIn(node: Node): nat {
    match node
    case Directory(entries) => Sum(seq(|entries|, i requires 0 <= i < |entries| => BytesIn(entries[i].node)))
    case File(declared, _, _) => declared
    case _ => 0
  }

  function DirectoriesIn(node: Node): nat {
    match node
    case Directory(entries) => 1 + Sum(seq(|entries|, i requires 0 <= i < |entries| => DirectoriesIn(entries[i].node)))
    case _ => 0
  }

  function NodesIn(node: Node): nat {
    match node
    case Directory(entries) => 1 + Sum(seq(|entries|, i requires 0 <= i < |entries| => NodesIn(entries[i].node)))
    case _ => 1
  }

  /** One poll for every node, and for a file one before each read: its chunks and the end. */
  function PollsIn(node: Node): nat {
    match node
    case Directory(entries) => 1 + Sum(seq(|entries|, i requires 0 <= i < |entries| => PollsIn(entries[i].node)))
    case File(_, chunks, _) => 1 + (|chunks| + 1)
    case _ => 1
  }

  /** Below this path the tree lists this record: a directory or file at the path its name spells. */
  ghost predicate Lists(path: seq<string>, node: Node, r: Record)
    decreases node
  {
    match node
    case Directory(entries) =>
      r == Record(Join(path, "/"), 0, "")
      || exists i :: 0 <= i < |entries| && Lists(path + [entries[i].name], entries[i].node, r)
    case File(_, _, digest) => r == Record(Join(path, "/"), 1, digest)
    case _ => false
  }

  /** Something lies this many levels below. */
  ghost predicate Reaches(node: Node, levels: nat)
    decreases node
  {
    levels == 0
    || (node.Directory? && exists i :: 0 <= i < |node.entries| && Reaches(node.entries[i].node, levels - 1))
  }

  /** A symlink, a special file, or a name that is no text. */
  ghost predicate Refuses(node: Node)
    decreases node
  {
    node.Symlink? || node.Special?
    || (node.Directory? && exists i :: 0 <= i < |node.entries| && (!node.entries[i].isText || Refuses(node.entries[i].node)))
  }

  function Each(totals: seq<Total>, f: Total -> nat): seq<nat> {
    seq(|totals|, i requires 0 <= i < |totals| => f(totals[i]))
  }

  /** What adds up in two totals adds up in a list of them. */
  lemma {:induction false} SumAllCounts(totals: seq<Total>, f: Total -> nat)
    requires f(NOTHING) == 0 && forall a, b :: f(Plus(a, b)) == f(a) + f(b)
    ensures f(SumAll(totals)) == Sum(Each(totals, f))
  {
    if totals != [] {
      var init := totals[..|totals| - 1];
      SumAllCounts(init, f);
      assert Each(totals, f)[..|totals| - 1] == Each(init, f);
    }
  }

  lemma {:induction false} SumAllHolds(totals: seq<Total>, r: Record)
    ensures r in SumAll(totals).records <==> exists i :: 0 <= i < |totals| && r in totals[i].records
    ensures SumAll(totals).refused <==> exists i :: 0 <= i < |totals| && totals[i].refused
  {
    if totals != [] { SumAllHolds(totals[..|totals| - 1], r); }
  }

  lemma {:induction false} SumAllReaches(totals: seq<Total>, depth: nat)
    requires depth > 0
    ensures SumAll(totals).maxDepth >= depth <==> exists i :: 0 <= i < |totals| && totals[i].maxDepth >= depth
  {
    if totals != [] { SumAllReaches(totals[..|totals| - 1], depth); }
  }

  /** The files and bytes of the fold are those of the tree itself. */
  lemma {:induction false} FoldCountsFiles(item: Item)
    ensures Fold(item).files == FilesIn(item.node) && Fold(item).bytes == BytesIn(item.node)
    decreases item.node
  {
    if item.node.Directory? {
      var entries := item.node.entries;
      var totals := seq(|entries|, i requires 0 <= i < |entries| => Fold(Child(item, entries[i])));
      forall i | 0 <= i < |entries|
        ensures totals[i].files == FilesIn(entries[i].node) && totals[i].bytes == BytesIn(entries[i].node)
      {
        FoldCountsFiles(Child(item, entries[i]));
      }
      SumAllCounts(totals, (t: Total) => t.files);
      SumAllCounts(totals, (t: Total) => t.bytes);
      assert Each(totals, (t: Total) => t.files) == seq(|entries|, i requires 0 <= i < |entries| => FilesIn(entries[i].node));
      assert Each(totals, (t: Total) => t.bytes) == seq(|entries|, i requires 0 <= i < |entries| => BytesIn(entries[i].node));
    }
  }

  /** So are its directories. */
  lemma {:induction false} FoldCountsDirectories(item: Item)
    ensures Fold(item).directories == DirectoriesIn(item.node)
    decreases item.node
  {
    if item.node.Directory? {
      var entries := item.node.entries;
      var totals := seq(|entries|, i requires 0 <= i < |entries| => Fold(Child(item, entries[i])));
      forall i | 0 <= i < |entries| ensures totals[i].directories == DirectoriesIn(entries[i].node) { FoldCountsDirectories(Child(item, entries[i])); }
      SumAllCounts(totals, (t: Total) => t.directories);
      assert Each(totals, (t: Total) => t.directories) == seq(|entries|, i requires 0 <= i < |entries| => DirectoriesIn(entries[i].node));
    }
  }

  /** So are its nodes. */
  lemma {:induction false} FoldCountsNodes(item: Item)
    ensures Fold(item).count == NodesIn(item.node)
    decreases item.node
  {
    if item.node.Directory? {
      var entries := item.node.entries;
      var totals := seq(|entries|, i requires 0 <= i < |entries| => Fold(Child(item, entries[i])));
      forall i | 0 <= i < |entries| ensures totals[i].count == NodesIn(entries[i].node) { FoldCountsNodes(Child(item, entries[i])); }
      SumAllCounts(totals, (t: Total) => t.count);
      assert Each(totals, (t: Total) => t.count) == seq(|entries|, i requires 0 <= i < |entries| => NodesIn(entries[i].node));
    }
  }

  /** And the polls of the token that a whole visit takes. */
  lemma {:induction false} FoldCountsPolls(item: Item)
    ensures Fold(item).polls == PollsIn(item.node)
    decreases item.node
  {
    if item.node.Directory? {
      var entries := item.node.entries;
      var totals := seq(|entries|, i requires 0 <= i < |entries| => Fold(Child(item, entries[i])));
      forall i | 0 <= i < |entries| ensures totals[i].polls == PollsIn(entries[i].node) { FoldCountsPolls(Child(item, entries[i])); }
      SumAllCounts(totals, (t: Total) => t.polls);
      assert Each(totals, (t: Total) => t.polls) == seq(|entries|, i requires 0 <= i < |entries| => PollsIn(entries[i].node));
    }
  }

  lemma ChildHolds(item: Item, totals: seq<Total>, r: Record)
    requires item.node.Directory? && |totals| == |item.node.entries|
    requires forall i :: 0 <= i < |totals| ==>
               (r in totals[i].records <==> Lists(item.path + [item.node.entries[i].name], item.node.entries[i].node, r))
    ensures r in Plus(Own(item), SumAll(totals)).records <==> Lists(item.path, item.node, r)
  {
    SumAllHolds(totals, r);
  }

  /** Its listing holds exactly what the tree lists. */
  lemma {:induction false} FoldLists(item: Item, r: Record)
    ensures r in Fold(item).records <==> Lists(item.path, item.node, r)
    decreases item.node
  {
    if item.node.Directory? {
      var entries := item.node.entries;
      var totals := seq(|entries|, i requires 0 <= i < |entries| => Fold(Child(item, entries[i])));
      forall i | 0 <= i < |entries| ensures r in totals[i].records <==> Lists(item.path + [entries[i].name], entries[i].node, r) {
        FoldLists(Child(item, entries[i]), r);
      }
      ChildHolds(item, totals, r);
    }
  }

  lemma ChildRefuses(item: Item, totals: seq<Total>)
    requires item.node.Directory? && |totals| == |item.node.entries|
    requires forall i :: 0 <= i < |totals| ==>
               (totals[i].refused <==> !item.isText || !item.node.entries[i].isText || Refuses(item.node.entries[i].node))
    ensures Plus(Own(item), SumAll(totals)).refused <==> !item.isText || Refuses(item.node)
  {
    SumAllHolds(totals, Record("", 0, ""));
  }

  /** It is refused exactly when something in the tree is. */
  lemma {:induction false} FoldRefuses(item: Item)
    ensures Fold(item).refused <==> !item.isText || Refuses(item.node)
    decreases item.node
  {
    if item.node.Directory? {
      var entries := item.node.entries;
      var totals := seq(|entries|, i requires 0 <= i < |entries| => Fold(Child(item, entries[i])));
      forall i | 0 <= i < |entries|
        ensures totals[i].refused <==> !item.isText || !entries[i].isText || Refuses(entries[i].node)
      {
        FoldRefuses(Child(item, entries[i]));
      }
      ChildRefuses(item, totals);
    }
  }

  lemma ChildReaches(item: Item, totals: seq<Total>, depth: nat)
    requires item.node.Directory? && |totals| == |item.node.entries| && depth > |item.path|
    requires forall i :: 0 <= i < |totals| ==>
               (totals[i].maxDepth >= depth <==> Reaches(item.node.entries[i].node, depth - |item.path| - 1))
    ensures Plus(Own(item), SumAll(totals)).maxDepth >= depth <==> Reaches(item.node, depth - |item.path|)
  {
    SumAllReaches(totals, depth);
  }

  /** Its depth is that of the deepest node. */
  lemma {:induction false} FoldReaches(item: Item, depth: nat)
    requires depth >= |item.path|
    ensures Fold(item).maxDepth >= depth <==> Reaches(item.node, depth - |item.path|)
    decreases item.node
  {
    if item.node.Directory? && depth > |item.path| {
      var entries := item.node.entries;
      var totals := seq(|entries|, i requires 0 <= i < |entries| => Fold(Child(item, entries[i])));
      forall i | 0 <= i < |entries|
        ensures totals[i].maxDepth >= depth <==> Reaches(entries[i].node, depth - |item.path| - 1)
      {
        FoldReaches(Child(item, entries[i]), depth);
      }
      ChildReaches(item, totals, depth);
    }
  }

  // --------------------------------------------------------------------------------- the code

  /** `read_dir` lists the entries in any order. */
  method ReadDirectory(entries: seq<Item>) returns (listing: seq<Item>)
    ensures multiset(listing) == multiset(entries)
  {
    listing := [];
    var rest := entries;
    while rest != []
      invariant multiset(listing) + multiset(rest) == multiset(entries)
      decreases |rest|
    {
      var k :| 0 <= k < |rest|;
      assert rest == rest[..k] + [rest[k]] + rest[k + 1..];
      listing := listing + [rest[k]];
      rest := rest[..k] + rest[k + 1..];
    }
  }

  /** Polls of the cancellation token: `at` says from which poll on it is cancelled. */
  predicate IsCancelled(at: int, poll: nat) { 0 <= at <= poll }

  /** One of the first `polls` polls finds it cancelled. */
  predicate IsDue(at: int, polls: nat) { 0 <= at < polls }

  /** The read loop of one file. */
  method ReadFile(declared: nat, chunks: seq<nat>, cancelAt: int, poll: nat)
    returns (failure: seq<Failure>, polled: nat)
    requires !IsDue(cancelAt, poll)
    ensures failure == [] ==> Sum(chunks) == declared && polled == poll + |chunks| + 1 && !IsDue(cancelAt, polled)
    ensures failure != [] ==> failure[0] == Cancelled || (failure[0] == VerificationFailed && Sum(chunks) != declared)
    ensures failure != [] && failure[0] == Cancelled ==> IsDue(cancelAt, poll + |chunks| + 1)
  {
    var bytes: nat := 0;
    polled := poll;
    var k := 0;
    while true
      invariant k <= |chunks| && bytes == Sum(chunks[..k]) && bytes <= declared
      invariant polled == poll + k && !IsDue(cancelAt, polled)
      decreases |chunks| - k
    {
      if IsCancelled(cancelAt, polled) { return [Cancelled], polled; }
      polled := polled + 1;
      if k == |chunks| { break; }
      assert chunks[..k + 1][..k] == chunks[..k];
      bytes := bytes + chunks[k];
      k := k + 1;
      if bytes > declared {
        SumGrows(chunks, k);
        return [VerificationFailed], polled;
      }
    }
    assert chunks[..k] == chunks;
    if bytes != declared { return [VerificationFailed], polled; }
    return [], polled;
  }

  lemma {:induction false} SumGrows(chunks: seq<nat>, k: nat)
    requires k <= |chunks|
    ensures Sum(chunks[..k]) <= Sum(chunks)
    decreases |chunks|
  {
    if k < |chunks| {
      var init := chunks[..|chunks| - 1];
      assert init[..k] == chunks[..k];
      SumGrows(init, k);
    } else {
      assert chunks[..k] == chunks;
    }
  }

  /** What has been counted so far, as a total. */
  function Counted(tree: SampleTree, polls: nat): Total {
    Total(|tree.records|, tree.files, tree.bytes, tree.directories, tree.maxDepth, multiset(tree.records), false, false, false, polls)
  }

  lemma ListingJoins(before: seq<Item>, listing: seq<Item>, entries: seq<Item>)
    requires multiset(listing) == multiset(entries)
    ensures FoldItems(before + listing) == Plus(FoldItems(before), FoldItems(entries))
  {
    PlusIsSum();
    SumOfJoin(Fold, Plus, NOTHING, before, listing);
    OrderDoesNotMatter(Fold, Plus, NOTHING, listing, entries);
  }

  /** The inner loop: the entries of a directory go onto the stack, within the entry limit. */
  method PushEntries(entries: seq<Item>, before: seq<Item>, recorded: nat) returns (ok: bool, pending: seq<Item>)
    ensures ok ==> FoldItems(pending) == Plus(FoldItems(before), FoldItems(entries))
    ensures ok ==> |pending| == |before| + |entries|
    ensures ok ==> entries == [] || |pending| + recorded <= MAX_ENTRIES
    ensures !ok ==> recorded + |before| + |entries| > MAX_ENTRIES
  {
    var listing := ReadDirectory(entries);
    assert |multiset(listing)| == |listing| && |multiset(entries)| == |entries|;
    pending := before;
    for i := 0 to |listing|
      invariant pending == before + listing[..i]
      invariant i > 0 ==> |pending| + recorded <= MAX_ENTRIES
    {
      if |pending| + recorded >= MAX_ENTRIES {
        return false, pending;
      }
      pending := pending + [listing[i]];
    }
    assert listing[..|listing|] == listing;
    ListingJoins(before, listing, entries);
    ok := true;
  }

  /** A total with something in it that rules the tree out. */
  lemma PartsExplain(whole: Total, a: Total, b: Total, failure: Failure)
    requires whole == Plus(a, b)
    requires Explains(a, failure) || Explains(b, failure)
    ensures Explains(whole, failure)
  {
  }

  // --------------------------------------------------------------------------------- the main loop

  /** The state of the main loop adds up to the whole tree. */
  ghost predicate Adds(tree: SampleTree, polls: nat, pending: seq<Item>, whole: Total) {
    Plus(Counted(tree, polls), FoldItems(pending)) == whole
  }

  lemma Popped(tree: SampleTree, polls: nat, pending: seq<Item>, whole: Total)
    requires pending != [] && Adds(tree, polls, pending, whole)
    ensures var item, rest := pending[|pending| - 1], pending[..|pending| - 1];
            whole == Plus(Plus(Counted(tree, polls), FoldItems(rest)), Fold(item))
  {
    var item, rest := pending[|pending| - 1], pending[..|pending| - 1];
    PlusSwaps(Counted(tree, polls), FoldItems(rest), Fold(item));
  }

  /** What one visited node shows about the whole tree when it is refused. */
  lemma NodeExplains(base: Total, item: Item, whole: Total, failure: Failure)
    requires whole == Plus(base, Fold(item))
    requires Explains(Own(item), failure)
    ensures Explains(whole, failure)
  {
    if item.node.Directory? {
      FoldDirectory(item);
      PartsExplain(Fold(item), Own(item), FoldItems(Children(item)), failure);
    }
    PartsExplain(whole, base, Fold(item), failure);
  }

  function WithRecord(tree: SampleTree, item: Item): SampleTree
    requires item.node.Directory? || item.node.File?
  {
    var name := Name(item.path);
    var depth := Max(tree.maxDepth, |item.path|);
    match item.node
    case Directory(_) => SampleTree(tree.files, tree.bytes, tree.directories + 1, depth, tree.records + [Record(name, 0, "")])
    case File(declared, _, digest) =>
      SampleTree(tree.files + 1, tree.bytes + declared, tree.directories, depth, tree.records + [Record(name, 1, digest)])
  }

  lemma RecordedIsPlus(tree: SampleTree, polls: nat, item: Item)
    requires item.isText && (item.node.Directory? || (item.node.File? && Sum(item.node.chunks) == item.node.declared))
    ensures Counted(WithRecord(tree, item), polls + Own(item).polls) == Plus(Counted(tree, polls), Own(item))
  {
  }

  /** The state between two passes of the main loop. */
  ghost predicate Sound(tree: SampleTree, polls: nat, pending: seq<Item>, whole: Total) {
    && Adds(tree, polls, pending, whole)
    && |tree.records| + |pending| <= MAX_ENTRIES && tree.maxDepth <= MAX_DEPTH && tree.bytes <= MAX_BYTES
  }

  /** The state after an item has been popped. */
  ghost predicate Popping(item: Item, tree: SampleTree, polls: nat, rest: seq<Item>, whole: Total) {
    && whole == Plus(Plus(Counted(tree, polls), FoldItems(rest)), Fold(item))
    && |tree.records| + |rest| + 1 <= MAX_ENTRIES && tree.maxDepth <= MAX_DEPTH && tree.bytes <= MAX_BYTES
  }

  /** A failure is a requested cancellation or tells something about the tree. */
  ghost predicate Justified(failure: seq<Failure>, whole: Total, cancelAt: int) {
    failure != [] ==> if failure[0] == Cancelled then IsDue(cancelAt, whole.polls) else Explains(whole, failure[0])
  }

  lemma PoppedIsSound(tree: SampleTree, polls: nat, pending: seq<Item>, whole: Total)
    requires pending != [] && Sound(tree, polls, pending, whole)
    ensures Popping(pending[|pending| - 1], tree, polls, pending[..|pending| - 1], whole)
  {
    Popped(tree, polls, pending, whole);
  }

  lemma ItemExplains(item: Item, tree: SampleTree, polls: nat, rest: seq<Item>, whole: Total, failure: Failure, cancelAt: int)
    requires Popping(item, tree, polls, rest, whole) && Explains(Own(item), failure) && failure != Cancelled
    ensures Justified([failure], whole, cancelAt)
  {
    NodeExplains(Plus(Counted(tree, polls), FoldItems(rest)), item, whole, failure);
  }

  lemma DirectoryRecorded(item: Item, tree: SampleTree, polls: nat, rest: seq<Item>, pending: seq<Item>, whole: Total)
    requires Popping(item, tree, polls, rest, whole) && item.node.Directory? && item.isText && |item.path| <= MAX_DEPTH
    requires FoldItems(pending) == Plus(FoldItems(rest), FoldItems(Children(item)))
    requires |tree.records| + 1 + |pending| <= MAX_ENTRIES
    ensures Sound(WithRecord(tree, item), polls + 1, pending, whole)
  {
    FoldDirectory(item);
    RecordedIsPlus(tree, polls, item);
    Regrouped(Counted(tree, polls), FoldItems(rest), Own(item), FoldItems(Children(item)));
  }

  lemma TooManyEntries(item: Item, tree: SampleTree, polls: nat, rest: seq<Item>, whole: Total, cancelAt: int)
    requires Popping(item, tree, polls, rest, whole) && item.node.Directory?
    requires |tree.records| + 1 + |rest| + |Children(item)| > MAX_ENTRIES
    ensures Justified([InvalidInput], whole, cancelAt)
  {
    ItemsHoldNodes(rest);
    ItemsHoldNodes(Children(item));
    FoldDirectory(item);
  }

  lemma FileRecorded(item: Item, tree: SampleTree, polls: nat, rest: seq<Item>, whole: Total)
    requires Popping(item, tree, polls, rest, whole) && item.node.File? && item.isText && |item.path| <= MAX_DEPTH
    requires Sum(item.node.chunks) == item.node.declared && tree.bytes + item.node.declared <= MAX_BYTES
    ensures Sound(WithRecord(tree, item), polls + Own(item).polls, rest, whole)
  {
    RecordedIsPlus(tree, polls, item);
    PlusSwaps(Counted(tree, polls), FoldItems(rest), Own(item));
  }

  lemma TooManyBytes(item: Item, tree: SampleTree, polls: nat, rest: seq<Item>, whole: Total, cancelAt: int)
    requires Popping(item, tree, polls, rest, whole) && item.node.File?
    requires tree.bytes + item.node.declared > MAX_BYTES
    ensures Justified([InvalidInput], whole, cancelAt)
  {
  }

  lemma DueInFile(item: Item, tree: SampleTree, polls: nat, rest: seq<Item>, whole: Total, cancelAt: int)
    requires Popping(item, tree, polls, rest, whole) && item.node.File? && IsDue(cancelAt, polls + |item.node.chunks| + 2)
    ensures Justified([Cancelled], whole, cancelAt)
  {
  }

  method RecordDirectory(item: Item, tree: SampleTree) returns (next: SampleTree)
    requires item.node.Directory?
    ensures next == WithRecord(tree, item) && |next.records| == |tree.records| + 1
  {
    next := SampleTree(tree.files, tree.bytes, tree.directories + 1, Max(tree.maxDepth, |item.path|),
                       tree.records + [Record(Name(item.path), 0, "")]);
  }

  method VisitDirectory(item: Item, tree: SampleTree, polls: nat, rest: seq<Item>, cancelAt: int, ghost whole: Total)
    returns (failure: seq<Failure>, next: SampleTree, pending: seq<Item>)
    requires Popping(item, tree, polls, rest, whole) && item.node.Directory? && item.isText && |item.path| <= MAX_DEPTH
    ensures Justified(failure, whole, cancelAt)
    ensures failure == [] ==> next == WithRecord(tree, item) && Sound(next, polls + 1, pending, whole)
  {
    next := RecordDirectory(item, tree);
    var ok;
    ok, pending := PushEntries(Children(item), rest, |next.records|);
    if !ok {
      TooManyEntries(item, tree, polls, rest, whole, cancelAt);
      return [InvalidInput], next, pending;
    }
    DirectoryRecorded(item, tree, polls, rest, pending, whole);
    failure := [];
  }

  /** The file of an item is read to its end, or there is a reason in the tree or in the token. */
  method ReadItem(item: Item, ghost tree: SampleTree, polls: nat, ghost rest: seq<Item>, cancelAt: int, ghost whole: Total)
    returns (failure: seq<Failure>, polled: nat)
    requires Popping(item, tree, polls, rest, whole) && !IsDue(cancelAt, polls + 1) && item.node.File?
    ensures Justified(failure, whole, cancelAt)
    ensures failure == [] ==>
              && Sum(item.node.chunks) == item.node.declared
              && polled == polls + Own(item).polls && !IsDue(cancelAt, polled)
  {
    failure, polled := ReadFile(item.node.declared, item.node.chunks, cancelAt, polls + 1);
    if failure != [] {
      if failure[0] == VerificationFailed {
        ItemExplains(item, tree, polls, rest, whole, VerificationFailed, cancelAt);
      } else {
        DueInFile(item, tree, polls, rest, whole, cancelAt);
      }
    }
  }

  method VisitFile(item: Item, tree: SampleTree, polls: nat, rest: seq<Item>, cancelAt: int, ghost whole: Total)
    returns (failure: seq<Failure>, next: SampleTree, polled: nat)
    requires Popping(item, tree, polls, rest, whole) && !IsDue(cancelAt, polls + 1) && item.node.File? && item.isText && |item.path| <= MAX_DEPTH
    ensures Justified(failure, whole, cancelAt)
    ensures failure == [] ==> next == WithRecord(tree, item) && Sound(next, polled, rest, whole) && !IsDue(cancelAt, polled)
  {
    next, polled := tree, polls + 1;
    var declared := item.node.declared;
    if tree.bytes + declared >= U64_LIMIT || tree.bytes + declared > MAX_BYTES {
      TooManyBytes(item, tree, polls, rest, whole, cancelAt);
      return [InvalidInput], next, polled;
    }
    failure, polled := ReadItem(item, tree, polls, rest, cancelAt, whole);
    if failure != [] { return; }
    next := SampleTree(tree.files + 1, tree.bytes + declared, tree.directories, Max(tree.maxDepth, |item.path|),
                       tree.records + [Record(Name(item.path), 1, item.node.digest)]);
    FileRecorded(item, tree, polls, rest, whole);
  }

  /** One pass of the main loop over the item popped from the stack. */
  method VisitItem(item: Item, tree: SampleTree, polls: nat, rest: seq<Item>, cancelAt: int, ghost whole: Total)
    returns (failure: seq<Failure>, next: SampleTree, pending: seq<Item>, polled: nat)
    requires Popping(item, tree, polls, rest, whole) && !IsDue(cancelAt, polls + 1)
    ensures Justified(failure, whole, cancelAt)
    ensures failure == [] ==> Sound(next, polled, pending, whole) && !IsDue(cancelAt, polled) && |next.records| == |tree.records| + 1
  {
    failure, next, pending, polled := [], tree, rest, polls + 1;
    if item.node.Unreadable? {
      ItemExplains(item, tree, polls, rest, whole, InputOutput, cancelAt);
      failure := [InputOutput];
    } else if |item.path| > MAX_DEPTH || |tree.records| >= MAX_ENTRIES || item.node.Symlink? || !item.isText {
      ItemExplains(item, tree, polls, rest, whole, InvalidInput, cancelAt);
      failure := [InvalidInput];
    } else if item.node.Directory? {
      failure, next, pending := VisitDirectory(item, tree, polls, rest, cancelAt, whole);
    } else if item.node.File? {
      failure, next, polled := VisitFile(item, tree, polls, rest, cancelAt, whole);
    } else {
      ItemExplains(item, tree, polls, rest, whole, InvalidInput, cancelAt);
      failure := [InvalidInput];
    }
  }

  lemma Regrouped(a: Total, b: Total, c: Total, d: Total)
    ensures Plus(Plus(a, b), Plus(c, d)) == Plus(Plus(a, c), Plus(b, d))
  {
  }

  /** The inventory of a tree, as the recursive fold gives it, with the listing in order. */
  ghost predicate IsInventoryOf(tree: SampleTree, whole: Total) {
    && tree.files == whole.files && tree.bytes == whole.bytes && tree.directories == whole.directories
    && tree.maxDepth == whole.maxDepth
    && IsSorted(tree.records) && multiset(tree.records) == whole.records
  }

  lemma PlusNothing(a: Total)
    ensures Plus(NOTHING, a) == a && Plus(a, NOTHING) == a
  {
  }

  lemma FoldOne(item: Item)
    ensures FoldItems([item]) == Fold(item)
  {
    PlusIsSum();
    SumOfOne(Fold, Plus, NOTHING, item);
  }

  lemma StartAdds(item: Item)
    ensures Adds(SampleTree(0, 0, 0, 0, []), 0, [item], Fold(item))
  {
    FoldOne(item);
    assert Counted(SampleTree(0, 0, 0, 0, []), 0) == NOTHING;
    PlusNothing(Fold(item));
  }

  lemma StartIsSound(root: Node)
    ensures Sound(SampleTree(0, 0, 0, 0, []), 0, [Root(root)], Fold(Root(root)))
  {
    StartAdds(Root(root));
  }

  lemma EndIsInventory(tree: SampleTree, polls: nat, whole: Total)
    requires Sound(tree, polls, [], whole)
    ensures whole == Counted(tree, polls)
  {
    assert FoldItems([]) == NOTHING;
    PlusNothing(Counted(tree, polls));
  }

  lemma CountedIsAcceptable(tree: SampleTree, polls: nat)
    requires |tree.records| <= MAX_ENTRIES && tree.maxDepth <= MAX_DEPTH && tree.bytes <= MAX_BYTES
    ensures IsAcceptable(Counted(tree, polls))
  {
  }

  lemma JustifiedIsUnacceptable(failure: Failure, whole: Total, cancelAt: int)
    requires Justified([failure], whole, cancelAt) && !IsDue(cancelAt, whole.polls)
    ensures !IsAcceptable(whole)
  {
  }

  lemma PollIsWithin(item: Item, tree: SampleTree, polls: nat, rest: seq<Item>, whole: Total)
    requires Popping(item, tree, polls, rest, whole)
    ensures polls < whole.polls
  {
  }

  /**
   * `sample_inventory`. The listing order of every directory is arbitrary, yet the counts and the
   * sorted listing are those of the recursive fold, and the entries ever discovered stay within the limit.
   */
  method SampleInventory(root: Node, cancelAt: int) returns (outcome: Outcome)
    ensures outcome.Done? ==> IsAcceptable(Fold(Root(root))) && IsInventoryOf(outcome.tree, Fold(Root(root)))
    ensures outcome.Failed? ==> Justified([outcome.failure], Fold(Root(root)), cancelAt)
    ensures outcome.Done? <==> IsAcceptable(Fold(Root(root))) && !IsDue(cancelAt, Fold(Root(root)).polls)
  {
    ghost var whole := Fold(Root(root));
    var result := SampleTree(0, 0, 0, 0, []);
    var pending := [Root(root)];
    var poll := 0;
    StartIsSound(root);
    while pending != []
      invariant Sound(result, poll, pending, whole) && !IsDue(cancelAt, poll)
      decreases MAX_ENTRIES - |result.records|
    {
      PoppedIsSound(result, poll, pending, whole);
      var item := pending[|pending| - 1];
      pending := pending[..|pending| - 1];
      if IsCancelled(cancelAt, poll) {
        PollIsWithin(item, result, poll, pending, whole);
        return Failed(Cancelled);
      }
      var failure;
      failure, result, pending, poll := VisitItem(item, result, poll, pending, cancelAt, whole);
      if failure != [] {
        if !IsDue(cancelAt, whole.polls) { JustifiedIsUnacceptable(failure[0], whole, cancelAt); }
        return Failed(failure[0]);
      }
    }
    EndIsInventory(result, poll, whole);
    CountedIsAcceptable(result, poll);
    var sorted := SortRecords(result.records);
    return Done(result.(records := sorted));
  }

  /** Two runs over one tree, whatever the listing orders were, agree on everything including the listing. */
  lemma AgreedByTotals(a: SampleTree, b: SampleTree, whole: Total)
    requires IsInventoryOf(a, whole) && IsInventoryOf(b, whole)
    ensures a == b
  {
    SortedIsUnique(a.records, b.records);
  }
}
