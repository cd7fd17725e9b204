/** Text helpers shared by the parsers: Rust's whitespace, trimming and splitting. */
module Text {

  /** Unicode White_Space, which `char::is_whitespace` tests. */
  predicate IsWhitespace(c: char) {
    var n := c as int;
    (9 <= n <= 13) || n == 0x20 || n == 0x85 || n == 0xA0 || n == 0x1680 || (0x2000 <= n <= 0x200A)
    || n == 0x2028 || n == 0x2029 || n == 0x202F || n == 0x205F || n == 0x3000
  }

  /** The 25 characters with the property. */
  lemma WhitespaceIs(c: char)
    ensures IsWhitespace(c) <==>
              c as int in {9, 10, 11, 12, 13, 32, 133, 160, 5760, 8192, 8193, 8194, 8195, 8196, 8197, 8198, 8199, 8200, 8201, 8202,
                           8232, 8233, 8239, 8287, 12288}
  {
  }

  /** `trim_end`. */
  function TrimEnd(s: string): (r: string)
    ensures r <= s && (forall i :: |r| <= i < |s| ==> IsWhitespace(s[i])) && (r != [] ==> !IsWhitespace(r[|r| - 1]))
  {
    if s != [] && IsWhitespace(s[|s| - 1]) then TrimEnd(s[..|s| - 1]) else s
  }

  /** `trim_end_matches` of one element. */
  function TrimTrailing<T(==)>(s: seq<T>, x: T): (r: seq<T>)
    ensures r <= s && (forall i :: |r| <= i < |s| ==> s[i] == x) && (r != [] ==> r[|r| - 1] != x)
  {
    if s != [] && s[|s| - 1] == x then TrimTrailing(s[..|s| - 1], x) else s
  }

  /** The fields of a line joined by single separators. */
  function Join(fields: seq<string>, separator: string): string {
    if |fields| == 0 then []
    else if |fields| == 1 then fields[0]
    else fields[0] + separator + Join(fields[1..], separator)
  }

  // ------------------------------------------------------------------------- split at a character

  /** `split` at a character. */
  function SplitOn(s: string, c: char): (pieces: seq<string>)
    ensures |pieces| > 0
  {
    if s == [] then [[]]
    else if s[0] == c then [[]] + SplitOn(s[1..], c)
    else var rest := SplitOn(s[1..], c); [[s[0]] + rest[0]] + rest[1..]
  }

  lemma {:induction false} PiecesLackSeparator(s: string, c: char)
    ensures forall i :: 0 <= i < |SplitOn(s, c)| ==> c !in SplitOn(s, c)[i]
  {
    if s != [] { PiecesLackSeparator(s[1..], c); }
  }

  lemma {:induction false} SplitJoins(a: string, b: string, c: char)
    ensures SplitOn(a + [c] + b, c) == SplitOn(a, c) + SplitOn(b, c)
  {
    if a == [] {
      assert [c] + b == a + [c] + b && ([c] + b)[1..] == b;
    } else {
      assert (a + [c] + b)[1..] == a[1..] + [c] + b;
      SplitJoins(a[1..], b, c);
    }
  }

  lemma {:induction false} SplitOnePiece(s: string, c: char)
    requires c !in s
    ensures SplitOn(s, c) == [s]
  {
    if s != [] {
      assert [s[0]] + s[1..] == s && c !in s[1..];
      SplitOnePiece(s[1..], c);
      assert SplitOn(s, c) == [[s[0]] + s[1..]] + [];
    }
  }

  /** Splitting undoes joining. */
  lemma {:induction false} SplitJoined(pieces: seq<string>, c: char)
    requires pieces != [] && forall i :: 0 <= i < |pieces| ==> c !in pieces[i]
    ensures SplitOn(Join(pieces, [c]), c) == pieces
  {
    SplitOnePiece(pieces[0], c);
    if |pieces| > 1 {
      SplitJoins(pieces[0], Join(pieces[1..], [c]), c);
      SplitJoined(pieces[1..], c);
    }
  }

  // ------------------------------------------------------------------------- lists of lists

  function Flatten<T>(lists: seq<seq<T>>): seq<T> {
    if lists == [] then [] else Flatten(lists[..|lists| - 1]) + lists[|lists| - 1]
  }

  /** Where element `k` of list `p` sits in the flattened list. */
  lemma {:induction false} FlattenAt<T>(lists: seq<seq<T>>, p: nat, k: nat)
    requires p < |lists| && k < |lists[p]|
    ensures |Flatten(lists[..p])| + k < |Flatten(lists)|
    ensures Flatten(lists)[|Flatten(lists[..p])| + k] == lists[p][k]
    decreases |lists|
  {
    var before := lists[..|lists| - 1];
    if p < |lists| - 1 {
      FlattenAt(before, p, k);
      assert before[..p] == lists[..p];
    }
  }

  lemma {:induction false} FlattenGrows<T>(lists: seq<seq<T>>, p: nat, q: nat)
    requires p < q <= |lists|
    ensures |Flatten(lists[..p])| + |lists[p]| <= |Flatten(lists[..q])|
    decreases q
  {
    assert lists[..q][..q - 1] == lists[..q - 1];
    if p < q - 1 { FlattenGrows(lists, p, q - 1); }
  }

  /** Elements of two lists keep the order of their lists. */
  lemma FlattenOrder<T>(lists: seq<seq<T>>, p: nat, k: nat, q: nat, m: nat) returns (i: nat, j: nat)
    requires p < q < |lists| && k < |lists[p]| && m < |lists[q]|
    ensures i < j < |Flatten(lists)|
    ensures Flatten(lists)[i] == lists[p][k] && Flatten(lists)[j] == lists[q][m]
  {
    FlattenAt(lists, p, k);
    FlattenAt(lists, q, m);
    FlattenGrows(lists, p, q);
    i, j := |Flatten(lists[..p])| + k, |Flatten(lists[..q])| + m;
  }

  lemma {:induction false} FlattenMember<T>(lists: seq<seq<T>>, x: T)
    ensures x in Flatten(lists) <==> exists p :: 0 <= p < |lists| && x in lists[p]
  {
    if lists != [] { FlattenMember(lists[..|lists| - 1], x); }
  }

  lemma FlattenPrefix<T>(lists: seq<seq<T>>, n: nat)
    requires n < |lists|
    ensures Flatten(lists[..n + 1]) == Flatten(lists[..n]) + lists[n]
  {
    assert lists[..n + 1][..n] == lists[..n];
  }

  lemma {:induction false} FlattenEmpty<T>(lists: seq<seq<T>>)
    ensures Flatten(lists) == [] <==> forall p :: 0 <= p < |lists| ==> lists[p] == []
  {
    if lists != [] { FlattenEmpty(lists[..|lists| - 1]); }
  }

  lemma {:induction false} FlattenHas<T>(lists: seq<seq<T>>, i: nat) returns (p: nat, k: nat)
    requires i < |Flatten(lists)|
    ensures p < |lists| && k < |lists[p]| && Flatten(lists)[i] == lists[p][k]
    ensures i == |Flatten(lists[..p])| + k
  {
    var before := lists[..|lists| - 1];
    if i < |Flatten(before)| {
      p, k := FlattenHas(before, i);
      assert before[..p] == lists[..p];
    } else {
      p, k := |lists| - 1, i - |Flatten(before)|;
    }
  }
}
