/** A text as its whitespace runs and the words between them, as `split_whitespace` sees it. */
module Words {
  import opened Text

  function BlankEnd(s: string): (n: nat)
    ensures n <= |s|
  {
    if s == [] || !IsWhitespace(s[0]) then 0 else 1 + BlankEnd(s[1..])
  }

  function TokenEnd(s: string): (n: nat)
    ensures n <= |s|
    ensures s != [] && !IsWhitespace(s[0]) ==> n > 0
  {
    if s == [] || IsWhitespace(s[0]) then 0 else 1 + TokenEnd(s[1..])
  }

  lemma {:induction false} BlankEndStops(s: string)
    ensures BlankEnd(s) < |s| ==> !IsWhitespace(s[BlankEnd(s)])
    ensures AllBlank(s[..BlankEnd(s)])
  {
    if s != [] && IsWhitespace(s[0]) {
      BlankEndStops(s[1..]);
      assert s[..BlankEnd(s)] == [s[0]] + s[1..][..BlankEnd(s[1..])];
    }
  }

  lemma {:induction false} TokenEndStops(s: string)
    ensures TokenEnd(s) < |s| ==> IsWhitespace(s[TokenEnd(s)])
    ensures NoBlank(s[..TokenEnd(s)])
  {
    if s != [] && !IsWhitespace(s[0]) {
      TokenEndStops(s[1..]);
      assert s[..TokenEnd(s)] == [s[0]] + s[1..][..TokenEnd(s[1..])];
    }
  }

  predicate AllBlank(s: string) { forall i :: 0 <= i < |s| ==> IsWhitespace(s[i]) }

  predicate NoBlank(s: string) { forall i :: 0 <= i < |s| ==> !IsWhitespace(s[i]) }

  predicate IsToken(s: string) { s != [] && NoBlank(s) }

  /** What is left of a text after its first token. */
  function AfterToken(s: string): (rest: string)
    requires BlankEnd(s) < |s|
    ensures |rest| < |s|
  {
    BlankEndStops(s);
    var t := s[BlankEnd(s)..];
    t[TokenEnd(t)..]
  }

  function FirstToken(s: string): string {
    var t := s[BlankEnd(s)..];
    t[..TokenEnd(t)]
  }

  function Tokens(s: string): seq<string> {
    if BlankEnd(s) == |s| then [] else [FirstToken(s)] + Tokens(AfterToken(s))
  }

  /** The whitespace runs around the tokens; the outer ones may be empty. */
  function Blanks(s: string): (blanks: seq<string>)
    ensures |blanks| == |Tokens(s)| + 1
  {
    if BlankEnd(s) == |s| then [s] else [s[..BlankEnd(s)]] + Blanks(AfterToken(s))
  }

  /** Whitespace runs and tokens put back together. */
  function Weave(blanks: seq<string>, tokens: seq<string>): string
    requires |blanks| == |tokens| + 1
  {
    if tokens == [] then blanks[0] else blanks[0] + tokens[0] + Weave(blanks[1..], tokens[1..])
  }

  predicate Layout(blanks: seq<string>, tokens: seq<string>) {
    && |blanks| == |tokens| + 1
    && (forall i :: 0 <= i < |tokens| ==> IsToken(tokens[i]))
    && (forall i :: 0 <= i < |blanks| ==> AllBlank(blanks[i]))
    && (forall i :: 0 < i < |tokens| ==> blanks[i] != [])
  }

  /** The first blank run and token of a text, and the rest. */
  lemma Peel(s: string) returns (blank: string, token: string, rest: string)
    requires BlankEnd(s) < |s|
    ensures blank == s[..BlankEnd(s)] && token == FirstToken(s) && rest == AfterToken(s)
    ensures s == blank + token + rest && AllBlank(blank) && IsToken(token)
    ensures rest == [] || (IsWhitespace(rest[0]) && BlankEnd(rest) > 0)
    ensures Tokens(s) == [token] + Tokens(rest) && Blanks(s) == [blank] + Blanks(rest)
  {
    BlankEndStops(s);
    TokenEndStops(s[BlankEnd(s)..]);
    blank, token, rest := s[..BlankEnd(s)], FirstToken(s), AfterToken(s);
  }

  lemma FirstBlank(s: string)
    ensures Blanks(s)[0] == s[..BlankEnd(s)]
  {
    if BlankEnd(s) == |s| { assert s[..|s|] == s; }
  }

  lemma {:induction false} TextIsWoven(s: string)
    ensures Layout(Blanks(s), Tokens(s)) && Weave(Blanks(s), Tokens(s)) == s
    decreases |s|
  {
    if BlankEnd(s) < |s| {
      var blank, token, rest := Peel(s);
      TextIsWoven(rest);
      FirstBlank(rest);
      LayoutGrows(blank, token, Blanks(rest), Tokens(rest));
    } else {
      BlankEndStops(s);
      assert s[..|s|] == s;
    }
  }

  lemma LayoutGrows(blank: string, token: string, blanks: seq<string>, tokens: seq<string>)
    requires AllBlank(blank) && IsToken(token) && Layout(blanks, tokens)
    requires tokens != [] ==> blanks[0] != []
    ensures Layout([blank] + blanks, [token] + tokens)
    ensures Weave([blank] + blanks, [token] + tokens) == blank + token + Weave(blanks, tokens)
  {
    var bs, ts := [blank] + blanks, [token] + tokens;
    assert bs[1..] == blanks && ts[1..] == tokens;
    assert forall i :: 0 < i < |bs| ==> bs[i] == blanks[i - 1];
    assert forall i :: 0 < i < |ts| ==> ts[i] == tokens[i - 1];
  }

  lemma {:induction false} BlankEndOf(b: string, x: string)
    requires AllBlank(b) && (x == [] || !IsWhitespace(x[0]))
    ensures BlankEnd(b + x) == |b|
  {
    if b == [] {
      assert b + x == x;
    } else {
      assert (b + x)[1..] == b[1..] + x;
      BlankEndOf(b[1..], x);
    }
  }

  lemma {:induction false} TokenEndOf(t: string, x: string)
    requires NoBlank(t) && (x == [] || IsWhitespace(x[0]))
    ensures TokenEnd(t + x) == |t|
  {
    if t == [] {
      assert t + x == x;
    } else {
      assert (t + x)[1..] == t[1..] + x;
      TokenEndOf(t[1..], x);
    }
  }

  lemma WovenPeels(blank: string, token: string, rest: string)
    requires AllBlank(blank) && IsToken(token) && (rest == [] || IsWhitespace(rest[0]))
    ensures var s := blank + token + rest;
            BlankEnd(s) == |blank| < |s| && FirstToken(s) == token && AfterToken(s) == rest && s[..BlankEnd(s)] == blank
  {
    var s := blank + token + rest;
    assert s == blank + (token + rest);
    BlankEndOf(blank, token + rest);
    assert s[|blank|..] == token + rest;
    TokenEndOf(token, rest);
  }

  lemma LayoutTail(blanks: seq<string>, tokens: seq<string>)
    requires Layout(blanks, tokens) && tokens != []
    ensures Layout(blanks[1..], tokens[1..])
    ensures tokens[1..] != [] ==> blanks[1..][0] != []
  {
    assert forall i :: 0 <= i < |blanks| - 1 ==> blanks[1..][i] == blanks[i + 1];
    assert forall i :: 0 <= i < |tokens| - 1 ==> tokens[1..][i] == tokens[i + 1];
  }

  /** A woven text falls apart into the same runs and tokens. */
  lemma {:induction false} WovenFallsApart(blanks: seq<string>, tokens: seq<string>)
    requires Layout(blanks, tokens)
    ensures Tokens(Weave(blanks, tokens)) == tokens && Blanks(Weave(blanks, tokens)) == blanks
    decreases |tokens|
  {
    if tokens == [] {
      BlankEndOf(blanks[0], []);
      assert blanks[0] + [] == blanks[0] && blanks == [blanks[0]];
    } else {
      var rest := Weave(blanks[1..], tokens[1..]);
      LayoutTail(blanks, tokens);
      WovenStart(blanks[1..], tokens[1..]);
      WovenPeels(blanks[0], tokens[0], rest);
      WovenFallsApart(blanks[1..], tokens[1..]);
      FirstFallsOff(Weave(blanks, tokens), blanks[0], tokens[0], rest);
      assert tokens == [tokens[0]] + tokens[1..] && blanks == [blanks[0]] + blanks[1..];
    }
  }

  lemma FirstFallsOff(s: string, blank: string, token: string, rest: string)
    requires BlankEnd(s) < |s| && FirstToken(s) == token && AfterToken(s) == rest && s[..BlankEnd(s)] == blank
    ensures Tokens(s) == [token] + Tokens(rest) && Blanks(s) == [blank] + Blanks(rest)
  {
  }

  lemma WovenStart(blanks: seq<string>, tokens: seq<string>)
    requires |blanks| == |tokens| + 1 && AllBlank(blanks[0]) && (tokens != [] ==> blanks[0] != [])
    ensures var s := Weave(blanks, tokens); s == [] || IsWhitespace(s[0])
  {
  }

  /** Words joined by single blanks fall apart into themselves. */
  lemma {:induction false} JoinedFallsApart(words: seq<string>)
    requires words != [] && forall i :: 0 <= i < |words| ==> IsToken(words[i])
    ensures Tokens(Join(words, " ")) == words
  {
    var blanks := Spaces(|words|);
    SpacesJoin(words);
    SpacesLayout([""] + blanks, words);
    WovenFallsApart([""] + blanks, words);
  }

  lemma SpacesLayout(blanks: seq<string>, words: seq<string>)
    requires forall i :: 0 <= i < |words| ==> IsToken(words[i])
    requires |blanks| == |words| + 1 && forall i :: 0 <= i < |blanks| ==> blanks[i] == "" || blanks[i] == " "
    requires forall i :: 0 < i < |words| ==> blanks[i] == " "
    ensures Layout(blanks, words)
  {
    assert AllBlank("") && AllBlank(" ");
  }

  function Spaces(n: nat): (blanks: seq<string>)
    requires n > 0
    ensures |blanks| == n
    ensures blanks[n - 1] == "" && forall i :: 0 <= i < n - 1 ==> blanks[i] == " "
  {
    if n == 1 then [""] else [" "] + Spaces(n - 1)
  }

  lemma {:induction false} SpacesJoin(words: seq<string>)
    requires words != []
    ensures Weave([""] + Spaces(|words|), words) == Join(words, " ")
  {
    var blanks := [""] + Spaces(|words|);
    assert blanks[1..] == Spaces(|words|);
    if |words| == 1 {
      assert words[1..] == [];
      assert Weave(blanks, words) == "" + words[0] + "";
    } else {
      var rest := words[1..];
      SpacesJoin(rest);
      BlankInFront(Spaces(|rest|), rest);
      assert Spaces(|words|) == [" "] + Spaces(|rest|);
      assert Weave(blanks, words) == "" + words[0] + (" " + Join(rest, " "));
    }
  }

  lemma PrefixGroups(word: string, rest: string)
    ensures " " + word + rest == " " + ("" + word + rest)
  {
  }

  lemma BlankInFront(blanks: seq<string>, words: seq<string>)
    requires |blanks| == |words| && words != []
    ensures Weave([" "] + blanks, words) == " " + Weave([""] + blanks, words)
  {
    assert ([" "] + blanks)[1..] == blanks && ([""] + blanks)[1..] == blanks;
    PrefixGroups(words[0], Weave(blanks, words[1..]));
  }
}
