/** Removal of secrets from command output: `redact_plain_text` and `redact_json_value`. */
module Redact {
  import opened Text
  import opened Words

  const REDACTED := "[REDACTED]"
  const REDACTED_URL := "[REDACTED_URL]"

  const SENSITIVE_KEYS: seq<string> := [
    "password", "passwd", "token", "secret", "credential", "authorization", "client_id", "client_secret",
    "refresh_token", "access_token"]

  const TRIGGER_WORDS: seq<string> := [
    "bearer", "--password", "--passwd", "--token", "--client-id", "--client-secret"]

  const TRIGGER_KEYS: seq<string> := ["client_id", "client_secret"]

  const SECRET_FIELDS: seq<string> := [
    "pass", "password", "passwd", "token", "secret", "credential", "credentials", "authorization", "client_id",
    "client_secret", "key_pem", "key_file_pass", "private_key"]

  function LowerChar(c: char): (lower: char)
    ensures 'A' <= c <= 'Z' ==> 'a' <= lower <= 'z' && lower as int - 'a' as int == c as int - 'A' as int
    ensures !('A' <= c <= 'Z') ==> lower == c
  {
    if 'A' <= c <= 'Z' then (c as int + 32) as char else c
  }

  function Lower(s: string): string { seq(|s|, i requires 0 <= i < |s| => LowerChar(s[i])) }

  predicate ContainsAt(s: string, part: string, i: nat) { i <= |s| && part <= s[i..] }

  predicate Contains(s: string, part: string) {
    exists i :: 0 <= i <= |s| && ContainsAt(s, part, i)
  }

  predicate IsKeyMark(c: char) { c == '"' || c == '\'' || c == ':' || c == ',' || c == '{' || c == '}' }

  /** `trim_matches` of quotes, colons, commas and braces. */
  function TrimMarks(s: string): string {
    if s != [] && IsKeyMark(s[0]) then TrimMarks(s[1..])
    else if s != [] && IsKeyMark(s[|s| - 1]) then TrimMarks(s[..|s| - 1])
    else s
  }

  predicate IsQuote(c: char) { c == '"' || c == '\'' }

  /** The last position of a character, or -1. */
  function LastIndex(s: string, c: char): (i: int)
    ensures -1 <= i < |s|
    ensures i >= 0 ==> s[i] == c
    ensures forall k :: i < k < |s| ==> s[k] != c
  {
    if s == [] then -1 else if s[|s| - 1] == c then |s| - 1 else LastIndex(s[..|s| - 1], c)
  }

  /** The first position of a character, or the length. */
  function FirstIndex(s: string, c: char): (i: nat)
    ensures i <= |s|
    ensures i < |s| ==> s[i] == c
    ensures forall k :: 0 <= k < i ==> s[k] != c
  {
    if s == [] || s[0] == c then 0 else FirstIndex(s[1..], c) + 1
  }

  /** `redact_value_token`: a quoted value keeps its quotes and what follows them. */
  function RedactValue(token: string): string {
    if token == [] || !IsQuote(token[0]) then REDACTED
    else
      var closing := LastIndex(token, token[0]);
      if closing <= 0 then REDACTED else [token[0]] + REDACTED + [token[0]] + token[closing + 1..]
  }

  predicate IsSensitive(key: string) {
    exists i :: 0 <= i < |SENSITIVE_KEYS| && Contains(Lower(key), SENSITIVE_KEYS[i])
  }

  predicate IsUrl(token: string) { "http://" <= Lower(token) || "https://" <= Lower(token) }

  predicate IsBearer(token: string) { "bearer" <= Lower(token) }

  /** `redact_token`. */
  function RedactToken(token: string): string {
    var equals := FirstIndex(token, '=');
    if IsUrl(token) then REDACTED_URL
    else if IsBearer(token) then REDACTED
    else if equals < |token| && IsSensitive(token[..equals]) then token[..equals] + "=" + REDACTED
    else token
  }

  predicate HidesNextTwo(token: string) { Lower(token) == "authorization:" }

  predicate HidesNext(token: string) {
    Lower(token) in TRIGGER_WORDS || TrimMarks(Lower(token)) in TRIGGER_KEYS
  }

  /** What one token becomes while `remaining` values are still to be hidden. */
  function Shown(token: string, remaining: nat): string {
    if remaining > 0 then RedactValue(token)
    else if HidesNextTwo(token) || HidesNext(token) then token
    else RedactToken(token)
  }

  /** How many values are to be hidden after this token. */
  function RemainingAfter(token: string, remaining: nat): nat {
    if remaining > 0 then remaining - 1
    else if HidesNextTwo(token) then 2
    else if HidesNext(token) then 1
    else 0
  }

  function ShownAll(tokens: seq<string>, remaining: nat): seq<string> {
    if tokens == [] then []
    else [Shown(tokens[0], remaining)] + ShownAll(tokens[1..], RemainingAfter(tokens[0], remaining))
  }

  // ------------------------------------------------------------------------------ the algorithm

  /** The meaning of `redact_plain_text`: every token is shown or hidden, the whitespace stays. */
  function RedactPlain(s: string): string {
    Spread(s, 0)
  }

  function Spread(s: string, remaining: nat): string {
    ShownCount(Tokens(s), remaining);
    Weave(Blanks(s), ShownAll(Tokens(s), remaining))
  }

  lemma {:induction false} ShownCount(tokens: seq<string>, remaining: nat)
    ensures |ShownAll(tokens, remaining)| == |tokens|
    decreases |tokens|
  {
    if tokens != [] { ShownCount(tokens[1..], RemainingAfter(tokens[0], remaining)); }
  }

  lemma SpreadStep(s: string, remaining: nat) returns (blank: string, token: string, rest: string)
    requires BlankEnd(s) < |s|
    ensures blank == s[..BlankEnd(s)] && token == FirstToken(s) && rest == AfterToken(s)
    ensures Spread(s, remaining) == blank + Shown(token, remaining) + Spread(rest, RemainingAfter(token, remaining))
  {
    blank, token, rest := Peel(s);
    SpreadUnfolds(s, blank, token, rest, remaining);
  }

  lemma SpreadUnfolds(s: string, blank: string, token: string, rest: string, remaining: nat)
    requires Tokens(s) == [token] + Tokens(rest) && Blanks(s) == [blank] + Blanks(rest)
    ensures Spread(s, remaining) == blank + Shown(token, remaining) + Spread(rest, RemainingAfter(token, remaining))
  {
    WeaveStep(blank, token, Blanks(rest), Tokens(rest), remaining);
  }

  lemma WeaveStep(blank: string, token: string, blanks: seq<string>, tokens: seq<string>, remaining: nat)
    requires |blanks| == |tokens| + 1
    ensures var next := RemainingAfter(token, remaining);
            && |ShownAll([token] + tokens, remaining)| == |tokens| + 1 && |ShownAll(tokens, next)| == |tokens|
            && Weave([blank] + blanks, ShownAll([token] + tokens, remaining)) ==
                 blank + Shown(token, remaining) + Weave(blanks, ShownAll(tokens, next))
  {
    var next := RemainingAfter(token, remaining);
    ShownCount(tokens, next);
    assert ([token] + tokens)[1..] == tokens;
    var shown := ShownAll([token] + tokens, remaining);
    assert shown == [Shown(token, remaining)] + ShownAll(tokens, next);
    assert shown[1..] == ShownAll(tokens, next) && ([blank] + blanks)[1..] == blanks;
  }

  /** One token of the pass: its text, and how many of the next tokens are values. */
  method ShowToken(token: string, redactRemaining: nat) returns (text: string, next: nat)
    ensures text == Shown(token, redactRemaining) && next == RemainingAfter(token, redactRemaining)
  {
    if redactRemaining > 0 {
      next, text := redactRemaining - 1, RedactValue(token);
    } else if HidesNextTwo(token) {
      next, text := 2, token;
    } else if HidesNext(token) {
      next, text := 1, token;
    } else {
      next, text := 0, RedactToken(token);
    }
  }

  /** `redact_plain_text`: one pass that carries how many of the next tokens are values. */
  method RedactPlainText(value: string) returns (result: string)
    ensures result == RedactPlain(value)
  {
    var redactRemaining: nat := 0;
    result := "";
    var rest := value;
    while rest != []
      invariant result + Spread(rest, redactRemaining) == RedactPlain(value)
      decreases |rest|
    {
      var whitespace := BlankEnd(rest);
      if whitespace == |rest| {
        AllBlankStays(rest, redactRemaining);
        result := result + rest;
        return;
      }
      ghost var before := result;
      ghost var blank, first, after := SpreadStep(rest, redactRemaining);
      result := result + rest[..whitespace];
      rest := rest[whitespace..];
      var end := TokenEnd(rest);
      var text;
      text, redactRemaining := ShowToken(rest[..end], redactRemaining);
      result := result + text;
      rest := rest[end..];
      Regroup(before, blank, text, Spread(rest, redactRemaining));
    }
    EmptyStays(redactRemaining);
  }

  lemma Regroup(a: string, b: string, c: string, d: string)
    ensures a + (b + c + d) == a + b + c + d
  {
  }

  lemma EmptyStays(remaining: nat)
    ensures Spread([], remaining) == []
  {
  }

  lemma AllBlankStays(s: string, remaining: nat)
    requires BlankEnd(s) == |s|
    ensures Spread(s, remaining) == s
  {
  }

  // -------------------------------------------------------------------------------- idempotence

  lemma ValueTwice(token: string)
    requires IsToken(token)
    ensures RedactValue(RedactValue(token)) == RedactValue(token) && IsToken(RedactValue(token))
  {
    var hidden := RedactValue(token);
    if hidden != REDACTED {
      var q := token[0];
      var closing := LastIndex(token, q);
      var tail := token[closing + 1..];
      assert hidden == ([q] + REDACTED + [q]) + tail;
      LastIndexIs(hidden, q, 11);
    }
  }

  lemma LastIndexIs(s: string, c: char, i: nat)
    requires i < |s| && s[i] == c && forall k :: i < k < |s| ==> s[k] != c
    ensures LastIndex(s, c) == i
  {
  }

  lemma FirstIndexIs(s: string, c: char, i: nat)
    requires i < |s| && s[i] == c && forall k :: 0 <= k < i ==> s[k] != c
    ensures FirstIndex(s, c) == i
  {
  }

  lemma {:induction false} TrimKeeps(s: string, c: char)
    requires c in s && !IsKeyMark(c)
    ensures c in TrimMarks(s)
    decreases |s|
  {
    if IsKeyMark(s[0]) {
      assert s == [s[0]] + s[1..];
      TrimKeeps(s[1..], c);
    } else if IsKeyMark(s[|s| - 1]) {
      assert s == s[..|s| - 1] + [s[|s| - 1]];
      TrimKeeps(s[..|s| - 1], c);
    }
  }

  /** A token holding a character that no trigger word holds is no trigger word. */
  lemma NotATrigger(token: string, c: char, i: nat)
    requires i < |token| && token[i] == c && (c == '=' || c == '[')
    ensures !HidesNextTwo(token) && !HidesNext(token)
  {
    assert Lower(token)[i] == c;
    TrimKeeps(Lower(token), c);
    assert c !in "authorization:";
    assert forall k :: 0 <= k < |TRIGGER_WORDS| ==> c !in TRIGGER_WORDS[k];
    assert forall k :: 0 <= k < |TRIGGER_KEYS| ==> c !in TRIGGER_KEYS[k];
  }

  /** The prefix tests see only the part of a token before its first equals sign. */
  lemma PrefixBeforeEquals(a: string, b: string, e: nat)
    requires e < |a| && e < |b| && a[..e] == b[..e] && a[e] == '=' && b[e] == '='
    ensures IsUrl(a) == IsUrl(b) && IsBearer(a) == IsBearer(b)
  {
    assert forall i :: 0 <= i <= e ==> a[i] == b[i] by {
      assert forall i :: 0 <= i < e ==> a[i] == a[..e][i] && b[i] == b[..e][i];
    }
    SamePrefix(a, b, e, "http://");
    SamePrefix(a, b, e, "https://");
    SamePrefix(a, b, e, "bearer");
  }

  lemma SamePrefix(a: string, b: string, e: nat, word: string)
    requires e < |a| && e < |b| && a[e] == '=' && b[e] == '=' && '=' !in word
    requires forall i :: 0 <= i <= e ==> a[i] == b[i]
    ensures word <= Lower(a) <==> word <= Lower(b)
  {
    assert Lower(a)[e] == '=' && Lower(b)[e] == '=';
    if |word| <= e {
      assert Lower(a)[..|word|] == Lower(b)[..|word|];
    } else {
      assert word[e] in word;
    }
  }

  lemma MarkersAreClean(marker: string)
    requires marker == REDACTED || marker == REDACTED_URL
    ensures !IsUrl(marker) && !IsBearer(marker)
  {
    BracketStarts(marker, "http://");
    BracketStarts(marker, "https://");
    BracketStarts(marker, "bearer");
  }

  lemma BracketStarts(marker: string, word: string)
    requires marker != [] && marker[0] == '[' && word != [] && word[0] != '['
    ensures !(word <= Lower(marker))
  {
    assert Lower(marker)[0] == '[';
  }

  lemma NoEquals(marker: string)
    requires marker == REDACTED || marker == REDACTED_URL
    ensures '=' !in marker
  {
  }

  lemma MarkersHaveNoKey(marker: string)
    requires '=' !in marker
    ensures FirstIndex(marker, '=') == |marker|
  {
  }

  lemma PlainTokenStays(token: string)
    requires !IsUrl(token) && !IsBearer(token) && FirstIndex(token, '=') == |token|
    ensures RedactToken(token) == token
  {
  }

  lemma MarkerStays(marker: string)
    requires marker == REDACTED || marker == REDACTED_URL
    ensures RedactToken(marker) == marker && !HidesNextTwo(marker) && !HidesNext(marker)
  {
    NotATrigger(marker, '[', 0);
    MarkersAreClean(marker);
    NoEquals(marker);
    MarkersHaveNoKey(marker);
    PlainTokenStays(marker);
  }

  lemma ShownIsToken(token: string)
    requires IsToken(token)
    ensures IsToken(RedactToken(token))
  {
    var hidden := RedactToken(token);
    var e := FirstIndex(token, '=');
    if hidden != token && hidden != REDACTED && hidden != REDACTED_URL {
      assert hidden == token[..e] + ("=" + REDACTED);
    }
  }

  /** What `redact_token` can do. */
  lemma TokenOutcomes(token: string)
    ensures var hidden, e := RedactToken(token), FirstIndex(token, '=');
            || hidden == REDACTED || hidden == REDACTED_URL || hidden == token
            || (e < |token| && IsSensitive(token[..e]) && !IsUrl(token) && !IsBearer(token)
                && hidden == token[..e] + "=" + REDACTED)
  {
  }

  lemma TokenTwice(token: string)
    requires !HidesNextTwo(token) && !HidesNext(token)
    ensures var hidden := RedactToken(token);
            RedactToken(hidden) == hidden && !HidesNextTwo(hidden) && !HidesNext(hidden)
  {
    TokenOutcomes(token);
    var hidden := RedactToken(token);
    if hidden == REDACTED || hidden == REDACTED_URL {
      MarkerStays(hidden);
    } else if hidden != token {
      KeyValueTwice(token, FirstIndex(token, '='));
    }
  }

  lemma KeyValueTwice(token: string, e: nat)
    requires e == FirstIndex(token, '=') < |token| && IsSensitive(token[..e])
    requires !IsUrl(token) && !IsBearer(token)
    ensures var hidden := token[..e] + "=" + REDACTED;
            RedactToken(hidden) == hidden && !HidesNextTwo(hidden) && !HidesNext(hidden)
  {
    var hidden := token[..e] + "=" + REDACTED;
    KeyKept(token, hidden, e);
    NotATrigger(hidden, '=', e);
    PrefixBeforeEquals(token, hidden, e);
    RedactKeyValue(hidden, e);
  }

  lemma KeyKept(token: string, hidden: string, e: nat)
    requires e == FirstIndex(token, '=') < |token| && hidden == token[..e] + "=" + REDACTED
    ensures |hidden| > e && hidden[..e] == token[..e] && hidden[e] == '='
    ensures FirstIndex(hidden, '=') == e
  {
    assert forall k :: 0 <= k < e ==> hidden[k] == token[k];
    FirstIndexIs(hidden, '=', e);
  }

  lemma RedactKeyValue(hidden: string, e: nat)
    requires e == FirstIndex(hidden, '=') < |hidden| && IsSensitive(hidden[..e])
    requires !IsUrl(hidden) && !IsBearer(hidden) && hidden == hidden[..e] + "=" + REDACTED
    ensures RedactToken(hidden) == hidden
  {
  }

  lemma {:induction false} ShownTwice(token: string, remaining: nat)
    requires IsToken(token)
    ensures IsToken(Shown(token, remaining))
    ensures Shown(Shown(token, remaining), remaining) == Shown(token, remaining)
    ensures RemainingAfter(Shown(token, remaining), remaining) == RemainingAfter(token, remaining)
  {
    if remaining > 0 {
      ValueTwice(token);
    } else if !HidesNextTwo(token) && !HidesNext(token) {
      TokenTwice(token);
      ShownIsToken(token);
    }
  }

  lemma {:induction false} ShownAllTwice(tokens: seq<string>, remaining: nat)
    requires forall i :: 0 <= i < |tokens| ==> IsToken(tokens[i])
    ensures ShownAll(ShownAll(tokens, remaining), remaining) == ShownAll(tokens, remaining)
    ensures forall i :: 0 <= i < |ShownAll(tokens, remaining)| ==> IsToken(ShownAll(tokens, remaining)[i])
    decreases |tokens|
  {
    if tokens != [] {
      ShownTwice(tokens[0], remaining);
      ShownAllTwice(tokens[1..], RemainingAfter(tokens[0], remaining));
      var shown := ShownAll(tokens, remaining);
      assert shown[1..] == ShownAll(tokens[1..], RemainingAfter(tokens[0], remaining));
    }
  }

  /** Redaction keeps every whitespace run and the number of tokens. */
  lemma {:induction false} LayoutIsKept(s: string)
    ensures Blanks(RedactPlain(s)) == Blanks(s)
    ensures Tokens(RedactPlain(s)) == ShownAll(Tokens(s), 0)
    ensures |Tokens(RedactPlain(s))| == |Tokens(s)|
  {
    TextIsWoven(s);
    ShownCount(Tokens(s), 0);
    ShownAllTwice(Tokens(s), 0);
    WovenFallsApart(Blanks(s), ShownAll(Tokens(s), 0));
  }

  /** Redacting redacted text changes nothing. */
  lemma {:induction false} RedactIsIdempotent(s: string)
    ensures RedactPlain(RedactPlain(s)) == RedactPlain(s)
  {
    LayoutIsKept(s);
    TextIsWoven(s);
    ShownAllTwice(Tokens(s), 0);
  }

  // -------------------------------------------------------------------------- what is hidden

  /** A hidden value: the marker, or the marker in the value's own quotes with what followed them. */
  predicate IsHidden(token: string) {
    || token == REDACTED
    || (|token| >= 12 && IsQuote(token[0]) && token[1..11] == REDACTED && token[11] == token[0] && token[0] !in token[12..])
  }

  /** A token that may be shown: a value is hidden, no URL or bearer string, no value after a sensitive key. */
  predicate IsClean(token: string, remaining: nat) {
    if remaining > 0 then IsHidden(token)
    else if HidesNextTwo(token) || HidesNext(token) then true
    else
      var e := FirstIndex(token, '=');
      && !IsUrl(token) && !IsBearer(token)
      && (e < |token| && IsSensitive(token[..e]) ==> token == token[..e] + "=" + REDACTED)
  }

  predicate AllClean(tokens: seq<string>, remaining: nat) {
    tokens != [] ==> IsClean(tokens[0], remaining) && AllClean(tokens[1..], RemainingAfter(tokens[0], remaining))
  }

  lemma ShownIsClean(token: string)
    requires !HidesNextTwo(token) && !HidesNext(token)
    ensures IsClean(RedactToken(token), 0)
  {
    TokenOutcomes(token);
    var hidden := RedactToken(token);
    if hidden == REDACTED || hidden == REDACTED_URL {
      MarkersAreClean(hidden);
      NoEquals(hidden);
      MarkersHaveNoKey(hidden);
    } else if hidden != token {
      var e := FirstIndex(token, '=');
      KeyKept(token, hidden, e);
      PrefixBeforeEquals(token, hidden, e);
    }
  }

  lemma ValueIsHidden(token: string)
    ensures IsHidden(RedactValue(token))
  {
  }

  lemma {:induction false} AllShownAreClean(tokens: seq<string>, remaining: nat)
    requires forall i :: 0 <= i < |tokens| ==> IsToken(tokens[i])
    ensures AllClean(ShownAll(tokens, remaining), remaining)
    decreases |tokens|
  {
    if tokens != [] {
      var next := RemainingAfter(tokens[0], remaining);
      ShownTwice(tokens[0], remaining);
      AllShownAreClean(tokens[1..], next);
      assert ShownAll(tokens, remaining)[1..] == ShownAll(tokens[1..], next);
      if remaining > 0 {
        ValueIsHidden(tokens[0]);
      } else if !HidesNextTwo(tokens[0]) && !HidesNext(tokens[0]) {
        ShownIsClean(tokens[0]);
      }
    }
  }

  /** In redacted text every value that should be hidden is hidden. */
  lemma {:induction false} NoSecretSurvives(s: string)
    ensures AllClean(Tokens(RedactPlain(s)), 0)
  {
    LayoutIsKept(s);
    TextIsWoven(s);
    AllShownAreClean(Tokens(s), 0);
  }

  // ---------------------------------------------------------------------- what is shown, by position

  /** A key without the quotes, colons, commas and braces around it. */
  function BareKey(t: string): string {
    if t != [] && t[0] in "\"':,{}" then BareKey(t[1..])
    else if t != [] && t[|t| - 1] in "\"':,{}" then BareKey(t[..|t| - 1])
    else t
  }

  lemma {:induction false} BareIsTrimmed(t: string)
    ensures BareKey(t) == TrimMarks(t)
  {
    assert forall c :: c in "\"':,{}" <==> IsKeyMark(c);
    if t != [] && IsKeyMark(t[0]) {
      BareIsTrimmed(t[1..]);
    } else if t != [] && IsKeyMark(t[|t| - 1]) {
      BareIsTrimmed(t[..|t| - 1]);
    }
  }

  /** How many tokens after this one are values that must not be shown. */
  function Reach(token: string): nat {
    var t := Lower(token);
    if t == "authorization:" then 2
    else if t == "bearer" || t == "--password" || t == "--passwd" || t == "--token" || t == "--client-id"
            || t == "--client-secret" || BareKey(t) == "client_id" || BareKey(t) == "client_secret" then 1
    else 0
  }

  /** Position i holds a value: it is within reach of a token before it that is no value itself. */
  ghost predicate IsValue(tokens: seq<string>, i: nat)
    requires i < |tokens|
    decreases i
  {
    exists j :: 0 <= j < i && i - j <= Reach(tokens[j]) && !IsValue(tokens, j)
  }

  /** A value as it is shown: the marker alone, or in the value's own quotes with what follows the last of them. */
  ghost predicate ShowsValue(token: string, shown: string) {
    if token != [] && (token[0] == '"' || token[0] == '\'') && token[0] in token[1..] then
      exists k :: 0 < k < |token| && token[k] == token[0] && token[0] !in token[k + 1..]
                  && shown == [token[0]] + "[REDACTED]" + [token[0]] + token[k + 1..]
    else shown == "[REDACTED]"
  }

  /** The part of a key that makes its value a secret. */
  ghost predicate NamesSecret(key: string) {
    var k := Lower(key);
    Contains(k, "password") || Contains(k, "passwd") || Contains(k, "token") || Contains(k, "secret")
    || Contains(k, "credential") || Contains(k, "authorization") || Contains(k, "client_id") || Contains(k, "client_secret")
    || Contains(k, "refresh_token") || Contains(k, "access_token")
  }

  ghost predicate IsKeyEnd(token: string, e: int) {
    0 <= e < |token| && token[e] == '=' && forall k :: 0 <= k < e ==> token[k] != '='
  }

  /** A token with a key is shown by what its key names, one without as it is. */
  ghost predicate ShowsKeyed(token: string, shown: string) {
    && (forall e :: IsKeyEnd(token, e) && NamesSecret(token[..e]) ==> shown == token[..e] + "=[REDACTED]")
    && ((forall e :: IsKeyEnd(token, e) ==> !NamesSecret(token[..e])) ==> shown == token)
  }

  /** Any other token as it is shown. */
  ghost predicate ShowsOther(token: string, shown: string) {
    if "http://" <= Lower(token) || "https://" <= Lower(token) then shown == "[REDACTED_URL]"
    else if "bearer" <= Lower(token) then shown == "[REDACTED]"
    else ShowsKeyed(token, shown)
  }

  ghost predicate ShowsRightly(tokens: seq<string>, i: nat, shown: string)
    requires i < |tokens|
  {
    if IsValue(tokens, i) then ShowsValue(tokens[i], shown)
    else if Reach(tokens[i]) > 0 then shown == tokens[i]
    else ShowsOther(tokens[i], shown)
  }

  lemma ReachIsRemaining(token: string)
    ensures RemainingAfter(token, 0) == Reach(token)
    ensures HidesNextTwo(token) || HidesNext(token) <==> Reach(token) > 0
  {
    var t := Lower(token);
    BareIsTrimmed(t);
    assert t in TRIGGER_WORDS <==>
             t == "bearer" || t == "--password" || t == "--passwd" || t == "--token" || t == "--client-id" || t == "--client-secret";
    assert TrimMarks(t) in TRIGGER_KEYS <==> TrimMarks(t) == "client_id" || TrimMarks(t) == "client_secret";
  }

  /** What the pass carries when it comes to position i. */
  function CarriedTo(tokens: seq<string>, remaining: nat, i: nat): nat
    requires i <= |tokens|
  {
    if i == 0 then remaining else RemainingAfter(tokens[i - 1], CarriedTo(tokens, remaining, i - 1))
  }

  lemma {:induction false} CarriedFromNext(tokens: seq<string>, remaining: nat, i: nat)
    requires i < |tokens|
    ensures CarriedTo(tokens, remaining, i + 1) == CarriedTo(tokens[1..], RemainingAfter(tokens[0], remaining), i)
  {
    if i == 0 {
      assert CarriedTo(tokens, remaining, 0) == remaining;
    } else {
      CarriedFromNext(tokens, remaining, i - 1);
      assert tokens[1..][i - 1] == tokens[i];
    }
  }

  lemma {:induction false} ShownAtPosition(tokens: seq<string>, remaining: nat, i: nat)
    requires i < |tokens|
    ensures |ShownAll(tokens, remaining)| == |tokens|
    ensures ShownAll(tokens, remaining)[i] == Shown(tokens[i], CarriedTo(tokens, remaining, i))
    decreases |tokens|
  {
    ShownCount(tokens, remaining);
    if i > 0 {
      var next := RemainingAfter(tokens[0], remaining);
      ShownAtPosition(tokens[1..], next, i - 1);
      CarriedFromNext(tokens, remaining, i - 1);
      assert ShownAll(tokens, remaining) == [Shown(tokens[0], remaining)] + ShownAll(tokens[1..], next);
    }
  }

  /** After a token that is no value the pass counts down from its reach. */
  lemma {:induction false} CountsDown(tokens: seq<string>, j: nat, i: nat)
    requires j < i <= |tokens| && CarriedTo(tokens, 0, j) == 0 && i - j <= Reach(tokens[j]) + 1
    ensures CarriedTo(tokens, 0, i) == Reach(tokens[j]) - (i - j - 1)
    decreases i
  {
    ReachIsRemaining(tokens[j]);
    if i > j + 1 { CountsDown(tokens, j, i - 1); }
  }

  /** The pass hides exactly the values. */
  lemma {:induction false} CarriesAtValues(tokens: seq<string>, i: nat)
    requires i < |tokens|
    ensures CarriedTo(tokens, 0, i) > 0 <==> IsValue(tokens, i)
    ensures CarriedTo(tokens, 0, i) > 0 ==>
              exists j :: 0 <= j < i && CarriedTo(tokens, 0, j) == 0 && CarriedTo(tokens, 0, i) == Reach(tokens[j]) - (i - j - 1)
    decreases i
  {
    if i > 0 {
      forall j | 0 <= j < i ensures CarriedTo(tokens, 0, j) > 0 <==> IsValue(tokens, j) { CarriesAtValues(tokens, j); }
      if CarriedTo(tokens, 0, i) > 0 { CarriesFrom(tokens, i); }
      forall j | 0 <= j < i && i - j <= Reach(tokens[j]) && !IsValue(tokens, j) ensures CarriedTo(tokens, 0, i) > 0 {
        CountsDown(tokens, j, i);
      }
    }
  }

  lemma {:induction false} CarriesFrom(tokens: seq<string>, i: nat)
    requires i <= |tokens| && CarriedTo(tokens, 0, i) > 0
    ensures exists j :: 0 <= j < i && CarriedTo(tokens, 0, j) == 0 && CarriedTo(tokens, 0, i) == Reach(tokens[j]) - (i - j - 1)
    decreases i
  {
    if CarriedTo(tokens, 0, i - 1) == 0 {
      ReachIsRemaining(tokens[i - 1]);
      assert CarriedTo(tokens, 0, i) == Reach(tokens[i - 1]) - (i - (i - 1) - 1);
    } else {
      CarriesFrom(tokens, i - 1);
      var j :| 0 <= j < i - 1 && CarriedTo(tokens, 0, j) == 0 && CarriedTo(tokens, 0, i - 1) == Reach(tokens[j]) - (i - 1 - j - 1);
      assert CarriedTo(tokens, 0, i) == Reach(tokens[j]) - (i - j - 1);
    }
  }

  lemma ValueIsShown(token: string)
    ensures ShowsValue(token, RedactValue(token))
  {
    if token != [] && IsQuote(token[0]) {
      var closing := LastIndex(token, token[0]);
      if token[0] in token[1..] {
        var k :| 0 <= k < |token[1..]| && token[1..][k] == token[0];
        assert token[k + 1] == token[0];
        assert 0 < closing && token[closing] == token[0] && token[0] !in token[closing + 1..];
      }
      assert forall k :: 0 < k < |token| ==> token[k] == token[1..][k - 1];
    }
  }

  lemma SensitiveIsSecret(key: string)
    ensures IsSensitive(key) <==> NamesSecret(key)
  {
    var k := Lower(key);
    assert SENSITIVE_KEYS[0] == "password" && SENSITIVE_KEYS[1] == "passwd" && SENSITIVE_KEYS[2] == "token"
           && SENSITIVE_KEYS[3] == "secret" && SENSITIVE_KEYS[4] == "credential" && SENSITIVE_KEYS[5] == "authorization"
           && SENSITIVE_KEYS[6] == "client_id" && SENSITIVE_KEYS[7] == "client_secret"
           && SENSITIVE_KEYS[8] == "refresh_token" && SENSITIVE_KEYS[9] == "access_token" && |SENSITIVE_KEYS| == 10;
  }

  lemma OtherIsShown(token: string)
    ensures ShowsOther(token, RedactToken(token))
  {
    if !IsUrl(token) && !IsBearer(token) { KeyedIsShown(token, RedactToken(token), FirstIndex(token, '=')); }
  }

  lemma KeyedIsShown(token: string, shown: string, equals: nat)
    requires equals == FirstIndex(token, '=')
    requires shown == if equals < |token| && IsSensitive(token[..equals]) then token[..equals] + "=" + REDACTED else token
    ensures ShowsKeyed(token, shown)
  {
    KeyEndIsFirst(token);
    if equals < |token| {
      SensitiveIsSecret(token[..equals]);
      ChosenByKey(token, shown, equals, IsSensitive(token[..equals]));
    }
  }

  lemma ChosenByKey(token: string, shown: string, equals: nat, secret: bool)
    requires equals < |token| && (secret <==> NamesSecret(token[..equals]))
    requires shown == if secret then token[..equals] + "=" + REDACTED else token
    requires forall e :: IsKeyEnd(token, e) <==> e == equals
    ensures ShowsKeyed(token, shown)
  {
    assert token[..equals] + "=" + REDACTED == token[..equals] + "=[REDACTED]";
  }

  lemma KeyEndIsFirst(token: string)
    ensures forall e :: IsKeyEnd(token, e) <==> e == FirstIndex(token, '=') < |token|
  {
  }

  /** Every token of the result, by its position in the text: a value is hidden, a token that announces
      values stays, and of any other only URLs, bearer strings and the values of sensitive keys go. */
  lemma {:induction false} ValuesAreHidden(s: string, i: nat)
    requires i < |Tokens(s)|
    ensures |Tokens(RedactPlain(s))| == |Tokens(s)|
    ensures ShowsRightly(Tokens(s), i, Tokens(RedactPlain(s))[i])
  {
    var tokens := Tokens(s);
    LayoutIsKept(s);
    ShownAtPosition(tokens, 0, i);
    CarriesAtValues(tokens, i);
    ReachIsRemaining(tokens[i]);
    if IsValue(tokens, i) { ValueIsShown(tokens[i]); } else if Reach(tokens[i]) == 0 { OtherIsShown(tokens[i]); }
  }

  // --------------------------------------------------------------------------------------- JSON

  datatype Json =
    | Null
    | Bool(flag: bool)
    | Number(digits: string)
    | Str(text: string)
    | Arr(items: seq<Json>)
    | Obj(fields: seq<Field>)

  datatype Field = Field(key: string, value: Json)

  predicate EndsWith(s: string, end: string) { |end| <= |s| && s[|s| - |end|..] == end }

  /** The field names whose values are dropped whole. */
  predicate IsSecretField(key: string) {
    var k := Lower(key);
    k in SECRET_FIELDS || EndsWith(k, "_token") || EndsWith(k, "_password") || EndsWith(k, "_secret") || EndsWith(k, "_credentials")
  }

  /** The field names, read without letter case, whose values must not survive. */
  ghost predicate HoldsSecret(key: string) {
    var k := Lower(key);
    k == "pass" || k == "password" || k == "passwd" || k == "token" || k == "secret" || k == "credential"
    || k == "credentials" || k == "authorization" || k == "client_id" || k == "client_secret" || k == "key_pem"
    || k == "key_file_pass" || k == "private_key"
    || EndsWith(k, "_token") || EndsWith(k, "_password") || EndsWith(k, "_secret") || EndsWith(k, "_credentials")
  }

  lemma SecretFieldsHoldSecrets(key: string)
    ensures IsSecretField(key) <==> HoldsSecret(key)
  {
    var k := Lower(key);
    assert k in SECRET_FIELDS <==>
             k == "pass" || k == "password" || k == "passwd" || k == "token" || k == "secret" || k == "credential"
             || k == "credentials" || k == "authorization" || k == "client_id" || k == "client_secret" || k == "key_pem"
             || k == "key_file_pass" || k == "private_key";
  }

  function RedactJson(v: Json): Json
    decreases v
  {
    match v
    case Obj(fields) =>
      Obj(seq(|fields|, i requires 0 <= i < |fields| =>
        Field(fields[i].key, if IsSecretField(fields[i].key) then Str(REDACTED) else RedactJson(fields[i].value))))
    case Arr(items) => Arr(seq(|items|, i requires 0 <= i < |items| => RedactJson(items[i])))
    case Str(text) => Str(RedactPlain(text))
    case _ => v
  }

  /** One field of an object, as `redact_json_value` leaves it. */
  function RedactField(field: Field): Field {
    Field(field.key, if IsSecretField(field.key) then Str(REDACTED) else RedactJson(field.value))
  }

  /** The loop over the fields of an object. */
  method RedactFields(fields: seq<Field>) returns (done: seq<Field>)
    ensures |done| == |fields| && forall i :: 0 <= i < |fields| ==> done[i] == RedactField(fields[i])
    decreases fields
  {
    done := [];
    for i := 0 to |fields|
      invariant |done| == i && forall k :: 0 <= k < i ==> done[k] == RedactField(fields[k])
    {
      var field := fields[i];
      if IsSecretField(field.key) {
        done := done + [Field(field.key, Str(REDACTED))];
      } else {
        var value := RedactJsonValue(field.value);
        done := done + [Field(field.key, value)];
      }
    }
  }

  /** The loop over the items of an array. */
  method RedactItems(items: seq<Json>) returns (done: seq<Json>)
    ensures |done| == |items| && forall i :: 0 <= i < |items| ==> done[i] == RedactJson(items[i])
    decreases items
  {
    done := [];
    for i := 0 to |items|
      invariant |done| == i && forall k :: 0 <= k < i ==> done[k] == RedactJson(items[k])
    {
      var item := RedactJsonValue(items[i]);
      done := done + [item];
    }
  }

  /** `redact_json_value`, rebuilding the value it is given. */
  method RedactJsonValue(v: Json) returns (r: Json)
    ensures r == RedactJson(v)
    decreases v
  {
    match v
    case Obj(fields) =>
      var done := RedactFields(fields);
      assert done == RedactJson(v).fields;
      return Obj(done);
    case Arr(items) =>
      var done := RedactItems(items);
      assert done == RedactJson(v).items;
      return Arr(done);
    case Str(text) =>
      var plain := RedactPlainText(text);
      return Str(plain);
    case _ =>
      return v;
  }

  /** A text next to what is left of it: the same whitespace, every token shown rightly. */
  ghost predicate TextShown(text: string, shown: string) {
    && Blanks(shown) == Blanks(text) && |Tokens(shown)| == |Tokens(text)|
    && forall i :: 0 <= i < |Tokens(text)| ==> ShowsRightly(Tokens(text), i, Tokens(shown)[i])
  }

  /** Same nesting: equal keys in order, equal array lengths, the marker in every secret field, and
      everywhere else the strings redacted and the other values as they were. */
  ghost predicate SameShape(a: Json, b: Json)
    decreases a
  {
    match a
    case Obj(fields) =>
      b.Obj? && |fields| == |b.fields|
      && forall i :: 0 <= i < |fields| ==>
           && b.fields[i].key == fields[i].key
           && (if HoldsSecret(fields[i].key) then b.fields[i].value == Str("[REDACTED]")
               else SameShape(fields[i].value, b.fields[i].value))
    case Arr(items) =>
      b.Arr? && |items| == |b.items| && forall i :: 0 <= i < |items| ==> SameShape(items[i], b.items[i])
    case Str(text) => b.Str? && TextShown(text, b.text)
    case _ => b == a
  }

  /** Keys, array lengths and nesting survive; every secret field holds the marker and every string
      outside them is redacted. */
  lemma {:induction false} JsonKeepsShape(v: Json)
    ensures SameShape(v, RedactJson(v))
    decreases v
  {
    match v
    case Obj(fields) =>
      forall i | 0 <= i < |fields| ensures SameShape(fields[i].value, RedactJson(fields[i].value)) {
        JsonKeepsShape(fields[i].value);
      }
      forall i | 0 <= i < |fields| ensures IsSecretField(fields[i].key) <==> HoldsSecret(fields[i].key) {
        SecretFieldsHoldSecrets(fields[i].key);
      }
    case Arr(items) =>
      forall i | 0 <= i < |items| ensures SameShape(items[i], RedactJson(items[i])) {
        JsonKeepsShape(items[i]);
      }
    case Str(text) => TextIsShown(text);
    case _ =>
  }

  lemma TextIsShown(text: string)
    ensures TextShown(text, RedactPlain(text))
  {
    LayoutIsKept(text);
    forall i | 0 <= i < |Tokens(text)| ensures ShowsRightly(Tokens(text), i, Tokens(RedactPlain(text))[i]) {
      ValuesAreHidden(text, i);
    }
  }

  lemma {:induction false} JsonIsIdempotent(v: Json)
    ensures RedactJson(RedactJson(v)) == RedactJson(v)
    decreases v
  {
    match v
    case Obj(fields) =>
      var once := RedactJson(v);
      forall i | 0 <= i < |fields| ensures RedactJson(once).fields[i] == once.fields[i] {
        if !IsSecretField(fields[i].key) {
          JsonIsIdempotent(fields[i].value);
        }
      }
      assert RedactJson(once).fields == once.fields;
    case Arr(items) =>
      var once := RedactJson(v);
      forall i | 0 <= i < |items| ensures RedactJson(once).items[i] == once.items[i] {
        JsonIsIdempotent(items[i]);
      }
      assert RedactJson(once).items == once.items;
    case Str(text) => RedactIsIdempotent(text);
    case _ =>
  }
}
