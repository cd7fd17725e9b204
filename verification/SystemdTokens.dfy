/** `tokenize_systemd_exec`: splitting an `ExecStart` line into words. */
module SystemdTokens {
  import opened Text

  datatype Quote = Unquoted | Within(mark: char)

  datatype Scanner = Scanner(tokens: seq<string>, current: string, quote: Quote, escaped: bool)

  datatype Outcome = Tokens(tokens: seq<string>) | Unterminated | UnsafeControl

  const START := Scanner([], [], Unquoted, false)

  predicate IsMark(c: char) { c == '"' || c == '\'' }

  predicate IsForbidden(c: char) { c as int == 0 || c == '\n' || c == '\r' }

  predicate HasForbidden(token: string) { exists i :: 0 <= i < |token| && IsForbidden(token[i]) }

  predicate AnyForbidden(tokens: seq<string>) { exists i :: 0 <= i < |tokens| && HasForbidden(tokens[i]) }

  /** The word under construction joins the finished ones unless it is empty. */
  function Flush(s: Scanner): seq<string> {
    if s.current == [] then s.tokens else s.tokens + [s.current]
  }

  function Step(s: Scanner, c: char): Scanner {
    if s.escaped then s.(current := s.current + [c], escaped := false)
    else if c == '\\' then s.(escaped := true)
    else if IsMark(c) && s.quote == Within(c) then s.(quote := Unquoted)
    else if IsMark(c) && s.quote == Unquoted then s.(quote := Within(c))
    else if IsWhitespace(c) && s.quote == Unquoted then s.(tokens := Flush(s), current := [])
    else s.(current := s.current + [c])
  }

  function Scan(s: Scanner, text: string): Scanner {
    if text == [] then s else Step(Scan(s, text[..|text| - 1]), text[|text| - 1])
  }

  function Finish(s: Scanner): Outcome {
    if s.quote != Unquoted || s.escaped then Unterminated
    else if AnyForbidden(Flush(s)) then UnsafeControl
    else Tokens(Flush(s))
  }

  function Tokenize(line: string): Outcome { Finish(Scan(START, line)) }

  /** The loop over characters with its four variables. */
  method TokenizeSystemdExec(value: string) returns (outcome: Outcome)
    ensures outcome == Tokenize(value)
  {
    var tokens: seq<string>, current: string := [], [];
    var quote, escaped := Unquoted, false;
    for i := 0 to |value|
      invariant Scan(START, value[..i]) == Scanner(tokens, current, quote, escaped)
    {
      assert value[..i + 1][..i] == value[..i];
      var character := value[i];
      if escaped {
        current := current + [character];
        escaped := false;
        continue;
      }
      if character == '\\' {
        escaped := true;
      } else if IsMark(character) && quote == Within(character) {
        quote := Unquoted;
      } else if IsMark(character) && quote == Unquoted {
        quote := Within(character);
      } else if IsWhitespace(character) && quote == Unquoted {
        if current != [] {
          tokens := tokens + [current];
          current := [];
        }
      } else {
        current := current + [character];
      }
    }
    assert value[..|value|] == value;
    if quote != Unquoted || escaped {
      return Unterminated;
    }
    if current != [] {
      tokens := tokens + [current];
    }
    if AnyForbidden(tokens) {
      return UnsafeControl;
    }
    return Tokens(tokens);
  }

  lemma {:induction false} ScanJoins(s: Scanner, a: string, b: string)
    ensures Scan(s, a + b) == Scan(Scan(s, a), b)
    decreases |b|
  {
    if b == [] {
      assert a + b == a;
    } else {
      assert (a + b)[..|a + b| - 1] == a + b[..|b| - 1];
      ScanJoins(s, a, b[..|b| - 1]);
    }
  }

  /** Words finished earlier have no influence on what follows. */
  lemma {:induction false} EarlierWordsStay(before: seq<string>, s: Scanner, text: string)
    ensures Scan(s.(tokens := before + s.tokens), text) ==
              var t := Scan(s, text); t.(tokens := before + t.tokens)
  {
    if text != [] {
      EarlierWordsStay(before, s, text[..|text| - 1]);
      var t := Scan(s, text[..|text| - 1]);
      assert before + (t.tokens + [t.current]) == before + t.tokens + [t.current];
    }
  }

  // ------------------------------------------------------------------------------ concatenation

  /** A blank between two accepted lines gives the words of the one and then of the other. */
  lemma JoinedLines(a: string, b: string)
    requires Tokenize(a).Tokens? && Tokenize(b).Tokens?
    ensures Tokenize(a + " " + b) == Tokens(Tokenize(a).tokens + Tokenize(b).tokens)
  {
    var s := Scan(START, a);
    ScanJoins(START, a, " ");
    ScanJoins(START, a + " ", b);
    assert " "[..0] == "";
    assert Scan(s, " ") == Step(s, ' ');
    var words := Flush(s);
    assert words + START.tokens == words;
    EarlierWordsStay(words, START, b);
    var t := Scan(START, b);
    assert words + (t.tokens + [t.current]) == words + t.tokens + [t.current];
    JoinedAreClean(words, Flush(t));
  }

  lemma JoinedAreClean(a: seq<string>, b: seq<string>)
    ensures AnyForbidden(a + b) <==> AnyForbidden(a) || AnyForbidden(b)
  {
    if AnyForbidden(a) {
      var i :| 0 <= i < |a| && HasForbidden(a[i]);
      assert HasForbidden((a + b)[i]);
    }
    if AnyForbidden(b) {
      var i :| 0 <= i < |b| && HasForbidden(b[i]);
      assert HasForbidden((a + b)[|a| + i]);
    }
  }

  // --------------------------------------------------------------------------------- round trip

  function Escaped(word: string): string {
    if word == [] then []
    else
      var c := word[|word| - 1];
      Escaped(word[..|word| - 1]) + (if c == '"' || c == '\\' then ['\\', c] else [c])
  }

  function Quoted(word: string): string { "\"" + Escaped(word) + "\"" }

  function QuotedLine(words: seq<string>): string {
    if words == [] then []
    else if |words| == 1 then Quoted(words[0])
    else QuotedLine(words[..|words| - 1]) + " " + Quoted(words[|words| - 1])
  }

  lemma {:induction false} ScanEscaped(s: Scanner, word: string)
    requires s.quote == Within('"') && !s.escaped
    ensures Scan(s, Escaped(word)) == s.(current := s.current + word)
  {
    if word == [] {
      assert s.current + word == s.current;
    } else {
      var init, c := word[..|word| - 1], word[|word| - 1];
      ScanEscaped(s, init);
      assert s.current + init + [c] == s.current + word;
      if c == '"' || c == '\\' {
        ScanJoins(s, Escaped(init), ['\\', c]);
        TwoSteps(Scan(s, Escaped(init)), '\\', c);
      } else {
        ScanJoins(s, Escaped(init), [c]);
        OneStep(Scan(s, Escaped(init)), c);
      }
    }
  }

  lemma OneStep(s: Scanner, c: char)
    ensures Scan(s, [c]) == Step(s, c)
  {
    assert [c][..0] == [];
    assert Scan(s, [c][..0]) == s;
  }

  lemma TwoSteps(s: Scanner, c: char, d: char)
    ensures Scan(s, [c, d]) == Step(Step(s, c), d)
  {
    assert [c, d] == [c] + [d];
    ScanJoins(s, [c], [d]);
    OneStep(s, c);
    OneStep(Step(s, c), d);
  }

  lemma QuotedWord(word: string)
    requires word != [] && !HasForbidden(word)
    ensures Tokenize(Quoted(word)) == Tokens([word])
  {
    var inside := Step(START, '"');
    ScanJoins(START, "\"" + Escaped(word), "\"");
    ScanJoins(START, "\"", Escaped(word));
    OneStep(START, '"');
    ScanEscaped(inside, word);
    assert [] + word == word;
    OneStep(Scan(inside, Escaped(word)), '"');
    var end := Scan(START, Quoted(word));
    assert end == Scanner([], word, Unquoted, false);
    assert Flush(end) == [word];
  }

  /** Quoting words, escaping quotes and backslashes and joining them by blanks is undone exactly. */
  lemma {:induction false} QuotedLineRoundTrip(words: seq<string>)
    requires forall i :: 0 <= i < |words| ==> words[i] != [] && !HasForbidden(words[i])
    ensures Tokenize(QuotedLine(words)) == Tokens(words)
  {
    if words == [] {
      assert Flush(START) == [];
    } else {
      var init, last := words[..|words| - 1], words[|words| - 1];
      QuotedWord(last);
      assert words == init + [last];
      if init != [] {
        QuotedLineRoundTrip(init);
        JoinedLines(QuotedLine(init), Quoted(last));
      }
    }
  }

  // ----------------------------------------------------------------------------------- rejection

  /** Where a line stands after some characters, words left aside. */
  datatype Mode = Mode(quote: Quote, escaped: bool)

  function ModeAfter(text: string): Mode {
    if text == [] then Mode(Unquoted, false)
    else
      var m, c := ModeAfter(text[..|text| - 1]), text[|text| - 1];
      if m.escaped then Mode(m.quote, false)
      else if c == '\\' then Mode(m.quote, true)
      else if (c == '"' || c == '\'') && m.quote == Within(c) then Mode(Unquoted, false)
      else if (c == '"' || c == '\'') && m.quote == Unquoted then Mode(Within(c), false)
      else m
  }

  /** Does a character become part of a word? */
  predicate IsKept(m: Mode, c: char) {
    m.escaped || (c != '\\' && (if m.quote == Unquoted then c != '"' && c != '\'' && !IsWhitespace(c) else m.quote != Within(c)))
  }

  function KeptChars(text: string): string {
    if text == [] then []
    else
      var init, c := text[..|text| - 1], text[|text| - 1];
      KeptChars(init) + (if IsKept(ModeAfter(init), c) then [c] else [])
  }

  lemma {:induction false} ScannerMode(text: string)
    ensures ModeAfter(text) == Mode(Scan(START, text).quote, Scan(START, text).escaped)
    ensures Scan(START, text).quote.Within? ==> IsMark(Scan(START, text).quote.mark)
  {
    if text != [] { ScannerMode(text[..|text| - 1]); }
  }

  lemma FlattenOneMore(lists: seq<string>, last: string)
    ensures Flatten(lists + [last]) == Flatten(lists) + last
  {
    assert (lists + [last])[..|lists|] == lists;
  }

  /** All characters held by the scanner, finished words first. */
  function Held(s: Scanner): string { Flatten(s.tokens) + s.current }

  lemma FlushedIsHeld(s: Scanner)
    ensures Flatten(Flush(s)) == Held(s)
  {
    FlattenOneMore(s.tokens, s.current);
    if s.current == [] { assert Flatten(s.tokens) + s.current == Flatten(s.tokens); }
  }

  lemma StepHolds(s: Scanner, c: char)
    requires s.quote.Within? ==> IsMark(s.quote.mark)
    ensures IsKept(Mode(s.quote, s.escaped), c) ==> Held(Step(s, c)) == Held(s) + [c]
    ensures !IsKept(Mode(s.quote, s.escaped), c) ==> Held(Step(s, c)) == Held(s)
  {
    if IsKept(Mode(s.quote, s.escaped), c) {
      assert Step(s, c).tokens == s.tokens && Step(s, c).current == s.current + [c];
    } else if Step(s, c).tokens != s.tokens || Step(s, c).current != s.current {
      FlushedIsHeld(s);
      assert Flatten(Flush(s)) + [] == Flatten(Flush(s));
    }
  }

  /** The words hold exactly the kept characters of the line, in order. */
  lemma {:induction false} WordsHoldKeptChars(text: string)
    ensures Held(Scan(START, text)) == KeptChars(text)
    ensures Flatten(Flush(Scan(START, text))) == KeptChars(text)
  {
    if text != [] {
      var init, c := text[..|text| - 1], text[|text| - 1];
      WordsHoldKeptChars(init);
      ScannerMode(init);
      StepHolds(Scan(START, init), c);
    }
    FlushedIsHeld(Scan(START, text));
  }

  lemma {:induction false} ForbiddenInFlat(words: seq<string>)
    ensures AnyForbidden(words) <==> HasForbidden(Flatten(words))
  {
    if words != [] {
      var init, last := words[..|words| - 1], words[|words| - 1];
      ForbiddenInFlat(init);
      ForbiddenInJoin(Flatten(init), last);
      assert words == init + [last];
      JoinedAreClean(init, [last]);
      assert AnyForbidden([last]) <==> HasForbidden([last][0]);
    }
  }

  lemma ForbiddenInJoin(a: string, b: string)
    ensures HasForbidden(a + b) <==> HasForbidden(a) || HasForbidden(b)
  {
    if HasForbidden(a) {
      var i :| 0 <= i < |a| && IsForbidden(a[i]);
      assert IsForbidden((a + b)[i]);
    }
    if HasForbidden(b) {
      var i :| 0 <= i < |b| && IsForbidden(b[i]);
      assert IsForbidden((a + b)[|a| + i]);
    }
  }

  predicate KeepsForbiddenAt(line: string, i: nat)
    requires i < |line|
  {
    (line[i] as int == 0 || line[i] == '\n' || line[i] == '\r') && IsKept(ModeAfter(line[..i]), line[i])
  }

  lemma {:induction false} KeptForbidden(line: string)
    ensures HasForbidden(KeptChars(line)) <==> exists i :: 0 <= i < |line| && KeepsForbiddenAt(line, i)
  {
    if line != [] {
      var init, c := line[..|line| - 1], line[|line| - 1];
      KeptForbidden(init);
      var kept: string := if IsKept(ModeAfter(init), c) then [c] else [];
      ForbiddenInJoin(KeptChars(init), kept);
      assert HasForbidden(kept) <==> kept != [] && IsForbidden(c) by {
        if kept != [] { assert kept[0] == c; }
      }
      assert forall i :: 0 <= i < |init| ==> init[..i] == line[..i] && init[i] == line[i];
      assert forall i :: 0 <= i < |init| ==> (KeepsForbiddenAt(init, i) <==> KeepsForbiddenAt(line, i));
      assert KeepsForbiddenAt(line, |init|) <==> HasForbidden(kept);
    }
  }

  /** A line is refused exactly when it ends inside a quote or escape, or keeps a NUL, CR or LF. */
  lemma {:induction false} RejectedExactly(line: string)
    ensures Tokenize(line) == Unterminated <==> ModeAfter(line) != Mode(Unquoted, false)
    ensures Tokenize(line) == UnsafeControl <==>
              ModeAfter(line) == Mode(Unquoted, false) && exists i :: 0 <= i < |line| && KeepsForbiddenAt(line, i)
    ensures Tokenize(line).Tokens? ==> Flatten(Tokenize(line).tokens) == KeptChars(line)
  {
    ScannerMode(line);
    WordsHoldKeptChars(line);
    ForbiddenInFlat(Flush(Scan(START, line)));
    KeptForbidden(line);
  }

  /** A blank outside quotes and escapes ends a word. */
  predicate Separates(m: Mode, c: char) { !m.escaped && m.quote == Unquoted && IsWhitespace(c) }

  /** The kept characters of a line in groups: a separating blank opens the next group, nothing else does. */
  function Groups(text: string): (groups: seq<string>)
    ensures groups != []
  {
    if text == [] then [[]]
    else
      var before, m, c := Groups(text[..|text| - 1]), ModeAfter(text[..|text| - 1]), text[|text| - 1];
      if Separates(m, c) then before + [[]]
      else if IsKept(m, c) then before[..|before| - 1] + [before[|before| - 1] + [c]]
      else before
  }

  function NotEmpty(groups: seq<string>): seq<string> {
    if groups == [] then []
    else NotEmpty(groups[..|groups| - 1]) + if groups[|groups| - 1] == [] then [] else [groups[|groups| - 1]]
  }

  lemma NotEmptyOneMore(groups: seq<string>, last: string)
    ensures NotEmpty(groups + [last]) == NotEmpty(groups) + if last == [] then [] else [last]
  {
    assert (groups + [last])[..|groups|] == groups;
  }

  /** The words of a line are its groups that are not empty. */
  lemma WordsAreGroups(text: string)
    ensures var s, groups := Scan(START, text), Groups(text);
            s.tokens == NotEmpty(groups[..|groups| - 1]) && s.current == groups[|groups| - 1] && Flush(s) == NotEmpty(groups)
  {
    var groups := Groups(text);
    LastGroupIsCurrent(text);
    NotEmptyOneMore(groups[..|groups| - 1], groups[|groups| - 1]);
    assert groups == groups[..|groups| - 1] + [groups[|groups| - 1]];
  }

  lemma {:induction false} LastGroupIsCurrent(text: string)
    ensures var s, groups := Scan(START, text), Groups(text);
            s.tokens == NotEmpty(groups[..|groups| - 1]) && s.current == groups[|groups| - 1]
  {
    var groups := Groups(text);
    if text != [] {
      var init, c := text[..|text| - 1], text[|text| - 1];
      var before := Groups(init);
      LastGroupIsCurrent(init);
      ScannerMode(init);
      assert before == before[..|before| - 1] + [before[|before| - 1]];
      if Separates(ModeAfter(init), c) {
        assert groups[..|groups| - 1] == before;
      } else if IsKept(ModeAfter(init), c) {
        assert groups[..|groups| - 1] == before[..|before| - 1];
      }
    }
  }

  /** No empty word is ever returned. */
  lemma {:induction false} WordsAreNotEmpty(text: string)
    ensures forall i :: 0 <= i < |Flush(Scan(START, text))| ==> Flush(Scan(START, text))[i] != []
    ensures forall i :: 0 <= i < |Scan(START, text).tokens| ==> Scan(START, text).tokens[i] != []
  {
    if text != [] { WordsAreNotEmpty(text[..|text| - 1]); }
  }
}
