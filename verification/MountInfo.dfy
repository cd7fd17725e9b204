/** `parse_mountinfo_line` and the octal escapes of mount fields. */
module MountInfo {
  import opened Text
  import opened Words

  // ------------------------------------------------------------------------------------ escapes

  /** `str::replace`: occurrences from left to right, none overlapping. */
  function Replace(s: string, what: string, replacement: char): string
    requires what != []
  {
    if s == [] then []
    else if what <= s then [replacement] + Replace(s[|what|..], what, replacement)
    else [s[0]] + Replace(s[1..], what, replacement)
  }

  /** `unescape_mount_field`: four passes over the text. */
  function Unescape(field: string): string {
    Replace(Replace(Replace(Replace(field, "\\040", ' '), "\\011", '\t'), "\\012", '\n'), "\\134", '\\')
  }

  const CODES: seq<string> := ["\\040", "\\011", "\\012", "\\134"]
  const CHARS: string := " \t\n\\"

  /** The first of the first `k` escapes that a text starts with, or `k`. */
  function CodeAt(s: string, k: nat): (i: nat)
    requires k <= 4
    ensures i <= k
    ensures i < k ==> CODES[i] <= s
  {
    if k > 0 && CodeAt(s, k - 1) < k - 1 then CodeAt(s, k - 1)
    else if k > 0 && CODES[k - 1] <= s then k - 1
    else k
  }

  /** One pass that decodes the first `k` escapes. */
  function Decode(s: string, k: nat): string
    requires k <= 4
  {
    if s == [] then []
    else if CodeAt(s, k) < k then [CHARS[CodeAt(s, k)]] + Decode(s[4..], k)
    else [s[0]] + Decode(s[1..], k)
  }

  lemma {:induction false} NothingToDecode(s: string)
    ensures Decode(s, 0) == s
  {
    if s != [] { NothingToDecode(s[1..]); }
  }

  predicate IsDigits(w: string) { forall i :: 0 <= i < |w| ==> '0' <= w[i] <= '9' }

  lemma CodeShape(k: nat)
    requires k < 4
    ensures |CODES[k]| == 4 && CODES[k][0] == '\\' && IsDigits(CODES[k][1..])
    ensures |CHARS| == 4 && !('0' <= CHARS[k] <= '9') && (k < 3 ==> CHARS[k] != '\\')
  {
  }

  /** The escapes are the character codes of blank, tab, line feed and backslash in three octal digits. */
  lemma CodesAreOctal(k: nat)
    requires k < 4
    ensures CHARS[k] in {' ', '\t', '\n', '\\'} && forall i :: 0 <= i < k ==> CHARS[i] != CHARS[k]
    ensures |CODES[k]| == 4 && CODES[k][0] == '\\'
    ensures var digits := CODES[k][1..];
            CHARS[k] as int == 64 * (digits[0] as int - 48) + 8 * (digits[1] as int - 48) + (digits[2] as int - 48)
    ensures forall i :: 1 <= i < 4 ==> '0' <= CODES[k][i] <= '7'
  {
  }

  /** Digits at the front of decoded text were there before. */
  lemma {:induction false} DigitsAreLiteral(w: string, s: string, k: nat)
    requires k <= 4 && IsDigits(w)
    ensures w <= Decode(s, k) <==> w <= s
    decreases |w|
  {
    if w != [] && s != [] {
      if CodeAt(s, k) < k {
        CodeShape(CodeAt(s, k));
        assert s[0] == CODES[CodeAt(s, k)][0];
        assert Decode(s, k)[0] == CHARS[CodeAt(s, k)];
      } else {
        DigitsAreLiteral(w[1..], s[1..], k);
        assert w == [w[0]] + w[1..] && s == [s[0]] + s[1..];
        PrefixTail(w, s);
        PrefixTail(w, Decode(s, k));
        assert Decode(s, k)[1..] == Decode(s[1..], k);
      }
    }
  }

  lemma PrefixTail(w: string, s: string)
    requires w != [] && s != []
    ensures w <= s <==> w[0] == s[0] && w[1..] <= s[1..]
  {
    if w[0] == s[0] && w[1..] <= s[1..] {
      assert w == [w[0]] + w[1..] && s == [s[0]] + s[1..];
    }
  }

  /** Every escape starts with a backslash. */
  lemma {:induction false} NotACode(s: string, k: nat)
    requires k <= 4 && s != [] && s[0] != '\\'
    ensures CodeAt(s, k) == k
  {
    if k > 0 {
      NotACode(s, k - 1);
      CodeShape(k - 1);
      PrefixTail(CODES[k - 1], s);
    }
  }

  /** Text that starts with digits decodes around them. */
  lemma {:induction false} DigitsPass(w: string, s: string, k: nat)
    requires k <= 4 && IsDigits(w)
    ensures Decode(w + s, k) == w + Decode(s, k)
    decreases |w|
  {
    if w == [] {
      assert w + s == s;
    } else {
      NotACode(w + s, k);
      assert (w + s)[1..] == w[1..] + s && (w + s)[0] == w[0];
      DigitsPass(w[1..], s, k);
      assert Decode(w + s, k) == [w[0]] + (w[1..] + Decode(s, k));
    }
  }

  /** One pass at an escape that was decoded before, at its own escape, and anywhere else. */
  lemma PassAtDecoded(s: string, k: nat)
    requires k < 4 && s != [] && CodeAt(s, k) < k
    requires Replace(Decode(s[4..], k), CODES[k], CHARS[k]) == Decode(s[4..], k + 1)
    ensures Replace(Decode(s, k), CODES[k], CHARS[k]) == Decode(s, k + 1)
  {
    var i := CodeAt(s, k);
    CodeShape(k);
    CodeShape(i);
    assert CodeAt(s, k + 1) == i;
    assert Decode(s, k) == [CHARS[i]] + Decode(s[4..], k);
    assert Decode(s, k)[1..] == Decode(s[4..], k);
  }

  lemma PassAtCode(s: string, k: nat)
    requires k < 4 && CODES[k] <= s && CodeAt(s, k) == k
    requires Replace(Decode(s[4..], k), CODES[k], CHARS[k]) == Decode(s[4..], k + 1)
    ensures Replace(Decode(s, k), CODES[k], CHARS[k]) == Decode(s, k + 1)
  {
    var code := CODES[k];
    CodeShape(k);
    assert CodeAt(s, k + 1) == k;
    assert s == code + s[4..];
    assert s[1..] == code[1..] + s[4..];
    DigitsPass(code[1..], s[4..], k);
    assert Decode(s, k) == code + Decode(s[4..], k);
    assert Decode(s, k)[4..] == Decode(s[4..], k);
  }

  lemma PassElsewhere(s: string, k: nat)
    requires k < 4 && s != [] && CodeAt(s, k) == k && !(CODES[k] <= s)
    requires Replace(Decode(s[1..], k), CODES[k], CHARS[k]) == Decode(s[1..], k + 1)
    ensures Replace(Decode(s, k), CODES[k], CHARS[k]) == Decode(s, k + 1)
  {
    var code := CODES[k];
    CodeShape(k);
    assert CodeAt(s, k + 1) == k + 1;
    PrefixTail(code, s);
    PrefixTail(code, Decode(s, k));
    assert Decode(s, k)[1..] == Decode(s[1..], k);
    DigitsAreLiteral(code[1..], s[1..], k);
  }

  /** One more replace pass decodes one more escape. */
  lemma {:induction false} OneMorePass(s: string, k: nat)
    requires k < 4
    ensures Replace(Decode(s, k), CODES[k], CHARS[k]) == Decode(s, k + 1)
    decreases |s|
  {
    CodeShape(k);
    if s != [] {
      if CodeAt(s, k) < k {
        CodeShape(CodeAt(s, k));
        OneMorePass(s[4..], k);
        PassAtDecoded(s, k);
      } else if CODES[k] <= s {
        OneMorePass(s[4..], k);
        PassAtCode(s, k);
      } else {
        OneMorePass(s[1..], k);
        PassElsewhere(s, k);
      }
    }
  }

  /** The four passes are one left-to-right decoding, on every text. */
  lemma PassesAreOneDecoding(field: string)
    ensures Unescape(field) == Decode(field, 4)
  {
    NothingToDecode(field);
    OneMorePass(field, 0);
    OneMorePass(field, 1);
    OneMorePass(field, 2);
    OneMorePass(field, 3);
  }

  // --------------------------------------------------------------------------------- round trip

  /** How the kernel writes a character of a mount field. */
  function EscapeChar(c: char): string {
    if c == ' ' then CODES[0] else if c == '\t' then CODES[1] else if c == '\n' then CODES[2]
    else if c == '\\' then CODES[3] else [c]
  }

  function Escape(text: string): string {
    if text == [] then [] else EscapeChar(text[0]) + Escape(text[1..])
  }

  lemma {:induction false} NoneOfTheFirst(s: string, k: nat)
    requires k <= 4 && forall i :: 0 <= i < k ==> !(CODES[i] <= s)
    ensures CodeAt(s, k) == k
  {
    if k > 0 { NoneOfTheFirst(s, k - 1); }
  }

  lemma {:induction false} FirstStays(s: string, k: nat, m: nat)
    requires k <= m <= 4 && CodeAt(s, k) < k
    ensures CodeAt(s, m) == CodeAt(s, k)
  {
    if k < m { FirstStays(s, k, m - 1); }
  }

  lemma CodesDiffer(i: nat, k: nat, s: string)
    requires i < k < 4
    ensures !(CODES[i] <= CODES[k] + s)
  {
    assert CODES[0][2] == '4' && CODES[1][2] == '1' && CODES[2][2] == '1' && CODES[3][2] == '3';
    assert CODES[1][3] == '1' && CODES[2][3] == '2';
    CodeShape(k);
    CodeShape(i);
    assert (CODES[k] + s)[2] == CODES[k][2] && (CODES[k] + s)[3] == CODES[k][3];
  }

  lemma CodeFound(k: nat, s: string)
    requires k < 4
    ensures CodeAt(CODES[k] + s, 4) == k
  {
    var t := CODES[k] + s;
    forall i | 0 <= i < k ensures !(CODES[i] <= t) { CodesDiffer(i, k, s); }
    NoneOfTheFirst(t, k);
    assert CODES[k] <= t;
    assert CodeAt(t, k + 1) == k;
    FirstStays(t, k + 1, 4);
  }

  /** Decoding undoes escaping. */
  lemma {:induction false} DecodeEscaped(text: string)
    ensures Decode(Escape(text), 4) == text
  {
    if text != [] {
      var c, rest := text[0], Escape(text[1..]);
      DecodeEscaped(text[1..]);
      var k := if c == ' ' then 0 else if c == '\t' then 1 else if c == '\n' then 2 else if c == '\\' then 3 else 4;
      if k < 4 {
        CodeFound(k, rest);
        assert (CODES[k] + rest)[4..] == rest;
      } else {
        var s := Escape(text);
        assert s == [c] + rest && s[1..] == rest;
        NotACode(s, 4);
      }
    }
  }

  // ------------------------------------------------------------------------------------- parsing

  datatype MountEntry = MountEntry(target: string, options: seq<string>, filesystem: string, source: string)

  datatype ParseResult = Entry(entry: MountEntry) | LacksSeparator | Incomplete

  datatype Halves = Halves(left: string, right: string) | NoHalves

  /** `split_once`. */
  function SplitOnce(s: string, separator: string): Halves {
    if separator <= s then Halves([], s[|separator|..])
    else if s == [] then NoHalves
    else
      match SplitOnce(s[1..], separator)
      case NoHalves => NoHalves
      case Halves(left, right) => Halves([s[0]] + left, right)
  }

  /** `parse_mountinfo_line`. */
  function Parse(line: string): ParseResult {
    match SplitOnce(line, " - ")
    case NoHalves => LacksSeparator
    case Halves(before, after) =>
      var left, right := Tokens(before), Tokens(after);
      if |left| < 6 || |right| < 2 then Incomplete
      else Entry(MountEntry(Unescape(left[4]), SplitOn(left[5], ','), right[0], Unescape(right[1])))
  }

  ghost predicate OccursAt(s: string, separator: string, k: int) { 0 <= k <= |s| && separator <= s[k..] }

  /** The text falls apart at the first occurrence of the separator. */
  ghost predicate FirstCut(s: string, separator: string, left: string, right: string) {
    s == left + separator + right && forall k :: k < |left| ==> !OccursAt(s, separator, k)
  }

  lemma OccursLater(s: string, separator: string, k: int)
    requires s != [] && k > 0
    ensures OccursAt(s, separator, k) <==> OccursAt(s[1..], separator, k - 1)
  {
    if k <= |s| { assert s[1..][k - 1..] == s[k..]; }
  }

  /** `split_once` cuts at the first occurrence. */
  lemma {:induction false} SplitOnceIs(s: string, separator: string)
    requires separator != []
    ensures SplitOnce(s, separator).NoHalves? ==> forall k :: !OccursAt(s, separator, k)
    ensures SplitOnce(s, separator).Halves? ==> FirstCut(s, separator, SplitOnce(s, separator).left, SplitOnce(s, separator).right)
  {
    if separator <= s {
      assert s == [] + separator + s[|separator|..];
    } else if s != [] {
      SplitOnceIs(s[1..], separator);
      assert s == [s[0]] + s[1..] && s[0..] == s;
      forall k | k > 0 ensures OccursAt(s, separator, k) <==> OccursAt(s[1..], separator, k - 1) { OccursLater(s, separator, k); }
      if SplitOnce(s[1..], separator).Halves? {
        var left, right := SplitOnce(s[1..], separator).left, SplitOnce(s[1..], separator).right;
        assert [s[0]] + (left + separator + right) == ([s[0]] + left) + separator + right;
      }
    }
  }

  lemma CutOccurs(s: string, separator: string, left: string, right: string)
    requires s == left + separator + right
    ensures OccursAt(s, separator, |left|) && left == s[..|left|] && right == s[|left| + |separator|..]
  {
    assert s[|left|..] == separator + right;
  }

  lemma CutIsUnique(s: string, separator: string, a: string, b: string, c: string, d: string)
    requires FirstCut(s, separator, a, b) && FirstCut(s, separator, c, d)
    ensures a == c && b == d
  {
    CutOccurs(s, separator, a, b);
    CutOccurs(s, separator, c, d);
  }

  ghost predicate TooFewFields(left: string, right: string) { |Tokens(left)| <= 5 || |Tokens(right)| <= 1 }

  /** A line is refused exactly when it has no separator, or too few fields on either side of the first one. */
  lemma RefusedExactly(line: string)
    ensures Parse(line) == LacksSeparator <==> forall k :: !OccursAt(line, " - ", k)
    ensures Parse(line) == Incomplete <==> exists left, right :: FirstCut(line, " - ", left, right) && TooFewFields(left, right)
  {
    SplitOnceIs(line, " - ");
    match SplitOnce(line, " - ")
    case NoHalves =>
      forall left, right | line == left + " - " + right ensures OccursAt(line, " - ", |left|) { CutOccurs(line, " - ", left, right); }
    case Halves(before, after) =>
      CutOccurs(line, " - ", before, after);
      forall left, right | FirstCut(line, " - ", left, right) ensures left == before && right == after {
        CutIsUnique(line, " - ", before, after, left, right);
      }
  }

  /** A field without the separator's first character is passed over. */
  lemma {:induction false} PassOver(word: string, s: string)
    requires ' ' !in word
    ensures SplitOnce(word + s, " - ") ==
              match SplitOnce(s, " - ")
              case NoHalves => NoHalves
              case Halves(left, right) => Halves(word + left, right)
  {
    if word == [] {
      assert word + s == s;
      if SplitOnce(s, " - ").Halves? { assert word + SplitOnce(s, " - ").left == SplitOnce(s, " - ").left; }
    } else {
      assert (word + s)[0] == word[0] && (word + s)[1..] == word[1..] + s;
      PassOver(word[1..], s);
      if SplitOnce(s, " - ").Halves? {
        assert [word[0]] + (word[1..] + SplitOnce(s, " - ").left) == word + SplitOnce(s, " - ").left;
      }
    }
  }

  lemma TokenHasNoBlank(word: string)
    requires IsToken(word)
    ensures ' ' !in word
  {
    assert IsWhitespace(' ');
  }

  /** The separator found is the one between the halves, unless a left field is a lone dash. */
  lemma {:induction false} SeparatorFound(left: seq<string>, right: string)
    requires left != [] && forall i :: 0 <= i < |left| ==> IsToken(left[i]) && left[i] != "-"
    ensures SplitOnce(Join(left, " ") + " - " + right, " - ") == Halves(Join(left, " "), right)
  {
    var word := left[0];
    TokenHasNoBlank(word);
    if |left| == 1 {
      assert word + " - " + right == word + (" - " + right);
      assert (" - " + right)[3..] == right;
      PassOver(word, " - " + right);
    } else {
      var rest := left[1..];
      var s := Join(rest, " ") + " - " + right;
      SeparatorFound(rest, right);
      Regroup(word, Join(rest, " "), right);
      PassOver(word, " " + s);
      NotYet(rest, right);
      assert (" " + s)[1..] == s;
    }
  }

  lemma Regroup(word: string, joined: string, right: string)
    ensures word + " " + joined + " - " + right == word + (" " + (joined + " - " + right))
    ensures word + ([' '] + joined) == word + " " + joined
  {
  }

  lemma NotYet(rest: seq<string>, right: string)
    requires rest != [] && IsToken(rest[0]) && rest[0] != "-"
    ensures !(" - " <= " " + (Join(rest, " ") + " - " + right))
  {
    var s := Join(rest, " ") + " - " + right;
    TokenHasNoBlank(rest[0]);
    var word := rest[0];
    assert s[..|word|] == word;
    if |word| == 1 {
      assert word == [word[0]] && s[0] == s[..1][0] == word[0];
      assert word[0] != '-' && (" " + s)[1] == word[0];
    } else {
      assert s[1] == s[..|word|][1] == word[1] && word[1] in word;
      assert (" " + s)[2] == word[1] != ' ';
    }
  }

  /** The fields of a line before it is written. */
  datatype Fields = Fields(front: seq<string>, optional: seq<string>, entry: MountEntry, rest: seq<string>)

  predicate IsField(s: string) { IsToken(s) && s != "-" }

  /** No whitespace but the kinds that are escaped. */
  predicate OnlyEscapable(s: string) {
    s != [] && forall i :: 0 <= i < |s| && IsWhitespace(s[i]) ==> s[i] == ' ' || s[i] == '\t' || s[i] == '\n'
  }

  function LeftFields(f: Fields): seq<string> {
    f.front + [Escape(f.entry.target), Join(f.entry.options, ",")] + f.optional
  }

  function RightFields(f: Fields): seq<string> {
    [f.entry.filesystem, Escape(f.entry.source)] + f.rest
  }

  function Line(f: Fields): string { Join(LeftFields(f), " ") + " - " + Join(RightFields(f), " ") }

  /** What the kernel promises of a line: no raw whitespace inside a field, no lone dash before the separator. */
  predicate Writable(f: Fields) {
    && |f.front| == 4 && (forall i :: 0 <= i < 4 ==> IsField(f.front[i]))
    && OnlyEscapable(f.entry.target) && f.entry.target != "-"
    && f.entry.options != [] && (forall i :: 0 <= i < |f.entry.options| ==> ',' !in f.entry.options[i])
    && IsField(Join(f.entry.options, ","))
    && (forall i :: 0 <= i < |f.optional| ==> IsField(f.optional[i]))
    && IsToken(f.entry.filesystem) && OnlyEscapable(f.entry.source)
    && (forall i :: 0 <= i < |f.rest| ==> IsToken(f.rest[i]))
  }

  lemma {:induction false} EscapedIsToken(s: string)
    requires forall i :: 0 <= i < |s| && IsWhitespace(s[i]) ==> s[i] == ' ' || s[i] == '\t' || s[i] == '\n'
    ensures NoBlank(Escape(s)) && (s != [] ==> Escape(s) != [])
    ensures Escape(s) == "-" ==> s == "-"
  {
    if s != [] {
      EscapedIsToken(s[1..]);
      CodesHaveNoBlank(s[0]);
      var t := EscapeChar(s[0]);
      assert Escape(s) == t + Escape(s[1..]);
      if Escape(s) == "-" {
        assert Escape(s[1..]) == [];
        assert s == [s[0]];
        assert Escape(s)[0] == t[0];
      }
    }
  }

  lemma CodesHaveNoBlank(c: char)
    requires IsWhitespace(c) ==> c == ' ' || c == '\t' || c == '\n'
    ensures NoBlank(EscapeChar(c)) && EscapeChar(c) != [] && (EscapeChar(c)[0] == '-' ==> c == '-')
  {
  }

  lemma FieldsAreTokens(f: Fields)
    requires Writable(f)
    ensures forall i :: 0 <= i < |LeftFields(f)| ==> IsField(LeftFields(f)[i])
    ensures forall i :: 0 <= i < |RightFields(f)| ==> IsToken(RightFields(f)[i])
  {
    EscapedIsToken(f.entry.target);
    EscapedIsToken(f.entry.source);
  }

  lemma HalvesFound(f: Fields)
    requires Writable(f)
    ensures SplitOnce(Line(f), " - ") == Halves(Join(LeftFields(f), " "), Join(RightFields(f), " "))
    ensures Tokens(Join(LeftFields(f), " ")) == LeftFields(f)
    ensures Tokens(Join(RightFields(f), " ")) == RightFields(f)
  {
    FieldsAreTokens(f);
    SeparatorFound(LeftFields(f), Join(RightFields(f), " "));
    JoinedFallsApart(LeftFields(f));
    JoinedFallsApart(RightFields(f));
  }

  lemma UnescapeEscaped(text: string)
    ensures Unescape(Escape(text)) == text
  {
    PassesAreOneDecoding(Escape(text));
    DecodeEscaped(text);
  }

  /** Target, options, filesystem and source are recovered from every line the kernel may write. */
  lemma LineIsParsedBack(f: Fields)
    requires Writable(f)
    ensures Parse(Line(f)) == Entry(f.entry)
  {
    HalvesFound(f);
    UnescapeEscaped(f.entry.target);
    UnescapeEscaped(f.entry.source);
    SplitJoined(f.entry.options, ',');
  }

  // --------------------------------------------------------------------------------- its limits

  lemma {:induction false} DecodedWhitespace(word: string)
    requires NoBlank(word)
    ensures forall i :: 0 <= i < |Decode(word, 4)| && IsWhitespace(Decode(word, 4)[i]) ==>
              Decode(word, 4)[i] == ' ' || Decode(word, 4)[i] == '\t' || Decode(word, 4)[i] == '\n'
    decreases |word|
  {
    if word != [] {
      if CodeAt(word, 4) < 4 {
        CodeShape(CodeAt(word, 4));
        DecodedWhitespace(word[4..]);
      } else {
        DecodedWhitespace(word[1..]);
      }
    }
  }

  /** No parsed target or source ever holds whitespace other than the escaped kinds. */
  lemma ParsedHoldsOnlyEscapable(line: string)
    requires Parse(line).Entry?
    ensures OnlyEscapable(Parse(line).entry.target) && OnlyEscapable(Parse(line).entry.source)
  {
    var halves := SplitOnce(line, " - ");
    TextIsWoven(halves.left);
    TextIsWoven(halves.right);
    var target, source := Tokens(halves.left)[4], Tokens(halves.right)[1];
    PassesAreOneDecoding(target);
    PassesAreOneDecoding(source);
    DecodedWhitespace(target);
    DecodedWhitespace(source);
  }
}
