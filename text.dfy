/**
 * Character classes and the string transformations the validation layer is
 * built from: trimming, stripping control characters and collapsing runs of
 * whitespace.  Strings are sequences of Unicode scalar values; Foundation's
 * character sets are represented by fixed predicates over code points.
 */
module Text {

  type String = seq<char>

  /** Foundation's `.newlines`: U+000A through U+000D, U+0085, U+2028, U+2029. */
  predicate IsNewline(c: char) {
    var n := c as int;
    (0x0A <= n <= 0x0D) || n == 0x85 || n == 0x2028 || n == 0x2029
  }

  /** Foundation's `.whitespaces`: the space separators and the horizontal tab. */
  predicate IsBlank(c: char) {
    var n := c as int;
    n == 0x20 || n == 0x09 || n == 0xA0 || n == 0x1680 || (0x2000 <= n <= 0x200A)
    || n == 0x202F || n == 0x205F || n == 0x3000
  }

  /** Foundation's `.whitespacesAndNewlines`, the set every trim uses. */
  predicate IsWhitespace(c: char) {
    IsBlank(c) || IsNewline(c)
  }

  /** Foundation's `.controlCharacters`: the C0 and C1 controls and the format characters. */
  predicate IsControl(c: char) {
    var n := c as int;
    n < 0x20 || (0x7F <= n <= 0x9F) || n == 0xAD || (0x200B <= n <= 0x200F)
    || (0x202A <= n <= 0x202E) || (0x2060 <= n <= 0x2064) || n == 0xFEFF
  }

  /** Foundation's `.letters`, restricted to the Latin, Greek, Cyrillic and CJK blocks. */
  predicate IsLetter(c: char) {
    var n := c as int;
    ('A' as int <= n <= 'Z' as int) || ('a' as int <= n <= 'z' as int)
    || n == 0xAA || n == 0xB5 || n == 0xBA || (0xC0 <= n <= 0xD6) || (0xD8 <= n <= 0xF6)
    || (0xF8 <= n <= 0x2C1) || (0x391 <= n <= 0x3A9) || (0x3B1 <= n <= 0x3C9)
    || (0x410 <= n <= 0x44F) || (0x4E00 <= n <= 0x9FFF)
  }

  predicate IsDigit(c: char) {
    '0' <= c <= '9'
  }

  /** Foundation's `.alphanumerics` (letters and decimal digits here). */
  predicate IsAlphanumeric(c: char) {
    IsLetter(c) || IsDigit(c)
  }

  /** The characters `controlCharacters.subtracting(.newlines)` removes. */
  predicate IsStrippedControl(c: char) {
    IsControl(c) && !IsNewline(c)
  }

  predicate AllWhitespace(s: String) {
    forall i :: 0 <= i < |s| ==> IsWhitespace(s[i])
  }

  /** No two adjacent characters are both whitespace. */
  predicate NoDoubleWhitespace(s: String) {
    forall i :: 0 <= i < |s| - 1 ==> !(IsWhitespace(s[i]) && IsWhitespace(s[i + 1]))
  }

  // ---------------------------------------------------------------------------
  // Trimming (`trimmingCharacters(in: .whitespacesAndNewlines)`)

  /** Drops the leading whitespace: the result is the suffix that starts at the first non-whitespace character. */
  function TrimStart(s: String): (r: String)
    ensures |r| <= |s| && r == s[|s| - |r|..]
    ensures r == [] || !IsWhitespace(r[0])
    ensures forall i :: 0 <= i < |s| - |r| ==> IsWhitespace(s[i])
  {
    if s != [] && IsWhitespace(s[0]) then TrimStart(s[1..]) else s
  }

  /** Drops the trailing whitespace: the result is the prefix that ends at the last non-whitespace character. */
  function TrimEnd(s: String): (r: String)
    ensures |r| <= |s| && r == s[..|r|]
    ensures r == [] || !IsWhitespace(r[|r| - 1])
    ensures forall i :: |r| <= i < |s| ==> IsWhitespace(s[i])
  {
    if s != [] && IsWhitespace(s[|s| - 1]) then TrimEnd(s[..|s| - 1]) else s
  }

  /** `trimmingCharacters(in: .whitespacesAndNewlines)`: a slice of `s` with no whitespace at either end. */
  function Trim(s: String): (r: String)
    ensures |r| <= |s|
    ensures r == [] <==> AllWhitespace(s)
    ensures r != [] ==> !IsWhitespace(r[0]) && !IsWhitespace(r[|r| - 1])
  {
    TrimEnd(TrimStart(s))
  }

  /** Trimming is idempotent. */
  lemma TrimIdempotent(s: String)
    ensures Trim(Trim(s)) == Trim(s)
  {
    var t := Trim(s);
    if t != [] {
      assert TrimStart(t) == t;
      assert TrimEnd(t) == t;
    }
  }

  /** `Trim(s)` is `s` with whitespace-only margins cut off: `s == left + Trim(s) + right`. */
  lemma TrimIsSlice(s: String)
    ensures exists i, j :: 0 <= i <= j <= |s| && Trim(s) == s[i..j]
  {
    var t := TrimStart(s);
    var i := |s| - |t|;
    var r := TrimEnd(t);
    assert r == t[..|r|] == s[i..i + |r|];
  }

  // ---------------------------------------------------------------------------
  // Removing control characters
  // (`components(separatedBy: .controlCharacters.subtracting(.newlines)).joined()`)

  /** Removes every control character that is not a newline and keeps the rest in order. */
  function StripControls(s: String): (r: String)
    ensures |r| <= |s|
    ensures forall i :: 0 <= i < |r| ==> !IsStrippedControl(r[i]) && r[i] in s
    ensures (forall i :: 0 <= i < |s| ==> !IsStrippedControl(s[i])) ==> r == s
  {
    if s == [] then []
    else if IsStrippedControl(s[0]) then StripControls(s[1..])
    else [s[0]] + StripControls(s[1..])
  }

  /** Stripping distributes over concatenation, so each character is kept or dropped on its own. */
  lemma {:induction false} StripControlsAppend(a: String, b: String)
    ensures StripControls(a + b) == StripControls(a) + StripControls(b)
  {
    if a != [] {
      assert (a + b)[1..] == a[1..] + b;
      StripControlsAppend(a[1..], b);
    } else {
      assert a + b == b;
    }
  }

  // ---------------------------------------------------------------------------
  // ---------------------------------------------------------------------------
  // Words: the maximal runs of non-whitespace characters

  /** The run of non-whitespace characters that opens `s`. */
  function WordPrefix(s: String): (w: String)
    ensures |w| <= |s| && w == s[..|w|]
    ensures forall i :: 0 <= i < |w| ==> !IsWhitespace(w[i])
    ensures |w| < |s| ==> IsWhitespace(s[|w|])
  {
    if s == [] || IsWhitespace(s[0]) then [] else [s[0]] + WordPrefix(s[1..])
  }

  /** A word: non-empty, with no whitespace in it. */
  predicate IsWord(w: String) {
    w != [] && forall i :: 0 <= i < |w| ==> !IsWhitespace(w[i])
  }

  /** The words of `s`: its maximal runs of non-whitespace characters, in order. */
  function Words(s: String): (ws: seq<String>)
    ensures forall k :: 0 <= k < |ws| ==> IsWord(ws[k])
    decreases |s|
  {
    if s == [] then []
    else if IsWhitespace(s[0]) then Words(s[1..])
    else
      var w := WordPrefix(s);
      [w] + Words(s[|w|..])
  }

  /** The words joined by single spaces. */
  function JoinWords(ws: seq<String>): String {
    if ws == [] then [] else if |ws| == 1 then ws[0] else ws[0] + [' '] + JoinWords(ws[1..])
  }

  /** One space when `s` opens with whitespace. */
  function Leading(s: String): String {
    if s != [] && IsWhitespace(s[0]) then [' '] else []
  }

  /** One space when `s` closes with whitespace after a word. */
  function Trailing(s: String): String {
    if Words(s) != [] && IsWhitespace(s[|s| - 1]) then [' '] else []
  }

  /**
   * `s` written with single spaces: its words joined by one space, with one
   * more space in front when `s` opens with whitespace and one at the end
   * when it closes with whitespace after a word.
   */
  function SingleSpaced(s: String): String {
    Leading(s) + JoinWords(Words(s)) + Trailing(s)
  }

  /** The non-whitespace characters of `s`, in order. */
  function NonWhitespace(s: String): (r: String)
    ensures forall i :: 0 <= i < |r| ==> !IsWhitespace(r[i])
  {
    if s == [] then []
    else if IsWhitespace(s[0]) then NonWhitespace(s[1..])
    else [s[0]] + NonWhitespace(s[1..])
  }

  // ---------------------------------------------------------------------------
  // Collapsing runs of whitespace (`replacingOccurrences(of: "\\s+", with: " ")`)

  /** The scan behind `CollapseWhitespace`: a run of whitespace at the front becomes one space. */
  function CollapseRuns(s: String): String
    decreases |s|
  {
    if s == [] then []
    else if IsWhitespace(s[0]) then
      var rest := TrimStart(s);
      assert rest != s;
      [' '] + CollapseRuns(rest)
    else
      [s[0]] + CollapseRuns(s[1..])
  }

  /**
   * Replaces every maximal run of whitespace by a single space: the words
   * stay as they are, one space separates two words, and one space stands
   * in front or at the end where `s` opens or closes with whitespace.
   */
  function CollapseWhitespace(s: String): (r: String)
    ensures |r| <= |s|
    ensures r == [] <==> s == []
    ensures r != [] ==> (IsWhitespace(r[0]) <==> IsWhitespace(s[0]))
    ensures NoDoubleWhitespace(r)
    ensures forall i :: 0 <= i < |r| ==> if IsWhitespace(r[i]) then r[i] == ' ' else r[i] in s
    ensures Words(r) == Words(s)
    ensures r == SingleSpaced(s)
  {
    CollapseRunsShape(s);
    CollapseRunsSingleSpaced(s);
    CollapseRunsKeepsWords(s);
    CollapseRuns(s)
  }

  lemma TrimStartSkipsBlank(c: char, s: String)
    requires IsWhitespace(c)
    ensures TrimStart([c] + s) == TrimStart(s)
  {
    assert ([c] + s)[1..] == s;
  }

  lemma TrimStartKeepsWord(c: char, s: String)
    requires !IsWhitespace(c)
    ensures TrimStart([c] + s) == [c] + s
  {
  }

  /** A leading run of whitespace becomes one space before the collapsed rest. */
  lemma CollapseBlankRun(c: char, s: String)
    requires IsWhitespace(c)
    ensures CollapseWhitespace([c] + s) == [' '] + CollapseWhitespace(TrimStart(s))
  {
    TrimStartSkipsBlank(c, s);
  }

  /** A leading non-whitespace character is kept before the collapsed rest. */
  lemma CollapseWord(c: char, s: String)
    requires !IsWhitespace(c)
    ensures CollapseWhitespace([c] + s) == [c] + CollapseWhitespace(s)
  {
    assert ([c] + s)[1..] == s;
  }

  /** The shape facts `CollapseWhitespace` promises, for the scan. */
  lemma {:induction false} CollapseRunsShape(s: String)
    ensures var r := CollapseRuns(s);
      && |r| <= |s|
      && (r == [] <==> s == [])
      && (r != [] ==> (IsWhitespace(r[0]) <==> IsWhitespace(s[0])))
      && NoDoubleWhitespace(r)
      && forall i :: 0 <= i < |r| ==> if IsWhitespace(r[i]) then r[i] == ' ' else r[i] in s
    decreases |s|
  {
    if s != [] {
      var r := CollapseRuns(s);
      var rest := if IsWhitespace(s[0]) then TrimStart(s) else s[1..];
      CollapseRunsShape(rest);
      var r' := CollapseRuns(rest);
      assert r == [if IsWhitespace(s[0]) then ' ' else s[0]] + r';
      assert rest == s[|s| - |rest|..];
      forall i | 1 <= i < |r| && !IsWhitespace(r[i])
        ensures r[i] in s
      {
        assert r[i] == r'[i - 1];
        var k :| 0 <= k < |rest| && rest[k] == r[i];
        assert s[|s| - |rest| + k] == r[i];
      }
    }
  }

  /** The non-whitespace characters of `s` are those after its leading whitespace. */
  lemma {:induction false} NonWhitespaceOfBlankPrefix(s: String, k: nat)
    requires k <= |s|
    requires forall i :: 0 <= i < k ==> IsWhitespace(s[i])
    ensures NonWhitespace(s) == NonWhitespace(s[k..])
  {
    if k > 0 {
      NonWhitespaceOfBlankPrefix(s[1..], k - 1);
      assert s[1..][k - 1..] == s[k..];
    }
  }

  /** Collapsing loses no character other than whitespace, and keeps their order. */
  lemma CollapsePreservesContent(s: String)
    ensures NonWhitespace(CollapseWhitespace(s)) == NonWhitespace(s)
  {
    CollapseRunsPreservesContent(s);
  }

  lemma {:induction false} CollapseRunsPreservesContent(s: String)
    ensures NonWhitespace(CollapseRuns(s)) == NonWhitespace(s)
    decreases |s|
  {
    if s != [] {
      var r := CollapseRuns(s);
      if IsWhitespace(s[0]) {
        var rest := TrimStart(s);
        CollapseRunsPreservesContent(rest);
        assert r[1..] == CollapseRuns(rest);
        NonWhitespaceOfBlankPrefix(s, |s| - |rest|);
      } else {
        CollapseRunsPreservesContent(s[1..]);
        assert r[1..] == CollapseRuns(s[1..]);
      }
    }
  }

  // ---------------------------------------------------------------------------
  // The scan writes the words with single spaces

  lemma SplitAt(t: String, n: nat)
    requires n <= |t|
    ensures t == t[..n] + t[n..]
  {
  }

  lemma ConsSplit(w: String, t: String)
    requires w != []
    ensures w + t == [w[0]] + (w[1..] + t)
  {
  }

  lemma Assoc<T>(a: seq<T>, b: seq<T>, c: seq<T>, d: seq<T>)
    ensures a + (b + (c + d)) == a + b + c + d
  {
  }

  /** A word followed by nothing or by whitespace is the opening run. */
  lemma {:induction false} WordPrefixOfWord(w: String, rest: String)
    requires forall i :: 0 <= i < |w| ==> !IsWhitespace(w[i])
    requires rest == [] || IsWhitespace(rest[0])
    ensures WordPrefix(w + rest) == w
    decreases |w|
  {
    if w == [] {
      assert w + rest == rest;
    } else {
      ConsSplit(w, rest);
      var v := w[1..];
      assert forall i :: 0 <= i < |v| ==> !IsWhitespace(v[i]) by {
        assert forall i :: 0 <= i < |v| ==> v[i] == w[i + 1];
      }
      WordPrefixOfWord(v, rest);
      ConsSplit(w, []);
      assert [w[0]] + v == w;
    }
  }

  /** `Words` sees only what follows the leading whitespace. */
  lemma {:induction false} WordsSkipsBlanks(s: String)
    ensures Words(s) == Words(TrimStart(s))
    decreases |s|
  {
    if s != [] && IsWhitespace(s[0]) {
      WordsSkipsBlanks(s[1..]);
    }
  }

  /** Leading whitespace changes no word. */
  lemma WordsOfBlank(c: char, s: String)
    requires IsWhitespace(c)
    ensures Words([c] + s) == Words(s)
  {
    assert ([c] + s)[1..] == s;
  }

  /** Text that opens with a non-whitespace character opens with its first word. */
  lemma WordsOfWordStart(t: String)
    requires t != [] && !IsWhitespace(t[0])
    ensures Words(t) == [WordPrefix(t)] + Words(t[|WordPrefix(t)|..])
  {
  }

  /** A word in front of nothing or of whitespace is the first word. */
  lemma WordsOfWordThen(w: String, rest: String)
    requires IsWord(w)
    requires rest == [] || IsWhitespace(rest[0])
    ensures Words(w + rest) == [w] + Words(rest)
  {
    var s := w + rest;
    WordPrefixOfWord(w, rest);
    WordsOfWordStart(s);
    assert s[|w|..] == rest;
  }

  /** The scan leaves a word in front of the rest untouched. */
  lemma {:induction false} RunsKeepWord(w: String, rest: String)
    requires forall i :: 0 <= i < |w| ==> !IsWhitespace(w[i])
    ensures CollapseRuns(w + rest) == w + CollapseRuns(rest)
    decreases |w|
  {
    if w == [] {
      assert w + rest == rest;
    } else {
      var v := w[1..];
      ConsSplit(w, rest);
      assert (w + rest)[1..] == v + rest;
      assert forall i :: 0 <= i < |v| ==> !IsWhitespace(v[i]) by {
        assert forall i :: 0 <= i < |v| ==> v[i] == w[i + 1];
      }
      RunsKeepWord(v, rest);
      ConsSplit(w, CollapseRuns(rest));
    }
  }

  /** Joining a word in front of at least one more word puts one space after it. */
  lemma JoinWordsCons(w: String, ws: seq<String>)
    requires ws != []
    ensures JoinWords([w] + ws) == w + [' '] + JoinWords(ws)
  {
    assert ([w] + ws)[1..] == ws;
  }

  /** What follows the first word of `t` and the whitespace after it. */
  function AfterFirstWord(t: String): (v: String)
    requires t != [] && !IsWhitespace(t[0])
    ensures |v| < |t| && (v == [] || !IsWhitespace(v[0]))
  {
    TrimStart(t[|WordPrefix(t)|..])
  }

  /** The scan of text that does not open with whitespace: its words joined, then the trailing space. */
  lemma {:induction false} RunsFromWord(t: String)
    requires t == [] || !IsWhitespace(t[0])
    ensures CollapseRuns(t) == JoinWords(Words(t)) + Trailing(t)
    decreases |t|
  {
    if t == [] {
      assert Words(t) == [] && Trailing(t) == [];
    } else {
      var v := AfterFirstWord(t);
      RunsFromWord(v);
      var w := WordPrefix(t);
      var u := t[|w|..];
      if u == [] {
        RunsOneWord(t, w, u);
      } else if TrimStart(u) == [] {
        RunsWordThenBlanks(t, w, u);
      } else {
        RunsWordThenMore(t, w, u);
      }
    }
  }

  /** `RunsFromWord` when `t` is a single word. */
  lemma RunsOneWord(t: String, w: String, u: String)
    requires t != [] && !IsWhitespace(t[0])
    requires w == WordPrefix(t) && u == t[|w|..] && u == []
    ensures CollapseRuns(t) == JoinWords(Words(t)) + Trailing(t)
  {
    WordsOfWordStart(t);
    SplitAt(t, |w|);
    RunsKeepWord(w, u);
    assert w + [] == w;
    assert Words(t) == [w];
  }

  /** `RunsFromWord` when one word is followed by whitespace only. */
  lemma RunsWordThenBlanks(t: String, w: String, u: String)
    requires t != [] && !IsWhitespace(t[0])
    requires w == WordPrefix(t) && u == t[|w|..] && u != [] && TrimStart(u) == []
    ensures CollapseRuns(t) == JoinWords(Words(t)) + Trailing(t)
  {
    WordsOfWordStart(t);
    SplitAt(t, |w|);
    RunsKeepWord(w, u);
    assert CollapseRuns(u) == [' '];
    LastOfConcat(w, u);
    WordsSkipsBlanks(u);
    assert [w] + [] == [w];
  }

  /** `RunsFromWord` when whitespace and more words follow the first word. */
  lemma RunsWordThenMore(t: String, w: String, u: String)
    requires t != [] && !IsWhitespace(t[0])
    requires w == WordPrefix(t) && u == t[|w|..] && u != [] && TrimStart(u) != []
    requires var v := AfterFirstWord(t); CollapseRuns(v) == JoinWords(Words(v)) + Trailing(v)
    ensures CollapseRuns(t) == JoinWords(Words(t)) + Trailing(t)
  {
    var v := TrimStart(u);
    WordsOfWordStart(t);
    WordsSkipsBlanks(u);
    SplitAt(t, |w|);
    assert t == w + u;
    RunsKeepWord(w, u);
    assert CollapseRuns(u) == [' '] + CollapseRuns(v);
    TrailingOfSameEnd(t, w, u, v);
    JoinAfterWord(w, Words(v), CollapseRuns(t), CollapseRuns(u), CollapseRuns(v), Trailing(v));
  }

  lemma LastOfConcat(w: String, u: String)
    requires u != []
    ensures (w + u)[|w + u| - 1] == u[|u| - 1]
  {
  }

  lemma LastOfTrimStart(u: String)
    requires TrimStart(u) != []
    ensures TrimStart(u)[|TrimStart(u)| - 1] == u[|u| - 1]
  {
    var v := TrimStart(u);
    assert v == u[|u| - |v|..];
  }

  lemma TrailingOfSameEnd(t: String, w: String, u: String, v: String)
    requires t == w + u && u != [] && v == TrimStart(u) && v != []
    requires Words(t) == [w] + Words(u) && Words(u) == Words(v)
    ensures Trailing(t) == Trailing(v)
  {
    LastOfConcat(w, u);
    LastOfTrimStart(u);
    WordsOfWordStart(v);
  }

  lemma JoinAfterWord(w: String, ws: seq<String>, ct: String, cu: String, cv: String, trail: String)
    requires ws != []
    requires ct == w + cu && cu == [' '] + cv && cv == JoinWords(ws) + trail
    ensures ct == JoinWords([w] + ws) + trail
  {
    JoinWordsCons(w, ws);
    Assoc(w, [' '], JoinWords(ws), trail);
  }

  /** The scan writes the words of `s` with single spaces. */
  lemma CollapseRunsSingleSpaced(s: String)
    ensures CollapseRuns(s) == SingleSpaced(s)
  {
    if s != [] && IsWhitespace(s[0]) {
      RunsFromBlank(s);
    } else {
      RunsFromWord(s);
      NoLeadingSpace(s);
    }
  }

  /** Text that does not open with whitespace gets no leading space. */
  lemma NoLeadingSpace(s: String)
    requires s == [] || !IsWhitespace(s[0])
    ensures SingleSpaced(s) == JoinWords(Words(s)) + Trailing(s)
  {
    var joined := JoinWords(Words(s));
    assert Leading(s) == [];
    assert [] + joined == joined;
  }

  /** `CollapseRunsSingleSpaced` when `s` opens with whitespace. */
  lemma RunsFromBlank(s: String)
    requires s != [] && IsWhitespace(s[0])
    ensures CollapseRuns(s) == SingleSpaced(s)
  {
    var t := TrimStart(s);
    RunsFromWord(t);
    WordsSkipsBlanks(s);
    assert t == s[|s| - |t|..];
    if t != [] {
      assert s[|s| - 1] == t[|t| - 1];
    }
    LeadingSpace(s, t, CollapseRuns(s), CollapseRuns(t));
  }

  lemma LeadingSpace(s: String, t: String, rs: String, rt: String)
    requires s != [] && IsWhitespace(s[0])
    requires rs == [' '] + rt && rt == JoinWords(Words(t)) + Trailing(t)
    requires Words(s) == Words(t) && Trailing(s) == Trailing(t)
    ensures rs == SingleSpaced(s)
  {
    assert Leading(s) == [' '];
  }

  /** Reading the words back out of words joined by single spaces. */
  lemma {:induction false} WordsOfJoinWords(ws: seq<String>, trail: String)
    requires forall k :: 0 <= k < |ws| ==> IsWord(ws[k])
    requires trail == [] || trail == [' ']
    ensures Words(JoinWords(ws) + trail) == ws
  {
    if ws == [] {
      assert JoinWords(ws) + trail == trail;
      if trail != [] {
        WordsOfBlank(' ', []);
      }
    } else if |ws| == 1 {
      WordsOfWordThen(ws[0], trail);
      if trail != [] {
        WordsOfBlank(' ', []);
      }
    } else {
      var rest := JoinWords(ws[1..]) + trail;
      WordsOfJoinWords(ws[1..], trail);
      WordsOfJoinStep(ws, trail, rest);
    }
  }

  lemma WordsOfJoinStep(ws: seq<String>, trail: String, rest: String)
    requires |ws| >= 2 && IsWord(ws[0])
    requires rest == JoinWords(ws[1..]) + trail && Words(rest) == ws[1..]
    ensures Words(JoinWords(ws) + trail) == ws
  {
    assert JoinWords(ws) + trail == ws[0] + ([' '] + rest);
    WordsOfWordThen(ws[0], [' '] + rest);
    WordsOfBlank(' ', rest);
    assert [ws[0]] + ws[1..] == ws;
  }

  /** The scan keeps exactly the words of `s`, in order. */
  lemma CollapseRunsKeepsWords(s: String)
    ensures Words(CollapseRuns(s)) == Words(s)
  {
    CollapseRunsSingleSpaced(s);
    WordsOfSingleSpaced(s);
  }

  /** Single spacing keeps exactly the words. */
  lemma WordsOfSingleSpaced(s: String)
    ensures Words(SingleSpaced(s)) == Words(s)
  {
    var lead, joined, trail := Leading(s), JoinWords(Words(s)), Trailing(s);
    WordsOfJoinWords(Words(s), trail);
    assert SingleSpaced(s) == lead + (joined + trail);
    if lead != [] {
      WordsOfBlank(' ', joined + trail);
    } else {
      assert lead + (joined + trail) == joined + trail;
    }
  }
}
