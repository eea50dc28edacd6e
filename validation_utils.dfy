/**
 * `ValidationUtils`: the checks and sanitizers the screens and view models
 * apply to user input, and their agreement with the validating initializers
 * of `User`, `JournalEntry` and `Letter`.
 */
module ValidationUtils {

  import opened Text
  import opened Wrappers
  import opened Errors
  import opened Dates
  import opened Users
  import opened JournalEntries
  import opened Letters
  import opened Identifiers
  import opened RecurrencePatterns
  import opened Filters

  /** `isValidLength`: the trimmed length lies in [minLength, maxLength]. */
  function IsValidLength(text: String, minLength: int, maxLength: int): (r: bool)
    ensures r ==> |Trim(text)| <= maxLength
    ensures minLength >= 1 && r ==> !AllWhitespace(text)
    ensures r <==> minLength <= CharacterCount(text) <= maxLength
  {
    minLength <= |Trim(text)| <= maxLength
  }

  /** The journal step check is the length check with bounds 1 and 140. */
  lemma IsValidJournalTextIsLengthCheck(text: String)
    ensures IsValidJournalText(text) <==> IsValidLength(text, 1, MaxTextLength)
    ensures IsValidLength(text, 1, MaxTextLength) <==> ValidateText(text).Ok?
  {
  }

  /** `isEmpty`: nothing is left after trimming. */
  function IsEmpty(text: String): (r: bool)
    ensures r <==> AllWhitespace(text)
  {
    Trim(text) == []
  }

  /** `characterCount`: the length after trimming. */
  function CharacterCount(text: String): (r: nat)
    ensures r <= |text|
    ensures r == 0 <==> AllWhitespace(text)
  {
    |Trim(text)|
  }

  /**
   * `sanitizeText`: trim, remove control characters other than newlines, then
   * replace every run of `\s` (newlines included) by one space.  Despite the
   * source's comment, newlines do not survive.
   */
  function SanitizeText(text: String): (r: String)
    ensures forall i :: 0 <= i < |r| ==> !IsNewline(r[i]) && !IsStrippedControl(r[i])
    ensures NoDoubleWhitespace(r)
    ensures NonWhitespace(r) == NonWhitespace(StripControls(Trim(text)))
    ensures Words(r) == Words(StripControls(Trim(text)))
    ensures r == SingleSpaced(StripControls(Trim(text)))
  {
    var stripped := StripControls(Trim(text));
    CollapsePreservesContent(stripped);
    CollapseLeavesNoNewlineOrControl(stripped);
    CollapseWhitespace(stripped)
  }

  /** Collapsing a string without stripped controls leaves neither newlines nor stripped controls. */
  lemma CollapseLeavesNoNewlineOrControl(s: String)
    requires forall i :: 0 <= i < |s| ==> !IsStrippedControl(s[i])
    ensures var r := CollapseWhitespace(s);
      forall i :: 0 <= i < |r| ==> !IsNewline(r[i]) && !IsStrippedControl(r[i])
  {
    var r := CollapseWhitespace(s);
    forall i | 0 <= i < |r| ensures !IsNewline(r[i]) && !IsStrippedControl(r[i]) {
      if !IsWhitespace(r[i]) {
        var k :| 0 <= k < |s| && s[k] == r[i];
      }
    }
  }

  /**
   * Any run of newlines between two words becomes a single space, so the
   * sanitized text keeps no line break.
   */
  lemma SanitizeTextJoinsLines(x: char, newlines: String, y: char)
    requires !IsWhitespace(x) && !IsStrippedControl(x) && !IsWhitespace(y) && !IsStrippedControl(y)
    requires newlines != [] && forall i :: 0 <= i < |newlines| ==> IsNewline(newlines[i])
    ensures SanitizeText([x] + newlines + [y]) == [x, ' ', y]
  {
    var tail := newlines + [y];
    var s := [x] + tail;
    assert [x] + newlines + [y] == s;
    assert TrimStart(s) == s;
    assert TrimEnd(s) == s by {
      assert s[|s| - 1] == y;
    }
    assert forall i :: 0 <= i < |s| ==> !IsStrippedControl(s[i]) by {
      forall i | 0 <= i < |s| ensures !IsStrippedControl(s[i]) {
        if 0 < i < |s| - 1 {
          assert s[i] == newlines[i - 1];
        }
      }
    }
    assert Trim(s) == s;
    assert StripControls(s) == s;
    CollapseWordBreak(x, newlines, y);
    assert SanitizeText(s) == CollapseWhitespace(s);
  }

  /** A word, a run of whitespace and a word collapse to the two words around one space. */
  lemma CollapseWordBreak(x: char, blanks: String, y: char)
    requires !IsWhitespace(x) && !IsWhitespace(y) && blanks != [] && AllWhitespace(blanks)
    ensures CollapseWhitespace([x] + (blanks + [y])) == [x, ' ', y]
  {
    CollapseWord(x, blanks + [y]);
    CollapseBlankPrefix(blanks, [y]);
    CollapseWord(y, []);
    assert [y] + [] == [y];
    ThreeChars(x, ' ', y);
  }

  lemma SplitHead(s: String, t: String)
    requires s != []
    ensures s + t == [s[0]] + (s[1..] + t)
  {
    assert s == [s[0]] + s[1..];
  }

  lemma ThreeChars(a: char, b: char, c: char)
    ensures [a] + ([b] + [c]) == [a, b, c]
  {
  }

  /** A non-empty run of whitespace before a word collapses to one space. */
  lemma CollapseBlankPrefix(blanks: String, rest: String)
    requires blanks != [] && AllWhitespace(blanks) && (rest == [] || !IsWhitespace(rest[0]))
    ensures CollapseWhitespace(blanks + rest) == [' '] + CollapseWhitespace(rest)
  {
    var tail := blanks[1..];
    assert AllWhitespace(tail) && IsWhitespace(blanks[0]);
    TrimStartOfBlankPrefix(tail, rest);
    SplitHead(blanks, rest);
    CollapseBlankRun(blanks[0], tail + rest);
  }

  lemma {:induction false} TrimStartOfBlankPrefix(blanks: String, rest: String)
    requires AllWhitespace(blanks) && (rest == [] || !IsWhitespace(rest[0]))
    ensures TrimStart(blanks + rest) == rest
  {
    if blanks != [] {
      SplitHead(blanks, rest);
      TrimStartSkipsBlank(blanks[0], blanks[1..] + rest);
      TrimStartOfBlankPrefix(blanks[1..], rest);
    } else {
      assert blanks + rest == rest;
    }
  }

  /** Keeps the name characters of `s`, in order. */
  function KeepNameChars(s: String): (r: String)
    ensures AllNameChars(r)
    ensures forall c :: c in r <==> c in s && IsNameChar(c)
    ensures AllNameChars(s) ==> r == s
    ensures r == Filter(s, IsNameChar)
  {
    if s == [] then []
    else if IsNameChar(s[0]) then [s[0]] + KeepNameChars(s[1..])
    else KeepNameChars(s[1..])
  }

  /** Filtering name characters distributes over concatenation, so every name character is kept, in order. */
  lemma KeepNameCharsAppend(a: String, b: String)
    ensures KeepNameChars(a + b) == KeepNameChars(a) + KeepNameChars(b)
  {
    FilterAppend(a, b, IsNameChar);
  }

  /**
   * `sanitizeName`: trim, keep only letters, `.whitespaces`, `-` and `'`,
   * then collapse whitespace runs to one space.
   */
  function SanitizeName(text: String): (r: String)
    ensures AllNameChars(r)
    ensures NoDoubleWhitespace(r)
    ensures NonWhitespace(r) == NonWhitespace(KeepNameChars(Trim(text)))
    ensures Words(r) == Words(KeepNameChars(Trim(text)))
    ensures r == SingleSpaced(KeepNameChars(Trim(text)))
  {
    var kept := KeepNameChars(Trim(text));
    CollapsePreservesContent(kept);
    var r := CollapseWhitespace(kept);
    assert forall i :: 0 <= i < |r| ==> IsNameChar(r[i]) by {
      forall i | 0 <= i < |r| ensures IsNameChar(r[i]) {
        if !IsWhitespace(r[i]) {
          var k :| 0 <= k < |kept| && kept[k] == r[i];
        }
      }
    }
    r
  }

  /** `isValidName`: the trimmed name has 1 to 50 characters, all of them name characters. */
  function IsValidName(name: String): (r: bool)
    ensures r <==> IsValidLength(name, MinNameLength, MaxNameLength) && AllNameChars(Trim(name))
    ensures r ==> !AllWhitespace(name)
  {
    var trimmed := Trim(name);
    MinNameLength <= |trimmed| <= MaxNameLength && AllNameChars(trimmed)
  }

  /** The screen's name check agrees exactly with the `User` initializer. */
  lemma IsValidNameIffUserAccepts(name: String, now: Time)
    ensures IsValidName(name) <==> NewUser(name, now).Ok?
  {
  }

  /** `isValidJournalText`: non-empty and at most 140 characters after trimming. */
  function IsValidJournalText(text: String): (r: bool)
    ensures r ==> !AllWhitespace(text)
  {
    var trimmed := Trim(text);
    trimmed != [] && |trimmed| <= MaxTextLength
  }

  /** The step check agrees exactly with `JournalEntry.validateText`. */
  lemma IsValidJournalTextIffValidateText(text: String)
    ensures IsValidJournalText(text) <==> ValidateText(text).Ok?
  {
  }

  /** `remainingCharacters`: `maxLength` minus the trimmed count, never below zero. */
  function RemainingCharacters(text: String, maxLength: int): (r: int)
    ensures r >= 0
    ensures maxLength - CharacterCount(text) >= 0 ==> r == maxLength - CharacterCount(text)
    ensures maxLength - CharacterCount(text) < 0 ==> r == 0
  {
    var count := CharacterCount(text);
    if maxLength - count > 0 then maxLength - count else 0
  }

  /** `isValidLetterSubject`: blank is valid (the subject is optional), else at most 50 trimmed characters. */
  function IsValidLetterSubject(subject: String): (r: bool)
    ensures AllWhitespace(subject) ==> r
  {
    if IsEmpty(subject) then true else CharacterCount(subject) <= MaxSubjectLength
  }

  /** The subject check agrees exactly with the `Letter` initializer's subject rule. */
  lemma IsValidLetterSubjectIffLetterAccepts(subject: String)
    ensures IsValidLetterSubject(subject) <==> ValidateSubject(Some(subject)).Ok?
  {
  }

  /** `isValidLetterBody`: at most 500 trimmed characters; there is no minimum. */
  function IsValidLetterBody(body: String): (r: bool)
    ensures AllWhitespace(body) ==> r
  {
    |Trim(body)| <= MaxBodyLength
  }

  /** The body check is weaker than the `Letter` initializer: it accepts exactly what the initializer accepts plus blank bodies. */
  lemma IsValidLetterBodyVersusLetter(body: String)
    ensures IsValidLetterBody(body) <==> (ValidateBody(body).Ok? || AllWhitespace(body))
    ensures AllWhitespace(body) ==> ValidateBody(body) == Err(EmptyText)
  {
  }

  /** `isFutureDate`: `date` lies at least the minimum scheduling delay after `now`. */
  function IsFutureDate(date: Time, now: Time): (r: bool)
    ensures r ==> date > now
  {
    date - now >= MinScheduleDelay
  }

  /** Once subject and body pass, the `Letter` initializer accepts a date exactly when `isFutureDate` does. */
  lemma IsFutureDateIffLetterAccepts(subject: Option<String>, body: String, scheduledDate: Time,
                                     recurrence: RecurrencePattern, newId: Id, now: Time)
    requires ValidateSubject(subject).Ok? && ValidateBody(body).Ok?
    ensures NewLetter(subject, body, scheduledDate, recurrence, newId, now).Ok? <==> IsFutureDate(scheduledDate, now)
    ensures !IsFutureDate(scheduledDate, now) ==>
      NewLetter(subject, body, scheduledDate, recurrence, newId, now) == Err(LetterFailure(ScheduledDateMustBeInFuture))
  {
  }

  /** `isValidJournalDate`: the date's day is today or earlier. */
  function IsValidJournalDate(date: Time, now: Time): (r: bool)
    ensures r <==> DayNumber(date) <= DayNumber(now)
  {
    StartOfDay(date) <= StartOfDay(now)
  }
}
