/** `JournalEntry`: one day's mood and four short reflections. */
module JournalEntries {

  import opened Text
  import opened Wrappers
  import opened Errors
  import opened Dates
  import opened Identifiers
  import opened MoodTypes

  const MaxTextLength: int := 140

  /**
   * A journal entry.  The datatype constructor is the unvalidated
   * reconstruction initializer: it stores all nine fields as given.
   */
  datatype JournalEntry = JournalEntry(
    id: Id,
    date: Time,
    mood: MoodType,
    struggle: String,
    gratitude: String,
    memory: String,
    lookingForward: String,
    createdAt: Time,
    modifiedAt: Time)
  {
    /** The "yyyy-MM-dd" key of the entry's date. */
    function DateKey(): String {
      Dates.DateKey(date)
    }
  }

  /** An entry's key spells the day of its date; the time of day plays no part. */
  lemma EntryKeySpellsDay(e: JournalEntry)
    ensures SpellsDate(e.DateKey(), CivilOf(e.date))
    ensures e.DateKey() == Dates.DateKey(StartOfDay(e.date))
  {
    DateKeySpellsDay(e.date);
  }

  /**
   * `validateText`: trim, reject empty and over-long text, then remove
   * control characters other than newlines.  The checks look at the trimmed
   * text before the control characters are removed.
   */
  function ValidateText(text: String): (r: Result<String, ValidationError>)
    ensures r == Err(EmptyText) <==> AllWhitespace(text)
    ensures r == Err(TextTooLong(MaxTextLength)) <==> |Trim(text)| > MaxTextLength
    ensures r.Ok? <==> !AllWhitespace(text) && |Trim(text)| <= MaxTextLength
    ensures r.Ok? ==> |r.value| <= MaxTextLength
    ensures r.Ok? ==> forall i :: 0 <= i < |r.value| ==> !IsStrippedControl(r.value[i])
    ensures r.Ok? ==> r.value == StripControls(Trim(text))
  {
    var trimmed := Trim(text);
    if trimmed == [] then Err(EmptyText)
    else if |trimmed| > MaxTextLength then Err(TextTooLong(MaxTextLength))
    else Ok(StripControls(trimmed))
  }

  /** A text made of one control character passes validation and is stored empty. */
  lemma ControlOnlyTextValidatesToEmpty()
    ensures ValidateText(['\U{0001}']) == Ok([])
  {
    var s := ['\U{0001}'];
    assert !IsWhitespace(s[0]);
    assert TrimStart(s) == s && TrimEnd(s) == s;
    assert IsStrippedControl(s[0]);
    assert StripControls(s) == StripControls(s[1..]) == [];
  }

  /** Stripping a leading control character can leave a leading space in validated text. */
  lemma ValidatedTextMayStartWithSpace()
    ensures ValidateText(['\U{0001}', ' ', 'a']) == Ok([' ', 'a'])
  {
    var s := ['\U{0001}', ' ', 'a'];
    assert !IsWhitespace(s[0]) && !IsWhitespace(s[2]);
    assert TrimStart(s) == s && TrimEnd(s) == s;
    assert IsStrippedControl(s[0]) && !IsStrippedControl(s[1]) && !IsStrippedControl(s[2]);
    assert s[1..] == [' ', 'a'] && s[1..][1..] == ['a'] && s[1..][1..][1..] == [];
    assert StripControls(s) == StripControls(s[1..]) == [' '] + StripControls(['a']);
  }

  datatype Reflections = Reflections(struggle: String, gratitude: String, memory: String, lookingForward: String)

  /** Validates the four texts in the order struggle, gratitude, memory, lookingForward; the first failure wins. */
  function ValidateReflections(struggle: String, gratitude: String, memory: String, lookingForward: String)
    : (r: Result<Reflections, ValidationError>)
    ensures ValidateText(struggle).Err? ==> r == Err(ValidateText(struggle).error)
    ensures ValidateText(struggle).Ok? && ValidateText(gratitude).Err? ==> r == Err(ValidateText(gratitude).error)
    ensures ValidateText(struggle).Ok? && ValidateText(gratitude).Ok? && ValidateText(memory).Err?
      ==> r == Err(ValidateText(memory).error)
    ensures (ValidateText(struggle).Ok? && ValidateText(gratitude).Ok? && ValidateText(memory).Ok?
             && ValidateText(lookingForward).Err?) ==> r == Err(ValidateText(lookingForward).error)
    ensures r.Ok? <==> (ValidateText(struggle).Ok? && ValidateText(gratitude).Ok?
                        && ValidateText(memory).Ok? && ValidateText(lookingForward).Ok?)
    ensures r.Ok? ==> r.value == Reflections(ValidateText(struggle).value, ValidateText(gratitude).value,
      ValidateText(memory).value, ValidateText(lookingForward).value)
  {
    match ValidateText(struggle)
    case Err(e) => Err(e)
    case Ok(s) =>
      match ValidateText(gratitude)
      case Err(e) => Err(e)
      case Ok(g) =>
        match ValidateText(memory)
        case Err(e) => Err(e)
        case Ok(m) =>
          match ValidateText(lookingForward)
          case Err(e) => Err(e)
          case Ok(l) => Ok(Reflections(s, g, m, l))
  }

  /**
   * The initializer for updating an entry: it keeps `id` and `createdAt`,
   * moves `date` to the start of its day and stamps `modifiedAt` with `now`.
   */
  function UpdatedEntry(id: Id, date: Time, mood: MoodType, struggle: String, gratitude: String,
                        memory: String, lookingForward: String, createdAt: Time, now: Time)
    : (r: Result<JournalEntry, ValidationError>)
    ensures r.Err? <==> ValidateReflections(struggle, gratitude, memory, lookingForward).Err?
    ensures r.Err? ==> r.error == ValidateReflections(struggle, gratitude, memory, lookingForward).error
    ensures r.Ok? ==> var e := r.value; var v := ValidateReflections(struggle, gratitude, memory, lookingForward).value;
      && e.id == id && e.date == StartOfDay(date) && e.mood == mood
      && e.struggle == v.struggle && e.gratitude == v.gratitude
      && e.memory == v.memory && e.lookingForward == v.lookingForward
      && e.createdAt == createdAt && e.modifiedAt == now
  {
    match ValidateReflections(struggle, gratitude, memory, lookingForward)
    case Err(e) => Err(e)
    case Ok(v) =>
      Ok(JournalEntry(id, StartOfDay(date), mood, v.struggle, v.gratitude, v.memory, v.lookingForward, createdAt, now))
  }

  /**
   * The initializer for a new entry: as an update, with the fresh identifier
   * `newId` and `createdAt` equal to `now`.
   */
  function NewEntry(date: Time, mood: MoodType, struggle: String, gratitude: String,
                    memory: String, lookingForward: String, newId: Id, now: Time)
    : (r: Result<JournalEntry, ValidationError>)
    ensures r.Err? <==> ValidateReflections(struggle, gratitude, memory, lookingForward).Err?
    ensures r.Err? ==> r.error == ValidateReflections(struggle, gratitude, memory, lookingForward).error
    ensures r.Ok? ==> r.value.id == newId && r.value.createdAt == now && r.value.modifiedAt == now
    ensures r.Ok? ==> r.value.date == StartOfDay(date) && r.value.mood == mood
    ensures r.Ok? ==> (r.value.struggle == ValidateText(struggle).value
                       && r.value.gratitude == ValidateText(gratitude).value
                       && r.value.memory == ValidateText(memory).value
                       && r.value.lookingForward == ValidateText(lookingForward).value)
  {
    UpdatedEntry(newId, date, mood, struggle, gratitude, memory, lookingForward, now, now)
  }

  /** Every validated entry's date is the start of a day, and its texts obey the limits. */
  lemma ValidatedEntryInvariant(id: Id, date: Time, mood: MoodType, s: String, g: String, m: String, l: String,
                                createdAt: Time, now: Time)
    requires UpdatedEntry(id, date, mood, s, g, m, l, createdAt, now).Ok?
    ensures var e := UpdatedEntry(id, date, mood, s, g, m, l, createdAt, now).value;
      e.date == StartOfDay(e.date) && SameDay(e.date, date)
      && |e.struggle| <= MaxTextLength && |e.gratitude| <= MaxTextLength
      && |e.memory| <= MaxTextLength && |e.lookingForward| <= MaxTextLength
  {
  }
}
