/** `Letter`: a message to the user's future self, delivered on a schedule. */
module Letters {

  import opened Text
  import opened Wrappers
  import opened Errors
  import opened Dates
  import opened Identifiers
  import opened RecurrencePatterns

  const MaxSubjectLength: int := 50
  const MaxBodyLength: int := 500
  const MinBodyLength: int := 1
  const MaxScheduledLetters: int := 100
  /** Seconds a letter must lie in the future when it is created or scheduled. */
  const MinScheduleDelay: int := 60

  /**
   * A letter.  The datatype constructor is the unvalidated reconstruction
   * initializer: it stores all eight fields as given.
   */
  datatype Letter = Letter(
    id: Id,
    subject: Option<String>,
    body: String,
    scheduledDate: Time,
    recurrence: RecurrencePattern,
    createdAt: Time,
    isDelivered: bool,
    deliveredAt: Option<Time>)

  /** The subject rule: a missing or blank subject becomes `nil`; otherwise at most 50 characters after trimming. */
  function ValidateSubject(subject: Option<String>): (r: Result<Option<String>, ValidationError>)
    ensures (subject.None? || AllWhitespace(subject.value)) ==> r == Ok(None)
    ensures subject.Some? && !AllWhitespace(subject.value) && |Trim(subject.value)| > MaxSubjectLength
      ==> r == Err(TextTooLong(MaxSubjectLength))
    ensures subject.Some? && !AllWhitespace(subject.value) && |Trim(subject.value)| <= MaxSubjectLength
      ==> r == Ok(Some(StripControls(Trim(subject.value))))
  {
    match subject
    case None => Ok(None)
    case Some(s) =>
      var trimmed := Trim(s);
      if trimmed == [] then Ok(None)
      else if |trimmed| > MaxSubjectLength then Err(TextTooLong(MaxSubjectLength))
      else Ok(Some(StripControls(trimmed)))
  }

  /** The body rule: non-empty and at most 500 characters after trimming; stored trimmed and stripped. */
  function ValidateBody(body: String): (r: Result<String, ValidationError>)
    ensures AllWhitespace(body) ==> r == Err(EmptyText)
    ensures !AllWhitespace(body) && |Trim(body)| > MaxBodyLength ==> r == Err(TextTooLong(MaxBodyLength))
    ensures !AllWhitespace(body) && |Trim(body)| <= MaxBodyLength ==> r == Ok(StripControls(Trim(body)))
  {
    var trimmed := Trim(body);
    if trimmed == [] then Err(EmptyText)
    else if |trimmed| < MinBodyLength then Err(EmptyText)
    else if |trimmed| > MaxBodyLength then Err(TextTooLong(MaxBodyLength))
    else Ok(StripControls(trimmed))
  }

  /**
   * The validating initializer: subject, then body, then the minimum delay
   * of `scheduledDate` after `now`; `newId` stands for the fresh UUID.
   */
  function NewLetter(subject: Option<String>, body: String, scheduledDate: Time, recurrence: RecurrencePattern,
                     newId: Id, now: Time): (r: Result<Letter, Error>)
    ensures ValidateSubject(subject).Err? ==> r == Err(Validation(ValidateSubject(subject).error))
    ensures ValidateSubject(subject).Ok? && ValidateBody(body).Err? ==> r == Err(Validation(ValidateBody(body).error))
    ensures ValidateSubject(subject).Ok? && ValidateBody(body).Ok? && scheduledDate - now < MinScheduleDelay
      ==> r == Err(LetterFailure(ScheduledDateMustBeInFuture))
    ensures r.Ok? <==> ValidateSubject(subject).Ok? && ValidateBody(body).Ok? && scheduledDate - now >= MinScheduleDelay
    ensures r.Ok? ==> r.value == Letter(newId, ValidateSubject(subject).value, ValidateBody(body).value,
                                        scheduledDate, recurrence, now, false, None)
  {
    match ValidateSubject(subject)
    case Err(e) => Err(Validation(e))
    case Ok(s) =>
      match ValidateBody(body)
      case Err(e) => Err(Validation(e))
      case Ok(b) =>
        if scheduledDate - now < MinScheduleDelay then Err(LetterFailure(ScheduledDateMustBeInFuture))
        else Ok(Letter(newId, s, b, scheduledDate, recurrence, now, false, None))
  }

  /** A created letter is undelivered, at least a minute ahead, and its texts obey the limits. */
  lemma NewLetterInvariant(subject: Option<String>, body: String, scheduledDate: Time, recurrence: RecurrencePattern,
                           newId: Id, now: Time)
    requires NewLetter(subject, body, scheduledDate, recurrence, newId, now).Ok?
    ensures var l := NewLetter(subject, body, scheduledDate, recurrence, newId, now).value;
      && !l.isDelivered && l.deliveredAt.None? && l.scheduledDate >= now + MinScheduleDelay
      && |l.body| <= MaxBodyLength && (l.subject.Some? ==> |l.subject.value| <= MaxSubjectLength)
  {
  }

  /** Validation order: a bad subject is reported even when the date is in the past. */
  lemma SubjectCheckedBeforeDate(body: String, scheduledDate: Time, now: Time)
    requires scheduledDate <= now
    ensures NewLetter(Some(seq(51, _ => 'a')), body, scheduledDate, Once, 0, now)
      == Err(Validation(TextTooLong(MaxSubjectLength)))
  {
    var s := seq(51, _ => 'a');
    assert !IsWhitespace(s[0]) && !IsWhitespace(s[50]);
    assert TrimStart(s) == s;
    assert TrimEnd(s) == s;
  }

  /** `markAsDelivered`: a copy with `isDelivered` set and `deliveredAt` stamped `now`. */
  function MarkAsDelivered(l: Letter, now: Time): (r: Letter)
    ensures r.id == l.id && r.subject == l.subject && r.body == l.body
    ensures r.scheduledDate == l.scheduledDate && r.recurrence == l.recurrence && r.createdAt == l.createdAt
    ensures r.isDelivered && r.deliveredAt == Some(now)
  {
    l.(isDelivered := true, deliveredAt := Some(now))
  }

  /** Delivery is not terminal: marking again overwrites `deliveredAt`. */
  lemma MarkAsDeliveredTwice(l: Letter, first: Time, second: Time)
    ensures MarkAsDelivered(MarkAsDelivered(l, first), second) == MarkAsDelivered(l, second)
  {
  }
}
