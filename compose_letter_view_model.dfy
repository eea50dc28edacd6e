/**
 * `ComposeLetterViewModel`: the letter form, its validity check, the
 * character counters and the save sequence (permission, create, store,
 * schedule).  The permission answer, the fresh identifier and the clock
 * readings are parameters.
 */
module Compose {

  import opened Text
  import opened Wrappers
  import opened Errors
  import opened Dates
  import opened Identifiers
  import opened RecurrencePatterns
  import opened Letters
  import opened ValidationUtils
  import opened Storage
  import opened Notifications

  const FailedToSaveLetter: String := "Failed to save letter"

  /** The message shown for a failure: a `LetterError`'s description, a fixed text for anything else. */
  function ErrorMessage(e: Error): (r: String)
    ensures e.LetterFailure? ==> r == e.letter.Description()
    ensures !e.LetterFailure? ==> r == FailedToSaveLetter
  {
    match e
    case LetterFailure(l) => l.Description()
    case _ => FailedToSaveLetter
  }

  /** The default date of a new letter: noon of the day after `now`. */
  function DefaultScheduledDate(now: Time): (r: Time)
    ensures DayNumber(r) == DayNumber(now) + 1
    ensures Hour(r) == 12 && Minute(r) == 0
    ensures r - StartOfDay(r) == 12 * SecondsPerHour
    ensures r - now >= 12 * SecondsPerHour
  {
    NoonOfDay(DayNumber(now) + 1);
    StartOfDay(now + SecondsPerDay) + 12 * SecondsPerHour
  }

  /** Noon of day `d` falls on day `d`, at 12:00. */
  lemma NoonOfDay(d: int)
    ensures DayNumber(d * SecondsPerDay + 12 * SecondsPerHour) == d
    ensures Hour(d * SecondsPerDay + 12 * SecondsPerHour) == 12
    ensures Minute(d * SecondsPerDay + 12 * SecondsPerHour) == 0
  {
    var t := d * SecondsPerDay + 12 * SecondsPerHour;
    assert t % SecondsPerDay == 43200;
    assert t == (d * 24 + 12) * 3600;
    assert t % SecondsPerHour == 0;
  }

  /** The default date always passes the form's future-date check. */
  lemma DefaultDateIsFuture(now: Time)
    ensures IsFutureDate(DefaultScheduledDate(now), now)
  {
  }

  /** `isValid` over the form's values. */
  predicate FormIsValid(subject: String, body: String, scheduledDate: Time, now: Time) {
    var hasContent := !IsEmpty(subject) || !IsEmpty(body);
    hasContent && IsValidLetterSubject(subject) && IsValidLetterBody(body) && IsFutureDate(scheduledDate, now)
  }

  /** The subject the form hands to `Letter`: none when the field is empty. */
  function SubjectArgument(subject: String): (r: Option<String>)
    ensures r.None? <==> subject == []
  {
    if subject == [] then None else Some(subject)
  }

  /** A blank form is never valid; a valid form has a valid subject, a body within 500 and a date a minute ahead. */
  lemma FormIsValidMeaning(subject: String, body: String, scheduledDate: Time, now: Time)
    ensures AllWhitespace(subject) && AllWhitespace(body) ==> !FormIsValid(subject, body, scheduledDate, now)
    ensures FormIsValid(subject, body, scheduledDate, now) <==>
      !(AllWhitespace(subject) && AllWhitespace(body))
      && ValidateSubject(SubjectArgument(subject)).Ok? && |Trim(body)| <= MaxBodyLength
      && scheduledDate - now >= MinScheduleDelay
  {
    IsValidLetterSubjectIffLetterAccepts(subject);
  }

  /** A valid form with a non-blank body always makes a letter. */
  lemma ValidFormMakesLetter(subject: String, body: String, scheduledDate: Time, recurrence: RecurrencePattern,
                             newId: Id, now: Time)
    requires FormIsValid(subject, body, scheduledDate, now) && !AllWhitespace(body)
    ensures NewLetter(SubjectArgument(subject), body, scheduledDate, recurrence, newId, now).Ok?
  {
    IsValidLetterSubjectIffLetterAccepts(subject);
    IsValidLetterBodyVersusLetter(body);
  }

  /**
   * The form accepts a subject with a blank body, but `Letter` rejects the
   * body, so saving shows the generic failure message.
   */
  lemma BlankBodyPassesFormButNotLetter(subject: String, body: String, scheduledDate: Time,
                                         recurrence: RecurrencePattern, newId: Id, now: Time)
    requires !AllWhitespace(subject) && |Trim(subject)| <= MaxSubjectLength
    requires AllWhitespace(body) && scheduledDate - now >= MinScheduleDelay
    ensures FormIsValid(subject, body, scheduledDate, now)
    ensures NewLetter(SubjectArgument(subject), body, scheduledDate, recurrence, newId, now) == Err(Validation(EmptyText))
    ensures ErrorMessage(Validation(EmptyText)) == FailedToSaveLetter
  {
    IsValidLetterSubjectIffLetterAccepts(subject);
    IsValidLetterBodyVersusLetter(body);
  }

  /** What `saveLetter` in the store answers for `letter`, given what the store loads. */
  function StoreAnswer(loaded: Result<seq<Letter>, Error>, letter: Letter): (r: Result<seq<Letter>, Error>)
    ensures loaded.Err? ==> r == Err(loaded.error)
    ensures loaded.Ok? ==> r == UpsertLetter(loaded.value, letter)
  {
    if loaded.Err? then Err(loaded.error) else UpsertLetter(loaded.value, letter)
  }

  class ComposeLetterViewModel {
    const storage: StorageService
    const notifications: NotificationService
    var subject: String
    var body: String
    var scheduledDate: Time
    var recurrence: RecurrencePattern
    var showPermissionAlert: bool
    var errorMessage: Option<String>

    /** `init`: an empty one-time letter for noon tomorrow. */
    constructor(storage: StorageService, notifications: NotificationService, now: Time)
      ensures this.storage == storage && this.notifications == notifications
      ensures subject == [] && body == [] && recurrence == Once
      ensures scheduledDate == DefaultScheduledDate(now)
      ensures !showPermissionAlert && errorMessage == None
    {
      this.storage := storage;
      this.notifications := notifications;
      subject := [];
      body := [];
      scheduledDate := DefaultScheduledDate(now);
      recurrence := Once;
      showPermissionAlert := false;
      errorMessage := None;
    }

    /** `isValid`: some content, a valid subject and body, and a date at least a minute after `now`. */
    predicate IsValid(now: Time)
      reads this
      ensures AllWhitespace(subject) && AllWhitespace(body) ==> !IsValid(now)
      ensures IsValid(now) <==>
        !(AllWhitespace(subject) && AllWhitespace(body))
        && ValidateSubject(SubjectArgument(subject)).Ok? && |Trim(body)| <= MaxBodyLength
        && scheduledDate - now >= MinScheduleDelay
    {
      FormIsValidMeaning(subject, body, scheduledDate, now);
      FormIsValid(subject, body, scheduledDate, now)
    }

    /** `subjectRemaining`: 50 minus the trimmed count; negative once the subject is too long. */
    function SubjectRemaining(): (r: int)
      reads this
      ensures r + |Trim(subject)| == MaxSubjectLength
      ensures r < 0 <==> !IsValidLetterSubject(subject)
    {
      MaxSubjectLength - CharacterCount(subject)
    }

    /** `bodyRemaining`: 500 minus the trimmed count; negative once the body is too long. */
    function BodyRemaining(): (r: int)
      reads this
      ensures r + |Trim(body)| == MaxBodyLength
      ensures r < 0 <==> !IsValidLetterBody(body)
    {
      MaxBodyLength - CharacterCount(body)
    }

    /**
     * `saveLetter`.  Without permission only the alert flag is set.  Then
     * the letter is created (with the clock reading `now`), stored, and
     * scheduled (with the later reading `scheduleNow`); the first failure
     * sets the error message and ends the call.
     */
    method SaveLetter(hasPermission: bool, newId: Id, now: Time, scheduleNow: Time) returns (ok: bool)
      modifies this`showPermissionAlert, this`errorMessage, storage, notifications
      ensures !hasPermission ==>
        !ok && showPermissionAlert && errorMessage == old(errorMessage)
        && unchanged(storage) && notifications.pending == old(notifications.pending)
      ensures hasPermission ==> showPermissionAlert == old(showPermissionAlert)
      ensures hasPermission && Draft(newId, now).Err? ==>
        !ok && errorMessage == Some(ErrorMessage(Draft(newId, now).error))
        && unchanged(storage) && notifications.pending == old(notifications.pending)
      ensures hasPermission && Draft(newId, now).Ok? ==>
        StoredAndScheduled(Draft(newId, now).value, scheduleNow, ok,
                           old(storage.LoadAllLetters()), old(notifications.pending), old(errorMessage))
    {
      if !hasPermission {
        showPermissionAlert := true;
        return false;
      }
      var made := Draft(newId, now);
      if made.Err? {
        errorMessage := Some(ErrorMessage(made.error));
        return false;
      }
      ok := StoreAndSchedule(made.value, scheduleNow);
    }

    /** The letter the form's fields make: `Letter`'s validating initializer, with an empty subject passed as none. */
    function Draft(newId: Id, now: Time): Result<Letter, Error>
      reads this
    {
      NewLetter(SubjectArgument(subject), body, scheduledDate, recurrence, newId, now)
    }

    /**
     * The outcome of storing then scheduling `letter`, from the letters the
     * store held, the pending requests and the message before: a store
     * failure sets its message and schedules nothing; a scheduling failure
     * sets its message and leaves the letter stored; success changes no
     * message and registers the letter's request.
     */
    ghost predicate StoredAndScheduled(letter: Letter, scheduleNow: Time, ok: bool,
                                       loaded: Result<seq<Letter>, Error>, pending: map<Id, Request>,
                                       message: Option<String>)
      reads this, storage, notifications
    {
      var stored := StoreAnswer(loaded, letter);
      (stored.Err? ==>
         !ok && errorMessage == Some(ErrorMessage(stored.error))
         && storage.LoadAllLetters() == loaded && notifications.pending == pending)
      && (stored.Ok? ==>
            storage.LoadAllLetters() == Ok(stored.value)
            && (ok <==> letter.scheduledDate - scheduleNow >= MinScheduleDelay)
            && (ok ==> (errorMessage == message && notifications.pending == pending[letter.id := RequestFor(letter)]))
            && (!ok ==> (errorMessage == Some(ScheduledDateMustBeInFuture.Description())
                         && notifications.pending == pending)))
    }

    /** The store-then-schedule part of `saveLetter`. */
    method StoreAndSchedule(letter: Letter, scheduleNow: Time) returns (ok: bool)
      modifies this`errorMessage, storage, notifications
      ensures StoredAndScheduled(letter, scheduleNow, ok, old(storage.LoadAllLetters()), old(notifications.pending), old(errorMessage))
      ensures !ok && StoreAnswer(old(storage.LoadAllLetters()), letter).Err? ==> unchanged(storage)
      ensures storage.user == old(storage.user) && storage.journalEntries == old(storage.journalEntries)
        && storage.onboardingCompleted == old(storage.onboardingCompleted)
    {
      ok := StoreLetter(letter);
      if !ok {
        return;
      }
      ok := ScheduleStored(letter, scheduleNow);
    }

    /** The store step: a failure sets its message and leaves the store as it was. */
    method StoreLetter(letter: Letter) returns (ok: bool)
      modifies this`errorMessage, storage
      ensures var stored := StoreAnswer(old(storage.LoadAllLetters()), letter);
        (ok <==> stored.Ok?)
        && (ok ==> storage.LoadAllLetters() == Ok(stored.value) && errorMessage == old(errorMessage))
        && (!ok ==> unchanged(storage) && errorMessage == Some(ErrorMessage(stored.error)))
      ensures storage.user == old(storage.user) && storage.journalEntries == old(storage.journalEntries)
        && storage.onboardingCompleted == old(storage.onboardingCompleted)
    {
      var saved := storage.SaveLetter(letter);
      if saved.Fail? {
        errorMessage := Some(ErrorMessage(saved.error));
        return false;
      }
      ok := true;
    }

    /** The schedule step: a refusal sets its message and registers nothing. */
    method ScheduleStored(letter: Letter, scheduleNow: Time) returns (ok: bool)
      modifies this`errorMessage, notifications
      ensures ok <==> letter.scheduledDate - scheduleNow >= MinScheduleDelay
      ensures ok ==> (errorMessage == old(errorMessage)
                      && notifications.pending == old(notifications.pending)[letter.id := RequestFor(letter)])
      ensures !ok ==> (errorMessage == Some(ScheduledDateMustBeInFuture.Description())
                       && notifications.pending == old(notifications.pending))
    {
      var scheduled := notifications.ScheduleLetter(letter, scheduleNow);
      if scheduled.Fail? {
        errorMessage := Some(ErrorMessage(scheduled.error));
        return false;
      }
      ok := true;
    }
  }

  /**
   * Read with the clock reading that created it, a new letter is always far
   * enough ahead to schedule: only a later reading can make scheduling fail.
   */
  lemma CreatedLetterSchedules(subject: String, body: String, scheduledDate: Time, recurrence: RecurrencePattern,
                               newId: Id, now: Time)
    requires NewLetter(SubjectArgument(subject), body, scheduledDate, recurrence, newId, now).Ok?
    ensures NewLetter(SubjectArgument(subject), body, scheduledDate, recurrence, newId, now).value.scheduledDate
      - now >= MinScheduleDelay
  {
  }
}
