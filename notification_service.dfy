/**
 * `NotificationService`: turns a letter into a local notification request.
 * The platform's notification center is modelled as the map of pending
 * requests it keeps, keyed by request identifier (the letter's id).
 */
module Notifications {

  import opened Text
  import opened Wrappers
  import opened Errors
  import opened Dates
  import opened Identifiers
  import opened RecurrencePatterns
  import opened Letters
  import opened Storage

  const NotificationTitle: String := "You have a letter from past you! \U{1F48C}"
  const DefaultBody: String := "Open MindMail to read your message"

  /** The calendar fields a trigger matches; a missing field matches any value. */
  datatype DateComponents = DateComponents(
    year: Option<int>, month: Option<int>, day: Option<int>, hour: Option<int>, minute: Option<int>)

  /** `UNCalendarNotificationTrigger(dateMatching:repeats:)`. */
  datatype Trigger = CalendarTrigger(dateMatching: DateComponents, repeats: bool)

  /** `UNNotificationRequest`: identifier, content (title, body, `letterId` payload) and trigger. */
  datatype Request = Request(identifier: Id, title: String, body: String, letterId: Id, trigger: Trigger)

  /**
   * The trigger for a letter: year, month, day, hour and minute of the
   * scheduled date, once, for a one-time letter; only hour and minute,
   * repeating, for a daily one.
   */
  function TriggerFor(letter: Letter): (r: Trigger)
    ensures letter.recurrence == Once ==>
      (!r.repeats
       && r.dateMatching.year.Some? && r.dateMatching.month.Some? && r.dateMatching.day.Some?
       && r.dateMatching.hour.Some? && r.dateMatching.minute.Some?)
    ensures letter.recurrence == Daily ==>
      (r.repeats
       && r.dateMatching.year.None? && r.dateMatching.month.None? && r.dateMatching.day.None?
       && r.dateMatching.hour.Some? && r.dateMatching.minute.Some?)
  {
    var t := letter.scheduledDate;
    var c := CivilOf(t);
    match letter.recurrence
    case Once =>
      CalendarTrigger(DateComponents(Some(c.year), Some(c.month), Some(c.day), Some(Hour(t)), Some(Minute(t))), false)
    case Daily =>
      CalendarTrigger(DateComponents(None, None, None, Some(Hour(t)), Some(Minute(t))), true)
  }

  /** A time matches the components when every present field equals that field of the time. */
  predicate Matches(c: DateComponents, t: Time) {
    var d := CivilOf(t);
    (c.year.Some? ==> c.year.value == d.year)
    && (c.month.Some? ==> c.month.value == d.month)
    && (c.day.Some? ==> c.day.value == d.day)
    && (c.hour.Some? ==> c.hour.value == Hour(t))
    && (c.minute.Some? ==> c.minute.value == Minute(t))
  }

  /** The request `scheduleLetter` registers for a letter. */
  function RequestFor(letter: Letter): (r: Request)
    ensures r.identifier == letter.id && r.letterId == letter.id
    ensures r.title == NotificationTitle
    ensures letter.subject.Some? ==> r.body == letter.subject.value
    ensures letter.subject.None? ==> r.body == DefaultBody
    ensures r.trigger == TriggerFor(letter)
    ensures r.trigger.repeats <==> letter.recurrence == Daily
  {
    var body := if letter.subject.Some? then letter.subject.value else DefaultBody;
    Request(letter.id, NotificationTitle, body, letter.id, TriggerFor(letter))
  }

  /** A letter's trigger matches its own scheduled date. */
  lemma TriggerMatchesScheduledDate(letter: Letter)
    ensures Matches(RequestFor(letter).trigger.dateMatching, letter.scheduledDate)
  {
  }

  // ---------------------------------------------------------------------------
  // When a trigger fires

  /** The minute of the day `t` falls in. */
  function MinuteOfDay(t: Time): int {
    (t % SecondsPerDay) / SecondsPerMinute
  }

  /** Hour and minute are the two digits of the minute of the day. */
  lemma HourMinuteOfDay(t: Time)
    ensures MinuteOfDay(t) == Hour(t) * 60 + Minute(t)
    ensures t / SecondsPerMinute == DayNumber(t) * 1440 + MinuteOfDay(t)
  {
    var q, r := t / SecondsPerDay, t % SecondsPerDay;
    assert t == q * 86400 + r;
    var h, s := r / 3600, r % 3600;
    assert r == h * 3600 + s;
    assert t == (q * 24 + h) * 3600 + s;
    assert t % 3600 == s;
    assert r / 60 == h * 60 + s / 60;
    assert t == (q * 1440 + h * 60 + s / 60) * 60 + s % 60;
  }

  /** Two times share hour and minute exactly when they share the minute of the day. */
  lemma SameHourMinute(a: Time, b: Time)
    ensures Hour(a) == Hour(b) && Minute(a) == Minute(b) <==> MinuteOfDay(a) == MinuteOfDay(b)
  {
    HourMinuteOfDay(a);
    HourMinuteOfDay(b);
  }

  /** A one-time trigger fires exactly in the minute of the letter's scheduled date. */
  lemma OnceTriggerFiresInScheduledMinute(letter: Letter, t: Time)
    requires letter.recurrence == Once
    ensures Matches(TriggerFor(letter).dateMatching, t) <==> t / SecondsPerMinute == letter.scheduledDate / SecondsPerMinute
  {
    var s := letter.scheduledDate;
    HourMinuteOfDay(t);
    HourMinuteOfDay(s);
    SameHourMinute(t, s);
    if Matches(TriggerFor(letter).dateMatching, t) {
      CivilOfDayInjective(DayNumber(t), DayNumber(s));
    }
    if t / SecondsPerMinute == s / SecondsPerMinute {
      SameMinuteSameDay(t, s);
    }
  }

  /** Two times in the same minute fall on the same day and share the minute of the day. */
  lemma SameMinuteSameDay(a: Time, b: Time)
    requires a / SecondsPerMinute == b / SecondsPerMinute
    ensures DayNumber(a) == DayNumber(b) && MinuteOfDay(a) == MinuteOfDay(b)
  {
    HourMinuteOfDay(a);
    HourMinuteOfDay(b);
    var m := a / SecondsPerMinute;
    assert 0 <= MinuteOfDay(a) < 1440 && 0 <= MinuteOfDay(b) < 1440;
    assert DayNumber(a) == m / 1440 && MinuteOfDay(a) == m % 1440;
    assert DayNumber(b) == m / 1440 && MinuteOfDay(b) == m % 1440;
  }

  /** The minute of the day repeats every day. */
  lemma MinuteOfDayPeriodic(t: Time)
    ensures MinuteOfDay(t + SecondsPerDay) == MinuteOfDay(t)
  {
    var q, r := t / SecondsPerDay, t % SecondsPerDay;
    assert t + SecondsPerDay == (q + 1) * SecondsPerDay + r;
    assert (t + SecondsPerDay) % SecondsPerDay == r;
  }

  /** A daily trigger fires every day in the minute of the day of the letter's scheduled date. */
  lemma DailyTriggerFiresEveryDay(letter: Letter, t: Time)
    requires letter.recurrence == Daily
    ensures Matches(TriggerFor(letter).dateMatching, t) <==> MinuteOfDay(t) == MinuteOfDay(letter.scheduledDate)
    ensures Matches(TriggerFor(letter).dateMatching, t) ==> Matches(TriggerFor(letter).dateMatching, t + SecondsPerDay)
  {
    SameHourMinute(t, letter.scheduledDate);
    MinuteOfDayPeriodic(t);
    SameHourMinute(t + SecondsPerDay, letter.scheduledDate);
  }

  // ---------------------------------------------------------------------------
  // Rescheduling

  /**
   * `rescheduleAllLetters`' loop over `letters`, starting from `pending`:
   * letters whose date has passed are skipped, a letter less than a minute
   * ahead fails the run, every other letter is registered.
   */
  function ScheduleAll(pending: map<Id, Request>, letters: seq<Letter>, now: Time): (r: (map<Id, Request>, Outcome<Error>))
    ensures r.1.Fail? ==> r.1.error == LetterFailure(ScheduledDateMustBeInFuture)
    decreases |letters|
  {
    if letters == [] then (pending, Pass)
    else
      var previous := ScheduleAll(pending, letters[..|letters| - 1], now);
      var letter := letters[|letters| - 1];
      if previous.1.Fail? then previous
      else if letter.scheduledDate - now < 0 then previous
      else if letter.scheduledDate - now < MinScheduleDelay then (previous.0, Fail(LetterFailure(ScheduledDateMustBeInFuture)))
      else (previous.0[letter.id := RequestFor(letter)], Pass)
  }

  /** A letter that is due in less than a minute but not yet past. */
  predicate TooSoon(letter: Letter, now: Time) {
    0 <= letter.scheduledDate - now < MinScheduleDelay
  }

  /** Some letter of `letters` is due in less than a minute but not yet past. */
  predicate AnyTooSoon(letters: seq<Letter>, now: Time) {
    exists i :: 0 <= i < |letters| && TooSoon(letters[i], now)
  }

  lemma AnyTooSoonSnoc(letters: seq<Letter>, now: Time)
    requires letters != []
    ensures AnyTooSoon(letters, now) <==>
      AnyTooSoon(letters[..|letters| - 1], now) || TooSoon(letters[|letters| - 1], now)
  {
    var prefix := letters[..|letters| - 1];
    if AnyTooSoon(letters, now) {
      var i :| 0 <= i < |letters| && TooSoon(letters[i], now);
      if i < |prefix| {
        assert TooSoon(prefix[i], now);
      }
    }
    if AnyTooSoon(prefix, now) {
      var i :| 0 <= i < |prefix| && TooSoon(prefix[i], now);
      assert letters[i] == prefix[i];
    }
  }

  /** Rescheduling fails exactly when some letter is due in less than a minute but not yet past. */
  lemma {:induction false} ScheduleAllFailsIff(pending: map<Id, Request>, letters: seq<Letter>, now: Time)
    ensures ScheduleAll(pending, letters, now).1.Fail? <==> AnyTooSoon(letters, now)
    decreases |letters|
  {
    if letters != [] {
      ScheduleAllFailsIff(pending, letters[..|letters| - 1], now);
      AnyTooSoonSnoc(letters, now);
    }
  }

  /** Some letter of `letters` with identifier `id` is at least a minute ahead. */
  predicate Schedulable(letters: seq<Letter>, now: Time, id: Id) {
    exists i :: 0 <= i < |letters| && letters[i].id == id && letters[i].scheduledDate - now >= MinScheduleDelay
  }

  /** `request` is the request of some letter of `letters` with identifier `id`. */
  predicate RequestOfSome(letters: seq<Letter>, id: Id, request: Request) {
    exists i :: 0 <= i < |letters| && letters[i].id == id && request == RequestFor(letters[i])
  }

  lemma SchedulableSnoc(letters: seq<Letter>, now: Time, id: Id, request: Request)
    requires letters != []
    ensures var prefix, last := letters[..|letters| - 1], letters[|letters| - 1];
      (Schedulable(letters, now, id) <==>
         Schedulable(prefix, now, id) || (last.id == id && last.scheduledDate - now >= MinScheduleDelay))
      && (RequestOfSome(prefix, id, request) ==> RequestOfSome(letters, id, request))
      && (last.id == id && request == RequestFor(last) ==> RequestOfSome(letters, id, request))
  {
    var prefix, last := letters[..|letters| - 1], letters[|letters| - 1];
    if Schedulable(letters, now, id) {
      var i :| 0 <= i < |letters| && letters[i].id == id && letters[i].scheduledDate - now >= MinScheduleDelay;
      if i < |prefix| {
        assert prefix[i] == letters[i];
      }
    }
    if Schedulable(prefix, now, id) {
      var i :| 0 <= i < |prefix| && prefix[i].id == id && prefix[i].scheduledDate - now >= MinScheduleDelay;
      assert letters[i] == prefix[i];
    }
    if RequestOfSome(prefix, id, request) {
      var i :| 0 <= i < |prefix| && prefix[i].id == id && request == RequestFor(prefix[i]);
      assert letters[i] == prefix[i];
    }
    if last.id == id && request == RequestFor(last) {
      assert letters[|letters| - 1] == last;
    }
  }

  /**
   * A successful run registers a request exactly for the pending identifiers
   * and the letters at least a minute ahead, and each new request belongs to
   * one of those letters.
   */
  lemma {:induction false} ScheduleAllRegisters(pending: map<Id, Request>, letters: seq<Letter>, now: Time, id: Id)
    requires ScheduleAll(pending, letters, now).1.Pass?
    ensures id in ScheduleAll(pending, letters, now).0 <==> id in pending || Schedulable(letters, now, id)
    ensures id in ScheduleAll(pending, letters, now).0 && id !in pending ==>
      RequestOfSome(letters, id, ScheduleAll(pending, letters, now).0[id])
    decreases |letters|
  {
    if letters != [] {
      var prefix := letters[..|letters| - 1];
      ScheduleAllRegisters(pending, prefix, now, id);
      var result := ScheduleAll(pending, letters, now).0;
      if id in result {
        SchedulableSnoc(letters, now, id, result[id]);
      } else {
        SchedulableSnoc(letters, now, id, RequestFor(letters[|letters| - 1]));
      }
    }
  }

  class NotificationService {
    var pending: map<Id, Request>

    constructor()
      ensures pending == map[]
    {
      pending := map[];
    }

    /**
     * `scheduleLetter`: a letter less than a minute ahead of `now` is
     * refused and nothing is registered; otherwise its request is added,
     * replacing any request with the same identifier.
     */
    method ScheduleLetter(letter: Letter, now: Time) returns (r: Outcome<Error>)
      modifies this
      ensures letter.scheduledDate - now < MinScheduleDelay ==>
        r == Fail(LetterFailure(ScheduledDateMustBeInFuture)) && pending == old(pending)
      ensures letter.scheduledDate - now >= MinScheduleDelay ==>
        r == Pass && pending == old(pending)[letter.id := RequestFor(letter)]
    {
      if !(letter.scheduledDate - now >= MinScheduleDelay) {
        return Fail(LetterFailure(ScheduledDateMustBeInFuture));
      }
      var body := if letter.subject.Some? then letter.subject.value else DefaultBody;
      var trigger := TriggerFor(letter);
      var request := Request(letter.id, NotificationTitle, body, letter.id, trigger);
      pending := pending[letter.id := request];
      r := Pass;
    }

    /** `cancelLetter`: removes the request with that identifier, if any. */
    method CancelLetter(id: Id)
      modifies this
      ensures pending == old(pending) - {id}
      ensures id !in pending && forall k :: k in old(pending) && k != id ==> k in pending && pending[k] == old(pending)[k]
    {
      pending := pending - {id};
    }

    /** `cancelAllNotifications`: no request is left. */
    method CancelAllNotifications()
      modifies this
      ensures pending == map[]
    {
      pending := map[];
    }

    /**
     * `rescheduleAllLetters`: cancels everything, loads the scheduled
     * letters (a load failure is rethrown after the cancel), then schedules
     * each letter whose date has not passed; the first refusal ends the run.
     */
    method RescheduleAllLetters(storage: StorageService, now: Time) returns (r: Outcome<Error>)
      modifies this
      ensures storage.LoadScheduledLetters().Err? ==> pending == map[] && r == Fail(storage.LoadScheduledLetters().error)
      ensures storage.LoadScheduledLetters().Ok? ==>
        (pending, r) == ScheduleAll(map[], storage.LoadScheduledLetters().value, now)
    {
      CancelAllNotifications();
      var loaded := storage.LoadScheduledLetters();
      if loaded.Err? {
        return Fail(loaded.error);
      }
      var letters := loaded.value;
      var i := 0;
      while i < |letters|
        invariant 0 <= i <= |letters|
        invariant ScheduleAll(map[], letters[..i], now) == (pending, Pass)
      {
        var letter := letters[i];
        ScheduleAllStep(letters, i, now);
        if letter.scheduledDate - now < 0 {
          i := i + 1;
          continue;
        }
        r := ScheduleLetter(letter, now);
        if r.Fail? {
          ScheduleAllFailFast(letters, i + 1, now);
          return;
        }
        i := i + 1;
      }
      assert letters[..i] == letters;
      r := Pass;
    }
  }

  /** One more letter of the loop: the fold over `letters[..i + 1]` from the fold over `letters[..i]`. */
  lemma ScheduleAllStep(letters: seq<Letter>, i: int, now: Time)
    requires 0 <= i < |letters|
    requires ScheduleAll(map[], letters[..i], now).1.Pass?
    ensures var previous := ScheduleAll(map[], letters[..i], now).0;
      ScheduleAll(map[], letters[..i + 1], now) ==
        if letters[i].scheduledDate - now < 0 then (previous, Pass)
        else if letters[i].scheduledDate - now < MinScheduleDelay then (previous, Fail(LetterFailure(ScheduledDateMustBeInFuture)))
        else (previous[letters[i].id := RequestFor(letters[i])], Pass)
  {
    assert letters[..i + 1][..i] == letters[..i];
  }

  /** Once a run has failed, the remaining letters change nothing. */
  lemma {:induction false} ScheduleAllFailFast(letters: seq<Letter>, n: int, now: Time)
    requires 0 <= n <= |letters|
    requires ScheduleAll(map[], letters[..n], now).1.Fail?
    ensures ScheduleAll(map[], letters, now) == ScheduleAll(map[], letters[..n], now)
    decreases |letters| - n
  {
    if n < |letters| {
      assert letters[..n + 1][..n] == letters[..n];
      ScheduleAllFailFast(letters, n + 1, now);
    } else {
      assert letters[..n] == letters;
    }
  }
}
