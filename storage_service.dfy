/**
 * `StorageService`: the app's key-value store.  Each preference slot holds a
 * whole value (the user, the onboarding flag, all journal entries, all
 * letters); every mutator loads the collection, changes it and writes it
 * back.  Encoding and decoding are the identity, so a slot is either absent,
 * corrupt (its bytes do not decode) or present with a value.
 */
module Storage {

  import opened Text
  import opened Wrappers
  import opened Errors
  import opened Dates
  import opened Identifiers
  import opened Users
  import opened JournalEntries
  import opened Letters
  import opened Filters

  /** One preferences slot. */
  datatype Slot<T> = Absent | Corrupt | Present(value: T)

  /** Decodes a collection slot: an absent slot is empty and a corrupt one fails with `reason`. */
  function LoadCollection<T>(slot: Slot<seq<T>>, reason: String): (r: Result<seq<T>, Error>)
    ensures slot.Absent? ==> r == Ok([])
    ensures r.Err? <==> slot.Corrupt?
    ensures r.Err? ==> r.error == StorageFailure(LoadFailed(reason))
    ensures slot.Present? ==> r == Ok(slot.value)
  {
    match slot
    case Absent => Ok([])
    case Corrupt => Err(StorageFailure(LoadFailed(reason)))
    case Present(v) => Ok(v)
  }

  // ---------------------------------------------------------------------------
  // Journal entries: one entry per day

  /** Keeps the entries whose key differs from `key`. */
  function OtherDay(key: String): JournalEntry -> bool {
    (e: JournalEntry) => e.DateKey() != key
  }

  /** `removeAll { $0.dateKey == key }`. */
  function RemoveDay(entries: seq<JournalEntry>, key: String): seq<JournalEntry> {
    Filter(entries, OtherDay(key))
  }

  /** `removeAll { $0.dateKey == entry.dateKey }` followed by `append(entry)`. */
  function UpsertByDay(entries: seq<JournalEntry>, entry: JournalEntry): (r: seq<JournalEntry>)
    ensures |r| > 0 && r[|r| - 1] == entry
    ensures forall i :: 0 <= i < |r| - 1 ==> r[i].DateKey() != entry.DateKey()
    ensures forall x :: x in entries && x.DateKey() != entry.DateKey() ==> x in r
    ensures forall x :: x in r ==> x == entry || (x in entries && x.DateKey() != entry.DateKey())
  {
    RemoveDay(entries, entry.DateKey()) + [entry]
  }

  /** Saving the same entry twice stores the same collection as saving it once. */
  lemma UpsertByDayIdempotent(entries: seq<JournalEntry>, entry: JournalEntry)
    ensures UpsertByDay(UpsertByDay(entries, entry), entry) == UpsertByDay(entries, entry)
  {
    var keep := OtherDay(entry.DateKey());
    var rest := RemoveDay(entries, entry.DateKey());
    FilterAppend(rest, [entry], keep);
    assert Filter([entry], keep) == [];
  }

  /** Upserting into `s + t` keeps the surviving entries of `s` before those of `t`. */
  lemma UpsertByDayKeepsOrder(s: seq<JournalEntry>, t: seq<JournalEntry>, entry: JournalEntry)
    ensures UpsertByDay(s + t, entry) == RemoveDay(s, entry.DateKey()) + RemoveDay(t, entry.DateKey()) + [entry]
  {
    FilterAppend(s, t, OtherDay(entry.DateKey()));
  }

  /** The key of an entry, as a function value. */
  function EntryKey(e: JournalEntry): String {
    e.DateKey()
  }

  /** No two stored entries fall on the same key. */
  ghost predicate DistinctDays(entries: seq<JournalEntry>) {
    DistinctBy(entries, EntryKey)
  }

  /** Upserting by day keeps the stored keys pairwise distinct. */
  lemma UpsertByDayKeepsDaysDistinct(entries: seq<JournalEntry>, entry: JournalEntry)
    requires DistinctDays(entries)
    ensures DistinctDays(UpsertByDay(entries, entry))
  {
    var rest := RemoveDay(entries, entry.DateKey());
    FilterKeepsDistinct(entries, OtherDay(entry.DateKey()), EntryKey);
    HeadKeepsDistinctAtEnd(rest, entry);
  }

  lemma HeadKeepsDistinctAtEnd(rest: seq<JournalEntry>, entry: JournalEntry)
    requires DistinctDays(rest)
    requires forall i :: 0 <= i < |rest| ==> rest[i].DateKey() != entry.DateKey()
    ensures DistinctDays(rest + [entry])
  {
    var r := rest + [entry];
    forall i, j | 0 <= i < j < |r| ensures EntryKey(r[i]) != EntryKey(r[j]) {
      assert r[i] == rest[i];
      if j < |rest| {
        assert r[j] == rest[j];
      }
    }
  }

  /** Keeps the entries whose identifier differs from `id`. */
  function OtherEntry(id: Id): JournalEntry -> bool {
    (e: JournalEntry) => e.id != id
  }

  /** `removeAll { $0.id == id }` on journal entries. */
  function RemoveEntry(entries: seq<JournalEntry>, id: Id): (r: seq<JournalEntry>)
    ensures forall x :: x in r <==> x in entries && x.id != id
  {
    Filter(entries, OtherEntry(id))
  }

  /** Deleting an entry twice removes no more than deleting it once. */
  lemma DeleteEntryIdempotent(entries: seq<JournalEntry>, id: Id)
    ensures RemoveEntry(RemoveEntry(entries, id), id) == RemoveEntry(entries, id)
  {
  }

  /** `firstIndex(where:)` the entry falls on the same day as `day`. */
  function FirstIndexOnDay(entries: seq<JournalEntry>, day: Time): (r: Option<nat>)
    ensures r.None? <==> forall i :: 0 <= i < |entries| ==> !SameDay(entries[i].date, day)
    ensures r.Some? ==> r.value < |entries| && SameDay(entries[r.value].date, day)
    ensures r.Some? ==> forall j :: 0 <= j < r.value ==> !SameDay(entries[j].date, day)
  {
    if entries == [] then None
    else if SameDay(entries[0].date, day) then Some(0)
    else
      var r := FirstIndexOnDay(entries[1..], day);
      if r.None? then
        assert forall i :: 1 <= i < |entries| ==> entries[i] == entries[1..][i - 1];
        None
      else
        Some(r.value + 1)
  }

  // ---------------------------------------------------------------------------
  // Letters: one letter per identifier, at most 100 undelivered

  /** Some stored letter has identifier `id` (`contains(where:)`). */
  predicate HasId(letters: seq<Letter>, id: Id) {
    exists i :: 0 <= i < |letters| && letters[i].id == id
  }

  /** `firstIndex(where: { $0.id == id })`. */
  function FindLetter(letters: seq<Letter>, id: Id): (r: Option<nat>)
    ensures r.None? <==> !HasId(letters, id)
    ensures r.Some? ==> r.value < |letters| && letters[r.value].id == id
    ensures r.Some? ==> forall j :: 0 <= j < r.value ==> letters[j].id != id
  {
    if letters == [] then None
    else if letters[0].id == id then Some(0)
    else
      var r := FindLetter(letters[1..], id);
      if r.None? then
        assert forall i :: 1 <= i < |letters| ==> letters[i] == letters[1..][i - 1];
        None
      else
        Some(r.value + 1)
  }

  /** Keeps the letters whose identifier differs from `id`. */
  function OtherLetter(id: Id): Letter -> bool {
    (l: Letter) => l.id != id
  }

  /** `removeAll { $0.id == id }` on letters. */
  function RemoveLetter(letters: seq<Letter>, id: Id): (r: seq<Letter>)
    ensures forall x :: x in r <==> x in letters && x.id != id
    ensures !HasId(r, id)
    ensures !HasId(letters, id) ==> r == letters
  {
    Filter(letters, OtherLetter(id))
  }

  /** A letter that is still waiting for delivery. */
  predicate Pending(l: Letter) {
    !l.isDelivered
  }

  predicate Delivered(l: Letter) {
    l.isDelivered
  }

  /** The `filter { !$0.isDelivered }` of `loadScheduledLetters`. */
  function ScheduledLetters(letters: seq<Letter>): (r: seq<Letter>)
    ensures forall x :: x in r <==> x in letters && !x.isDelivered
  {
    Filter(letters, Pending)
  }

  /** The `filter { $0.isDelivered }` of `loadDeliveredLetters`. */
  function DeliveredLetters(letters: seq<Letter>): (r: seq<Letter>)
    ensures forall x :: x in r <==> x in letters && x.isDelivered
  {
    Filter(letters, Delivered)
  }

  /** The scheduled and the delivered letters partition the stored letters. */
  lemma ScheduledDeliveredPartition(letters: seq<Letter>)
    ensures multiset(ScheduledLetters(letters)) + multiset(DeliveredLetters(letters)) == multiset(letters)
    ensures |ScheduledLetters(letters)| + |DeliveredLetters(letters)| == |letters|
  {
    FilterPartition(letters, Pending, Delivered);
  }

  /** Each filter keeps the relative order of the letters it keeps. */
  lemma ScheduledDeliveredKeepOrder(s: seq<Letter>, t: seq<Letter>)
    ensures ScheduledLetters(s + t) == ScheduledLetters(s) + ScheduledLetters(t)
    ensures DeliveredLetters(s + t) == DeliveredLetters(s) + DeliveredLetters(t)
  {
    FilterAppend(s, t, Pending);
    FilterAppend(s, t, Delivered);
  }

  /**
   * `saveLetter`'s change to the stored letters: a letter with a new
   * identifier is refused when 100 or more letters are undelivered; otherwise
   * any letter with the same identifier is removed and the letter appended.
   */
  function UpsertLetter(letters: seq<Letter>, letter: Letter): (r: Result<seq<Letter>, Error>)
    ensures r.Err? <==> !HasId(letters, letter.id) && |ScheduledLetters(letters)| >= MaxScheduledLetters
    ensures r.Err? ==> r.error == LetterFailure(MaxLettersExceeded)
    ensures r.Ok? ==> |r.value| > 0 && r.value[|r.value| - 1] == letter
    ensures r.Ok? ==> forall i :: 0 <= i < |r.value| - 1 ==> r.value[i].id != letter.id
    ensures r.Ok? ==> forall x :: x in letters && x.id != letter.id ==> x in r.value
    ensures r.Ok? ==> forall x :: x in r.value ==> x == letter || (x in letters && x.id != letter.id)
  {
    if !HasId(letters, letter.id) && |ScheduledLetters(letters)| >= MaxScheduledLetters then
      Err(LetterFailure(MaxLettersExceeded))
    else
      var rest := RemoveLetter(letters, letter.id);
      assert forall i :: 0 <= i < |rest| ==> rest[i].id != letter.id by {
        forall i | 0 <= i < |rest| ensures rest[i].id != letter.id {
          assert rest[i] in rest;
        }
      }
      Ok(rest + [letter])
  }

  /** A new undelivered letter brings the undelivered count to at most the cap. */
  lemma NewLetterRespectsCap(letters: seq<Letter>, letter: Letter)
    requires !HasId(letters, letter.id) && !letter.isDelivered
    requires UpsertLetter(letters, letter).Ok?
    ensures |ScheduledLetters(UpsertLetter(letters, letter).value)| == |ScheduledLetters(letters)| + 1
    ensures |ScheduledLetters(UpsertLetter(letters, letter).value)| <= MaxScheduledLetters
  {
    FilterAppend(letters, [letter], Pending);
    assert Filter([letter], Pending) == [letter];
  }

  /** The identifier of a letter, as a function value. */
  function LetterId(l: Letter): Id {
    l.id
  }

  /** No two stored letters share an identifier. */
  ghost predicate UniqueIds(letters: seq<Letter>) {
    DistinctBy(letters, LetterId)
  }

  /** Saving a letter keeps identifiers unique. */
  lemma UpsertLetterKeepsIdsUnique(letters: seq<Letter>, letter: Letter)
    requires UniqueIds(letters)
    requires UpsertLetter(letters, letter).Ok?
    ensures UniqueIds(UpsertLetter(letters, letter).value)
  {
    var rest := RemoveLetter(letters, letter.id);
    FilterKeepsDistinct(letters, OtherLetter(letter.id), LetterId);
    var r := rest + [letter];
    forall i, j | 0 <= i < j < |r| ensures LetterId(r[i]) != LetterId(r[j]) {
      assert r[i] == rest[i];
      if j < |rest| {
        assert r[j] == rest[j];
      } else {
        assert rest[i] in rest;
      }
    }
  }

  /**
   * `markLetterAsDelivered`'s change to the stored letters: the first letter
   * with the identifier is replaced by its delivered copy; a missing
   * identifier fails with `notFound("Letter")`.
   */
  function MarkDelivered(letters: seq<Letter>, id: Id, now: Time): (r: Result<seq<Letter>, Error>)
    ensures r.Err? <==> !HasId(letters, id)
    ensures r.Err? ==> r.error == StorageFailure(NotFound("Letter"))
    ensures r.Ok? ==> |r.value| == |letters|
    ensures r.Ok? ==> forall i :: 0 <= i < |letters| ==> r.value[i].id == letters[i].id
    ensures r.Ok? ==> var k := FindLetter(letters, id).value;
      r.value[k] == MarkAsDelivered(letters[k], now)
      && forall i :: 0 <= i < |letters| && i != k ==> r.value[i] == letters[i]
  {
    match FindLetter(letters, id)
    case None => Err(StorageFailure(NotFound("Letter")))
    case Some(k) => Ok(letters[k := MarkAsDelivered(letters[k], now)])
  }

  /** Marking keeps identifiers unique. */
  lemma MarkDeliveredKeepsIdsUnique(letters: seq<Letter>, id: Id, now: Time)
    requires UniqueIds(letters)
    requires MarkDelivered(letters, id, now).Ok?
    ensures UniqueIds(MarkDelivered(letters, id, now).value)
  {
    var r := MarkDelivered(letters, id, now).value;
    forall i, j | 0 <= i < j < |r| ensures LetterId(r[i]) != LetterId(r[j]) {
      assert LetterId(letters[i]) != LetterId(letters[j]);
    }
  }

  /** Deleting a letter twice removes no more than deleting it once. */
  lemma DeleteLetterIdempotent(letters: seq<Letter>, id: Id)
    ensures RemoveLetter(RemoveLetter(letters, id), id) == RemoveLetter(letters, id)
  {
  }

  // ---------------------------------------------------------------------------
  // The store

  const UserCorrupted: String := "User data corrupted"
  const JournalEntriesCorrupted: String := "Journal entries data corrupted"
  const LettersCorrupted: String := "Letters data corrupted"

  class StorageService {
    var user: Slot<User>
    var onboardingCompleted: bool
    var journalEntries: Slot<seq<JournalEntry>>
    var letters: Slot<seq<Letter>>

    /** A store over preferences that already hold these slots. */
    constructor(user: Slot<User>, onboardingCompleted: bool,
                journalEntries: Slot<seq<JournalEntry>>, letters: Slot<seq<Letter>>)
      ensures this.user == user && this.onboardingCompleted == onboardingCompleted
      ensures this.journalEntries == journalEntries && this.letters == letters
    {
      this.user := user;
      this.onboardingCompleted := onboardingCompleted;
      this.journalEntries := journalEntries;
      this.letters := letters;
    }

    /** `saveUser`: the user slot now holds `u`, and loading it returns `u`. */
    method SaveUser(u: User)
      modifies this
      ensures user == Present(u) && LoadUser() == Ok(Some(u))
      ensures onboardingCompleted == old(onboardingCompleted)
      ensures journalEntries == old(journalEntries) && letters == old(letters)
    {
      user := Present(u);
    }

    /** `loadUser`: `nil` when absent, `loadFailed` when corrupt. */
    function LoadUser(): (r: Result<Option<User>, Error>)
      reads this
      ensures user.Absent? ==> r == Ok(None)
      ensures r.Err? <==> user.Corrupt?
      ensures r.Err? ==> r.error == StorageFailure(LoadFailed(UserCorrupted))
      ensures user.Present? ==> r == Ok(Some(user.value))
    {
      match user
      case Absent => Ok(None)
      case Corrupt => Err(StorageFailure(LoadFailed(UserCorrupted)))
      case Present(u) => Ok(Some(u))
    }

    /** `completeOnboarding`: sets the flag and nothing else. */
    method CompleteOnboarding()
      modifies this
      ensures onboardingCompleted
      ensures user == old(user) && journalEntries == old(journalEntries) && letters == old(letters)
    {
      onboardingCompleted := true;
    }

    /** `hasCompletedOnboarding`: the stored flag (false when absent). */
    function HasCompletedOnboarding(): (r: bool)
      reads this
      ensures r <==> onboardingCompleted
    {
      onboardingCompleted
    }

    /** `loadAllJournalEntries`. */
    function LoadAllJournalEntries(): (r: Result<seq<JournalEntry>, Error>)
      reads this
      ensures journalEntries.Absent? ==> r == Ok([])
      ensures journalEntries.Corrupt? ==> r == Err(StorageFailure(LoadFailed(JournalEntriesCorrupted)))
      ensures journalEntries.Present? ==> r == Ok(journalEntries.value)
    {
      LoadCollection(journalEntries, JournalEntriesCorrupted)
    }

    /** `loadJournalEntry(for:)`: the first stored entry on the same day as `date`. */
    function LoadJournalEntry(date: Time): (r: Result<Option<JournalEntry>, Error>)
      reads this
      ensures r.Err? <==> journalEntries.Corrupt?
      ensures r.Ok? ==> (r.value.None? <==> forall e :: e in LoadAllJournalEntries().value ==> !SameDay(e.date, date))
      ensures r.Ok? && r.value.Some? ==> r.value.value in LoadAllJournalEntries().value && SameDay(r.value.value.date, date)
      ensures r.Ok? && r.value.Some? ==> var entries := LoadAllJournalEntries().value;
        exists k :: 0 <= k < |entries| && entries[k] == r.value.value &&
          forall j :: 0 <= j < k ==> !SameDay(entries[j].date, date)
    {
      match LoadAllJournalEntries()
      case Err(e) => Err(e)
      case Ok(entries) =>
        match FirstIndexOnDay(entries, StartOfDay(date))
        case None => Ok(None)
        case Some(k) => Ok(Some(entries[k]))
    }

    /**
     * `saveJournalEntry`: a load failure is reported and nothing is written;
     * otherwise the entries become the upsert of `entry` by day.
     */
    method SaveJournalEntry(entry: JournalEntry) returns (r: Outcome<Error>)
      modifies this
      ensures old(LoadAllJournalEntries()).Err? ==> r == Fail(old(LoadAllJournalEntries()).error) && unchanged(this)
      ensures old(LoadAllJournalEntries()).Ok? ==>
        r == Pass && journalEntries == Present(UpsertByDay(old(LoadAllJournalEntries()).value, entry))
      ensures user == old(user) && onboardingCompleted == old(onboardingCompleted) && letters == old(letters)
    {
      var loaded := LoadAllJournalEntries();
      if loaded.Err? {
        return Fail(loaded.error);
      }
      var entries := loaded.value;
      entries := RemoveDay(entries, entry.DateKey());
      entries := entries + [entry];
      journalEntries := Present(entries);
      r := Pass;
    }

    /** `deleteJournalEntry`: removes every entry with `id`; an absent `id` is not an error. */
    method DeleteJournalEntry(id: Id) returns (r: Outcome<Error>)
      modifies this
      ensures old(LoadAllJournalEntries()).Err? ==> r == Fail(old(LoadAllJournalEntries()).error) && unchanged(this)
      ensures old(LoadAllJournalEntries()).Ok? ==>
        r == Pass && journalEntries == Present(RemoveEntry(old(LoadAllJournalEntries()).value, id))
      ensures user == old(user) && onboardingCompleted == old(onboardingCompleted) && letters == old(letters)
    {
      var loaded := LoadAllJournalEntries();
      if loaded.Err? {
        return Fail(loaded.error);
      }
      journalEntries := Present(RemoveEntry(loaded.value, id));
      r := Pass;
    }

    /** `loadAllLetters`. */
    function LoadAllLetters(): (r: Result<seq<Letter>, Error>)
      reads this
      ensures letters.Absent? ==> r == Ok([])
      ensures letters.Corrupt? ==> r == Err(StorageFailure(LoadFailed(LettersCorrupted)))
      ensures letters.Present? ==> r == Ok(letters.value)
    {
      LoadCollection(letters, LettersCorrupted)
    }

    /** `loadLetter`: the first stored letter with `id`. */
    function LoadLetter(id: Id): (r: Result<Option<Letter>, Error>)
      reads this
      ensures r.Err? <==> letters.Corrupt?
      ensures r.Ok? ==> (r.value.None? <==> !HasId(LoadAllLetters().value, id))
      ensures r.Ok? && r.value.Some? ==> r.value.value.id == id && r.value.value in LoadAllLetters().value
      ensures r.Ok? && r.value.Some? ==> var ls := LoadAllLetters().value;
        exists k :: 0 <= k < |ls| && ls[k] == r.value.value && forall j :: 0 <= j < k ==> ls[j].id != id
    {
      match LoadAllLetters()
      case Err(e) => Err(e)
      case Ok(ls) =>
        match FindLetter(ls, id)
        case None => Ok(None)
        case Some(k) => Ok(Some(ls[k]))
    }

    /** `loadScheduledLetters`: the undelivered letters, in stored order. */
    function LoadScheduledLetters(): (r: Result<seq<Letter>, Error>)
      reads this
      ensures r.Err? <==> letters.Corrupt?
      ensures r.Ok? ==> r.value == ScheduledLetters(LoadAllLetters().value)
    {
      match LoadAllLetters()
      case Err(e) => Err(e)
      case Ok(ls) => Ok(ScheduledLetters(ls))
    }

    /** `loadDeliveredLetters`: the delivered letters, in stored order. */
    function LoadDeliveredLetters(): (r: Result<seq<Letter>, Error>)
      reads this
      ensures r.Err? <==> letters.Corrupt?
      ensures r.Ok? ==> r.value == DeliveredLetters(LoadAllLetters().value)
    {
      match LoadAllLetters()
      case Err(e) => Err(e)
      case Ok(ls) => Ok(DeliveredLetters(ls))
    }

    /**
     * `saveLetter`: a load failure or the cap on undelivered letters is
     * reported and nothing is written; otherwise the letters become the
     * upsert of `letter` by identifier.
     */
    method SaveLetter(letter: Letter) returns (r: Outcome<Error>)
      modifies this
      ensures old(LoadAllLetters()).Err? ==> r == Fail(old(LoadAllLetters()).error) && unchanged(this)
      ensures old(LoadAllLetters()).Ok? && UpsertLetter(old(LoadAllLetters()).value, letter).Err? ==>
        r == Fail(LetterFailure(MaxLettersExceeded)) && unchanged(this)
      ensures old(LoadAllLetters()).Ok? && UpsertLetter(old(LoadAllLetters()).value, letter).Ok? ==>
        r == Pass && letters == Present(UpsertLetter(old(LoadAllLetters()).value, letter).value)
      ensures user == old(user) && onboardingCompleted == old(onboardingCompleted)
      ensures journalEntries == old(journalEntries)
    {
      var loaded := LoadAllLetters();
      if loaded.Err? {
        return Fail(loaded.error);
      }
      var ls := loaded.value;
      if !HasId(ls, letter.id) {
        var scheduledCount := |ScheduledLetters(ls)|;
        if !(scheduledCount < MaxScheduledLetters) {
          return Fail(LetterFailure(MaxLettersExceeded));
        }
      }
      ls := RemoveLetter(ls, letter.id);
      ls := ls + [letter];
      letters := Present(ls);
      r := Pass;
    }

    /** `deleteLetter`: removes every letter with `id`; an absent `id` is not an error. */
    method DeleteLetter(id: Id) returns (r: Outcome<Error>)
      modifies this
      ensures old(LoadAllLetters()).Err? ==> r == Fail(old(LoadAllLetters()).error) && unchanged(this)
      ensures old(LoadAllLetters()).Ok? ==> r == Pass && letters == Present(RemoveLetter(old(LoadAllLetters()).value, id))
      ensures user == old(user) && onboardingCompleted == old(onboardingCompleted)
      ensures journalEntries == old(journalEntries)
    {
      var loaded := LoadAllLetters();
      if loaded.Err? {
        return Fail(loaded.error);
      }
      letters := Present(RemoveLetter(loaded.value, id));
      r := Pass;
    }

    /**
     * `markLetterAsDelivered`: a load failure or a missing identifier is
     * reported and nothing is written; otherwise the first letter with `id`
     * is replaced by its delivered copy stamped `now`.
     */
    method MarkLetterAsDelivered(id: Id, now: Time) returns (r: Outcome<Error>)
      modifies this
      ensures old(LoadAllLetters()).Err? ==> r == Fail(old(LoadAllLetters()).error) && unchanged(this)
      ensures old(LoadAllLetters()).Ok? && MarkDelivered(old(LoadAllLetters()).value, id, now).Err? ==>
        r == Fail(StorageFailure(NotFound("Letter"))) && unchanged(this)
      ensures old(LoadAllLetters()).Ok? && MarkDelivered(old(LoadAllLetters()).value, id, now).Ok? ==>
        r == Pass && letters == Present(MarkDelivered(old(LoadAllLetters()).value, id, now).value)
      ensures r.Pass? <==> old(LoadAllLetters()).Ok? && HasId(old(LoadAllLetters()).value, id)
      ensures user == old(user) && onboardingCompleted == old(onboardingCompleted)
      ensures journalEntries == old(journalEntries)
    {
      var loaded := LoadAllLetters();
      if loaded.Err? {
        return Fail(loaded.error);
      }
      var ls := loaded.value;
      var index := FindLetter(ls, id);
      if index.None? {
        return Fail(StorageFailure(NotFound("Letter")));
      }
      ls := ls[index.value := MarkAsDelivered(ls[index.value], now)];
      letters := Present(ls);
      r := Pass;
    }

    /** `clearAllData`: every slot becomes absent, so every load is empty and the flag is false. */
    method ClearAllData()
      modifies this
      ensures user == Absent && !onboardingCompleted && journalEntries == Absent && letters == Absent
      ensures LoadUser() == Ok(None) && !HasCompletedOnboarding()
      ensures LoadAllJournalEntries() == Ok([]) && LoadAllLetters() == Ok([])
    {
      user := Absent;
      journalEntries := Absent;
      letters := Absent;
      onboardingCompleted := false;
    }
  }
}
