# mindmail domain layer in Dafny

mindmail is an iOS journaling app. The user writes one five-question journal
entry per day. They can also write "letters to future self", which are
delivered by a local notification at a chosen time, once or every day. This
project models the app's domain layer below the SwiftUI views:

- **Validation and entity factories.** Trimming, length and character-set
  rules. The validating initializers of `User`, `JournalEntry` and `Letter`,
  with their typed errors and guard order. The `MoodType` and
  `RecurrencePattern` enumerations.
- **The key-value store (`StorageService`).** A class whose four slots (user,
  onboarding flag, journal entries, letters) are each `Absent`, `Corrupt` or
  `Present(value)`. Each mutator loads a whole collection, edits it and writes
  it back:
  - journal entries are upserted by calendar day;
  - letters are upserted by id, with a cap of 100 undelivered letters;
  - mark-delivered and delete;
  - the scheduled/delivered filters;
  - clear-all.
- **Past-due reconciliation (`LetterDeliveryService`).** A loop over the
  scheduled letters that marks every letter with `scheduledDate <= now` as
  delivered. It counts the letters it delivers and records one "letter
  delivered" post per letter.
- **Notification scheduling (`NotificationService`).** A class over a map of
  pending requests keyed by letter id. It covers:
  - the 60-second minimum-delay guard;
  - the one-time trigger (year, month, day, hour and minute) and the daily
    trigger (hour and minute), with their matching semantics;
  - cancel and cancel-all;
  - the reschedule-all loop.
- **View models.** Each is a class whose fields the methods update:
  - the calendar (its day index, month navigation, and the day grid built by
    appends);
  - the five-step journal flow and its save;
  - compose-letter validity and the permission → create → store → schedule
    order of `saveLetter`;
  - the onboarding steps.
- **Inbox and colours.** The two sorted inbox lists and the `Color(hex:)` ARGB
  decoder.

Time is whole seconds since 1970-01-01T00:00:00 UTC (`Dates.Time`). Calendar
days, Gregorian dates, weekdays, hours and minutes are computed from it
(`Dates`). Whoever calls an operation passes in the current time (`now`) and
freshly generated identifiers. Strings are `seq<char>`. Character classes
(whitespace, newline, control, letter, digit) are predicates over code points
(`Text`).

Where the code and its unit tests disagree, the model follows the code:

- The subject limit is 50 and the body limit is 500 (`Letter.swift:23-26`),
  not 100 and 2000.
- `RecurrencePattern` has only `once` and `daily`; there is no weekly case.
- `markAsDelivered` is not guarded: it re-stamps an already delivered letter.

The doc comment of `ValidationUtils.sanitizeText` says newlines are kept, but
the code collapses every whitespace run, newlines included, to one space. The
model follows the code (`ValidationUtils.SanitizeTextJoinsLines`).

## Model

| member | source | states |
|---|---|---|
| Text.TrimStart | mindmail/Models/JournalEntry.swift:89 | The result is a suffix of the input; everything dropped is whitespace; the result starts with a non-whitespace character or is empty |
| Text.TrimEnd | mindmail/Models/JournalEntry.swift:89 | The result is a prefix of the input; everything dropped is whitespace; the result ends with a non-whitespace character or is empty |
| Text.Trim | mindmail/Models/JournalEntry.swift:89 | Trimming whitespace and newlines is empty exactly for all-whitespace input; otherwise both ends are non-whitespace |
| Text.TrimIdempotent | mindmail/Models/JournalEntry.swift:89 | Trimming twice is the same as trimming once |
| Text.TrimIsSlice | mindmail/Models/JournalEntry.swift:89 | The trimmed text is a contiguous slice of the input |
| Text.StripControls | mindmail/Models/Letter.swift:115-117 | The result contains no control character other than a newline, only characters of the input, and is the input itself when it has none to strip |
| Text.StripControlsAppend | mindmail/Models/Letter.swift:115-117 | Stripping distributes over concatenation, so the kept characters stay in their order |
| Text.CollapseWhitespace | mindmail/Utils/ValidationUtils.swift:53 | Each whitespace run becomes one space. The words (maximal non-whitespace runs) stay the same and in order. The result is exactly those words joined by single spaces, with one space in front when the input opens with whitespace and one at the end when it closes with whitespace after a word. No two whitespace characters end up adjacent |
| Text.CollapsePreservesContent | mindmail/Utils/ValidationUtils.swift:53 | Collapsing keeps the sequence of non-whitespace characters unchanged |
| ValidationUtils.IsValidLength | mindmail/Utils/ValidationUtils.swift:22-24 | Accepts exactly when the trimmed length lies between the minimum and the maximum, inclusive |
| ValidationUtils.IsValidJournalTextIsLengthCheck | mindmail/Utils/ValidationUtils.swift:110-113 | `isValidJournalText` is the length check with bounds 1 and 140, which holds exactly when `validateText` succeeds |
| ValidationUtils.IsEmpty | mindmail/Utils/ValidationUtils.swift:30-32 | True exactly for blank text |
| ValidationUtils.CharacterCount | mindmail/Utils/ValidationUtils.swift:37-39 | The trimmed count never exceeds the length and is zero exactly for blank text |
| ValidationUtils.SanitizeText | mindmail/Utils/ValidationUtils.swift:47-56 | The output has no newline and no stripped control character. Its words are those of the trimmed, control-stripped input, in order, and it is exactly those words joined by single spaces |
| ValidationUtils.CollapseLeavesNoNewlineOrControl | mindmail/Utils/ValidationUtils.swift:50-53 | After control stripping, the collapse leaves no newline and no control character |
| ValidationUtils.SanitizeTextJoinsLines | mindmail/Utils/ValidationUtils.swift:47-56 | Two words separated by any run of newlines come out joined by a single space, contrary to the doc comment |
| ValidationUtils.KeepNameChars | mindmail/Utils/ValidationUtils.swift:65-69 | The result is the input with every character other than a letter, whitespace, `-` or `'` removed: the name characters stay, all of them, in order |
| ValidationUtils.KeepNameCharsAppend | mindmail/Utils/ValidationUtils.swift:65-69 | Filtering a concatenation is the concatenation of the filtered parts, so the filter works character by character |
| ValidationUtils.SanitizeName | mindmail/Utils/ValidationUtils.swift:62-74 | The output holds only name characters. Its words are those of the filtered, trimmed input, in order, and it is exactly those words joined by single spaces |
| ValidationUtils.IsValidNameIffUserAccepts | mindmail/Utils/ValidationUtils.swift:89-103 | `isValidName` holds exactly when the `User` initializer succeeds |
| ValidationUtils.IsValidName | mindmail/Utils/ValidationUtils.swift:89-103 | Holds exactly when the trimmed length is 1 to 50 (`MinNameLength` is 1) and every trimmed character is a letter, whitespace, `-` or `'`; a blank name is never valid |
| ValidationUtils.IsValidJournalText | mindmail/Utils/ValidationUtils.swift:110-113 | Accepted text is never blank |
| ValidationUtils.IsValidJournalTextIffValidateText | mindmail/Utils/ValidationUtils.swift:110-113 | `isValidJournalText` holds exactly when `JournalEntry.validateText` does not throw |
| ValidationUtils.RemainingCharacters | mindmail/Utils/ValidationUtils.swift:118-121 | Never negative; equals the maximum minus the trimmed count whenever that is not negative, and 0 otherwise |
| ValidationUtils.IsValidLetterSubject | mindmail/Utils/ValidationUtils.swift:128-133 | Every blank subject is accepted |
| ValidationUtils.IsValidLetterSubjectIffLetterAccepts | mindmail/Utils/ValidationUtils.swift:128-133 | The subject check agrees exactly with the `Letter` initializer's subject rule |
| ValidationUtils.IsValidLetterBody | mindmail/Utils/ValidationUtils.swift:138-141 | Every blank body is accepted: there is no minimum |
| ValidationUtils.IsValidLetterBodyVersusLetter | mindmail/Utils/ValidationUtils.swift:138-141 | The body check accepts exactly what the `Letter` initializer accepts plus blank bodies, which the initializer rejects with `emptyText` |
| ValidationUtils.IsFutureDate | mindmail/Utils/ValidationUtils.swift:148-151 | An accepted date lies strictly after now |
| ValidationUtils.IsFutureDateIffLetterAccepts | mindmail/Utils/ValidationUtils.swift:148-151 | With a valid subject and body, the `Letter` initializer accepts the date exactly when `isFutureDate` holds (a delay of at least 60 s), and otherwise fails with `scheduledDateMustBeInFuture` |
| ValidationUtils.IsValidJournalDate | mindmail/Utils/ValidationUtils.swift:155-160 | True exactly when the date's day is today or earlier |
| Users.NewUser | mindmail/Models/User.swift:25-51 | On success the name is the trimmed input, 1 to 50 characters of letters, whitespace, `-` and `'`. `emptyName` iff blank; `nameTooLong` iff the trimmed length exceeds 50; `invalidCharacters` iff the length is fine but a character is not allowed; `nameTooShort` never occurs |
| Users.RejectedNameCharacters | mindmail/Models/User.swift:43-49 | Digits, `@`, `<`, U+0000 and emoji are not name characters |
| Users.LengthCheckedBeforeCharacters | mindmail/Models/User.swift:30-49 | A 51-digit name reports `nameTooLong`, not `invalidCharacters` |
| JournalEntries.ValidateText | mindmail/Models/JournalEntry.swift:88-102 | `emptyText` iff blank; `textTooLong(140)` iff the trimmed count exceeds 140; on success the text is the trimmed input with controls stripped, at most 140 long, with no stripped control character |
| JournalEntries.ControlOnlyTextValidatesToEmpty | mindmail/Models/JournalEntry.swift:89-100 | A text made only of a control character passes the emptiness guard and yields an empty field |
| JournalEntries.ValidatedTextMayStartWithSpace | mindmail/Models/JournalEntry.swift:89-100 | Stripping after trimming can leave a leading space |
| JournalEntries.ValidateReflections | mindmail/Models/JournalEntry.swift:37-40 | The four fields are checked in the order struggle, gratitude, memory, lookingForward; the first failure is the error; success holds the four validated texts |
| JournalEntries.NewEntry | mindmail/Models/JournalEntry.swift:35-51 | Fails exactly when a field fails, with the first failing field's error in the order struggle, gratitude, memory, lookingForward. On success it has the fresh id, `createdAt` and `modifiedAt` equal to now, the date normalised to the start of its day, the given mood and the validated texts |
| JournalEntries.UpdatedEntry | mindmail/Models/JournalEntry.swift:54-68 | The same validation; on success it keeps the supplied id and `createdAt`, sets `modifiedAt` to now and normalises the date |
| JournalEntries.ValidatedEntryInvariant | mindmail/Models/JournalEntry.swift:54-68 | A validated entry's date is a start of day on the requested day, and every field is at most 140 characters |
| Letters.ValidateSubject | mindmail/Models/Letter.swift:46-59 | A missing or blank subject becomes none; a trimmed count over 50 is `textTooLong(50)`; otherwise the trimmed, control-stripped subject |
| Letters.ValidateBody | mindmail/Models/Letter.swift:62-71 | A blank body is `emptyText`; a trimmed count over 500 is `textTooLong(500)`; otherwise the trimmed, control-stripped body |
| Letters.NewLetter | mindmail/Models/Letter.swift:44-86 | Errors come in the order subject, body, then date (`scheduledDate − now < 60` is `scheduledDateMustBeInFuture`). Success holds exactly when all three pass, and yields an undelivered letter with the given id, date, recurrence and `createdAt` = now |
| Letters.NewLetterInvariant | mindmail/Models/Letter.swift:78-85 | A new letter is undelivered with no delivery time, is scheduled at least 60 s ahead, and respects both length limits |
| Letters.SubjectCheckedBeforeDate | mindmail/Models/Letter.swift:44-76 | A letter with a 51-character subject and a past date reports the subject error |
| Letters.MarkAsDelivered | mindmail/Models/Letter.swift:101-112 | The copy keeps id, subject, body, scheduled date, recurrence and creation time, and is delivered at now |
| Letters.MarkAsDeliveredTwice | mindmail/Models/Letter.swift:101-112 | Marking is not guarded: marking again only overwrites the delivery time |
| RecurrencePatterns.RecurrencePattern.Id | mindmail/Models/RecurrencePattern.swift:17 | The identifier is the raw value |
| RecurrencePatterns.RecurrencePattern.CalendarComponentOf | mindmail/Models/RecurrencePattern.swift:50-57 | No component exactly for `once` (`.day` for `daily`) |
| RecurrencePatterns.RecurrencePattern.Label | mindmail/Models/RecurrencePattern.swift:20-27 | Every label is non-empty and starts with a capital letter |
| RecurrencePatterns.LabelInjective | mindmail/Models/RecurrencePattern.swift:20-27 | The two patterns have different labels |
| RecurrencePatterns.FromRawValue | mindmail/Models/RecurrencePattern.swift:13-15 | Decoding a raw value yields a case with that raw value |
| RecurrencePatterns.RawValueRoundTrip | mindmail/Models/RecurrencePattern.swift:13-15 | Decoding inverts encoding; there are exactly two distinct cases |
| MoodTypes.MoodType.Id | mindmail/Models/MoodType.swift:20 | The identifier is the raw value |
| MoodTypes.MoodType.Emoji | mindmail/Models/MoodType.swift:41-43 | The emoji is the raw value |
| MoodTypes.FromRawValue | mindmail/Models/MoodType.swift:12-18 | Decoding a raw value yields a case with that raw value |
| MoodTypes.RawValueRoundTrip | mindmail/Models/MoodType.swift:12-18 | Decoding inverts encoding |
| MoodTypes.RawValueInjective | mindmail/Models/MoodType.swift:13-18 | Distinct moods have distinct raw values |
| MoodTypes.LabelInjective | mindmail/Models/MoodType.swift:23-38 | Distinct moods have distinct labels |
| MoodTypes.MoodType.Label | mindmail/Models/MoodType.swift:23-38 | Every label is non-empty and starts with a capital letter |
| MoodTypes.AllCasesComplete | mindmail/Models/MoodType.swift:12-18 | `allCases` lists six pairwise-distinct moods and contains every mood |
| Dates.StartOfDay | mindmail/Models/JournalEntry.swift:43 | The start of day is at or before the instant, less than a day before it, on the same day, and a whole number of days |
| Dates.SameDayIffSameStart | mindmail/ViewModels/CalendarViewModel.swift:159-162 | Two instants are on the same day exactly when their starts of day are equal |
| Dates.CivilDayRoundTrip | mindmail/ViewModels/CalendarViewModel.swift:103-106 | Converting a valid (year, month, day) to a day number and back gives it unchanged |
| Dates.DayCivilRoundTrip | mindmail/ViewModels/CalendarViewModel.swift:103-106 | Converting a day number to (year, month, day) and back gives it unchanged |
| Dates.CivilOfDayInjective | mindmail/ViewModels/CalendarViewModel.swift:103-106 | Distinct days have distinct dates |
| Dates.TimeOfCivil | mindmail/ViewModels/CalendarViewModel.swift:103-106 | The instant built from a valid date is a start of day whose date is that date |
| Dates.Weekday | mindmail/ViewModels/CalendarViewModel.swift:114-116 | Weekdays run from 1 (Sunday) to 7. 1 January 1970 is a Thursday (5), and the result is 1 exactly on the days that are 3 mod 7 after it |
| Dates.WeekdayAnchors | mindmail/ViewModels/CalendarViewModel.swift:114-116 | 1970-01-01 is a Thursday and 1970-01-04 a Sunday |
| Dates.WeekdayNextDay | mindmail/ViewModels/CalendarViewModel.swift:114-116 | The next day has the next weekday, Saturday wrapping to Sunday, and the weekday repeats every seven days |
| Dates.WeekdayReachesBackToSunday | mindmail/ViewModels/CalendarViewModel.swift:114-116 | Going back weekday − 1 days lands on a Sunday, and no shorter step back does |
| Dates.Hour | mindmail/Services/NotificationService.swift:80 | Hours run from 0 to 23 |
| Dates.Minute | mindmail/Services/NotificationService.swift:80 | Minutes run from 0 to 59 |
| Dates.ShiftMonth | mindmail/ViewModels/CalendarViewModel.swift:72-85 | The shifted month is in 1..12 and `year·12 + month` moves by exactly the shift |
| Dates.AddMonths | mindmail/ViewModels/CalendarViewModel.swift:72-85 | Adding months lands on the shifted (year, month) |
| Dates.NextThenPreviousMonth | mindmail/ViewModels/CalendarViewModel.swift:72-85 | Moving forward then back one month restores year and month |
| Dates.DecemberToJanuary | mindmail/ViewModels/CalendarViewModel.swift:80-85 | From December the next month is January of the next year |
| Dates.DecimalRoundTrip | mindmail/Models/JournalEntry.swift:106-110 | Reading back a zero-padded decimal gives the number |
| Dates.DecodeDateKey | mindmail/Models/JournalEntry.swift:106-110 | A formatted `yyyy-MM-dd` key has dashes in place, and its three fields are digits that read back as the year of era, the month and the day |
| Dates.FormatDateKey | mindmail/Models/JournalEntry.swift:106-110 | The key is at least ten characters long, with dashes three and six places from its end |
| Dates.DateKeySpellsDay | mindmail/Models/JournalEntry.swift:106-110 | The key of an instant spells the civil date of its day, and the time of day plays no part |
| Dates.SpellsOneDate | mindmail/Models/JournalEntry.swift:106-110 | From year 1 on, a key spells at most one date |
| JournalEntries.EntryKeySpellsDay | mindmail/Models/JournalEntry.swift:106-110 | An entry's `dateKey` spells the day of its date, the same as the key of that day's midnight |
| Dates.DateKeyIffSameDay | mindmail/Models/JournalEntry.swift:106-110 | For years from 1 on, two instants have the same date key exactly when they fall on the same day |
| Dates.DateKeyExample | mindmail/Models/JournalEntry.swift:106-110 | 24 October 2025 is keyed "2025-10-24" |
| Filters.Filter | mindmail/Services/StorageService.swift:200-210 | A filter keeps exactly the members that satisfy the predicate, and is the identity when every member does |
| Filters.FilterAppend | mindmail/Services/StorageService.swift:200-210 | Filtering distributes over concatenation, so order is kept |
| Filters.FilterPartition | mindmail/Services/StorageService.swift:200-210 | Two complementary filters split the input as a multiset |
| Filters.FilterKeepsDistinct | mindmail/Services/StorageService.swift:93 | Filtering keeps keys pairwise distinct |
| Sorting.SortBy | mindmail/Views/MentalMailbox/LetterInboxView.swift:148 | The sorted list is a permutation of the input, ordered by the key |
| Sorting.Insert | mindmail/Views/MentalMailbox/LetterInboxView.swift:148 | Inserting into a sorted list keeps it sorted and adds exactly one element |
| Sorting.SortBySorted | mindmail/Views/MentalMailbox/LetterInboxView.swift:148 | An already sorted list is returned unchanged |
| Storage.LoadCollection | mindmail/Services/StorageService.swift:114-124 | An absent slot loads as empty; a corrupt slot fails with `loadFailed`; a present slot loads its contents |
| Storage.UpsertByDay | mindmail/Services/StorageService.swift:89-100 | The saved entry is last; no other entry has its day key; every entry for another day is kept, and nothing else is present |
| Storage.UpsertByDayIdempotent | mindmail/Services/StorageService.swift:89-100 | Saving the same entry twice is the same as saving it once |
| Storage.UpsertByDayKeepsOrder | mindmail/Services/StorageService.swift:93-94 | Entries for other days keep their relative order |
| Storage.UpsertByDayKeepsDaysDistinct | mindmail/Services/StorageService.swift:89-100 | If stored day keys are pairwise distinct, they stay distinct after a save |
| Storage.RemoveEntry | mindmail/Services/StorageService.swift:142-146 | Deleting keeps exactly the entries with another id |
| Storage.DeleteEntryIdempotent | mindmail/Services/StorageService.swift:142-146 | Deleting an entry twice is the same as once |
| Storage.FirstIndexOnDay | mindmail/Services/StorageService.swift:105-109 | The first entry on the requested day, or none exactly when no entry is on that day |
| Storage.FindLetter | mindmail/Services/StorageService.swift:240 | The first index holding the id, or none exactly when the id is absent |
| Storage.RemoveLetter | mindmail/Services/StorageService.swift:228-232 | Deleting keeps exactly the letters with another id, and changes nothing when the id is absent |
| Storage.DeleteLetterIdempotent | mindmail/Services/StorageService.swift:228-232 | Deleting a letter twice is the same as once |
| Storage.ScheduledLetters | mindmail/Services/StorageService.swift:200-204 | Exactly the undelivered letters |
| Storage.DeliveredLetters | mindmail/Services/StorageService.swift:207-211 | Exactly the delivered letters |
| Storage.ScheduledDeliveredPartition | mindmail/Services/StorageService.swift:200-210 | Scheduled and delivered letters together are the stored letters as a multiset |
| Storage.ScheduledDeliveredKeepOrder | mindmail/Services/StorageService.swift:200-210 | Both filters keep the stored order |
| Storage.UpsertLetter | mindmail/Services/StorageService.swift:153-173 | A new id fails with `maxLettersExceeded` exactly when 100 or more letters are undelivered. Otherwise the saved letter is last and the only one with its id; every letter with another id is kept, and nothing else is present |
| Storage.NewLetterRespectsCap | mindmail/Services/StorageService.swift:156-163 | Saving a new undelivered letter adds one scheduled letter and keeps the count at most 100 |
| Storage.UpsertLetterKeepsIdsUnique | mindmail/Services/StorageService.swift:166-169 | Saving keeps letter ids pairwise distinct |
| Storage.MarkDelivered | mindmail/Services/StorageService.swift:237-246 | `notFound("Letter")` exactly when the id is absent. Otherwise the same length and ids, with only the first letter holding the id replaced by its delivered copy |
| Storage.MarkDeliveredKeepsIdsUnique | mindmail/Services/StorageService.swift:237-246 | Marking keeps letter ids pairwise distinct |
| Storage.StorageService.constructor | mindmail/Services/StorageService.swift:32-38 | A store holds the four given slots |
| Storage.StorageService.SaveUser | mindmail/Services/StorageService.swift:45-55 | After saving, loading the user returns the saved user; the other slots are unchanged |
| Storage.StorageService.LoadUser | mindmail/Services/StorageService.swift:58-70 | An absent slot gives no user, a present one its user, a corrupt one a `loadFailed` error |
| Storage.StorageService.CompleteOnboarding | mindmail/Services/StorageService.swift:73-77 | The onboarding flag is set; the other slots are unchanged |
| Storage.StorageService.HasCompletedOnboarding | mindmail/Services/StorageService.swift:80-82 | True exactly when the stored onboarding flag is set (an absent flag reads as false) |
| Storage.StorageService.LoadAllJournalEntries | mindmail/Services/StorageService.swift:114-124 | An absent slot loads as no entries; a corrupt slot fails with `loadFailed("Journal entries data corrupted")`; a present slot loads its entries unchanged |
| Storage.StorageService.LoadAllLetters | mindmail/Services/StorageService.swift:178-188 | An absent slot loads as no letters; a corrupt slot fails with `loadFailed("Letters data corrupted")`; a present slot loads its letters unchanged |
| Storage.StorageService.LoadJournalEntry | mindmail/Services/StorageService.swift:105-109 | Fails exactly on a corrupt slot. Otherwise there is no entry exactly when no stored entry is on that day. A returned entry is the first stored entry on that day |
| Storage.StorageService.SaveJournalEntry | mindmail/Services/StorageService.swift:89-100 | A load error is returned and nothing is written; otherwise the stored entries become the day-upsert of the entry; the other slots are unchanged |
| Storage.StorageService.DeleteJournalEntry | mindmail/Services/StorageService.swift:142-146 | A load error is returned and nothing is written; otherwise every entry with the id is removed |
| Storage.StorageService.LoadLetter | mindmail/Services/StorageService.swift:193-197 | Fails exactly on a corrupt slot. Otherwise there is no letter exactly when the id is absent. A returned letter is the first stored letter with that id |
| Storage.StorageService.LoadScheduledLetters | mindmail/Services/StorageService.swift:200-204 | Fails exactly on a corrupt slot; otherwise the undelivered letters in stored order |
| Storage.StorageService.LoadDeliveredLetters | mindmail/Services/StorageService.swift:207-211 | Fails exactly on a corrupt slot; otherwise the delivered letters in stored order |
| Storage.StorageService.SaveLetter | mindmail/Services/StorageService.swift:153-173 | A load error or the cap error is returned and nothing is written; otherwise the stored letters become the id-upsert of the letter |
| Storage.StorageService.DeleteLetter | mindmail/Services/StorageService.swift:228-232 | A load error is returned and nothing is written; otherwise every letter with the id is removed, with no error for an absent id |
| Storage.StorageService.MarkLetterAsDelivered | mindmail/Services/StorageService.swift:237-246 | Succeeds exactly when the letters load and the id is present, and then replaces only that letter by its delivered copy; a failure writes nothing |
| Storage.StorageService.ClearAllData | mindmail/Services/StorageService.swift:252-258 | Afterwards there is no user, onboarding is not complete and both collections load as empty |
| LetterDelivery.DueIn | mindmail/Services/LetterDeliveryService.swift:41 | Keeps exactly the letters with `scheduledDate <= now` |
| LetterDelivery.DueLetters | mindmail/Services/LetterDeliveryService.swift:29-41 | Exactly the undelivered letters scheduled at or before now |
| LetterDelivery.Reconcile | mindmail/Services/LetterDeliveryService.swift:23-67 | The reference outcome of a run has as many letters as before |
| LetterDelivery.ReconcileDeliversExactlyPastDue | mindmail/Services/LetterDeliveryService.swift:29-53 | A past-due letter becomes its delivered copy; every other letter is left untouched; ids and scheduled dates never change |
| LetterDelivery.BoundaryIsPastDue | mindmail/Services/LetterDeliveryService.swift:41 | A letter scheduled exactly at now is delivered |
| LetterDelivery.NothingPastDueAfterReconcile | mindmail/Services/LetterDeliveryService.swift:29-47 | After a run no letter is past due |
| LetterDelivery.SecondRunDeliversNothing | mindmail/Services/LetterDeliveryService.swift:29-41 | A second run at the same time finds nothing to deliver |
| LetterDelivery.MarkAll | mindmail/Services/StorageService.swift:237-246 | Marking a sequence of present ids succeeds and keeps length and ids |
| LetterDelivery.MarkAllMarksSet | mindmail/Services/StorageService.swift:237-246 | With distinct ids, marking a list of ids one by one marks exactly the letters in that set |
| LetterDelivery.MarkAllReconciles | mindmail/Services/LetterDeliveryService.swift:34-47 | With distinct ids, marking the past-due ids one by one produces the reference outcome |
| LetterDelivery.LetterDeliveryService.constructor | mindmail/Services/LetterDeliveryService.swift:15-19 | The service works on the given store |
| LetterDelivery.LetterDeliveryService.DeliverOne | mindmail/Services/LetterDeliveryService.swift:44-45 | Marking one more present letter extends the marked prefix by its id and cannot fail |
| LetterDelivery.LetterDeliveryService.CheckAndDeliverPastDueLetters | mindmail/Services/LetterDeliveryService.swift:23-67 | A load error changes nothing and delivers nothing. Otherwise the count and the posted ids are exactly the past-due letters, in order, and the stored letters are those letters marked in turn; the other slots are unchanged |
| LetterDelivery.LetterDeliveryService.DeliverDue | mindmail/Services/LetterDeliveryService.swift:32-54 | The `for` loop: the count and the posted ids are exactly the due letters among the scheduled ones, in order, and the stored letters become those letters marked in turn; the other slots are unchanged |
| LetterDelivery.LetterDeliveryService.VisitOne | mindmail/Services/LetterDeliveryService.swift:34-53 | One pass of the loop: a letter is marked and its id posted exactly when its date is not after now |
| Notifications.TriggerFor | mindmail/Services/NotificationService.swift:73-83 | `once` matches year, month, day, hour and minute of the scheduled date without repeating; `daily` matches only hour and minute and repeats |
| Notifications.RequestFor | mindmail/Services/NotificationService.swift:65-90 | The request is keyed by the letter id, carries it as payload, has the fixed title, the subject or the default body, and repeats exactly for daily letters |
| Notifications.TriggerMatchesScheduledDate | mindmail/Services/NotificationService.swift:73-83 | Every trigger matches its letter's scheduled date |
| Notifications.OnceTriggerFiresInScheduledMinute | mindmail/Services/NotificationService.swift:74-77 | A one-time trigger matches exactly the instants in the scheduled minute |
| Notifications.DailyTriggerFiresEveryDay | mindmail/Services/NotificationService.swift:79-82 | A daily trigger matches exactly the instants at the scheduled hour and minute, and matches again a day later |
| Notifications.ScheduleAll | mindmail/Services/NotificationService.swift:127-136 | The reschedule fold fails only with `scheduledDateMustBeInFuture` |
| Notifications.ScheduleAllFailsIff | mindmail/Services/NotificationService.swift:127-136 | Rescheduling fails exactly when some letter's delay is in [0, 60) |
| Notifications.ScheduleAllRegisters | mindmail/Services/NotificationService.swift:127-136 | After a successful reschedule a request is pending exactly for the earlier requests and the letters with delay ≥ 60, each with that letter's request |
| Notifications.ScheduleAllFailFast | mindmail/Services/NotificationService.swift:133-136 | The first failure ends the loop: later letters change nothing |
| Notifications.NotificationService.constructor | mindmail/Services/NotificationService.swift:19 | A new service has no pending requests |
| Notifications.NotificationService.ScheduleLetter | mindmail/Services/NotificationService.swift:57-98 | A delay under 60 s fails with `scheduledDateMustBeInFuture` and registers nothing; otherwise the letter's request is registered under its id |
| Notifications.NotificationService.CancelLetter | mindmail/Services/NotificationService.swift:102-105 | Only the request with that id is removed, with no error when it is absent |
| Notifications.NotificationService.CancelAllNotifications | mindmail/Services/NotificationService.swift:108-110 | No request stays pending |
| Notifications.NotificationService.RescheduleAllLetters | mindmail/Services/NotificationService.swift:121-137 | Everything is cancelled first; a load error leaves nothing pending; otherwise the pending map and the outcome are those of the reschedule fold over the undelivered letters |
| Calendar.IndexBy | mindmail/ViewModels/CalendarViewModel.swift:42-46 | Every element's key is in the index, and each key maps to an element with that key |
| Calendar.IndexByLastWins | mindmail/ViewModels/CalendarViewModel.swift:42-46 | A key maps to its last element in the list |
| Calendar.BuildIndexKeepsEveryEntry | mindmail/ViewModels/CalendarViewModel.swift:42-46 | With distinct day keys, every entry is found under its own key |
| Calendar.LookupDay | mindmail/ViewModels/CalendarViewModel.swift:55-62 | An entry is found exactly when the date's key is in the index, and it is the indexed one |
| Calendar.LookupDayFindsSameDay | mindmail/ViewModels/CalendarViewModel.swift:55-62 | Lookup in the index succeeds exactly when some entry is on the same day, and finds an entry on that day |
| Calendar.LookupDayAgreesWithStore | mindmail/ViewModels/CalendarViewModel.swift:55-62 | Finds an entry for a day exactly when the store's `loadJournalEntry` does (years from 1 on); with two entries on one day the index keeps the last and the store returns the first |
| Calendar.LookupDayMatchesStore | mindmail/ViewModels/CalendarViewModel.swift:37-62 | When no two stored entries share a day, as `saveJournalEntry` keeps them, the index lookup returns the very entry the store's `loadJournalEntry` returns (years from 1 on) |
| Calendar.MonthDays | mindmail/ViewModels/CalendarViewModel.swift:130-137 | The month has as many days as its length, and the i-th is day i + 1 of that month |
| Calendar.TrailingPadding | mindmail/ViewModels/CalendarViewModel.swift:139-141 | The padding is under 7 and completes the last week |
| Calendar.TrailingPaddingIsFirstWeekEnd | mindmail/ViewModels/CalendarViewModel.swift:139-141 | The padding is the first count that makes the length a multiple of 7 |
| Calendar.CalendarGridShape | mindmail/ViewModels/CalendarViewModel.swift:120-144 | The grid has 28..42 cells, a multiple of 7, with trailing padding under 7; day d is at `padding + d`; a cell is blank exactly outside the days |
| Calendar.AppendBlanks | mindmail/ViewModels/CalendarViewModel.swift:124-127 | The loop appends exactly n blank cells |
| Calendar.AppendMonthDays | mindmail/ViewModels/CalendarViewModel.swift:130-137 | The loop appends the month's days in order |
| Calendar.AppendWeekEnd | mindmail/ViewModels/CalendarViewModel.swift:139-141 | The loop appends blanks until the length is a multiple of 7 |
| Calendar.IndexEntries | mindmail/ViewModels/CalendarViewModel.swift:42-46 | The loop builds the day-key index of the entries |
| Calendar.CalendarViewModel.StoredIndex | mindmail/ViewModels/CalendarViewModel.swift:37-52 | On a load error the index is empty; otherwise it is the day-key index of the stored entries |
| Calendar.CalendarViewModel.constructor | mindmail/ViewModels/CalendarViewModel.swift:28-32 | The month starts at today's start of day, nothing is selected and the entries are loaded |
| Calendar.CalendarViewModel.LoadEntries | mindmail/ViewModels/CalendarViewModel.swift:37-52 | The dictionary becomes the stored index, or empty on a load error |
| Calendar.CalendarViewModel.EntryFor | mindmail/ViewModels/CalendarViewModel.swift:55-62 | The entry stored under the date's key, or none exactly when there is none |
| Calendar.CalendarViewModel.HasEntry | mindmail/ViewModels/CalendarViewModel.swift:65-67 | True exactly when the date's key is in the dictionary |
| Calendar.CalendarViewModel.SelectDate | mindmail/ViewModels/CalendarViewModel.swift:167-170 | Selects the date and returns its entry, or none exactly when there is none; month and entries are unchanged |
| Calendar.CalendarViewModel.MoveToPreviousMonth | mindmail/ViewModels/CalendarViewModel.swift:72-78 | The month moves back by exactly one; the selection and entries are unchanged |
| Calendar.CalendarViewModel.MoveToNextMonth | mindmail/ViewModels/CalendarViewModel.swift:80-85 | The month moves forward by exactly one; the selection and entries are unchanged |
| Calendar.CalendarViewModel.MoveToToday | mindmail/ViewModels/CalendarViewModel.swift:88-91 | The month becomes today's start of day and today is selected |
| Calendar.CalendarViewModel.FirstDayOfMonth | mindmail/ViewModels/CalendarViewModel.swift:103-106 | The first day of the current month, as a start of day |
| Calendar.CalendarViewModel.DaysInCurrentMonth | mindmail/ViewModels/CalendarViewModel.swift:109-111 | The current month's length, from 28 to 31 |
| Calendar.CalendarViewModel.FirstWeekday | mindmail/ViewModels/CalendarViewModel.swift:114-116 | The weekday (1..7, 1 = Sunday) of the month's first day |
| Calendar.CalendarViewModel.FirstWeekdayPadsBackToSunday | mindmail/ViewModels/CalendarViewModel.swift:114-116 | The grid's leading blanks (weekday − 1) reach back exactly to the Sunday on or before the 1st |
| Calendar.CalendarViewModel.DatesForCalendarGrid | mindmail/ViewModels/CalendarViewModel.swift:120-144 | The grid for the current month's first weekday and days, with 28..42 cells, a multiple of 7 |
| Calendar.BuildGrid | mindmail/ViewModels/CalendarViewModel.swift:120-144 | The three append loops build exactly `padding` blanks, the month's days and the blanks that end the last week: 28..42 cells, a multiple of 7 |
| Calendar.CalendarViewModel.IsFuture | mindmail/ViewModels/CalendarViewModel.swift:152-156 | True exactly when the date's day is after today, so today is not in the future |
| Calendar.CalendarViewModel.IsSelected | mindmail/ViewModels/CalendarViewModel.swift:159-162 | False with no selection; otherwise a same-day test |
| JournalFlow.Step.RawValue | mindmail/ViewModels/JournalEntryViewModel.swift:26-31 | Steps are numbered 1 to 5 |
| JournalFlow.StepFromRawValue | mindmail/ViewModels/JournalEntryViewModel.swift:26-31 | A step exists exactly for 1..5 and has that number |
| JournalFlow.StepRawValueRoundTrip | mindmail/ViewModels/JournalEntryViewModel.swift:26-31 | Decoding a step's number gives the step |
| JournalFlow.Step.Title | mindmail/ViewModels/JournalEntryViewModel.swift:33-41 | Every step's title is a question, ending in `?` |
| JournalFlow.Step.Placeholder | mindmail/ViewModels/JournalEntryViewModel.swift:43-51 | Only the mood step, which takes no text, has an empty placeholder; the others end in `...` |
| JournalFlow.NextStep | mindmail/ViewModels/JournalEntryViewModel.swift:100-106 | The next step is one number higher, and exists except after `lookingForward` |
| JournalFlow.PreviousStep | mindmail/ViewModels/JournalEntryViewModel.swift:108-112 | The previous step is one number lower, and exists except before `mood` |
| JournalFlow.NextPreviousInverse | mindmail/ViewModels/JournalEntryViewModel.swift:100-112 | Next and previous undo each other |
| JournalFlow.JournalEntryViewModel.constructor | mindmail/ViewModels/JournalEntryViewModel.swift:54-64 | The flow starts at `mood` with no mood and empty fields |
| JournalFlow.JournalEntryViewModel.LoadExistingEntry | mindmail/ViewModels/JournalEntryViewModel.swift:69-81 | A stored entry for the day fills the mood and the four fields; otherwise nothing changes |
| JournalFlow.JournalEntryViewModel.CanMoveToNextStep | mindmail/ViewModels/JournalEntryViewModel.swift:85-98 | At `mood` exactly when a mood is chosen; at a text step exactly when that field would validate |
| JournalFlow.JournalEntryViewModel.MoveToNextStep | mindmail/ViewModels/JournalEntryViewModel.swift:100-106 | Advances by one exactly when moving is allowed and the step is not last; otherwise the step stays |
| JournalFlow.JournalEntryViewModel.MoveToPreviousStep | mindmail/ViewModels/JournalEntryViewModel.swift:108-112 | Goes back by one, except at `mood` where it stays |
| JournalFlow.JournalEntryViewModel.IsFirstStep | mindmail/ViewModels/JournalEntryViewModel.swift:114-116 | True exactly at step 1 |
| JournalFlow.JournalEntryViewModel.IsLastStep | mindmail/ViewModels/JournalEntryViewModel.swift:118-120 | True exactly at step 5 |
| JournalFlow.JournalEntryViewModel.SaveEntry | mindmail/ViewModels/JournalEntryViewModel.swift:124-139 | No mood is `emptyText` with nothing written; an invalid field or a load error writes nothing; otherwise the new entry is upserted by day; the other slots are unchanged |
| JournalFlow.JournalEntryViewModel.RemainingFor | mindmail/ViewModels/JournalEntryViewModel.swift:143-145 | `max(0, 140 − trimmed count)` |
| JournalFlow.JournalEntryViewModel.StruggleRemaining | mindmail/ViewModels/JournalEntryViewModel.swift:147-149 | Never negative; positive exactly when the field is under 140 |
| JournalFlow.JournalEntryViewModel.GratitudeRemaining | mindmail/ViewModels/JournalEntryViewModel.swift:151-153 | Never negative; positive exactly when the field is under 140 |
| JournalFlow.JournalEntryViewModel.MemoryRemaining | mindmail/ViewModels/JournalEntryViewModel.swift:155-157 | Never negative; positive exactly when the field is under 140 |
| JournalFlow.JournalEntryViewModel.LookingForwardRemaining | mindmail/ViewModels/JournalEntryViewModel.swift:159-161 | Never negative; positive exactly when the field is under 140 |
| JournalFlow.RemainingAgreesWithGuard | mindmail/ViewModels/JournalEntryViewModel.swift:85-98 | A non-blank field with characters remaining passes the step guard; an over-long field fails it and has none remaining |
| Compose.ErrorMessage | mindmail/ViewModels/ComposeLetterViewModel.swift:101-108 | A `LetterError` shows its own description; any other error shows "Failed to save letter" |
| Compose.DefaultScheduledDate | mindmail/ViewModels/ComposeLetterViewModel.swift:27-37 | The default is 12:00:00 on the next day: the day after today, exactly 12 hours after that day's midnight, and at least 12 hours ahead |
| Compose.DefaultDateIsFuture | mindmail/ViewModels/ComposeLetterViewModel.swift:27-37 | The default date passes `isFutureDate` |
| Compose.SubjectArgument | mindmail/ViewModels/ComposeLetterViewModel.swift:80-81 | An empty subject is passed as none |
| Compose.FormIsValidMeaning | mindmail/ViewModels/ComposeLetterViewModel.swift:41-48 | Valid exactly when subject and body are not both blank, the subject is one `Letter` accepts, the trimmed body is within 500 and the date is at least 60 s ahead |
| Compose.ValidFormMakesLetter | mindmail/ViewModels/ComposeLetterViewModel.swift:41-48 | A valid form with a non-blank body creates a letter |
| Compose.BlankBodyPassesFormButNotLetter | mindmail/ViewModels/ComposeLetterViewModel.swift:43-47 | A subject with a blank body passes `isValid`, but `Letter` rejects it with `emptyText`, shown as "Failed to save letter" |
| Compose.CreatedLetterSchedules | mindmail/ViewModels/ComposeLetterViewModel.swift:80-95 | A letter that was created passes the scheduling guard at creation time |
| Compose.StoreAnswer | mindmail/Services/StorageService.swift:153-173 | Storing answers with the load error or with the id-upsert of the letter |
| Compose.ComposeLetterViewModel.constructor | mindmail/ViewModels/ComposeLetterViewModel.swift:27-37 | An empty form, `once`, the default date, no alert and no error |
| Compose.ComposeLetterViewModel.IsValid | mindmail/ViewModels/ComposeLetterViewModel.swift:41-48 | Valid exactly when subject and body are not both blank, the subject is one `Letter` accepts, the trimmed body is within 500 and the date is at least 60 s ahead |
| Compose.ComposeLetterViewModel.SubjectRemaining | mindmail/ViewModels/ComposeLetterViewModel.swift:50-52 | `50 − trimmed count`, not clamped; negative exactly when the subject is invalid |
| Compose.ComposeLetterViewModel.BodyRemaining | mindmail/ViewModels/ComposeLetterViewModel.swift:54-56 | `500 − trimmed count`, not clamped; negative exactly when the body is invalid |
| Compose.ComposeLetterViewModel.SaveLetter | mindmail/ViewModels/ComposeLetterViewModel.swift:62-110 | No permission shows the alert and touches nothing; a creation error sets its message and touches nothing. Otherwise a store failure sets its message and schedules nothing, and after a successful store a scheduling failure returns false and keeps the stored letter |
| Compose.ComposeLetterViewModel.StoreAndSchedule | mindmail/ViewModels/ComposeLetterViewModel.swift:88-104 | Store first, schedule only after a successful store |
| Compose.ComposeLetterViewModel.StoreLetter | mindmail/ViewModels/ComposeLetterViewModel.swift:90 | The store's letters become the storing answer |
| Compose.ComposeLetterViewModel.ScheduleStored | mindmail/ViewModels/ComposeLetterViewModel.swift:95 | Succeeds exactly when the delay is at least 60 s, registering the request; otherwise the error message is the `LetterError` text |
| Onboarding.OnboardingViewModel.constructor | mindmail/ViewModels/OnboardingViewModel.swift:25-30 | The flow starts at `welcome` with an empty name |
| Onboarding.OnboardingViewModel.MoveToPersonalization | mindmail/ViewModels/OnboardingViewModel.swift:34-36 | The step becomes `personalization` |
| Onboarding.OnboardingViewModel.HasCompletedOnboarding | mindmail/ViewModels/OnboardingViewModel.swift:61-63 | Reads the store's onboarding flag |
| Onboarding.OnboardingViewModel.LoadExistingUser | mindmail/ViewModels/OnboardingViewModel.swift:66-68 | The stored user, none, or a load error for a corrupt slot |
| Onboarding.OnboardingViewModel.CompleteOnboarding | mindmail/ViewModels/OnboardingViewModel.swift:38-58 | A rejected name changes nothing. An accepted one stores the trimmed user, sets the flag, sets `userName` to the trimmed name and the step to `complete`, from any step |
| Onboarding.StoredNameIsValid | mindmail/ViewModels/OnboardingViewModel.swift:41-50 | The stored name is itself accepted by `User` and yields the same user |
| Inbox.ScheduledList | mindmail/Views/MentalMailbox/LetterInboxView.swift:147-149 | Exactly the undelivered letters, as a permutation of the store's filter, ascending by scheduled date |
| Inbox.DeliveredList | mindmail/Views/MentalMailbox/LetterInboxView.swift:151-153 | Exactly the delivered letters, as a permutation of the store's filter, descending by delivery time, falling back to creation time |
| Inbox.InboxPartition | mindmail/Views/MentalMailbox/LetterInboxView.swift:147-153 | The two lists together are a permutation of all letters |
| Inbox.ScheduledListKeepsOrderedInput | mindmail/Views/MentalMailbox/LetterInboxView.swift:147-149 | Undelivered letters already in date order are shown unchanged |
| Inbox.InboxLetters | mindmail/Views/MentalMailbox/LetterInboxView.swift:157-164 | The loaded letters, or none on a load error |
| Inbox.FailedLoadShowsEmptyInbox | mindmail/Views/MentalMailbox/LetterInboxView.swift:157-164 | A load error shows both lists empty |
| Theme.TrimNonAlphanumerics | mindmail/Utils/Theme.swift:165 | The result is a slice of the input that starts and ends with an alphanumeric character; it is empty exactly when the input has none |
| Theme.TrimKeepsInterior | mindmail/Utils/Theme.swift:165 | A string already starting and ending with alphanumerics is unchanged |
| Theme.HexValue | mindmail/Utils/Theme.swift:166 | The value of n hex digits is below 16^n |
| Theme.ScanHex | mindmail/Utils/Theme.swift:166 | The scanned value is below 16^length |
| Theme.ScanHexReadsLeadingDigits | mindmail/Utils/Theme.swift:166 | Without a `0x` prefix, scanning reads the leading hex digits and stops at the first character that is not one |
| Theme.ScanHexSkipsPrefix | mindmail/Utils/Theme.swift:166 | After `0x` or `0X`, scanning reads the hex digits that follow and stops at the first character that is not one |
| Theme.ScanHexPrefixedExample | mindmail/Utils/Theme.swift:166 | "0x1234" scans as 0x1234 |
| Theme.ScanHexStopExample | mindmail/Utils/Theme.swift:166 | "12g" scans as 0x12 |
| Theme.ColorFromHex | mindmail/Utils/Theme.swift:164-178 | Every component is in 0..255; any trimmed length other than 3, 6 or 8 gives opaque black; alpha is 255 unless there are 8 digits |
| Theme.SixDigitRoundTrip | mindmail/Utils/Theme.swift:172-173 | Writing (r, g, b) as six digits, with or without `#`, reads back as opaque (r, g, b) |
| Theme.EightDigitRoundTrip | mindmail/Utils/Theme.swift:174-175 | Writing (a, r, g, b) as eight digits reads back as (a, r, g, b) |
| Theme.ThreeDigitRoundTrip | mindmail/Utils/Theme.swift:170-171 | Writing three nibbles reads back as opaque colour with each nibble times 17 |
| Theme.WhiteFromThreeDigits | mindmail/Utils/Theme.swift:170-171 | "fff" is opaque white |
| Theme.HexValueOfHexString | mindmail/Utils/Theme.swift:166 | Reading back `width` written hex digits gives the value modulo 16^width |

## Left out

- Persistence backend: UserDefaults, JSON encoding and decoding, ISO 8601 dates and `synchronize` are not modelled. A slot holds its value directly (`Absent`, `Corrupt` or `Present`), so saves never fail. The `saveFailed` path and the "saveUser throws" path of `completeOnboarding` are therefore not reachable in the model.
- Storage.StorageService.SaveUser: the Codable round-trip is taken as exact, so loading returns the saved value itself.
- Platform notifications: the `UNUserNotificationCenter` calls become the `pending` map. `requestPermission`, `hasPermission` and the permission states are left out; `saveLetter` takes permission as a boolean. `getPendingNotificationCount`, the sound and the `userInfo` encoding are left out. The `NotificationDelegate` callbacks are left out; they only parse an id and call `markLetterAsDelivered`.
- Concurrency: `async`/`await`, `Task` and `@MainActor` are not modelled; every operation runs to completion. The view models' `loadExistingEntry` (started from the journal initializer) and `loadEntries` (run by the calendar initializer) are modelled as methods, and the journal constructor does not run the load.
- `NotificationCenter` posts of `letterDelivered` are modelled as the returned list of posted ids.
- Logging (`print`) and the UI-only state of the views are not modelled.
- Clocks and identifiers: every `Date()` is the `now` parameter, and every `UUID()` is an `Id` parameter. Compose reads the clock separately when creating and when scheduling, so `SaveLetter` takes two times (`now`, `scheduleNow`).
- Letters.MarkAsDelivered: the delivery time is the `now` passed in. Inside `checkAndDeliverPastDueLetters` this is the run's time, while the source reads the clock again per letter.
- Foundation calendar: time zones, daylight saving, locales and `DateFormatter` settings are not modelled. Days are UTC days of 86400 s on the proleptic Gregorian calendar from 1970, and weekdays follow from 1 January 1970 being a Thursday. `calendar.date(from:)` is taken to succeed, so the `?? currentMonth` and `?? 30` fallbacks never apply.
- Dates.DateKeyIffSameDay: proved only for years from 1 on. Before that, `yyyy` prints the year of era, and year 0 and year 1 share a key.
- `monthYearString` and `isToday` of the calendar view model are not modelled; they are display formatting. `TimePreset` is a thin wrapper over calendar addition and is not part of this model.
- Unicode: characters are code points, not grapheme clusters, so `count` is the code-point length. The character classes (whitespace, newline, control, letter, alphanumeric) are approximations of Foundation's `CharacterSet` tables over ASCII, Latin-1 and a few blocks. The `\s+` regular expression is modelled with the same whitespace class as trimming. `stripHTML` is not modelled.
- Users.RejectedNameCharacters: covers the characters named in the source comment, classified by the approximate letter predicate.
- ValidationUtils.IsFutureDate: its own contract states only that an accepted date is strictly later. The exact rule, a delay of at least 60 s, is stated by `ValidationUtils.IsFutureDateIffLetterAccepts` as agreement with the `Letter` initializer's date guard.
- LetterDelivery.LetterDeliveryService.CheckAndDeliverPastDueLetters: the catch path for a throw inside the loop is proved unreachable after a successful load. Every scheduled letter's id is still present when it is marked. So the "abandon the rest, keep earlier deliveries" behaviour never arises and is not modelled separately.
- LetterDelivery.MarkAllReconciles: assumes stored letter ids are pairwise distinct. Storage keeps that invariant (`Storage.UpsertLetterKeepsIdsUnique`, `Storage.MarkDeliveredKeepsIdsUnique`), but the store can be given any slot contents.
- Sorting.SortBy: Swift's `sorted(by:)` is not stable; the model uses an insertion sort. Contracts therefore state only membership, multiplicity and order by the key, which hold for any correct sort. The relative order of letters with equal keys is not captured.
- Theme: the `Double` division that builds the SwiftUI `Color`, and the theme constants, are left out. The model scans into an unbounded integer where the source uses `UInt64`. This makes no difference to the result, because only inputs of 3, 6 or 8 characters use the scanned value.
- Theme.ScanHex: digits beyond sixteen would overflow `UInt64`, where `scanHexInt64` reports overflow and does not return the low bits; the model keeps the full value. The colour decoder only scans inputs of 3, 6 or 8 characters, so this never arises there.
- The reconstruction initializers of `User`, `JournalEntry` and `Letter` are the datatype constructors, which store every field verbatim.
- `Errors.LetterError.Description` carries no contract. It is the fixed message table; `Compose.ErrorMessage` states how messages are chosen.
- `LetterModelTests` expectations (subject limit 100, body limit 2000, a weekly recurrence) are not encoded; the model follows `Letter.swift` and `RecurrencePattern.swift`.
