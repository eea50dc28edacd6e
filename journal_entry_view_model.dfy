/**
 * `JournalEntryViewModel`: the five-step journal flow (mood, then four
 * short reflections), its navigation guard and the final save.
 */
module JournalFlow {

  import opened Text
  import opened Wrappers
  import opened Errors
  import opened Dates
  import opened Identifiers
  import opened MoodTypes
  import opened JournalEntries
  import opened ValidationUtils
  import opened Storage

  /** The steps of the flow, with raw values 1 to 5. */
  datatype Step = Mood | Struggle | Gratitude | Memory | LookingForward
  {
    function RawValue(): (r: int)
      ensures 1 <= r <= 5
    {
      match this
      case Mood => 1
      case Struggle => 2
      case Gratitude => 3
      case Memory => 4
      case LookingForward => 5
    }

    /** Every step asks a question. */
    function Title(): (r: String)
      ensures r != [] && r[|r| - 1] == '?'
    {
      match this
      case Mood => "How was today?"
      case Struggle => "One thing that was hard today?"
      case Gratitude => "Something you're grateful for?"
      case Memory => "A moment to remember?"
      case LookingForward => "Something you're excited about?"
    }

    /** Only the mood step, which takes no text, has no placeholder; the others trail off. */
    function Placeholder(): (r: String)
      ensures r == [] <==> this == Mood
      ensures r != [] ==> |r| >= 3 && r[|r| - 3..] == "..."
    {
      match this
      case Mood => ""
      case Struggle => "What challenged you..."
      case Gratitude => "Big or small..."
      case Memory => "What made you smile..."
      case LookingForward => "Tomorrow or beyond..."
    }
  }

  /** `Step(rawValue:)`: defined exactly on 1 to 5. */
  function StepFromRawValue(n: int): (r: Option<Step>)
    ensures r.Some? <==> 1 <= n <= 5
    ensures r.Some? ==> r.value.RawValue() == n
  {
    if n == 1 then Some(Mood)
    else if n == 2 then Some(Struggle)
    else if n == 3 then Some(Gratitude)
    else if n == 4 then Some(Memory)
    else if n == 5 then Some(LookingForward)
    else None
  }

  /** Decoding a step's raw value gives the step back, so raw values tell steps apart. */
  lemma StepRawValueRoundTrip(s: Step)
    ensures StepFromRawValue(s.RawValue()) == Some(s)
  {
  }

  /** The step after `s`, if any. */
  function NextStep(s: Step): (r: Option<Step>)
    ensures r.None? <==> s == LookingForward
    ensures r.Some? ==> r.value.RawValue() == s.RawValue() + 1
  {
    StepFromRawValue(s.RawValue() + 1)
  }

  /** The step before `s`, if any. */
  function PreviousStep(s: Step): (r: Option<Step>)
    ensures r.None? <==> s == Mood
    ensures r.Some? ==> r.value.RawValue() == s.RawValue() - 1
  {
    StepFromRawValue(s.RawValue() - 1)
  }

  /** Going forward then back returns to the same step, and back then forward too. */
  lemma NextPreviousInverse(s: Step)
    ensures NextStep(s).Some? ==> PreviousStep(NextStep(s).value) == Some(s)
    ensures PreviousStep(s).Some? ==> NextStep(PreviousStep(s).value) == Some(s)
  {
    StepRawValueRoundTrip(s);
  }

  class JournalEntryViewModel {
    const storage: StorageService
    var date: Time
    var selectedMood: Option<MoodType>
    var struggle: String
    var gratitude: String
    var memory: String
    var lookingForward: String
    var currentStep: Step

    /** `init`: an empty form for `date` at the mood step. */
    constructor(date: Time, storage: StorageService)
      ensures this.date == date && this.storage == storage
      ensures selectedMood == None && struggle == [] && gratitude == [] && memory == [] && lookingForward == []
      ensures currentStep == Mood
    {
      this.date := date;
      this.storage := storage;
      selectedMood := None;
      struggle := [];
      gratitude := [];
      memory := [];
      lookingForward := [];
      currentStep := Mood;
    }

    /** `loadExistingEntry`: fills the form from the entry stored for the day, if any; a failed load changes nothing. */
    method LoadExistingEntry()
      modifies this
      ensures var loaded := storage.LoadJournalEntry(date);
        if loaded.Ok? && loaded.value.Some? then
          var e := loaded.value.value;
          selectedMood == Some(e.mood) && struggle == e.struggle && gratitude == e.gratitude
          && memory == e.memory && lookingForward == e.lookingForward
        else
          selectedMood == old(selectedMood) && struggle == old(struggle) && gratitude == old(gratitude)
          && memory == old(memory) && lookingForward == old(lookingForward)
      ensures date == old(date) && currentStep == old(currentStep)
    {
      var loaded := storage.LoadJournalEntry(date);
      if loaded.Ok? && loaded.value.Some? {
        var e := loaded.value.value;
        selectedMood := Some(e.mood);
        struggle := e.struggle;
        gratitude := e.gratitude;
        memory := e.memory;
        lookingForward := e.lookingForward;
      }
    }

    /** The text the current step asks for (the mood step has none). */
    function CurrentText(): String
      reads this
    {
      match currentStep
      case Mood => []
      case Struggle => struggle
      case Gratitude => gratitude
      case Memory => memory
      case LookingForward => lookingForward
    }

    /** `canMoveToNextStep`: a mood is chosen at the mood step; the step's text is a valid journal text otherwise. */
    predicate CanMoveToNextStep()
      reads this
      ensures currentStep == Mood ==> (CanMoveToNextStep() <==> selectedMood.Some?)
      ensures currentStep != Mood ==> (CanMoveToNextStep() <==> ValidateText(CurrentText()).Ok?)
    {
      match currentStep
      case Mood => selectedMood.Some?
      case Struggle => IsValidJournalText(struggle)
      case Gratitude => IsValidJournalText(gratitude)
      case Memory => IsValidJournalText(memory)
      case LookingForward => IsValidJournalText(lookingForward)
    }

    /** `moveToNextStep`: one step on when the guard holds and this is not the last step; otherwise nothing. */
    method MoveToNextStep()
      modifies this
      ensures old(CanMoveToNextStep()) && old(currentStep) != LookingForward ==>
        currentStep.RawValue() == old(currentStep).RawValue() + 1
      ensures !(old(CanMoveToNextStep()) && old(currentStep) != LookingForward) ==> currentStep == old(currentStep)
      ensures date == old(date) && selectedMood == old(selectedMood) && struggle == old(struggle)
        && gratitude == old(gratitude) && memory == old(memory) && lookingForward == old(lookingForward)
    {
      if !CanMoveToNextStep() {
        return;
      }
      var next := StepFromRawValue(currentStep.RawValue() + 1);
      if next.Some? {
        currentStep := next.value;
      }
    }

    /** `moveToPreviousStep`: one step back, except at the first step. */
    method MoveToPreviousStep()
      modifies this
      ensures old(currentStep) != Mood ==> currentStep.RawValue() == old(currentStep).RawValue() - 1
      ensures old(currentStep) == Mood ==> currentStep == Mood
      ensures date == old(date) && selectedMood == old(selectedMood) && struggle == old(struggle)
        && gratitude == old(gratitude) && memory == old(memory) && lookingForward == old(lookingForward)
    {
      var previous := StepFromRawValue(currentStep.RawValue() - 1);
      if previous.Some? {
        currentStep := previous.value;
      }
    }

    predicate IsFirstStep()
      reads this
      ensures IsFirstStep() <==> currentStep.RawValue() == 1
    {
      currentStep == Mood
    }

    predicate IsLastStep()
      reads this
      ensures IsLastStep() <==> currentStep.RawValue() == 5
    {
      currentStep == LookingForward
    }

    /**
     * `saveEntry`: without a mood it fails with `emptyText` and stores
     * nothing; otherwise the validated entry for the form is upserted by
     * day, and a validation or load failure is passed on.
     */
    method SaveEntry(newId: Id, now: Time) returns (r: Outcome<Error>)
      modifies storage
      ensures selectedMood.None? ==> r == Fail(Validation(EmptyText)) && unchanged(storage)
      ensures selectedMood.Some? ==>
        var made := NewEntry(date, selectedMood.value, struggle, gratitude, memory, lookingForward, newId, now);
        (made.Err? ==> r == Fail(Validation(made.error)) && unchanged(storage))
        && (made.Ok? && old(storage.LoadAllJournalEntries()).Err? ==>
              r == Fail(old(storage.LoadAllJournalEntries()).error) && unchanged(storage))
        && (made.Ok? && old(storage.LoadAllJournalEntries()).Ok? ==>
              r == Pass && storage.LoadAllJournalEntries() == Ok(UpsertByDay(old(storage.LoadAllJournalEntries()).value, made.value)))
      ensures storage.user == old(storage.user) && storage.letters == old(storage.letters)
        && storage.onboardingCompleted == old(storage.onboardingCompleted)
    {
      if selectedMood.None? {
        return Fail(Validation(EmptyText));
      }
      var made := NewEntry(date, selectedMood.value, struggle, gratitude, memory, lookingForward, newId, now);
      if made.Err? {
        return Fail(Validation(made.error));
      }
      r := storage.SaveJournalEntry(made.value);
    }

    /** `remainingCharacters(for:)`: what is left of the 140-character limit, never negative. */
    function RemainingFor(text: String): (r: int)
      ensures r >= 0
      ensures r == if MaxTextLength - |Trim(text)| > 0 then MaxTextLength - |Trim(text)| else 0
      ensures r > 0 ==> |Trim(text)| < MaxTextLength
    {
      RemainingCharacters(text, MaxTextLength)
    }

    function StruggleRemaining(): (r: int)
      reads this
      ensures r >= 0 && (r > 0 <==> |Trim(struggle)| < MaxTextLength)
    {
      RemainingFor(struggle)
    }

    function GratitudeRemaining(): (r: int)
      reads this
      ensures r >= 0 && (r > 0 <==> |Trim(gratitude)| < MaxTextLength)
    {
      RemainingFor(gratitude)
    }

    function MemoryRemaining(): (r: int)
      reads this
      ensures r >= 0 && (r > 0 <==> |Trim(memory)| < MaxTextLength)
    {
      RemainingFor(memory)
    }

    function LookingForwardRemaining(): (r: int)
      reads this
      ensures r >= 0 && (r > 0 <==> |Trim(lookingForward)| < MaxTextLength)
    {
      RemainingFor(lookingForward)
    }
  }

  /**
   * A step whose text is too long to move on from has no characters left,
   * and a step with characters left and some non-blank text lets the flow
   * move on.
   */
  lemma RemainingAgreesWithGuard(text: String)
    ensures !AllWhitespace(text) && RemainingCharacters(text, MaxTextLength) > 0 ==> IsValidJournalText(text)
    ensures |Trim(text)| > MaxTextLength ==> !IsValidJournalText(text) && RemainingCharacters(text, MaxTextLength) == 0
  {
  }
}
