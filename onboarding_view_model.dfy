/**
 * `OnboardingViewModel`: welcome, then the name, then done.  Completing
 * onboarding validates the name, saves the user and raises the stored
 * onboarding flag.
 */
module Onboarding {

  import opened Text
  import opened Wrappers
  import opened Errors
  import opened Dates
  import opened Users
  import opened Storage

  datatype OnboardingStep = Welcome | Personalization | Complete

  class OnboardingViewModel {
    const storage: StorageService
    var currentStep: OnboardingStep
    var userName: String

    constructor(storage: StorageService)
      ensures this.storage == storage && currentStep == Welcome && userName == []
    {
      this.storage := storage;
      currentStep := Welcome;
      userName := [];
    }

    /** `moveToPersonalization`: from any step. */
    method MoveToPersonalization()
      modifies this
      ensures currentStep == Personalization && userName == old(userName)
    {
      currentStep := Personalization;
    }

    /** `hasCompletedOnboarding`: the store's flag. */
    function HasCompletedOnboarding(): (r: bool)
      reads storage
      ensures r <==> storage.onboardingCompleted
    {
      storage.HasCompletedOnboarding()
    }

    /** `loadExistingUser`: the stored user, if any. */
    function LoadExistingUser(): (r: Result<Option<User>, Error>)
      reads storage
      ensures storage.user.Present? ==> r == Ok(Some(storage.user.value))
      ensures storage.user.Absent? ==> r == Ok(None)
      ensures r.Err? <==> storage.user.Corrupt?
    {
      storage.LoadUser()
    }

    /**
     * `completeOnboarding(with:)`, from any step: a name `User` rejects
     * changes nothing; an accepted name is saved trimmed, the flag is set,
     * `userName` holds the trimmed name and the flow is complete.
     */
    method CompleteOnboarding(name: String, now: Time)
      modifies this, storage
      ensures NewUser(name, now).Err? ==>
        currentStep == old(currentStep) && userName == old(userName) && unchanged(storage)
      ensures NewUser(name, now).Ok? ==>
        currentStep == Complete && userName == Trim(name)
        && LoadExistingUser() == Ok(Some(User(Trim(name), now))) && HasCompletedOnboarding()
      ensures storage.journalEntries == old(storage.journalEntries) && storage.letters == old(storage.letters)
    {
      var made := NewUser(name, now);
      if made.Err? {
        return;
      }
      var user := made.value;
      storage.SaveUser(user);
      storage.CompleteOnboarding();
      userName := user.name;
      currentStep := Complete;
    }
  }

  /** After a completed onboarding, the stored name passes the name check again unchanged. */
  lemma StoredNameIsValid(name: String, now: Time)
    requires NewUser(name, now).Ok?
    ensures NewUser(NewUser(name, now).value.name, now) == NewUser(name, now)
  {
    TrimIdempotent(name);
  }
}
