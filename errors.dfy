/**
 * The app's error enums (`ValidationError`, `LetterError`, `StorageError`)
 * and `Error`, the union a Swift `catch` clause sees.
 */
module Errors {

  import opened Text

  datatype ValidationError =
    | EmptyName
    | NameTooShort
    | NameTooLong
    | InvalidCharacters
    | TextTooLong(maxLength: int)
    | EmptyText

  datatype LetterError =
    | ScheduledDateMustBeInFuture
    | MaxLettersExceeded
    | SchedulingFailed
  {
    /** `errorDescription`, which the compose screen shows. */
    function Description(): String {
      match this
      case ScheduledDateMustBeInFuture => "Letters must be scheduled at least 1 minute in the future"
      case MaxLettersExceeded => "Maximum of 100 scheduled letters reached"
      case SchedulingFailed => "Failed to schedule letter notification"
    }
  }

  datatype StorageError =
    | SaveFailed(reason: String)
    | LoadFailed(reason: String)
    | NotFound(item: String)
    | DataCorrupted

  /** Any error a throwing call can raise. */
  datatype Error =
    | Validation(validation: ValidationError)
    | LetterFailure(letter: LetterError)
    | StorageFailure(storage: StorageError)
}
