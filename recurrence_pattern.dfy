/** `RecurrencePattern`: how often a letter is delivered. */
module RecurrencePatterns {

  import opened Text
  import opened Wrappers

  /** The `Calendar.Component` a recurring trigger repeats on. */
  datatype CalendarComponent = Day

  datatype RecurrencePattern = Once | Daily
  {
    function RawValue(): String {
      match this
      case Once => "once"
      case Daily => "daily"
    }

    function Id(): (r: String)
      ensures r == RawValue()
    {
      RawValue()
    }

    function Label(): (r: String)
      ensures r != [] && 'A' <= r[0] <= 'Z'
    {
      match this
      case Once => "One Time"
      case Daily => "Daily Reminder"
    }

    /** No component for a one-time letter; `.day` for a daily reminder. */
    function CalendarComponentOf(): (r: Option<CalendarComponent>)
      ensures r.None? <==> this == Once
    {
      match this
      case Once => None
      case Daily => Some(Day)
    }
  }

  const AllCases: seq<RecurrencePattern> := [Once, Daily]

  /** `RecurrencePattern(rawValue:)`. */
  function FromRawValue(s: String): (r: Option<RecurrencePattern>)
    ensures r.Some? ==> r.value.RawValue() == s
  {
    if s == "once" then Some(Once) else if s == "daily" then Some(Daily) else None
  }

  /** The two patterns have different labels. */
  lemma LabelInjective(a: RecurrencePattern, b: RecurrencePattern)
    requires a.Label() == b.Label()
    ensures a == b
  {
  }

  /** Encoding through the raw value round-trips, and there are exactly two cases. */
  lemma RawValueRoundTrip(p: RecurrencePattern)
    ensures FromRawValue(p.RawValue()) == Some(p)
    ensures p in AllCases && |AllCases| == 2 && AllCases[0] != AllCases[1]
  {
  }
}
