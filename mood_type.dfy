/** `MoodType`: the six moods a journal entry records, each encoded by an emoji. */
module MoodTypes {

  import opened Text
  import opened Wrappers

  datatype MoodType = Awesome | JustFine | Exciting | Boring | Stressful | Mixed
  {
    /** The raw value, which is also the `id` and the `emoji`. */
    function RawValue(): String {
      match this
      case Awesome => "\U{1F60A}"
      case JustFine => "\U{1F60C}"
      case Exciting => "\U{1F389}"
      case Boring => "\U{1F634}"
      case Stressful => "\U{1F630}"
      case Mixed => "\U{1F4AD}"
    }

    function Id(): (r: String)
      ensures r == RawValue()
    {
      RawValue()
    }

    function Emoji(): (r: String)
      ensures r == RawValue()
    {
      RawValue()
    }

    /** Human-readable label. */
    function Label(): (r: String)
      ensures r != [] && 'A' <= r[0] <= 'Z'
    {
      match this
      case Awesome => "Awesome"
      case JustFine => "Just fine"
      case Exciting => "Exciting"
      case Boring => "Boring"
      case Stressful => "Stressful"
      case Mixed => "Mixed"
    }
  }

  /** `CaseIterable.allCases`, in declaration order. */
  const AllCases: seq<MoodType> := [Awesome, JustFine, Exciting, Boring, Stressful, Mixed]

  /** `MoodType(rawValue:)`: decoding, which fails on any string that is not one of the six emoji. */
  function FromRawValue(s: String): (r: Option<MoodType>)
    ensures r.Some? ==> r.value.RawValue() == s
  {
    if s == Awesome.RawValue() then Some(Awesome)
    else if s == JustFine.RawValue() then Some(JustFine)
    else if s == Exciting.RawValue() then Some(Exciting)
    else if s == Boring.RawValue() then Some(Boring)
    else if s == Stressful.RawValue() then Some(Stressful)
    else if s == Mixed.RawValue() then Some(Mixed)
    else None
  }

  /** Decoding inverts encoding, so distinct moods have distinct raw values. */
  lemma RawValueRoundTrip(m: MoodType)
    ensures FromRawValue(m.RawValue()) == Some(m)
  {
  }

  lemma RawValueInjective(a: MoodType, b: MoodType)
    requires a.RawValue() == b.RawValue()
    ensures a == b
  {
    RawValueRoundTrip(a);
    RawValueRoundTrip(b);
  }

  /** Distinct moods have distinct labels. */
  lemma LabelInjective(a: MoodType, b: MoodType)
    requires a.Label() == b.Label()
    ensures a == b
  {
  }

  /** `allCases` lists every mood exactly once. */
  lemma AllCasesComplete(m: MoodType)
    ensures |AllCases| == 6
    ensures m in AllCases
    ensures forall i, j :: 0 <= i < j < |AllCases| ==> AllCases[i] != AllCases[j]
  {
  }
}
