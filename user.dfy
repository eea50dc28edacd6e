/** `User`: the app's single user, whose name is validated when created. */
module Users {

  import opened Text
  import opened Wrappers
  import opened Errors
  import opened Dates

  const MaxNameLength: int := 50
  const MinNameLength: int := 1

  /**
   * A user.  The datatype constructor is the unvalidated reconstruction
   * initializer `init(name:createdAt:)`: it stores both fields as given.
   */
  datatype User = User(name: String, createdAt: Time)

  /** Letters, `.whitespaces`, hyphen and apostrophe: the characters a name may hold. */
  predicate IsNameChar(c: char) {
    IsLetter(c) || IsBlank(c) || c == '-' || c == '\''
  }

  predicate AllNameChars(s: String) {
    forall i :: 0 <= i < |s| ==> IsNameChar(s[i])
  }

  /**
   * The validating initializer `init(name:)`: trim, then check emptiness,
   * the minimum and maximum length, and the character set, in that order.
   */
  function NewUser(name: String, now: Time): (r: Result<User, ValidationError>)
    ensures r.Ok? ==> r.value.name == Trim(name) && r.value.createdAt == now
    ensures r.Ok? ==> MinNameLength <= |r.value.name| <= MaxNameLength && AllNameChars(r.value.name)
    ensures r == Err(EmptyName) <==> AllWhitespace(name)
    ensures r == Err(NameTooLong) <==> |Trim(name)| > MaxNameLength
    ensures r == Err(InvalidCharacters)
      <==> !AllWhitespace(name) && |Trim(name)| <= MaxNameLength && !AllNameChars(Trim(name))
    ensures r != Err(NameTooShort)
  {
    var trimmed := Trim(name);
    if trimmed == [] then Err(EmptyName)
    else if |trimmed| < MinNameLength then Err(NameTooShort)
    else if |trimmed| > MaxNameLength then Err(NameTooLong)
    else if !AllNameChars(trimmed) then Err(InvalidCharacters)
    else Ok(User(trimmed, now))
  }

  /** Digits, `@`, `<`, U+0000 and emoji are not name characters. */
  lemma RejectedNameCharacters(c: char)
    requires IsDigit(c) || c == '@' || c == '<' || c == '\0' || c as int >= 0x1F000
    ensures !IsNameChar(c)
  {
  }

  /** The length check runs before the character check: 51 digits are too long, not invalid. */
  lemma LengthCheckedBeforeCharacters()
    ensures NewUser(seq(51, _ => '7'), 0) == Err(NameTooLong)
  {
    var s := seq(51, _ => '7');
    assert !IsWhitespace(s[0]) && !IsWhitespace(s[50]);
    assert TrimStart(s) == s;
    assert TrimEnd(s) == s;
  }
}
