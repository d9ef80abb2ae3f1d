/**
 * The username validator of the users app: a value must be a string, and the
 * name "me" is reserved in every spelling of case. An accepted value is
 * returned as it was given.
 */
module UserValidators {
  import opened Wrappers
  import opened Text

  /** What reaches the validator: a string, or a value of any other type. */
  datatype Value = Str(s: string) | NonStr

  datatype ValidationError = NotAString | ReservedName(value: string)

  /** `value.lower() == 'me'` */
  predicate IsReservedName(s: string) {
    Lower(s) == "me"
  }

  /** validate_username */
  function ValidateUsername(v: Value): (r: Result<string, ValidationError>)
    ensures r.Ok? <==> v.Str? && !IsReservedName(v.s)
    ensures r.Ok? ==> r.value == v.s
    ensures v.NonStr? ==> r == Err(NotAString)
    ensures v.Str? && IsReservedName(v.s) ==> r == Err(ReservedName(v.s))
  {
    match v
    case NonStr => Err(NotAString)
    case Str(s) => if IsReservedName(s) then Err(ReservedName(s)) else Ok(s)
  }

  /** The reserved spellings are exactly the four case variants of "me". */
  lemma ReservedNameSpellings(s: string)
    ensures IsReservedName(s) <==> s in {"me", "Me", "mE", "ME"}
  {
    if IsReservedName(s) {
      assert |s| == 2;
      assert LowerChar(s[0]) == 'm' && LowerChar(s[1]) == 'e';
      assert s == [s[0], s[1]];
    }
    if s in {"me", "Me", "mE", "ME"} {
      assert Lower(s)[0] == 'm' && Lower(s)[1] == 'e';
      assert Lower(s) == "me";
    }
  }

  /** Validation is idempotent: an accepted value is accepted again, unchanged. */
  lemma ValidateUsernameIdempotent(v: Value)
    requires ValidateUsername(v).Ok?
    ensures ValidateUsername(Str(ValidateUsername(v).value)) == ValidateUsername(v)
  {
  }

  /** Only a two-character name can be reserved: "meme", "me1" and every other longer or shorter name pass. */
  lemma OnlyTwoCharacterNamesReserved(s: string)
    requires |s| != 2
    ensures ValidateUsername(Str(s)) == Ok(s)
  {
    assert |Lower(s)| != |"me"|;
  }

  lemma NamesStartingWithMeAccepted()
    ensures ValidateUsername(Str("meme")) == Ok("meme")
    ensures ValidateUsername(Str("me1")) == Ok("me1")
  {
    OnlyTwoCharacterNamesReserved("meme");
    OnlyTwoCharacterNamesReserved("me1");
  }
}
