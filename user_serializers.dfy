/**
 * The serializers of the users app, as validators of request data.
 *
 * Request data is a map from field name to the string sent for it. A field
 * declared as a character field is trimmed of surrounding whitespace, may not
 * be missing and may not be blank after trimming; that runs before the field's
 * own validators, and the serializer's `validate_<field>` hook runs last. Every
 * character field also refuses a value holding a null character. Each field is
 * validated on its own, so both fields can report an error at once.
 */
module UserSerializers {
  import opened Wrappers
  import opened Text
  import opened Models
  import UserValidators

  type Data = map<string, string>

  datatype FieldError = Required | Blank | NullCharacter | NotUnique | ReservedName

  const SIGN_UP_FIELDS: seq<string> := ["username", "email"]
  const TOKEN_FIELDS: seq<string> := ["username", "confirmation_code"]
  const USER_SERIALIZER_FIELDS: seq<string> := ["username", "email", "first_name", "last_name", "bio", "role"]

  /**
   * A character field with the default options: required, not blank, trimmed,
   * and free of null characters.
   */
  function CharField(data: Data, key: string): (r: Result<string, FieldError>)
    ensures r == Err(Required) <==> key !in data
    ensures r == Err(Blank) <==> key in data && Strip(data[key]) == ""
    ensures r == Err(NullCharacter) <==> key in data && Strip(data[key]) != "" && '\0' in Strip(data[key])
    ensures r.Ok? <==> key in data && Strip(data[key]) != "" && '\0' !in Strip(data[key])
    ensures r.Ok? ==> r.value == Strip(data[key])
  {
    if key !in data then Err(Required)
    else if Strip(data[key]) == "" then Err(Blank)
    else if '\0' in Strip(data[key]) then Err(NullCharacter)
    else Ok(Strip(data[key]))
  }

  /** A character field followed by a `UniqueValidator`: the trimmed value may not equal a value in `taken`. */
  function UniqueCharField(data: Data, key: string, taken: set<string>): (r: Result<string, FieldError>)
    ensures r.Ok? <==> CharField(data, key).Ok? && CharField(data, key).value !in taken
    ensures r.Ok? ==> r.value == CharField(data, key).value
    ensures r == Err(NotUnique) <==> CharField(data, key).Ok? && CharField(data, key).value in taken
  {
    var v := CharField(data, key);
    if v.Err? then v else if v.value in taken then Err(NotUnique) else v
  }

  function Usernames(users: map<Id, User>): set<string> {
    set id | id in users :: users[id].username
  }

  function Emails(users: map<Id, User>): set<string> {
    set id | id in users :: users[id].email
  }

  datatype SignUp = SignUp(username: string, email: string)
  datatype SignUpErrors = SignUpErrors(username: Option<FieldError>, email: Option<FieldError>)

  /** SignUpSerializer.validate_username: a reserved name is refused, any other returned unchanged. */
  function SignUpValidateUsername(value: string): (r: Result<string, FieldError>)
    ensures r.Ok? <==> UserValidators.ValidateUsername(UserValidators.Str(value)).Ok?
    ensures r.Ok? ==> r.value == value
  {
    if UserValidators.IsReservedName(value) then Err(ReservedName) else Ok(value)
  }

  function SignUpUsername(data: Data, users: map<Id, User>): Result<string, FieldError> {
    var v := UniqueCharField(data, "username", Usernames(users));
    if v.Err? then v else SignUpValidateUsername(v.value)
  }

  function ErrorOf<T>(r: Result<T, FieldError>): Option<FieldError> {
    if r.Err? then Some(r.error) else None
  }

  /**
   * SignUpSerializer validation against the existing users: the username and
   * the email are each trimmed, required, not blank and unused by any user,
   * and the username is not reserved. Keys other than the two fields are
   * ignored.
   */
  function ValidateSignUp(data: Data, users: map<Id, User>): (r: Result<SignUp, SignUpErrors>)
    ensures r.Ok? ==> (forall id | id in users :: users[id].username != r.value.username)
    ensures r.Ok? ==> (forall id | id in users :: users[id].email != r.value.email)
    ensures r.Ok? ==> !UserValidators.IsReservedName(r.value.username)
    ensures r.Ok? ==> ("username" in data && r.value.username == Strip(data["username"]) && r.value.username != "")
    ensures r.Ok? ==> ("email" in data && r.value.email == Strip(data["email"]) && r.value.email != "")
    ensures r.Ok? <==> SignUpUsername(data, users).Ok? && UniqueCharField(data, "email", Emails(users)).Ok?
    ensures r.Err? ==> r.error.username.Some? || r.error.email.Some?
    ensures r.Err? ==> r.error.username == ErrorOf(SignUpUsername(data, users))
    ensures r.Err? ==> r.error.email == ErrorOf(UniqueCharField(data, "email", Emails(users)))
    ensures "username" !in data ==> r == Err(r.error) && r.error.username == Some(Required)
    ensures "email" !in data ==> r == Err(r.error) && r.error.email == Some(Required)
  {
    var username := SignUpUsername(data, users);
    var email := UniqueCharField(data, "email", Emails(users));
    if username.Ok? && email.Ok? then Ok(SignUp(username.value, email.value))
    else Err(SignUpErrors(ErrorOf(username), ErrorOf(email)))
  }

  /** A username is accepted iff it is present, not blank, free of null characters, unused and not reserved once trimmed. */
  lemma SignUpUsernameAccepted(data: Data, users: map<Id, User>)
    ensures SignUpUsername(data, users).Ok? <==>
      ("username" in data && Strip(data["username"]) != "" && '\0' !in Strip(data["username"])
       && Strip(data["username"]) !in Usernames(users)
       && !UserValidators.IsReservedName(Strip(data["username"])))
  {
  }

  /** A value made only of separator characters is blank once trimmed, as `str.strip()` trims it. */
  lemma SeparatorsAreBlank()
    ensures CharField(map["username" := "\U{1C}\U{1F}"], "username") == Err(Blank)
    ensures CharField(map["username" := "\U{1C}me\U{1F}"], "username") == Ok("me")
    ensures CharField(map["username" := "a\0b"], "username") == Err(NullCharacter)
  {
    var s := "\U{1C}me\U{1F}";
    assert StripLeft(s) == StripLeft(s[1..]) && s[1..] == "me\U{1F}";
    assert StripLeft("me\U{1F}") == "me\U{1F}";
    assert StripRight("me\U{1F}") == StripRight("me");
    assert "me\U{1F}"[..2] == "me";
  }

  lemma CharFieldIgnoresOtherKeys(data: Data, key: string, value: string, field: string)
    requires key != field
    ensures CharField(data[key := value], field) == CharField(data, field)
  {
    assert (field in data[key := value]) == (field in data);
    assert field in data ==> data[key := value][field] == data[field];
  }

  /** Keys that are not fields of the serializer do not change the outcome. */
  lemma SignUpIgnoresOtherKeys(data: Data, users: map<Id, User>, key: string, value: string)
    requires key != "username" && key != "email"
    ensures ValidateSignUp(data[key := value], users) == ValidateSignUp(data, users)
  {
    CharFieldIgnoresOtherKeys(data, key, value, "username");
    CharFieldIgnoresOtherKeys(data, key, value, "email");
  }

  datatype TokenRequest = TokenRequest(username: string, confirmationCode: string)
  datatype TokenErrors = TokenErrors(username: Option<FieldError>, confirmationCode: Option<FieldError>)

  /** What a character field accepts: present, not blank once trimmed, and free of null characters. */
  predicate Filled(data: Data, key: string) {
    key in data && Strip(data[key]) != "" && '\0' !in Strip(data[key])
  }

  /** TokenSerializer: both fields are required character fields. */
  function ValidateToken(data: Data): (r: Result<TokenRequest, TokenErrors>)
    ensures r.Ok? <==> Filled(data, "username") && Filled(data, "confirmation_code")
    ensures r.Ok? ==> r.value == TokenRequest(Strip(data["username"]), Strip(data["confirmation_code"]))
    ensures r.Err? ==> (r.error.username.Some? <==> !Filled(data, "username"))
    ensures r.Err? ==> (r.error.confirmationCode.Some? <==> !Filled(data, "confirmation_code"))
  {
    var username := CharField(data, "username");
    var code := CharField(data, "confirmation_code");
    if username.Ok? && code.Ok? then Ok(TokenRequest(username.value, code.value))
    else Err(TokenErrors(ErrorOf(username), ErrorOf(code)))
  }

  /** The profile columns a user row has besides those the store keeps. */
  datatype Profile = Profile(firstName: Option<string>, lastName: Option<string>, bio: Option<string>)

  /** UserSerializer's representation of a user: exactly its six fields. */
  function SerializeUser(u: User, p: Profile): (r: map<string, Option<string>>)
    ensures r.Keys == set f | f in USER_SERIALIZER_FIELDS
    ensures r["username"] == Some(u.username) && r["email"] == Some(u.email)
    ensures r["first_name"] == p.firstName && r["last_name"] == p.lastName && r["bio"] == p.bio
    ensures r["role"] == Some(u.role.Value()) && RoleFromValue(r["role"].value) == Some(u.role)
  {
    RoleValueRoundTrip(u.role);
    map["username" := Some(u.username), "email" := Some(u.email), "first_name" := p.firstName,
        "last_name" := p.lastName, "bio" := p.bio, "role" := Some(u.role.Value())]
  }
}
