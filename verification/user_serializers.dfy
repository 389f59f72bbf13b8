/** Signing in with e-mail and password, and the public view of a user's profile. */
module UserSerializers {
  import opened Wrappers
  import opened Js
  import opened Permissions

  const MissingFieldsMessage := "Must include 'email' and 'password'."
  const InvalidCredentialsMessage := "Invalid credentials"

  /** A value in the serializer's attribute map: text from the request, or the
      authenticated user once validation has put it there. */
  datatype Value = Text(s: string) | UserValue(user: User)

  /** Python truthiness of an attribute lookup: a missing key and the empty string are
      false. */
  predicate Present(attrs: map<string, Value>, k: string) {
    k in attrs && attrs[k] != Text("")
  }

  /** The result of `validate` with the authenticator calls it made. */
  datatype Validation = Validation(result: Result, authCalls: seq<(Value, Value)>)
  datatype Result = Accepted(attrs: map<string, Value>) | Refused(message: string)

  /** `CustomLoginSerializer.validate`: both e-mail and password must be present before
      the authenticator is asked, once; no user means invalid credentials; otherwise the
      same attributes come back with `user` set. The authenticator is a parameter. */
  function Validate(attrs: map<string, Value>, authenticate: (Value, Value) -> Option<User>): (v: Validation)
    ensures !(Present(attrs, "email") && Present(attrs, "password")) ==>
      v.authCalls == [] && v.result == Refused(MissingFieldsMessage)
    ensures Present(attrs, "email") && Present(attrs, "password") ==>
      v.authCalls == [(attrs["email"], attrs["password"])]
    ensures v.result.Accepted? <==>
      Present(attrs, "email") && Present(attrs, "password") && authenticate(attrs["email"], attrs["password"]).Some?
    ensures v.result.Accepted? ==>
      v.result.attrs.Keys == attrs.Keys + {"user"} &&
      v.result.attrs["user"] == UserValue(authenticate(attrs["email"], attrs["password"]).value) &&
      forall k :: k in attrs && k != "user" ==> v.result.attrs[k] == attrs[k]
    ensures v.result.Refused? && |v.authCalls| == 1 ==> v.result.message == InvalidCredentialsMessage
  {
    if Present(attrs, "email") && Present(attrs, "password") then
      var email := attrs["email"];
      var password := attrs["password"];
      match authenticate(email, password)
      case None => Validation(Refused(InvalidCredentialsMessage), [(email, password)])
      case Some(user) => Validation(Accepted(attrs["user" := UserValue(user)]), [(email, password)])
    else Validation(Refused(MissingFieldsMessage), [])
  }

  const ProfileFields := ["id", "username", "email", "role"]

  /** `UserProfileSerializer`: an account serialised with exactly the fields id, username,
      email and role, in that order. */
  function ProfileJson(user: User): (r: Json)
    requires user.Account?
    ensures r.Obj? && Keys(r.entries) == ProfileFields
    ensures Lookup(r.entries, "role") == Str(user.role) && Lookup(r.entries, "id") == Num(user.id)
    ensures Lookup(r.entries, "username") == Str(user.username) && Lookup(r.entries, "email") == Str(user.email)
  {
    var entries := [("id", Num(user.id)), ("username", Str(user.username)), ("email", Str(user.email)), ("role", Str(user.role))];
    LookupAt(entries, 0);
    LookupAt(entries, 1);
    LookupAt(entries, 2);
    LookupAt(entries, 3);
    Obj(entries)
  }

  /** Neither the password hash nor the verification flag is exposed. */
  lemma ProfileHidesSecrets(user: User)
    requires user.Account?
    ensures "password" !in Keys(ProfileJson(user).entries)
    ensures "is_email_verified" !in Keys(ProfileJson(user).entries)
  {
  }
}
