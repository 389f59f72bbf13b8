/** The password-reset confirmation form: refuses mismatched passwords locally, posts the
    uid and token from the route with both passwords, and flattens the server's error
    body into one message. */
module PasswordResetConfirm {
  import opened Wrappers
  import opened Text
  import opened Js
  import opened Browser

  const ConfirmUrl := "http://localhost:8000/users/api/auth/password/reset/confirm/"
  const LoginRoute := "/login"

  const MismatchMessage := "\U{274C} Passwords do not match."
  const SuccessMessage := "\U{2705} Password reset successfully! You can now log in."
  const GenericFailureMessage := "\U{274C} Password reset failed. Please try again."
  const ErrorPrefix := "\U{274C} "

  datatype State = State(newPassword: string, confirmPassword: string, message: string, error: string, isLoading: bool)

  /** The state at the start of every submit: message and error cleared, loading set. */
  function Started(st: State): (s: State)
    ensures s.message == "" && s.error == "" && s.isLoading
    ensures s.newPassword == st.newPassword && s.confirmPassword == st.confirmPassword
  {
    st.(message := "", error := "", isLoading := true)
  }

  /** The request body; `uid` and `token` are the route parameters (undefined when the
      route does not supply them). */
  function ConfirmRequest(st: State, uid: Json, token: Json): Request {
    Request(POST, ConfirmUrl,
      JsonBody(Obj([("uid", uid), ("token", token),
                    ("new_password1", Str(st.newPassword)), ("new_password2", Str(st.confirmPassword))])),
      None)
  }

  /** The error for a failed request: for a truthy object body, "❌ " and all its values,
      nested arrays flattened one level, joined by spaces; otherwise the generic message. */
  function FailureMessage(outcome: Outcome): (r: string)
    ensures outcome.Rejected? && Truthy(outcome.body) && IsObjectType(outcome.body) ==>
      r == ErrorPrefix + JoinValues(Flat(Values(outcome.body)), " ")
    ensures !(outcome.Rejected? && Truthy(outcome.body) && IsObjectType(outcome.body)) ==>
      r == GenericFailureMessage
  {
    match outcome
    case Rejected(_, body) =>
      if Truthy(body) && IsObjectType(body) then ErrorPrefix + JoinValues(Flat(Values(body)), " ")
      else GenericFailureMessage
    case _ => GenericFailureMessage
  }

  /** `handlePasswordResetConfirm`: mismatched passwords stop before any request; a match
      posts once, success shows the success message and goes to the login page, failure
      shows the flattened or generic error. Loading is false at the end on every path. The
      navigation to the login page happens after a three-second timer in the component. */
  function Submit(st: State, storage: Storage, uid: Json, token: Json, outcome: Outcome): (t: Transition<State>)
    ensures t.storage == storage
    ensures !t.state.isLoading
    ensures t.state.newPassword == st.newPassword && t.state.confirmPassword == st.confirmPassword
    ensures st.newPassword != st.confirmPassword ==>
      t.requests == [] && t.navigation == None && t.state.error == MismatchMessage && t.state.message == ""
    ensures st.newPassword == st.confirmPassword ==> t.requests == [ConfirmRequest(st, uid, token)]
    ensures t.requests != [] && outcome.Success? ==>
      t.state.message == SuccessMessage && t.state.error == "" && t.navigation == Some(LoginRoute)
    ensures t.requests != [] && !outcome.Success? ==>
      t.state.message == "" && t.state.error == FailureMessage(outcome) && t.navigation == None
  {
    var running := Started(st);
    if st.newPassword != st.confirmPassword then
      Transition(running.(error := MismatchMessage, isLoading := false), storage, [], None)
    else
      var req := ConfirmRequest(st, uid, token);
      match outcome
      case Success(_) => Transition(running.(message := SuccessMessage, isLoading := false), storage, [req], Some(LoginRoute))
      case _ => Transition(running.(error := FailureMessage(outcome), isLoading := false), storage, [req], None)
  }

  /** For any validation-error body, the message is the prefix followed by every message
      of every field, in field order, separated by single spaces. */
  lemma FieldErrorsMessage(status: int, fields: seq<(string, seq<string>)>)
    ensures FailureMessage(Rejected(status, Obj(FieldErrors(fields)))) == ErrorPrefix + JoinWith(AllMessages(fields), " ")
  {
    FlatFieldErrors(fields);
    JoinValuesOfStrings(AllMessages(fields), " ");
  }

  /** A typical field-error body: each field's list of messages is flattened into the text. */
  lemma FlattenedFieldErrors(a: string, b: string, c: string)
    ensures FailureMessage(Rejected(400, Obj([("new_password2", Arr([Str(a), Str(b)])), ("token", Arr([Str(c)]))])))
      == ErrorPrefix + (a + " " + (b + " " + c))
  {
    var body := Obj([("new_password2", Arr([Str(a), Str(b)])), ("token", Arr([Str(c)]))]);
    var vs := Values(body);
    assert vs == [Arr([Str(a), Str(b)]), Arr([Str(c)])];
    assert vs[1..] == [Arr([Str(c)])];
    assert Flat(vs[1..][1..]) == [];
    assert Flat(vs[1..]) == [Str(c)];
    assert Flat(vs) == [Str(a), Str(b), Str(c)];
    var flat := [Str(a), Str(b), Str(c)];
    assert flat[1..] == [Str(b), Str(c)];
    assert flat[1..][1..] == [Str(c)];
    assert JoinValues(flat[1..][1..], " ") == c;
    assert JoinValues(flat[1..], " ") == b + " " + c;
    assert JoinValues(flat, " ") == a + " " + (b + " " + c);
    assert FailureMessage(Rejected(400, body)) == ErrorPrefix + JoinValues(Flat(vs), " ");
  }
}
