/** The login form: exchanges username and password for a token pair and keeps both
    tokens in browser storage. */
module Login {
  import opened Wrappers
  import opened Js
  import opened Browser

  const TokenUrl := "http://localhost:8000/users/api/auth/token/"
  const VacanciesRoute := "/vacancies"
  const FailureMessage := "Invalid credentials or something went wrong."

  datatype State = State(username: string, password: string, error: string)

  function TokenRequest(st: State): Request {
    Request(POST, TokenUrl, JsonBody(Obj([("username", Str(st.username)), ("password", Str(st.password))])), None)
  }

  /** `handleLogin`: one POST with the credentials. When the response body can be
      destructured, `access` and `refresh` are stored as strings (a missing one as
      "undefined") and the page goes to the vacancy list; a rejected request or a null
      body shows the failure message and leaves storage alone. */
  function HandleLogin(st: State, storage: Storage, outcome: Outcome): (t: Transition<State>)
    ensures t.requests == [TokenRequest(st)]
    ensures t.state.username == st.username && t.state.password == st.password
    ensures t.navigation.Some? <==> outcome.Success? && !Nullish(outcome.body)
    ensures t.navigation.Some? ==>
      t.navigation == Some(VacanciesRoute) && t.state == st &&
      GetItem(t.storage, AccessTokenKey) == Str(ToStr(OptionalProp(outcome.body, "access"))) &&
      GetItem(t.storage, RefreshTokenKey) == Str(ToStr(OptionalProp(outcome.body, "refresh"))) &&
      t.storage.Keys == storage.Keys + {AccessTokenKey, RefreshTokenKey}
    ensures t.navigation.Some? ==> forall k :: k != AccessTokenKey && k != RefreshTokenKey ==>
      GetItem(t.storage, k) == GetItem(storage, k)
    ensures t.navigation.None? ==> t.storage == storage && t.state.error == FailureMessage
  {
    var req := TokenRequest(st);
    match outcome
    case Success(data) =>
      (match GetProp(data, "access")
       case Some(access) =>
         var refresh := GetProp(data, "refresh").value;
         var stored := SetItem(SetItem(storage, AccessTokenKey, access), RefreshTokenKey, refresh);
         Transition(st, stored, [req], Some(VacanciesRoute))
       case None => Transition(st.(error := FailureMessage), storage, [req], None))
    case _ => Transition(st.(error := FailureMessage), storage, [req], None)
  }
}
