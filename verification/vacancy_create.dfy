/** The vacancy creation form: field edits, the submit sequence that adds the current
    user as recruiter when known, and the message built from the server's error body. */
module VacancyCreate {
  import opened Wrappers
  import opened Text
  import opened Js
  import opened Browser

  const ProfileUrl := "http://127.0.0.1:8000/users/api/profile"
  const VacanciesUrl := "http://127.0.0.1:8000/vacancies/vacancies/"
  const VacanciesRoute := "/vacancies"
  const LoginRoute := "/login"

  const AuthRequiredMessage := "Authentication required. Please login."
  const PermissionDeniedMessage := "Permission denied. Only recruiters or admins can create vacancies."
  const CreateFailedMessage := "Failed to create vacancy"
  const AuthFailedMessage := "Failed to authenticate. Please login again."
  const ValidationPrefix := "Validation errors: "

  /** The form's fields (in declaration order), the loading flag, the error (null when
      none) and the current user as fetched from the profile endpoint. */
  datatype State = State(form: seq<(string, Json)>, loading: bool, error: Json, currentUser: Json)

  const InitialForm: seq<(string, Json)> := [
    ("title", Str("")), ("description", Str("")), ("required_skills", Str("")),
    ("experience_required", Num(0)), ("location", Str("")), ("job_type", Str("full_time")),
    ("salary_min", Str("")), ("salary_max", Str(""))]

  const Initial := State(InitialForm, false, Null, Null)

  /** The mount-time profile fetch: without a token the page redirects to the login page. */
  function FetchCurrentUser(st: State, storage: Storage, outcome: Outcome): (t: Transition<State>)
    ensures t.storage == storage
    ensures !Truthy(GetItem(storage, AccessTokenKey)) ==> t == Transition(st, storage, [], Some(LoginRoute))
    ensures Truthy(GetItem(storage, AccessTokenKey)) ==>
      && t.requests == [Request(GET, ProfileUrl, NoBody, Some(Bearer(GetItem(storage, AccessTokenKey))))]
      && t.navigation == None
      && t.state == (if outcome.Success? then st.(currentUser := outcome.body) else st.(error := Str(AuthFailedMessage)))
  {
    var token := GetItem(storage, AccessTokenKey);
    if !Truthy(token) then Transition(st, storage, [], Some(LoginRoute))
    else
      var req := Request(GET, ProfileUrl, NoBody, Some(Bearer(token)));
      match outcome
      case Success(user) => Transition(st.(currentUser := user), storage, [req], None)
      case _ => Transition(st.(error := Str(AuthFailedMessage)), storage, [req], None)
  }

  /** `handleChange`: the named field takes the input's value; every other field keeps its
      value and the field order is kept (a new name is appended). */
  function HandleChange(st: State, name: string, value: string): (s: State)
    ensures Lookup(s.form, name) == Str(value)
    ensures forall k :: k != name ==> Lookup(s.form, k) == Lookup(st.form, k)
    ensures name in Keys(st.form) ==> Keys(s.form) == Keys(st.form)
    ensures s.loading == st.loading && s.error == st.error && s.currentUser == st.currentUser
  {
    st.(form := SetProp(st.form, name, Str(value)))
  }

  /** The submitted payload `{...formData, ...(currentUser?.id && {recruiter: currentUser.id})}`:
      the form, plus `recruiter` iff the current user's id is truthy. */
  function Payload(st: State): (p: seq<(string, Json)>)
    ensures var id := OptionalProp(st.currentUser, "id");
      && (Truthy(id) ==> Lookup(p, "recruiter") == id)
      && (!Truthy(id) ==> p == st.form)
    ensures forall k :: k != "recruiter" ==> Lookup(p, k) == Lookup(st.form, k)
  {
    var id := OptionalProp(st.currentUser, "id");
    if Truthy(id) then SetProp(st.form, "recruiter", id) else st.form
  }

  /** One line of the validation message, `${field}: ${messages.join(', ')}`; a value
      that is not an array has no `join`, which throws (none). */
  function FieldLine(field: string, messages: Json): Option<string> {
    match messages
    case Arr(items) => Some(field + ": " + JoinValues(items, ", "))
    case _ => None
  }

  /** The lines for all entries, in entry order; none if any entry throws. */
  function FieldLines(entries: seq<(string, Json)>): (r: Option<seq<string>>)
    ensures r.Some? <==> forall i :: 0 <= i < |entries| ==> entries[i].1.Arr?
    ensures r.Some? ==> |r.value| == |entries|
    ensures r.Some? ==> forall i :: 0 <= i < |entries| ==> Some(r.value[i]) == FieldLine(entries[i].0, entries[i].1)
    decreases |entries|
  {
    if |entries| == 0 then Some([])
    else
      var first := FieldLine(entries[0].0, entries[0].1);
      var rest := FieldLines(entries[1..]);
      if first.Some? && rest.Some? then Some([first.value] + rest.value) else None
  }

  /** The message for a rejected request with a truthy body, or none when building it
      throws: "Validation errors: " and the field lines joined by "; " when there are
      entries, otherwise `data.detail || 'Failed to create vacancy'`. */
  function BodyMessage(body: Json): (r: Option<Json>)
    ensures r.Some? <==> FieldLines(Entries(body)).Some?
    ensures r.Some? && |Entries(body)| > 0 ==>
      r.value == Str(ValidationPrefix + JoinWith(FieldLines(Entries(body)).value, "; "))
  {
    match FieldLines(Entries(body))
    case None => None
    case Some(lines) =>
      if |lines| > 0 then Some(Str(ValidationPrefix + JoinWith(lines, "; ")))
      else Some(Or(OptionalProp(body, "detail"), Str(CreateFailedMessage)))
  }

  /** The error shown after a failed POST; none when the catch block itself throws, in
      which case the error stays as cleared at the start. */
  function FailureMessage(outcome: Outcome): (r: Option<Json>)
    ensures outcome.Rejected? && outcome.status == 403 ==> r == Some(Str(PermissionDeniedMessage))
    ensures outcome.Rejected? && outcome.status != 403 && Truthy(outcome.body) ==> r == BodyMessage(outcome.body)
    ensures outcome.Rejected? && outcome.status != 403 && !Truthy(outcome.body) ==>
      r == Some(Str(AxiosStatusMessage(outcome.status)))
    ensures outcome.NoResponse? ==>
      r == Some(Str(if outcome.message != "" then outcome.message else CreateFailedMessage))
    ensures r.None? <==>
      outcome.Rejected? && outcome.status != 403 && Truthy(outcome.body) && FieldLines(Entries(outcome.body)).None?
  {
    match outcome
    case Success(_) => Some(Null)
    case Rejected(status, body) =>
      if status == 403 then Some(Str(PermissionDeniedMessage))
      else if Truthy(body) then BodyMessage(body)
      else Some(Str(AxiosStatusMessage(status)))
    case NoResponse(m) => Some(Or(Str(m), Str(CreateFailedMessage)))
  }

  /** The state while the POST is in flight: loading set, error cleared. */
  function Started(st: State): (s: State)
    ensures s.loading && s.error == Null && s.form == st.form && s.currentUser == st.currentUser
  {
    st.(loading := true, error := Null)
  }

  /** `handleSubmit`: without a token no POST is made and the thrown error's message is
      shown; otherwise the payload is posted, success navigates to the vacancy list,
      403 gives the permission message whatever the body, and other failures their
      message. Loading is false at the end on every path. */
  function HandleSubmit(st: State, storage: Storage, outcome: Outcome): (t: Transition<State>)
    ensures t.storage == storage
    ensures !t.state.loading
    ensures t.state.form == st.form && t.state.currentUser == st.currentUser
    ensures !Truthy(GetItem(storage, AccessTokenKey)) ==>
      t.requests == [] && t.navigation == None && t.state.error == Str(AuthRequiredMessage)
    ensures Truthy(GetItem(storage, AccessTokenKey)) ==>
      t.requests == [Request(POST, VacanciesUrl, JsonBody(Obj(Payload(st))), Some(Bearer(GetItem(storage, AccessTokenKey))))]
    ensures t.requests != [] && outcome.Success? ==> t.navigation == Some(VacanciesRoute) && t.state.error == Null
    ensures t.requests != [] && outcome.Rejected? && outcome.status == 403 ==>
      t.navigation == None && t.state.error == Str(PermissionDeniedMessage)
    ensures t.requests != [] && !outcome.Success? ==>
      t.navigation == None && t.state.error == FailureMessage(outcome).GetOr(Null)
  {
    var running := Started(st);
    var token := GetItem(storage, AccessTokenKey);
    if !Truthy(token) then
      Transition(running.(error := Str(AuthRequiredMessage), loading := false), storage, [], None)
    else
      var req := Request(POST, VacanciesUrl, JsonBody(Obj(Payload(st))), Some(Bearer(token)));
      match outcome
      case Success(_) => Transition(running.(loading := false), storage, [req], Some(VacanciesRoute))
      case _ => Transition(running.(error := FailureMessage(outcome).GetOr(Null), loading := false), storage, [req], None)
  }

  /** One validation line per field: its name, ": ", and its messages joined by ", ". */
  function ErrorLines(fields: seq<(string, seq<string>)>): (r: seq<string>)
    ensures |r| == |fields|
    decreases |fields|
  {
    if |fields| == 0 then [] else [fields[0].0 + ": " + JoinWith(fields[0].1, ", ")] + ErrorLines(fields[1..])
  }

  lemma {:induction false} FieldLinesOfErrors(fields: seq<(string, seq<string>)>)
    ensures FieldLines(FieldErrors(fields)) == Some(ErrorLines(fields))
    decreases |fields|
  {
    if |fields| > 0 {
      var es := FieldErrors(fields);
      assert es[1..] == FieldErrors(fields[1..]);
      FieldLinesOfErrors(fields[1..]);
      JoinValuesOfStrings(fields[0].1, ", ");
      assert FieldLine(es[0].0, es[0].1) == Some(fields[0].0 + ": " + JoinWith(fields[0].1, ", "));
    }
  }

  /** For any validation-error body naming at least one field, the message lists every
      field in order, each with its messages. */
  lemma FieldErrorsMessage(fields: seq<(string, seq<string>)>)
    requires |fields| > 0
    ensures BodyMessage(Obj(FieldErrors(fields))) == Some(Str(ValidationPrefix + JoinWith(ErrorLines(fields), "; ")))
  {
    FieldLinesOfErrors(fields);
  }

  /** The `detail` fallback can never fire: a truthy body without entries has no `detail`
      property, so the message is always the fixed one. */
  lemma DetailFallbackIsFixed(body: Json)
    requires Truthy(body)
    requires Entries(body) == []
    ensures BodyMessage(body) == Some(Str(CreateFailedMessage))
  {}

  /** A body naming one field with one message reports exactly that field and message. */
  lemma OneFieldError(field: string, message: string)
    ensures BodyMessage(Obj([(field, Arr([Str(message)]))]))
      == Some(Str(ValidationPrefix + field + ": " + message))
  {
    var entries := [(field, Arr([Str(message)]))];
    assert ToStr(Str(message)) == message;
    assert JoinValues([Str(message)], ", ") == message;
    assert FieldLine(field, Arr([Str(message)])) == Some(field + ": " + message);
    assert entries[1..] == [];
    assert FieldLines(entries[1..]) == Some([]);
    assert entries[0].0 == field && entries[0].1 == Arr([Str(message)]);
    assert FieldLine(entries[0].0, entries[0].1) == Some(field + ": " + message);
    assert [field + ": " + message] + [] == [field + ": " + message];
    assert FieldLines(entries) == Some([field + ": " + message]);
    assert Entries(Obj(entries)) == entries;
    assert JoinWith([field + ": " + message], "; ") == field + ": " + message;
    assert BodyMessage(Obj(entries)) == Some(Str(ValidationPrefix + (field + ": " + message)));
    assert ValidationPrefix + (field + ": " + message) == ValidationPrefix + field + ": " + message;
  }

  /** A field edited in the form is sent with that value, unless it is the `recruiter`
      field, which the current user's id overrides whenever that id is truthy. */
  lemma EditedFieldIsPosted(st: State, name: string, value: string)
    ensures var p := Payload(HandleChange(st, name, value));
      && (name != "recruiter" ==> Lookup(p, name) == Str(value))
      && (name == "recruiter" && !Truthy(OptionalProp(st.currentUser, "id")) ==> Lookup(p, name) == Str(value))
  {
  }
}
