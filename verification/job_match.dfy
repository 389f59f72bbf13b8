/** The job-match page: hydrates the selected vacancy id and résumé id from storage,
    uploads a résumé, lets the user pick a vacancy, and submits the correlated match
    request, rendering the score and two optional lists. */
module JobMatch {
  import opened Wrappers
  import opened Js
  import opened Browser

  const MatchUrl := "http://127.0.0.1:8000/resume/match/"
  const UploadUrl := "http://127.0.0.1:8000/resume/upload/"
  const VacanciesUrl := "http://localhost:8000/vacancies/vacancies"

  const SelectFirstMessage := "Please select a vacancy and upload a resume first."
  const LoginFirstMessage := "Please log in first."
  const MatchFallbackMessage := "Something went wrong."
  const MatchFailedMessage := "Could not fetch job matches."
  const UploadFailedMessage := "Failed to upload resume."
  const VacanciesFailedMessage := "Could not fetch vacancies."

  /** Component state. Values are kept exactly as they were assigned: ids are strings when
      read from storage but whatever the server sent after an upload, and the result
      fields hold the response's fields verbatim (possibly undefined). */
  datatype State = State(
    matches: Json,
    vacancyId: Json,
    resumeId: Json,
    error: Json,
    matchScore: Json,
    keywordSuggestions: Json,
    formattingIssues: Json)

  /** The stored string under `k`, or "" when absent. */
  function StoredOrEmpty(storage: Storage, k: string): string {
    if k in storage then storage[k] else ""
  }

  /** State on mount: `getItem(k) || ''` for both ids, no score, empty lists, no error. */
  function Initial(storage: Storage): (s: State)
    ensures s.vacancyId == Str(StoredOrEmpty(storage, VacancyIdKey))
    ensures s.resumeId == Str(StoredOrEmpty(storage, ResumeIdKey))
    ensures s.error == Str("") && s.matchScore == Null
    ensures s.keywordSuggestions == Arr([]) && s.formattingIssues == Arr([])
  {
    State(
      Arr([]),
      Or(GetItem(storage, VacancyIdKey), Str("")),
      Or(GetItem(storage, ResumeIdKey), Str("")),
      Str(""),
      Null,
      Arr([]),
      Arr([]))
  }

  /** The id as the match request sends it: `parseInt` of its string form, NaN as null. */
  function RequestId(id: Json): Json {
    NumberOrNull(ParseInt(ToStr(id)))
  }

  /** The match request for the current selection. */
  function MatchRequest(st: State, token: Json): Request {
    Request(POST, MatchUrl,
      JsonBody(Obj([("resume_id", RequestId(st.resumeId)), ("vacancy_id", RequestId(st.vacancyId))])),
      Some(Bearer(token)))
  }

  /** The error shown when the match request fails, or when reading the success body
      throws (a null body): `data.error || fallback` if a truthy body came back, else the
      generic message. */
  function MatchError(outcome: Outcome): (r: Json)
    ensures Truthy(r)
    ensures outcome.Rejected? && Truthy(outcome.body) && Truthy(OptionalProp(outcome.body, "error")) ==>
      r == OptionalProp(outcome.body, "error")
    ensures outcome.Rejected? && Truthy(outcome.body) && !Truthy(OptionalProp(outcome.body, "error")) ==>
      r == Str(MatchFallbackMessage)
    ensures !(outcome.Rejected? && Truthy(outcome.body)) ==> r == Str(MatchFailedMessage)
  {
    match outcome
    case Rejected(_, body) =>
      if Truthy(body) then Or(OptionalProp(body, "error"), Str(MatchFallbackMessage)) else Str(MatchFailedMessage)
    case _ => Str(MatchFailedMessage)
  }

  /** `handleMatch`: both ids must be truthy and a token present before the one request
      is made; success copies the three result fields and clears the error; any failure
      only sets the error. Storage is never touched. */
  function HandleMatch(st: State, storage: Storage, outcome: Outcome): (t: Transition<State>)
    ensures t.storage == storage && t.navigation == None
    ensures !Truthy(st.vacancyId) || !Truthy(st.resumeId) ==>
      t.requests == [] && t.state == st.(error := Str(SelectFirstMessage))
    ensures Truthy(st.vacancyId) && Truthy(st.resumeId) && !Truthy(GetItem(storage, AccessTokenKey)) ==>
      t.requests == [] && t.state == st.(error := Str(LoginFirstMessage))
    ensures t.requests != [] <==>
      Truthy(st.vacancyId) && Truthy(st.resumeId) && Truthy(GetItem(storage, AccessTokenKey))
    ensures t.requests != [] ==> t.requests == [MatchRequest(st, GetItem(storage, AccessTokenKey))]
    ensures t.requests != [] && outcome.Success? && !Nullish(outcome.body) ==>
      t.state == st.(matchScore := OptionalProp(outcome.body, "match_score"),
                     keywordSuggestions := OptionalProp(outcome.body, "suggested_keywords"),
                     formattingIssues := OptionalProp(outcome.body, "formatting_issues"),
                     error := Str(""))
    ensures t.requests != [] && !(outcome.Success? && !Nullish(outcome.body)) ==>
      t.state == st.(error := MatchError(outcome))
  {
    if !Truthy(st.vacancyId) || !Truthy(st.resumeId) then
      Transition(st.(error := Str(SelectFirstMessage)), storage, [], None)
    else
      var token := GetItem(storage, AccessTokenKey);
      if !Truthy(token) then
        Transition(st.(error := Str(LoginFirstMessage)), storage, [], None)
      else
        var next :=
          match outcome
          case Success(body) =>
            (match GetProp(body, "match_score")
             case None => st.(error := MatchError(outcome))
             case Some(score) =>
               st.(matchScore := score,
                   keywordSuggestions := OptionalProp(body, "suggested_keywords"),
                   formattingIssues := OptionalProp(body, "formatting_issues"),
                   error := Str("")))
          case _ => st.(error := MatchError(outcome));
        Transition(next, storage, [MatchRequest(st, token)], None)
  }

  /** The upload request; `FormData.append` turns a missing file into the text "undefined". */
  function UploadRequest(file: Option<File>, token: Json): Request {
    Request(POST, UploadUrl,
      Multipart("resume", match file case Some(f) => FilePart(f) case None => TextPart("undefined")),
      Some(Bearer(token)))
  }

  /** The message shown when the upload fails: the server's `error` when the rejection
      carries a truthy one, otherwise the generic upload message. */
  function UploadError(outcome: Outcome): (r: Json)
    ensures Truthy(r)
    ensures outcome.Rejected? && Truthy(outcome.body) && Truthy(OptionalProp(outcome.body, "error")) ==>
      r == OptionalProp(outcome.body, "error")
    ensures outcome.Rejected? && Truthy(outcome.body) && !Truthy(OptionalProp(outcome.body, "error")) ==>
      r == Str(UploadFailedMessage)
    ensures !outcome.Rejected? || !Truthy(outcome.body) ==> r == Str(UploadFailedMessage)
  {
    match outcome
    case Rejected(_, body) =>
      if Truthy(body) then Or(OptionalProp(body, "error"), Str(UploadFailedMessage)) else Str(UploadFailedMessage)
    case _ => Str(UploadFailedMessage)
  }

  /** `handleResumeUpload`: needs a token (but not a file); on success the returned id
      becomes the current résumé id and is stored under `resume_id`, the legacy key is
      removed and the error cleared; on failure only the error changes. */
  function HandleResumeUpload(st: State, storage: Storage, file: Option<File>, outcome: Outcome): (t: Transition<State>)
    ensures t.navigation == None
    ensures !Truthy(GetItem(storage, AccessTokenKey)) ==>
      t.requests == [] && t.storage == storage && t.state == st.(error := Str(LoginFirstMessage))
    ensures Truthy(GetItem(storage, AccessTokenKey)) ==>
      t.requests == [UploadRequest(file, GetItem(storage, AccessTokenKey))]
    ensures t.requests != [] && outcome.Success? && !Nullish(outcome.body) ==>
      var id := OptionalProp(outcome.body, "resume_id");
      && t.state == st.(resumeId := id, error := Str(""))
      && GetItem(t.storage, ResumeIdKey) == Str(ToStr(id))
      && GetItem(t.storage, LegacyResumeIdKey) == Null
      && (forall k :: k != ResumeIdKey && k != LegacyResumeIdKey ==> GetItem(t.storage, k) == GetItem(storage, k))
    ensures t.requests != [] && !(outcome.Success? && !Nullish(outcome.body)) ==>
      t.storage == storage && t.state == st.(error := UploadError(outcome))
  {
    var token := GetItem(storage, AccessTokenKey);
    if !Truthy(token) then
      Transition(st.(error := Str(LoginFirstMessage)), storage, [], None)
    else
      var req := UploadRequest(file, token);
      match outcome
      case Success(body) =>
        (match GetProp(body, "resume_id")
         case None => Transition(st.(error := UploadError(outcome)), storage, [req], None)
         case Some(id) =>
           var stored := RemoveItem(SetItem(storage, ResumeIdKey, id), LegacyResumeIdKey);
           Transition(st.(resumeId := id, error := Str("")), stored, [req], None))
      case _ => Transition(st.(error := UploadError(outcome)), storage, [req], None)
  }

  /** The vacancy select's `onChange`: the chosen value becomes the selection in state and
      in storage under `vacancyId`; nothing else changes. */
  function SelectVacancy(st: State, storage: Storage, value: string): (t: Transition<State>)
    ensures t.state == st.(vacancyId := Str(value))
    ensures GetItem(t.storage, VacancyIdKey) == Str(value)
    ensures forall k :: k != VacancyIdKey ==> GetItem(t.storage, k) == GetItem(storage, k)
    ensures t.requests == [] && t.navigation == None
  {
    Transition(st.(vacancyId := Str(value)), SetItem(storage, VacancyIdKey, Str(value)), [], None)
  }

  /** The mount-time vacancy fetch that fills the select. */
  function FetchMatches(st: State, storage: Storage, outcome: Outcome): (t: Transition<State>)
    ensures t.storage == storage && t.navigation == None
    ensures !Truthy(GetItem(storage, AccessTokenKey)) ==>
      t.requests == [] && t.state == st.(error := Str(LoginFirstMessage))
    ensures Truthy(GetItem(storage, AccessTokenKey)) ==>
      t.requests == [Request(GET, VacanciesUrl, NoBody, Some(Bearer(GetItem(storage, AccessTokenKey))))]
    ensures t.requests != [] && outcome.Success? ==> t.state == st.(matches := outcome.body)
    ensures t.requests != [] && !outcome.Success? ==> t.state == st.(error := Str(VacanciesFailedMessage))
  {
    var token := GetItem(storage, AccessTokenKey);
    if !Truthy(token) then
      Transition(st.(error := Str(LoginFirstMessage)), storage, [], None)
    else
      var req := Request(GET, VacanciesUrl, NoBody, Some(Bearer(token)));
      match outcome
      case Success(body) => Transition(st.(matches := body), storage, [req], None)
      case _ => Transition(st.(error := Str(VacanciesFailedMessage)), storage, [req], None)
  }

  /** The score block is rendered iff `matchScore !== null` (so an undefined score shows). */
  predicate ScoreShown(st: State)
    ensures ScoreShown(st) <==> !st.matchScore.Null?
    ensures st.matchScore.Undefined? ==> ScoreShown(st)
  {
    !StrictEq(st.matchScore, Null)
  }

  /** A list section, `list.length > 0 && list.map(...)`: undefined or null throws on the
      `length` read; a value whose `length` is positive then needs `map`, which only an
      array has, so a non-empty array gives one item per element and a non-empty string
      or an object with a positive `length` throws; anything else renders nothing. */
  function ListSection(v: Json): (r: Rendered)
    ensures r.Items? <==> v.Arr? && |v.items| > 0
    ensures r.Items? ==> r.items == v.items
    ensures r == RenderError <==> Nullish(v) || (!v.Arr? && Positive(OptionalProp(v, "length")))
    ensures v.Str? ==> (r == RenderError <==> |v.s| > 0)
    ensures v.Obj? ==> (r == RenderError <==> Positive(Lookup(v.entries, "length")))
    ensures v.Bool? || v.Num? ==> r == Nothing
  {
    if Nullish(v) then RenderError
    else if !Positive(OptionalProp(v, "length")) then Nothing
    else if v.Arr? then Items(v.items)
    else RenderError
  }

  /** The two list sections, keywords first. */
  function Sections(st: State): seq<Rendered> {
    [ListSection(st.keywordSuggestions), ListSection(st.formattingIssues)]
  }
}
