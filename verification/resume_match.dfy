/** The résumé-match page: one button uploads the chosen file and, once the upload has
    returned an id, submits the match request for the vacancy stored under
    `vacancyId`; the whole response becomes the feedback that the page renders. */
module ResumeMatch {
  import opened Wrappers
  import opened Js
  import opened Browser

  const UploadUrl := "http://127.0.0.1:8000/resume/upload/"
  const MatchUrl := "http://127.0.0.1:8000/resume/match/"

  const NoFileMessage := "Please upload your resume first."
  const FailedMessage := "Failed to match resume. Please try again."

  datatype State = State(file: Option<File>, feedback: Json, loading: bool, error: string)

  const Initial := State(None, Null, false, "")

  /** `handleFileChange`: the picked file (none when the picker was cancelled) replaces the
      old one and the error is cleared. */
  function FileChange(st: State, f: Option<File>): (s: State)
    ensures s.file == f && s.error == ""
    ensures s.feedback == st.feedback && s.loading == st.loading
  {
    st.(file := f, error := "")
  }

  /** The state while the requests are in flight: `setLoading(true)`. */
  function Started(st: State): (s: State)
    ensures s.loading
    ensures s == st.(loading := true)
  {
    st.(loading := true)
  }

  function UploadRequest(file: File, token: Json): Request {
    Request(POST, UploadUrl, Multipart("resume", FilePart(file)), Some(Bearer(token)))
  }

  /** The match request: the id the upload returned and the raw stored vacancy id
      (null when nothing is stored), neither converted nor checked. */
  function MatchRequest(resumeId: Json, vacancyId: Json, token: Json): Request {
    Request(POST, MatchUrl, JsonBody(Obj([("resume_id", resumeId), ("vacancy_id", vacancyId)])), Some(Bearer(token)))
  }

  /** `handleMatch`: without a file only the error is set. Otherwise the upload is sent
      (there is no token check), the match request follows only when the upload
      succeeded, a successful match replaces the feedback, every failure yields one
      message, and loading ends false. The error is not cleared here. */
  function HandleMatch(st: State, storage: Storage, upload: Outcome, matching: Outcome): (t: Transition<State>)
    ensures t.storage == storage && t.navigation == None
    ensures st.file.None? ==> t.requests == [] && t.state == st.(error := NoFileMessage)
    ensures st.file.Some? ==>
      && 1 <= |t.requests| <= 2
      && t.requests[0] == UploadRequest(st.file.value, GetItem(storage, AccessTokenKey))
      && !t.state.loading
    ensures |t.requests| == 2 <==> st.file.Some? && upload.Success? && !Nullish(upload.body)
    ensures |t.requests| == 2 ==>
      t.requests[1] == MatchRequest(OptionalProp(upload.body, "resume_id"),
                                    GetItem(storage, VacancyIdKey), GetItem(storage, AccessTokenKey))
    ensures |t.requests| == 2 && matching.Success? ==> t.state == st.(feedback := matching.body, loading := false)
    ensures st.file.Some? && !(|t.requests| == 2 && matching.Success?) ==>
      t.state == st.(error := FailedMessage, loading := false)
  {
    match st.file
    case None => Transition(st.(error := NoFileMessage), storage, [], None)
    case Some(f) =>
      var token := GetItem(storage, AccessTokenKey);
      var vacancyId := GetItem(storage, VacancyIdKey);
      var running := Started(st);
      var up := UploadRequest(f, token);
      var failed := running.(error := FailedMessage, loading := false);
      match upload
      case Success(body) =>
        (match GetProp(body, "resume_id")
         case None => Transition(failed, storage, [up], None)
         case Some(resumeId) =>
           var mr := MatchRequest(resumeId, vacancyId, token);
           match matching
           case Success(feedback) => Transition(running.(feedback := feedback, loading := false), storage, [up, mr], None)
           case _ => Transition(failed, storage, [up, mr], None))
      case _ => Transition(failed, storage, [up], None)
  }

  /** The `Section` component, `if (!data || data.length === 0) return null` and then
      `data.map(...)`: nothing for a falsy value or one whose `length` is exactly 0, one
      item per element for a non-empty array, and a TypeError for any other value (it has
      no `map`). */
  function Section(data: Json): (r: Rendered)
    ensures r == Nothing <==> !Truthy(data) || OptionalProp(data, "length") == Num(0)
    ensures r.Items? <==> data.Arr? && |data.items| > 0
    ensures r.Items? ==> r.items == data.items
    ensures data.Str? ==> (r == RenderError <==> |data.s| > 0)
    ensures data.Obj? ==> (r == Nothing <==> Lookup(data.entries, "length") == Num(0))
  {
    if !Truthy(data) || StrictEq(OptionalProp(data, "length"), Num(0)) then Nothing
    else if data.Arr? then Items(data.items)
    else RenderError
  }

  /** The four feedback lists, in the order the page renders them. */
  const FeedbackLists := ["skill_gaps", "formatting_suggestions", "keyword_optimization", "recommendations"]

  /** The feedback block, rendered iff feedback is truthy: the `rating` and the four
      sections skill gaps, formatting suggestions, keyword optimisation, recommendations. */
  function FeedbackView(feedback: Json): (r: Option<(Json, seq<Rendered>)>)
    ensures r.Some? <==> Truthy(feedback)
    ensures r.Some? ==> r.value.0 == OptionalProp(feedback, "rating") && |r.value.1| == |FeedbackLists|
    ensures r.Some? ==> forall i :: 0 <= i < |FeedbackLists| ==>
      var list := OptionalProp(feedback, FeedbackLists[i]);
      && (r.value.1[i].Items? <==> list.Arr? && |list.items| > 0)
      && (r.value.1[i].Items? ==> r.value.1[i].items == list.items)
      && (r.value.1[i] == Nothing <==> !Truthy(list) || OptionalProp(list, "length") == Num(0))
  {
    if !Truthy(feedback) then None
    else Some((OptionalProp(feedback, "rating"),
               [Section(OptionalProp(feedback, "skill_gaps")),
                Section(OptionalProp(feedback, "formatting_suggestions")),
                Section(OptionalProp(feedback, "keyword_optimization")),
                Section(OptionalProp(feedback, "recommendations"))]))
  }

  /** An error already shown survives a match run: the run only ever sets an error. */
  lemma MatchNeverClearsError(st: State, storage: Storage, upload: Outcome, matching: Outcome)
    ensures var e := HandleMatch(st, storage, upload, matching).state.error;
      e == st.error || e == NoFileMessage || e == FailedMessage
    ensures st.error != "" ==> HandleMatch(st, storage, upload, matching).state.error != ""
  {}

  /** A response holding only a rating and one skill gap renders the rating and exactly
      one non-empty section, the skill gaps, with that one item. */
  lemma OnlySkillGapsRenderOneSection()
    ensures FeedbackView(Obj([("rating", Num(8)), ("skill_gaps", Arr([Str("Kubernetes")]))]))
      == Some((Num(8), [Items([Str("Kubernetes")]), Nothing, Nothing, Nothing]))
  {}
}
