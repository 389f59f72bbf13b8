/** The stand-alone résumé upload form: checks that a file was chosen and that the user
    is logged in, uploads, keeps the parsed data the server returns, stores the new
    résumé id under the canonical key and then moves on to the match page. */
module ResumeUpload {
  import opened Wrappers
  import opened Js
  import opened Browser

  const UploadUrl := "http://localhost:8000/resume/upload/"
  const MatchRoute := "/match"

  const NoFileMessage := "Please select a file to upload."
  const LoginFirstMessage := "Please log in first."
  const SuccessMessage := "File uploaded and parsed successfully."
  const FailedMessage := "Upload failed. Please try again."

  datatype State = State(file: Option<File>, error: string, successMessage: string, parsedData: Json)

  const Initial := State(None, "", "", Null)

  /** `handleFileChange`: a new pick clears both the error and the success message. */
  function FileChange(st: State, f: Option<File>): (s: State)
    ensures s.file == f && s.error == "" && s.successMessage == ""
    ensures s.parsedData == st.parsedData
  {
    st.(file := f, error := "", successMessage := "")
  }

  function UploadRequest(file: File, token: Json): Request {
    Request(POST, UploadUrl, Multipart("resume", FilePart(file)), Some(Bearer(token)))
  }

  /** `handleUpload`. Success sets the success message, then reads `parsed_data`; for a
      null body that read throws, so the success message stays while the failure message
      is added and nothing is stored. A readable body replaces the parsed data, stores
      `resume_id` (converted to a string) under the canonical key, removes the legacy
      key and navigates to the match page (after a delay that is not modelled). */
  function HandleUpload(st: State, storage: Storage, outcome: Outcome): (t: Transition<State>)
    ensures st.file.None? ==>
      t == Transition(st.(error := NoFileMessage), storage, [], None)
    ensures st.file.Some? && !Truthy(GetItem(storage, AccessTokenKey)) ==>
      t == Transition(st.(error := LoginFirstMessage), storage, [], None)
    ensures st.file.Some? && Truthy(GetItem(storage, AccessTokenKey)) ==>
      t.requests == [UploadRequest(st.file.value, GetItem(storage, AccessTokenKey))]
    ensures t.requests != [] ==>
      && st.file.Some? && Truthy(GetItem(storage, AccessTokenKey))
      && t.requests == [UploadRequest(st.file.value, GetItem(storage, AccessTokenKey))]
    ensures t.requests != [] && outcome.Success? && !Nullish(outcome.body) ==>
      && t.state == st.(successMessage := SuccessMessage, parsedData := OptionalProp(outcome.body, "parsed_data"))
      && GetItem(t.storage, ResumeIdKey) == Str(ToStr(OptionalProp(outcome.body, "resume_id")))
      && GetItem(t.storage, LegacyResumeIdKey) == Null
      && (forall k :: k != ResumeIdKey && k != LegacyResumeIdKey ==> GetItem(t.storage, k) == GetItem(storage, k))
      && t.navigation == Some(MatchRoute)
    ensures t.requests != [] && outcome.Success? && Nullish(outcome.body) ==>
      t.storage == storage && t.navigation == None &&
      t.state == st.(successMessage := SuccessMessage, error := FailedMessage)
    ensures t.requests != [] && !outcome.Success? ==>
      t.storage == storage && t.navigation == None && t.state == st.(error := FailedMessage)
  {
    match st.file
    case None => Transition(st.(error := NoFileMessage), storage, [], None)
    case Some(f) =>
      var token := GetItem(storage, AccessTokenKey);
      if !Truthy(token) then Transition(st.(error := LoginFirstMessage), storage, [], None)
      else
        var req := UploadRequest(f, token);
        match outcome
        case Success(body) =>
          var announced := st.(successMessage := SuccessMessage);
          (match GetProp(body, "parsed_data")
           case None => Transition(announced.(error := FailedMessage), storage, [req], None)
           case Some(parsed) =>
             var stored := RemoveItem(SetItem(storage, ResumeIdKey, OptionalProp(body, "resume_id")), LegacyResumeIdKey);
             Transition(announced.(parsedData := parsed), stored, [req], Some(MatchRoute)))
        case _ => Transition(st.(error := FailedMessage), storage, [req], None)
  }
}
