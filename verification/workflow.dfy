/** Properties of the client and the server taken together: what happens to a résumé id
    on its way from the upload response to the match request, what the client does with
    the server's match feedback, and how the two tiers read a required-skills text. */
module Workflow {
  import opened Wrappers
  import opened Text
  import opened Js
  import opened Browser
  import opened Seqs
  import JobMatch
  import ResumeViews
  import MatchFeedback
  import Vacancies
  import ResumeMatch
  import ResumeUpload

  /** The résumé id the server assigns reaches the match request unchanged: the client
      stores it, and whether the match is sent from the same page or after a reload that
      rehydrates the id from storage, `parseInt` of its string form gives the number back. */
  lemma UploadedIdReachesMatch(st: JobMatch.State, storage: Storage, file: Option<File>, name: string,
                               parsed: ResumeViews.ParsedData, n: int, outcome: Outcome)
    requires name != "" && n != 0
    requires Truthy(GetItem(storage, AccessTokenKey)) && Truthy(st.vacancyId)
    ensures var reply := ResumeViews.UploadPost(Some(ResumeViews.Upload(name)), parsed, None, n);
      var up := JobMatch.HandleResumeUpload(st, storage, file, Success(reply.body));
      && up.state.resumeId == Num(n)
      && JobMatch.RequestId(up.state.resumeId) == Num(n)
      && JobMatch.RequestId(JobMatch.Initial(up.storage).resumeId) == Num(n)
      && JobMatch.HandleMatch(up.state, up.storage, outcome).requests ==
           [JobMatch.MatchRequest(up.state, GetItem(storage, AccessTokenKey))]
  {
    var reply := ResumeViews.UploadPost(Some(ResumeViews.Upload(name)), parsed, None, n);
    var up := JobMatch.HandleResumeUpload(st, storage, file, Success(reply.body));
    assert OptionalProp(reply.body, "resume_id") == Num(n);
    ParseIntOfDecimal(n);
    assert GetItem(up.storage, ResumeIdKey) == Str(Decimal(n));
    assert GetItem(up.storage, AccessTokenKey) == GetItem(storage, AccessTokenKey);
    assert Decimal(n) != "" by { assert |Digits(if n < 0 then -n else n)| >= 1; }
  }

  /** The client reads the feedback under `suggested_keywords` and `formatting_issues`,
      names the server never sends (it sends `keyword_optimization` and
      `formatting_suggestions`). A successful match therefore leaves both lists undefined,
      and rendering either section throws. */
  lemma FeedbackListsNeverArrive(st: JobMatch.State, storage: Storage, data: seq<(string, Json)>, svc: ResumeViews.Services)
    requires Truthy(st.vacancyId) && Truthy(st.resumeId) && Truthy(GetItem(storage, AccessTokenKey))
    requires ResumeViews.MatchPost(data, svc).response.status == 200
    ensures var body := ResumeViews.MatchPost(data, svc).response.body;
      var next := JobMatch.HandleMatch(st, storage, Success(body)).state;
      next.keywordSuggestions == Undefined && next.formattingIssues == Undefined &&
      JobMatch.Sections(next) == [RenderError, RenderError]
  {
    var body := ResumeViews.MatchPost(data, svc).response.body;
    assert body.Obj? && Keys(body.entries) == ResumeViews.MatchFields;
    ListsMissing(st, storage, body);
  }

  lemma ListsMissing(st: JobMatch.State, storage: Storage, body: Json)
    requires Truthy(st.vacancyId) && Truthy(st.resumeId) && Truthy(GetItem(storage, AccessTokenKey))
    requires body.Obj? && Keys(body.entries) == ResumeViews.MatchFields
    ensures var next := JobMatch.HandleMatch(st, storage, Success(body)).state;
      next.keywordSuggestions == Undefined && next.formattingIssues == Undefined &&
      JobMatch.Sections(next) == [RenderError, RenderError]
  {
    LookupMissing(body.entries, "suggested_keywords");
    LookupMissing(body.entries, "formatting_issues");
  }

  /** A character the two languages agree about. */
  predicate SharedSpacing(c: char) {
    IsSpace(Python, c) == IsSpace(JavaScript, c)
  }

  lemma {:induction false} TrimStartAgrees(s: string)
    requires forall i :: 0 <= i < |s| ==> SharedSpacing(s[i])
    ensures TrimStart(Python, s) == TrimStart(JavaScript, s)
    decreases |s|
  {
    if |s| > 0 {
      TrimStartAgrees(s[1..]);
    }
  }

  lemma {:induction false} TrimEndAgrees(s: string)
    requires forall i :: 0 <= i < |s| ==> SharedSpacing(s[i])
    ensures TrimEnd(Python, s) == TrimEnd(JavaScript, s)
    decreases |s|
  {
    if |s| > 0 {
      TrimEndAgrees(s[..|s| - 1]);
    }
  }

  lemma TrimAgrees(s: string)
    requires forall i :: 0 <= i < |s| ==> SharedSpacing(s[i])
    ensures Trim(Python, s) == Trim(JavaScript, s)
  {
    TrimStartAgrees(s);
    var a := TrimStart(Python, s);
    forall i | 0 <= i < |a| ensures SharedSpacing(a[i]) {
      assert a[i] == s[|s| - |a| + i];
    }
    TrimEndAgrees(a);
    assert Trim(Python, s) == TrimEnd(Python, a);
  }

  /** Every character of a piece comes from the split text. */
  lemma {:induction false} SplitKeepsChars(s: string, sep: char)
    ensures forall i, c :: 0 <= i < |Split(s, sep)| && c in Split(s, sep)[i] ==> c in s
    decreases |s|
  {
    if |s| > 0 {
      SplitKeepsChars(s[1..], sep);
      assert forall c :: c in s[1..] ==> c in s;
    }
  }

  /** For a non-empty skills text without the whitespace characters only one language
      recognises, the card on the client and the match view on the server read the same
      skills: the same comma segments, trimmed the same way, case and empties kept. */
  lemma CardAndServerReadSameSkills(text: string)
    requires text != ""
    requires forall i :: 0 <= i < |text| ==> SharedSpacing(text[i])
    ensures Vacancies.SkillsArray(Str(text)) == Some(MatchFeedback.RequiredSkills(text))
  {
    var pieces := Split(text, ',');
    PiecesTrimAlike(text);
    var client := MapSeq(piece => Trim(JavaScript, piece), pieces);
    var server := MatchFeedback.RequiredSkills(text);
    assert forall i :: 0 <= i < |pieces| ==> client[i] == server[i];
    assert client == server;
  }

  lemma PiecesTrimAlike(text: string)
    requires forall i :: 0 <= i < |text| ==> SharedSpacing(text[i])
    ensures forall i :: 0 <= i < |Split(text, ',')| ==> Trim(JavaScript, Split(text, ',')[i]) == Trim(Python, Split(text, ',')[i])
  {
    var pieces := Split(text, ',');
    SplitKeepsChars(text, ',');
    forall i | 0 <= i < |pieces| ensures Trim(JavaScript, pieces[i]) == Trim(Python, pieces[i]) {
      PieceSharesSpacing(text, pieces[i]);
      TrimAgrees(pieces[i]);
    }
  }

  lemma PieceSharesSpacing(text: string, piece: string)
    requires forall i :: 0 <= i < |text| ==> SharedSpacing(text[i])
    requires forall c :: c in piece ==> c in text
    ensures forall j :: 0 <= j < |piece| ==> SharedSpacing(piece[j])
  {
    forall j | 0 <= j < |piece| ensures SharedSpacing(piece[j]) {
      assert piece[j] in piece;
      var k :| 0 <= k < |text| && text[k] == piece[j];
    }
  }

  /** For an empty skills text the tiers disagree: the card shows no skills, while the
      server's split yields one empty required skill. */
  lemma EmptySkillsTextDiffers()
    ensures Vacancies.SkillsArray(Str("")) == Some([])
    ensures MatchFeedback.RequiredSkills("") == [""]
  {
    assert Split("", ',') == [""];
  }

  /** A vacancy picked on the job-match page is still selected after a reload: the
      mount-time state reads back exactly the chosen value. */
  lemma SelectionSurvivesReload(st: JobMatch.State, storage: Storage, value: string)
    ensures JobMatch.Initial(JobMatch.SelectVacancy(st, storage, value).storage).vacancyId == Str(value)
  {
  }

  /** A card's "Match Me!" hands its vacancy to both match pages: the job-match page
      rehydrates it as the selection, and the résumé-match page sends it, as the stored
      string, in its match request. */
  lemma CardChoiceReachesMatchPages(storage: Storage, vacancyId: Json, st: ResumeMatch.State,
                                    upload: Outcome, matching: Outcome)
    requires st.file.Some? && upload.Success? && !Nullish(upload.body)
    ensures var stored := Vacancies.CardMatch(storage, vacancyId).storage;
      && JobMatch.Initial(stored).vacancyId == Str(ToStr(vacancyId))
      && ResumeMatch.HandleMatch(st, stored, upload, matching).requests[1].body
           == JsonBody(Obj([("resume_id", OptionalProp(upload.body, "resume_id")), ("vacancy_id", Str(ToStr(vacancyId)))]))
  {
  }

  /** An upload from the stand-alone form is picked up by the job-match page: after the
      redirect its mount-time state holds the new résumé id as a string, and nothing is
      left under the legacy key. */
  lemma StandaloneUploadReachesJobMatch(st: ResumeUpload.State, storage: Storage, outcome: Outcome)
    requires ResumeUpload.HandleUpload(st, storage, outcome).navigation.Some?
    ensures var t := ResumeUpload.HandleUpload(st, storage, outcome);
      && outcome.Success?
      && JobMatch.Initial(t.storage).resumeId == Str(ToStr(OptionalProp(outcome.body, "resume_id")))
      && LegacyResumeIdKey !in t.storage
  {
    var t := ResumeUpload.HandleUpload(st, storage, outcome);
    assert GetItem(t.storage, ResumeIdKey) == Str(ToStr(OptionalProp(outcome.body, "resume_id")));
    assert GetItem(t.storage, LegacyResumeIdKey) == Null;
  }

  /** The two pages render a feedback list alike when it is an array, but not when it is
      missing: the job-match page throws on null or undefined, while the résumé-match
      page renders nothing. */
  lemma SectionRenderersCompared(v: Json)
    ensures v.Arr? ==> JobMatch.ListSection(v) == ResumeMatch.Section(v)
    ensures Nullish(v) ==> JobMatch.ListSection(v) == RenderError && ResumeMatch.Section(v) == Nothing
  {
  }
}
