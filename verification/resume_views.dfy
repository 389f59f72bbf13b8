/** The two résumé endpoints: upload-and-parse, and match against a vacancy. Parsing,
    persistence, the cache, the similarity score and the keyword extraction belong to
    libraries and are parameters here; what is modelled is the request validation, the
    order of the lookups, and how the response is assembled from the feedback rules. */
module ResumeViews {
  import opened Wrappers
  import opened Js
  import opened Text
  import opened Seqs
  import opened MatchFeedback
  import VacancyModel

  datatype Response = Response(status: int, body: Json)

  /** An uploaded file; Django treats a file with an empty name as absent. */
  datatype Upload = Upload(name: string)

  /** What `parse_resume_file` returns. */
  datatype ParsedData = ParsedData(skills: seq<string>, organizations: seq<string>, dates: seq<string>, text: string)

  function Strings(xs: seq<string>): (r: Json)
    ensures r.Arr? && |r.items| == |xs| && forall i :: 0 <= i < |xs| ==> r.items[i] == Str(xs[i])
  {
    Arr(MapSeq(x => Str(x), xs))
  }

  function ParsedJson(p: ParsedData): Json {
    Obj([("skills", Strings(p.skills)), ("organizations", Strings(p.organizations)),
         ("dates", Strings(p.dates)), ("text", Str(p.text))])
  }

  /** `parse_resume_file` after text extraction: the text normalised, the skills filtered
      from the tokens the language model produced for it; organisations and dates are the
      model's entities, passed through. */
  method ParseResume(extracted: string, tokens: seq<string>, organizations: seq<string>, dates: seq<string>)
    returns (p: ParsedData)
    ensures p.text == NormalizeText(extracted)
    ensures forall s :: s in p.skills <==> exists i :: 0 <= i < |tokens| && IsSkillToken(tokens[i]) && Lower(tokens[i]) == s
    ensures forall i, j :: 0 <= i < j < |p.skills| ==> p.skills[i] != p.skills[j]
    ensures p.organizations == organizations && p.dates == dates
  {
    var skills := ExtractSkills(tokens);
    p := ParsedData(skills, organizations, dates, NormalizeText(extracted));
  }

  function Error(status: int, message: string): Response {
    Response(status, Obj([("error", Str(message))]))
  }

  const NoResumeMessage := "No resume uploaded."
  const UploadedMessage := "Uploaded and parsed."

  /** `ResumeUploadParseView.post`: no file (or a file with an empty name) is a 400 before
      anything is parsed; schema errors are a 400 carrying them; otherwise the parsed data
      and the id of the stored résumé. */
  function UploadPost(file: Option<Upload>, parsed: ParsedData, schemaErrors: Option<Json>, newId: int): (r: Response)
    ensures (file.None? || file.value.name == "") ==> r == Error(400, NoResumeMessage)
    ensures r.status == 200 <==> file.Some? && file.value.name != "" && schemaErrors.None?
    ensures file.Some? && file.value.name != "" && schemaErrors.Some? ==>
      r == Response(400, Obj([("error", schemaErrors.value)]))
    ensures r.status == 200 ==> r.body.Obj? && Lookup(r.body.entries, "resume_id") == Num(newId)
    ensures r.status == 200 ==> Lookup(r.body.entries, "parsed_data") == ParsedJson(parsed)
  {
    if file.None? || file.value.name == "" then Error(400, NoResumeMessage)
    else
      match schemaErrors
      case Some(errors) => Response(400, Obj([("error", errors)]))
      case None =>
        var entries := [("message", Str(UploadedMessage)), ("parsed_data", ParsedJson(parsed)), ("resume_id", Num(newId))];
        LookupAt(entries, 1);
        LookupAt(entries, 2);
        Response(200, Obj(entries))
  }

  /** Python truthiness of a value read from the request body; a missing key reads as None. */
  predicate PyTruthy(v: Json) {
    match v
    case Undefined => false
    case Null => false
    case Bool(b) => b
    case Num(n) => n != 0
    case Str(s) => s != ""
    case Arr(items) => items != []
    case Obj(entries) => entries != []
  }

  const IdsRequiredMessage := "Resume ID and vacancy ID are required."
  const ResumeNotFoundMessage := "Resume not found."
  const VacancyNotFoundMessage := "Vacancy not found."

  /** A stored résumé of the requesting user. */
  datatype StoredResume = StoredResume(id: int, fileName: string)

  datatype Query = ResumeLookup(resumeId: Json) | VacancyLookup(vacancyId: Json)

  /** The libraries the match view calls: the user's résumé and the vacancy by id, the
      parsed data (cached or freshly parsed), the similarity score of two texts, the
      rating made from a score, and the keyword suggestions for two texts. */
  datatype Services = Services(
    findResume: Json -> Option<StoredResume>,
    findVacancy: Json -> Option<VacancyModel.Vacancy>,
    parsedOf: StoredResume -> ParsedData,
    score: (string, string) -> Json,
    rate: Json -> Json,
    keywords: (string, string) -> seq<string>)

  datatype MatchReply = MatchReply(response: Response, lookups: seq<Query>)

  const MatchFields := ["match_score", "resume_skills", "required_skills", "skill_gaps",
    "formatting_suggestions", "keyword_optimization", "rating", "recommendations", "resume_excerpt"]

  /** The feedback for a parsed résumé and a vacancy, in the response's field order. */
  function MatchBody(parsed: ParsedData, vacancy: VacancyModel.Vacancy, svc: Services): (body: Json)
    ensures body.Obj? && Keys(body.entries) == MatchFields
    ensures var text := parsed.text;
      var jobText := BuildJobText(vacancy.requiredSkills, vacancy.experienceRequired);
      var required := RequiredSkills(vacancy.requiredSkills);
      var gaps := SkillGaps(parsed.skills, required);
      var formatting := CheckFormatting(text);
      var keywords := svc.keywords(text, jobText);
      && Lookup(body.entries, "match_score") == svc.score(text, jobText)
      && Lookup(body.entries, "resume_skills") == Strings(parsed.skills)
      && Lookup(body.entries, "required_skills") == Strings(required)
      && Lookup(body.entries, "skill_gaps") == Strings(gaps)
      && Lookup(body.entries, "formatting_suggestions") == Strings(formatting)
      && Lookup(body.entries, "keyword_optimization") == Strings(keywords)
      && Lookup(body.entries, "rating") == svc.rate(svc.score(text, jobText))
      && Lookup(body.entries, "recommendations") == Strings(Recommendations(gaps, formatting, keywords))
      && Lookup(body.entries, "resume_excerpt") == Str(Excerpt(text))
  {
    var text := parsed.text;
    var jobText := BuildJobText(vacancy.requiredSkills, vacancy.experienceRequired);
    var score := svc.score(text, jobText);
    var required := RequiredSkills(vacancy.requiredSkills);
    var gaps := SkillGaps(parsed.skills, required);
    var keywords := svc.keywords(text, jobText);
    var formatting := CheckFormatting(text);
    Fields([score, Strings(parsed.skills), Strings(required), Strings(gaps), Strings(formatting),
            Strings(keywords), svc.rate(score), Strings(Recommendations(gaps, formatting, keywords)),
            Str(Excerpt(text))])
  }

  /** The response object pairing each match field with its value. */
  function Fields(values: seq<Json>): (body: Json)
    requires |values| == |MatchFields|
    ensures body.Obj? && Keys(body.entries) == MatchFields
    ensures forall i :: 0 <= i < |MatchFields| ==> Lookup(body.entries, MatchFields[i]) == values[i]
    ensures && Lookup(body.entries, "match_score") == values[0]
            && Lookup(body.entries, "resume_skills") == values[1]
            && Lookup(body.entries, "required_skills") == values[2]
            && Lookup(body.entries, "skill_gaps") == values[3]
            && Lookup(body.entries, "formatting_suggestions") == values[4]
            && Lookup(body.entries, "keyword_optimization") == values[5]
            && Lookup(body.entries, "rating") == values[6]
            && Lookup(body.entries, "recommendations") == values[7]
            && Lookup(body.entries, "resume_excerpt") == values[8]
  {
    var entries := seq(|MatchFields|, i requires 0 <= i < |MatchFields| => (MatchFields[i], values[i]));
    forall i | 0 <= i < |MatchFields| ensures Lookup(entries, MatchFields[i]) == values[i] {
      LookupAt(entries, i);
    }
    assert MatchFields[0] == "match_score" && MatchFields[1] == "resume_skills" && MatchFields[2] == "required_skills";
    assert MatchFields[3] == "skill_gaps" && MatchFields[4] == "formatting_suggestions";
    assert MatchFields[5] == "keyword_optimization" && MatchFields[6] == "rating";
    assert MatchFields[7] == "recommendations" && MatchFields[8] == "resume_excerpt";
    Obj(entries)
  }

  /** `JobMatchView.post`: both ids must be truthy before any lookup; the résumé is looked
      up first and a miss is a 404 before the vacancy is looked up; a vacancy miss is a
      404; otherwise 200 with the feedback. */
  function MatchPost(data: seq<(string, Json)>, svc: Services): (r: MatchReply)
    ensures !PyTruthy(Lookup(data, "resume_id")) || !PyTruthy(Lookup(data, "vacancy_id")) ==>
      r.lookups == [] && r.response == Error(400, IdsRequiredMessage)
    ensures var resumeId, vacancyId := Lookup(data, "resume_id"), Lookup(data, "vacancy_id");
      PyTruthy(resumeId) && PyTruthy(vacancyId) && svc.findResume(resumeId).None? ==>
        r == MatchReply(Error(404, ResumeNotFoundMessage), [ResumeLookup(resumeId)])
    ensures var resumeId, vacancyId := Lookup(data, "resume_id"), Lookup(data, "vacancy_id");
      PyTruthy(resumeId) && PyTruthy(vacancyId) && svc.findResume(resumeId).Some? ==>
        && r.lookups == [ResumeLookup(resumeId), VacancyLookup(vacancyId)]
        && (svc.findVacancy(vacancyId).None? ==> r.response == Error(404, VacancyNotFoundMessage))
    ensures r.lookups != [] ==> r.lookups[0] == ResumeLookup(Lookup(data, "resume_id"))
    ensures r.lookups != [] && svc.findResume(Lookup(data, "resume_id")).None? ==>
      r.lookups == [ResumeLookup(Lookup(data, "resume_id"))] && r.response == Error(404, ResumeNotFoundMessage)
    ensures |r.lookups| == 2 ==> r.lookups[1] == VacancyLookup(Lookup(data, "vacancy_id"))
    ensures |r.lookups| == 2 && svc.findVacancy(Lookup(data, "vacancy_id")).None? ==>
      r.response == Error(404, VacancyNotFoundMessage)
    ensures r.response.status == 200 <==>
      PyTruthy(Lookup(data, "resume_id")) && PyTruthy(Lookup(data, "vacancy_id")) &&
      svc.findResume(Lookup(data, "resume_id")).Some? && svc.findVacancy(Lookup(data, "vacancy_id")).Some?
    ensures r.response.status == 200 ==> |r.lookups| == 2
    ensures r.response.status == 200 ==>
      r.response.body == MatchBody(svc.parsedOf(svc.findResume(Lookup(data, "resume_id")).value),
                                   svc.findVacancy(Lookup(data, "vacancy_id")).value, svc)
  {
    var resumeId := Lookup(data, "resume_id");
    var vacancyId := Lookup(data, "vacancy_id");
    if !PyTruthy(resumeId) || !PyTruthy(vacancyId) then MatchReply(Error(400, IdsRequiredMessage), [])
    else
      match svc.findResume(resumeId)
      case None => MatchReply(Error(404, ResumeNotFoundMessage), [ResumeLookup(resumeId)])
      case Some(resume) =>
        var lookups := [ResumeLookup(resumeId), VacancyLookup(vacancyId)];
        match svc.findVacancy(vacancyId)
        case None => MatchReply(Error(404, VacancyNotFoundMessage), lookups)
        case Some(vacancy) => MatchReply(Response(200, MatchBody(svc.parsedOf(resume), vacancy, svc)), lookups)
  }

  /** The recommendations are empty exactly when there are no skill gaps, no formatting
      issues and no keyword suggestions. */
  lemma NoRecommendationsIffClean(gaps: seq<string>, formatting: seq<string>, keywords: seq<string>)
    ensures Recommendations(gaps, formatting, keywords) == [] <==> gaps == [] && formatting == [] && keywords == []
  {
    var r := Recommendations(gaps, formatting, keywords);
    if gaps != [] { assert AddMissingSkills(gaps) in r; }
    if formatting != [] { assert ImproveFormatting in r; }
    if keywords != [] { assert AddKeywords in r; }
  }

  /** In every match response the recommendations array is empty exactly when the
      skill-gap, formatting and keyword arrays all are. */
  lemma ResponseRecommendationsIffClean(parsed: ParsedData, vacancy: VacancyModel.Vacancy, svc: Services)
    ensures var e := MatchBody(parsed, vacancy, svc).entries;
      Lookup(e, "recommendations").items == [] <==>
        Lookup(e, "skill_gaps").items == [] && Lookup(e, "formatting_suggestions").items == [] &&
        Lookup(e, "keyword_optimization").items == []
  {
    var jobText := BuildJobText(vacancy.requiredSkills, vacancy.experienceRequired);
    NoRecommendationsIffClean(SkillGaps(parsed.skills, RequiredSkills(vacancy.requiredSkills)),
      CheckFormatting(parsed.text), svc.keywords(parsed.text, jobText));
  }

  /** An id of zero is refused like a missing one, because zero is falsy in Python. */
  lemma ZeroIdRefused(vacancyId: Json, svc: Services)
    ensures MatchPost([("resume_id", Num(0)), ("vacancy_id", vacancyId)], svc).response == Error(400, IdsRequiredMessage)
  {
  }
}
