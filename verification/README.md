# Résumé and vacancy matching, modelled in Dafny

This project models the core of a job-matching web application:
- A React client lets job seekers upload a résumé, pick a vacancy and ask for a match.
- Recruiters create and delete vacancies.
- Everyone logs in, logs out and resets passwords.
- A Django server parses the résumé, scores it against the vacancy and reports skill gaps, formatting issues and recommendations.

## How the model is built

- **Client handlers.** Every handler of the client is a pure function from the component state, the browser's `localStorage` (a `map<string, string>`) and the outcome of each HTTP request to a `Transition`. A transition records the next state, the next storage, the requests sent and the route navigated to. The network outcome is a parameter (`Success(body)`, `Rejected(status, body)` or `NoResponse(message)`), so every branch of the handler is covered.
- **JavaScript values.** Values are modelled by `Js.Json`, which includes `undefined` and `null`. Property access on `null` and `undefined` throws; it is an `Option` that the handlers treat as the thrown error. The model also covers truthiness, `||`, string conversion, strict equality, `Object.values`, `Array.prototype.flat` and `parseInt`.
- **Server rules.** The server's pure rules are functions on strings and sequences. Python's `str.split()`, `strip()`, `lower()`, `in` and `str.format` are modelled in `Text` and `AccountAdapter`. The views become functions from request data to a `Response`, with the database, the cache and the scoring service passed in as `Services`.
- **Cross-tier properties.** `Workflow` connects the two tiers, for example:
  - the path of a résumé id from the upload response, through storage, to the match request;
  - what the client does with the server's match body;
  - how the vacancy card and the server read the same required-skills text.

## Where the code behaves differently from what one might expect

The model follows the code.
- **No request sequencing.** The client keeps no request sequence numbers and does not ignore stale responses. The last response applied wins, and the only guards are truthiness checks.
- **Feedback field names do not match.** The job-match page reads `suggested_keywords` and `formatting_issues`. The server sends `keyword_optimization` and `formatting_suggestions`. As a result, after a successful match both lists are `undefined` and rendering them throws (`Workflow.FeedbackListsNeverArrive`).
- **Missing lists are not defaulted.** The client does not fill in missing lists. `JobMatch.ListSection` throws on `undefined`, while the résumé-match page's `Section` renders nothing (`Workflow.SectionRenderersCompared`).
- **The vacancy form's `detail` fallback never fires.** A truthy error body with no entries has no `detail` (`VacancyCreate.DetailFallbackIsFixed`).
- **An empty skills text is read differently.** For an empty required-skills text the vacancy card shows no skills, while the server's split yields one empty required skill (`Workflow.EmptySkillsTextDiffers`).
- **Id 0 is refused.** A résumé id of 0 is falsy, so the match view refuses it (`ResumeViews.ZeroIdRefused`).
- **A missing access token still signs the user in.** A login response without `access` stores the string "undefined", which counts as signed in (`Navbar.MissingAccessTokenCountsAsSignedIn`).

## Model

| member | source | states |
|---|---|---|
| Browser.GetItem | frontend/src/Navbar.jsx:10 | `getItem` yields the stored string iff the key is present, and null otherwise |
| Browser.SetItem | frontend/src/JobMatch.js:94 | `setItem` stores the value's string form under the key and leaves every other key as it was |
| Browser.RemoveItem | frontend/src/JobMatch.js:95 | `removeItem` makes the key absent and leaves every other key as it was |
| Js.GetProp | frontend/src/JobMatch.js:35-37 | reading a property throws exactly on null or undefined; on an object it is that key's value; on any other value, a property other than `length` is undefined |
| Js.SetProp | frontend/src/VacancyCreate.jsx:47-53 | a spread update sets one key, keeps all others and keeps the key order |
| Js.Keys | frontend/src/VacancyCreate.jsx:94-100 | the object's keys, in entry order |
| Js.Values | frontend/src/PasswordResetConfirm.js:43 | `Object.values` gives one value per own entry, in entry order |
| Js.FlatConcat | frontend/src/PasswordResetConfirm.js:43-44 | flattening two lists in a row is flattening each and concatenating |
| Js.JoinValuesOfStrings | frontend/src/PasswordResetConfirm.js:45 | `join` on an array of strings is the strings joined by the separator |
| Js.FlatFieldErrors | frontend/src/PasswordResetConfirm.js:43-44 | the flattened values of a field-errors object are every message, field by field in order |
| Js.LookupAt | frontend/src/JobMatch.js:35-37 | the first entry with a key determines that key's property value |
| Js.LookupMissing | frontend/src/JobMatch.js:36-37 | a key with no entry reads as undefined |
| Js.DigitsValue | frontend/src/JobMatch.js:27-28 | the decimal digits of n are base-10 digits whose value is n |
| Js.ParseUnsignedDigits | frontend/src/JobMatch.js:27-28 | `parseInt` reads a run of decimal digits as their value |
| Js.ParseIntOfDecimal | frontend/src/JobMatch.js:27-28 | `parseInt` of an integer's string form gives the integer back, for negative numbers too |
| Js.NonNegativeDecimal | frontend/src/JobMatch.js:27-28 | `parseInt` reads a natural number's digits back as that number |
| Js.NegativeDecimal | frontend/src/JobMatch.js:27-28 | `parseInt` reads '-' followed by the digits of a positive m as -m |
| Seqs.Filter | frontend/src/Profile.jsx:24-26 | a filtered list is no longer than the original and keeps only elements that pass the test |
| Seqs.MapSeq | backend/resumes/views.py:133-134 | a mapped list has one image per element, at the same position |
| Seqs.FilterMembership | frontend/src/Profile.jsx:41 | a value is in the filtered list exactly when it is in the original and passes the test |
| Seqs.FilterCounts | frontend/src/Profile.jsx:41 | filtering keeps every passing element as often as it occurs and drops every failing one |
| Seqs.FilterConcat | backend/resumes/views.py:139 | filtering distributes over concatenation |
| Seqs.FilterEmpty | backend/resumes/views.py:139 | the filtered list is empty exactly when no element passes the test |
| Text.TrimStart | backend/resumes/views.py:206 | the result is a suffix of the input that starts with no whitespace and only whitespace was dropped |
| Text.TrimEnd | backend/resumes/views.py:206 | the result is a prefix of the input that ends with no whitespace and only whitespace was dropped |
| Text.Trim | backend/resumes/views.py:206 | `strip()` gives the part of the input between a leading and a trailing whitespace run: it has no surrounding whitespace, is empty iff the input is all whitespace, and leaves an already trimmed string alone |
| Text.Lower | backend/resumes/views.py:133-134 | `lower()` keeps the length and every result character is lower case |
| Text.LowerKeepsTrimmed | backend/vacancies/models.py:48 | lower-casing a trimmed string leaves it trimmed |
| Text.Split | backend/resumes/views.py:206 | `split(',')` gives one more piece than there are commas, and no piece contains a comma |
| Text.SplitThenJoin | backend/users/adapters.py:14 | joining the pieces of a split with the same separator rebuilds the string |
| Text.JoinThenSplit | backend/resumes/views.py:206 | splitting a join of separator-free pieces gives the pieces back |
| Text.WordLength | backend/resumes/views.py:46 | the first word's length is bounded by the input and ends at whitespace or at the end |
| Text.Words | backend/resumes/views.py:46 | `split()` gives non-empty words without whitespace |
| Text.WordsOfWord | backend/resumes/views.py:46 | a non-empty text without whitespace is one word |
| Text.WordsSplitAtSpace | backend/resumes/views.py:46 | a whitespace character separates words: the words of `a + c + b` are those of `a` followed by those of `b`, never merged |
| Text.JoinConcat | backend/resumes/views.py:46 | joining two non-empty lists is joining each and putting the separator between them |
| Text.ContainsIffOccurs | backend/resumes/views.py:109-114 | Python's substring test holds exactly when the needle occurs at some position |
| Text.DigitChar | frontend/src/JobMatch.js:94 | a digit value maps to a decimal digit character |
| Text.Digits | frontend/src/JobMatch.js:94 | a number's decimal form is a non-empty string of digits |
| JobMatch.Initial | frontend/src/JobMatch.js:5-11 | on mount the ids are the stored strings or "", with no score and empty lists |
| JobMatch.HandleMatch | frontend/src/JobMatch.js:13-47 | a request is sent iff both ids are truthy and a token is stored; success copies the score and both lists and clears the error; a failure only sets the server's error, the fallback or the generic message; storage is untouched |
| JobMatch.HandleResumeUpload | frontend/src/JobMatch.js:74-106 | a token is required but a file is not; success makes the returned id current, stores it under `resume_id` and removes the legacy key, leaving other keys alone; a failure only sets the error |
| JobMatch.SelectVacancy | frontend/src/JobMatch.js:132-135 | the chosen vacancy becomes the selection in state and in storage; nothing else changes |
| JobMatch.FetchMatches | frontend/src/JobMatch.js:49-72 | without a token nothing is fetched; with one exactly one authorised GET of the vacancy list is sent; success stores the list and a failure sets the message |
| JobMatch.MatchError | frontend/src/JobMatch.js:39-46 | the shown error is always truthy: the server's `error` if truthy, else the fallback for a truthy body, else the generic message |
| JobMatch.UploadError | frontend/src/JobMatch.js:97-103 | the upload error is always truthy: a rejection's truthy `error` when its body is truthy, else the generic upload message (also for no response or a throw after success) |
| Js.Positive | frontend/src/JobMatch.js:159 | `v > 0` on a property value: a number compares as itself, null, undefined and objects never exceed 0 |
| JobMatch.ScoreShown | frontend/src/JobMatch.js:152-157 | the score block shows unless the score is null, so an undefined score shows |
| JobMatch.ListSection | frontend/src/JobMatch.js:159-179 | a non-empty array renders its items; null and undefined throw; a non-array whose `length` compares greater than 0 (a non-empty string, an object with a positive `length`) throws; anything else renders nothing |
| ResumeMatch.FileChange | frontend/src/ResumeMatch.jsx:10-13 | picking a file replaces it and clears the error |
| ResumeMatch.Started | frontend/src/ResumeMatch.jsx:24 | loading starts and nothing else changes |
| ResumeMatch.HandleMatch | frontend/src/ResumeMatch.jsx:15-49 | without a file only the error is set; the upload is always sent with the stored token; the match request follows iff the upload returned a readable body, and it carries the returned id and the stored vacancy id; loading ends false |
| ResumeMatch.Section | frontend/src/ResumeMatch.jsx:99-111 | a falsy value or one whose `length` is exactly 0 (an empty array, an object with `length` 0) renders nothing; a non-empty array renders its items; any other truthy value throws |
| ResumeMatch.FeedbackView | frontend/src/ResumeMatch.jsx:74-92 | the block renders iff the feedback is truthy, with its rating and the four lists in page order, each rendering its items iff it is a non-empty array |
| ResumeMatch.MatchNeverClearsError | frontend/src/ResumeMatch.jsx:15-49 | a match run only ever sets an error and never clears one |
| ResumeMatch.OnlySkillGapsRenderOneSection | frontend/src/ResumeMatch.jsx:74-92 | a body with a rating and one skill gap renders exactly that section |
| ResumeUpload.FileChange | frontend/src/ResumeUpload.js:12-16 | a new pick clears both the error and the success message |
| ResumeUpload.HandleUpload | frontend/src/ResumeUpload.js:18-57 | file and token checks come first; with a file and a token exactly one upload of that file with that token is sent; success with a readable body keeps the parsed data, stores the id, drops the legacy key and goes to the match page; a null body leaves the success message and adds the failure message |
| Vacancies.SkillsArray | frontend/src/Vacancy.jsx:4-6 | a falsy value gives no skills; a non-empty string gives one trimmed piece per comma-separated segment; a truthy non-string throws |
| Vacancies.LocationLabel | frontend/src/Vacancy.jsx:19 | the location when truthy, otherwise the fixed label |
| Vacancies.SalaryLine | frontend/src/Vacancy.jsx:33-41 | the line is shown iff either bound is truthy; an absent bound reads "Negotiable" |
| Vacancies.MatchButtonShown | frontend/src/Vacancy.jsx:43 | the match button shows iff the role is exactly the string "job_seeker" |
| Vacancies.CardMatch | frontend/src/Vacancy.jsx:8-11 | the card's id is stored under `vacancyId` and the match page opens; other keys are kept |
| Vacancies.FetchData | frontend/src/Vacancy.jsx:63-85 | the profile is fetched first; the vacancy list is fetched iff the profile came back readable; every failure records its message, a null profile body the TypeError of reading its `role`; loading ends false |
| VacancyCreate.FetchCurrentUser | frontend/src/VacancyCreate.jsx:22-45 | without a token the page goes to login; otherwise the profile becomes the current user, or the error is set |
| VacancyCreate.HandleChange | frontend/src/VacancyCreate.jsx:47-53 | the edited field takes the new value; every other field and the order are kept |
| VacancyCreate.Payload | frontend/src/VacancyCreate.jsx:67-71 | the form is sent, plus `recruiter` exactly when the current user's id is truthy |
| VacancyCreate.EditedFieldIsPosted | frontend/src/VacancyCreate.jsx:47-71 | an edited field reaches the payload with its value unless the user id overrides `recruiter` |
| VacancyCreate.FieldLines | frontend/src/VacancyCreate.jsx:94-100 | one line per error entry, in order, iff every entry's value is an array |
| VacancyCreate.BodyMessage | frontend/src/VacancyCreate.jsx:94-103 | a body with entries gives the validation prefix and the lines joined by "; "; building it throws iff a value is not an array |
| VacancyCreate.FailureMessage | frontend/src/VacancyCreate.jsx:87-107 | 403 gives the permission message; another status with a truthy body gives the body's message; a falsy body gives axios's status message; no response gives the error's message or the fixed text; only a non-array field value leaves no message |
| VacancyCreate.FieldErrorsMessage | frontend/src/VacancyCreate.jsx:94-100 | for any non-empty field-errors object the message is the prefix and one "field: messages" line per field, joined by "; " |
| VacancyCreate.Started | frontend/src/VacancyCreate.jsx:57-58 | submitting sets loading and clears the error |
| VacancyCreate.HandleSubmit | frontend/src/VacancyCreate.jsx:55-111 | without a token no request is made; otherwise the payload is posted; success navigates; 403 gives the permission message; other failures give their message; loading ends false |
| VacancyCreate.DetailFallbackIsFixed | frontend/src/VacancyCreate.jsx:101-103 | a truthy body with no entries always gives the fixed failure message |
| VacancyCreate.OneFieldError | frontend/src/VacancyCreate.jsx:94-100 | one field with one message is reported as "field: message" after the prefix |
| PasswordResetConfirm.Started | frontend/src/PasswordResetConfirm.js:16-18 | both messages are cleared and loading starts |
| PasswordResetConfirm.FailureMessage | frontend/src/PasswordResetConfirm.js:40-51 | a rejected request with a truthy object body shows all its values flattened and joined by spaces; anything else shows the generic message |
| PasswordResetConfirm.Submit | frontend/src/PasswordResetConfirm.js:14-57 | mismatched passwords send nothing and show the mismatch error; otherwise one POST; success shows the message and goes to login; loading ends false |
| PasswordResetConfirm.FieldErrorsMessage | frontend/src/PasswordResetConfirm.js:40-46 | for any field-errors object the message is the prefix and every message in field order, separated by spaces |
| PasswordResetConfirm.FlattenedFieldErrors | frontend/src/PasswordResetConfirm.js:43-46 | per-field message arrays appear in field order, separated by spaces |
| Profile.OwnVacancies | frontend/src/Profile.jsx:23-26 | the list is readable iff it is an array with no null element, and then it holds exactly the vacancies whose recruiter is the user |
| Profile.Fetch | frontend/src/Profile.jsx:11-34 | without a token nothing happens; the list request follows iff the profile succeeded; the displayed list becomes the user's own vacancies iff both requests succeed and the list is readable, and stays as it was otherwise |
| Profile.FetchListsOwn | frontend/src/Profile.jsx:23-26 | after a successful fetch a vacancy is displayed iff it was fetched and posted by the user, as often as it was fetched |
| Profile.Surviving | frontend/src/Profile.jsx:41 | the remaining list holds exactly the entries with a different id, each as often as before |
| Profile.Delete | frontend/src/Profile.jsx:36-45 | one DELETE for the id; on success exactly the entries with that id are removed; on failure nothing changes |
| Profile.PanelShown | frontend/src/Profile.jsx:59 | the panel is rendered only for a loaded profile whose role is recruiter or admin |
| Profile.PanelShownToStaff | frontend/src/Profile.jsx:59 | the vacancy panel is shown iff the profile's role is recruiter or admin |
| Profile.DeleteAbsentKeepsList | frontend/src/Profile.jsx:41 | deleting an id that no entry has leaves the list as it was |
| Profile.DeleteIdempotent | frontend/src/Profile.jsx:36-45 | deleting the same id twice leaves the same list as deleting it once |
| Login.HandleLogin | frontend/src/Login.js:9-26 | one POST; the page navigates iff the body can be destructured, and then both tokens are stored as strings and other keys are kept; otherwise storage is untouched and the error is shown |
| Navbar.CheckAuth | frontend/src/Navbar.jsx:9-12 | signed in iff a non-empty access token is stored |
| Navbar.Logout | frontend/src/Navbar.jsx:19-24 | both tokens are removed, every other key is kept, and the login page opens |
| Navbar.Links | frontend/src/Navbar.jsx:59-82 | the profile link is offered iff signed in and the login link iff not |
| Navbar.LoginThenLogout | frontend/src/Navbar.jsx:9-24 | after a login with a token the user is signed in, and after logout signed out |
| Navbar.MissingAccessTokenCountsAsSignedIn | frontend/src/Login.js:17-20 | a response without `access` stores "undefined", which counts as signed in |
| MatchFeedback.NormalizeText | backend/resumes/views.py:46 | `" ".join(text.split())` has no whitespace but single spaces between non-space characters, and none at either end |
| MatchFeedback.NormalizeTextShape | backend/resumes/views.py:46 | the normalised text is collapsed and trimmed, has the same non-space characters in order, and splits into the same words as the input |
| MatchFeedback.NormalizeTextAtSpace | backend/resumes/views.py:46 | a whitespace run of any length between two texts with ink becomes exactly one space |
| MatchFeedback.NormalizeTextIdempotent | backend/resumes/views.py:46 | normalising twice is the same as once |
| MatchFeedback.WordsOfJoined | backend/resumes/views.py:46 | splitting a space-joined list of words gives the words back |
| MatchFeedback.WordsKeepInk | backend/resumes/views.py:46 | the words together hold exactly the non-space characters of the text |
| MatchFeedback.JoinedWordsCollapsed | backend/resumes/views.py:46 | joining words with single spaces yields no doubled, leading or trailing space |
| MatchFeedback.Excerpt | backend/resumes/views.py:233 | the excerpt is the first 300 characters (or all of them) followed by "..." |
| MatchFeedback.LengthTestRedundant | backend/resumes/views.py:69 | the length test adds nothing: a token is a skill iff its lower-case form is predefined |
| MatchFeedback.ExtractSkills | backend/resumes/views.py:61-70 | the skills are exactly the lower-cased predefined tokens, with no repeats, all lower case |
| MatchFeedback.BuildJobText | backend/resumes/views.py:97-103 | the job text is the skills text, a newline, the years of experience in decimal and one space |
| MatchFeedback.JobTextLines | backend/resumes/views.py:97-103 | the job text has two lines: the skills text, then the experience followed by a space |
| MatchFeedback.CheckFormatting | backend/resumes/views.py:107-115 | each section message appears iff the lower-cased text lacks the word, in the order experience, education, skills |
| MatchFeedback.CheckFormattingCaseBlind | backend/resumes/views.py:107-115 | formatting issues do not depend on case |
| MatchFeedback.NormalizeSkill | backend/resumes/views.py:133-134 | a normalised skill is the stripped skill with every character lower-cased, so it is trimmed and lower case |
| MatchFeedback.SkillGaps | backend/resumes/views.py:132-141 | a normalised requirement is a gap iff no normalised résumé skill equals it, kept as often as required |
| MatchFeedback.SkillGapsConcat | backend/resumes/views.py:139 | the gaps of two requirement lists in a row are the gaps of the first followed by those of the second, so the required order is kept |
| MatchFeedback.SkillGapsOfOne | backend/resumes/views.py:131-139 | one requirement gives its normalised form as the only gap iff no normalised résumé skill equals it, and no gap otherwise |
| MatchFeedback.NoGapsIffCovered | backend/resumes/views.py:132-141 | there are no gaps iff every requirement is covered by some résumé skill |
| MatchFeedback.GapsIgnoreCaseAndPadding | backend/resumes/views.py:133-139 | skills equal up to case and padding leave no gap |
| MatchFeedback.RequiredSkills | backend/resumes/views.py:205-206 | one entry per comma-separated segment, each that segment stripped: trimmed, comma-free, case kept |
| MatchFeedback.RequiredSkillsOfJoined | backend/resumes/views.py:205-206 | a comma-joined list of trimmed, comma-free skills is read back unchanged |
| MatchFeedback.Recommendations | backend/resumes/views.py:216-222 | each recommendation appears iff its list is non-empty, in the order skills, formatting, keywords |
| VacancyModel.FromCode | backend/vacancies/models.py:17-27 | only the five declared codes are job types |
| VacancyModel.CodeRoundTrip | backend/vacancies/models.py:17-27 | every job type's code reads back as that type |
| VacancyModel.JobTypeOrDefault | backend/vacancies/models.py:26 | an omitted job type defaults to full time |
| VacancyModel.CodesFit | backend/vacancies/models.py:18 | every declared code fits the 50-character column |
| VacancyModel.SkillList | backend/vacancies/models.py:47-48 | skills are non-empty, trimmed and lower case, at most one per segment |
| VacancyModel.SkillListMatchesRequiredSkills | backend/vacancies/models.py:47-48 | `skill_list` is the lower-cased non-empty entries of the match view's required skills |
| VacancyModel.BlankTextHasNoSkills | backend/vacancies/models.py:48 | a text of commas and spaces has no skills |
| VacancyModel.SkillListOfJoined | backend/vacancies/models.py:47-48 | a comma-joined list of clean skills reads back unchanged |
| Permissions.HasRole | backend/users/permissions.py:3-15 | an anonymous user raises; an account passes iff its role is the one named |
| Permissions.IsAdminOrRecruiter | backend/users/permissions.py:18-20 | an account passes iff its role is admin or recruiter |
| Permissions.AdminOrRecruiterIsUnion | backend/users/permissions.py:13-20 | the combined check is the union of the admin and recruiter checks |
| Permissions.SeekerComplementsStaff | backend/users/models.py:5-9 | for a declared role exactly one of job seeker and admin-or-recruiter passes |
| Permissions.UndeclaredRolePassesNeither | backend/users/permissions.py:3-20 | an undeclared role passes neither check |
| VacancyViews.PerformCreate | backend/vacancies/views.py:11-17 | a vacancy is saved, with the user as recruiter, iff the user's role is recruiter or admin; otherwise nothing is saved |
| VacancyViews.CreateMatchesPermission | backend/vacancies/views.py:14 | the creation check agrees with the admin-or-recruiter permission |
| UserSerializers.Validate | backend/users/serializers.py:14-28 | without both fields no authentication is tried; with both exactly one is tried; the result is accepted iff it returned a user, which is then added |
| UserSerializers.ProfileJson | backend/users/serializers.py:32-35 | the profile has exactly the id, username, email and role fields, in that order, each holding the account's own value |
| UserSerializers.ProfileHidesSecrets | backend/users/serializers.py:35 | the password and verification flag are never exposed |
| AccountAdapter.FieldLength | backend/users/adapters.py:7 | the literal run before the next brace |
| AccountAdapter.Format | backend/users/adapters.py:7 | a template without braces formats to itself |
| AccountAdapter.FormatPlainChar | backend/users/adapters.py:7 | a plain character is copied |
| AccountAdapter.FormatDoubledBrace | backend/users/adapters.py:19 | a doubled brace gives one brace |
| AccountAdapter.FormatField | backend/users/adapters.py:19 | a named field is replaced by its argument |
| AccountAdapter.FormatSpelled | backend/users/adapters.py:7 | formatting the spelling of literal pieces and fields fills every field with its argument |
| AccountAdapter.ConfirmationUrl | backend/users/adapters.py:5-7 | a template without braces is the URL itself |
| AccountAdapter.ConfirmationUrlOfPrefix | backend/users/adapters.py:5-7 | a brace-free prefix followed by `{key}` gives the prefix followed by the key |
| AccountAdapter.SendMail | backend/users/adapters.py:9-21 | without a reset URL the context passes through; with one, an IndexError is raised iff it has fewer than two slashes; otherwise the URL becomes the frontend URL, a slash and the confirm template filled with the third- and second-to-last pieces, or the formatting error is raised; no other key changes |
| AccountAdapter.ResetUrlPieces | backend/users/adapters.py:14-19 | for any URL whose last three `/`-separated pieces are uid, token and any last piece, the uid and token are placed into the frontend URL |
| AccountAdapter.DocumentedExample | backend/users/adapters.py:12-19 | the documented reset URL `http://domain/reset/MQ/set-password/`, given as its `/`-separated segments, yields uid "MQ" and token "set-password" |
| ResumeViews.ParseResume | backend/resumes/views.py:36-56 | the text is normalised, the skills are the extracted ones, and the organisations and dates are passed through |
| ResumeViews.UploadPost | backend/resumes/views.py:147-169 | no file or an empty file name gives 400; schema errors give 400 carrying them under `error`; the reply is 200 iff schema validation also passed, and then carries the new id and parsed data |
| ResumeViews.Fields | backend/resumes/views.py:224-234 | the match body has exactly the nine fields, each name reading its value |
| ResumeViews.MatchBody | backend/resumes/views.py:199-234 | the match body has exactly the nine fields: the score and rating of the service, the résumé skills, the stripped required skills, their gaps, the formatting issues, the keywords, the recommendations built from those three lists and the excerpt |
| ResumeViews.ResponseRecommendationsIffClean | backend/resumes/views.py:216-231 | the body's recommendations are empty iff its skill gaps, formatting suggestions and keyword suggestions all are |
| ResumeViews.MatchPost | backend/resumes/views.py:173-237 | falsy ids give 400 before any lookup; with truthy ids the résumé is always looked up, and a miss is a 404 after that one lookup; a found résumé is followed by the vacancy lookup, whose miss is a 404; 200 iff both are found, with the computed body |
| ResumeViews.NoRecommendationsIffClean | backend/resumes/views.py:216-222 | there are no recommendations iff there are no gaps, formatting issues or keyword suggestions |
| ResumeViews.ZeroIdRefused | backend/resumes/views.py:177-178 | an id of 0 is refused as missing |
| Workflow.UploadedIdReachesMatch | frontend/src/JobMatch.js:92-95 | the server's new résumé id reaches the match request unchanged, also after a reload |
| Workflow.FeedbackListsNeverArrive | frontend/src/JobMatch.js:35-37 | after a successful match both client lists are undefined and their sections throw |
| Workflow.SelectionSurvivesReload | frontend/src/JobMatch.js:132-135 | a chosen vacancy is still selected after a reload |
| Workflow.CardChoiceReachesMatchPages | frontend/src/Vacancy.jsx:8-11 | a card's vacancy is selected on the job-match page and sent by the résumé-match page |
| Workflow.StandaloneUploadReachesJobMatch | frontend/src/ResumeUpload.js:43-48 | the upload form's new id is the job-match page's résumé id after the redirect |
| Workflow.SectionRenderersCompared | frontend/src/ResumeMatch.jsx:99-111 | both pages render arrays alike; for a missing list one throws and the other renders nothing |
| Workflow.TrimAgrees | frontend/src/Vacancy.jsx:5 | JavaScript's and Python's trim agree on text whose whitespace both recognise |
| Workflow.CardAndServerReadSameSkills | frontend/src/Vacancy.jsx:4-6 | for a non-empty text the card's skills equal the server's required skills |
| Workflow.EmptySkillsTextDiffers | backend/resumes/views.py:206 | for an empty text the card shows no skills but the server has one empty skill |

## Left out

- Résumé file reading (PDF and DOCX extraction), spaCy tokenisation, entity recognition and lemmatisation: the extracted text, tokens, organisations and dates are parameters of `ResumeViews.ParseResume`.
- The TF-IDF cosine score, the rating and the ATS keyword suggestions are floating-point and NLP computations. They are opaque functions in `ResumeViews.Services`.
- The ORM, the parsed-résumé cache, authentication backends and persistence are parameters (`Services`, the `authenticate` function and the new id). The cache changes no result, so it is not modelled.
- Pydantic schema validation is an abstract `Option` of errors. Its `validate_skills` rule is never registered as a validator, so it is not enforced and not modelled.
- ResumeViews.MatchPost: Django's conversion of a non-numeric id, which raises and gives a 500, is not modelled. Lookups receive the raw JSON value.
- AccountAdapter.Format: only keyword fields are supported. There is no format specification, conversion, positional field or attribute access.
- AccountAdapter.SendMail: context values are strings only, and the parent adapter's mail sending is represented by returning the rewritten context.
- Timers are left out: the Navbar's five-second polling and the delayed redirects in the upload and password-reset pages are modelled as an immediate check or navigation.
- Network I/O, rendering markup, styling and console logging are left out.
- The vacancy edit page, the password-reset request page, `api.js`, the routing tables and the notification tasks are outside the modelled core.
- Required skills stored as a non-string (`views.py` lines 207-208) cannot occur, because the column is a text field.
- Js.Lookup, Js.Entries: an object is its entries in the order the model builds them; JavaScript's enumeration of integer-like keys first, and `JSON.parse` keeping the last of repeated keys, are not modelled.
- AccountAdapter.ConfirmationUrl: its own contract covers brace-free templates only; templates ending in `{key}` are covered by `ConfirmationUrlOfPrefix`, and general templates by `FormatSpelled`.
- Text.Lower: only ASCII letters are lower-cased, and the whitespace sets cover the Basic Multilingual Plane characters that Python and JavaScript treat as spaces.
- The vacancy field limits (text lengths, the salary digits and the job-type choices) are checked by the serializer's field validation and the column types; they are not modelled beyond `experienceRequired` being a natural number, and a stored vacancy's fields are taken as given.
- Js.Positive: a string is compared with 0 as `Number` reads it only for plain decimal digit strings; text with surrounding whitespace, a sign, a fraction, an exponent or a hex prefix is taken as not positive, so `JobMatch.ListSection` renders nothing where the page would throw for an object whose `length` is such a text.
- Numbers are integers. Salaries are in hundredths. JavaScript's floating-point numbers and NaN appear only as `parseInt` failing (null in the request body).
