/** The vacancy list page: a card per vacancy (skills, location, salary, a match button
    for job seekers) and the mount-time sequence that fetches the user's profile first
    and the vacancies second. */
module Vacancies {
  import opened Wrappers
  import opened Text
  import opened Seqs
  import opened Js
  import opened Browser

  const ProfileUrl := "http://127.0.0.1:8000/users/api/profile/"
  const VacanciesUrl := "http://127.0.0.1:8000/vacancies/vacancies/"
  const MatchResumeRoute := "/match-resume"

  const NoLocationLabel := "Location not specified"
  const NegotiableLabel := "Negotiable"
  const ProfileFailedMessage := "Failed to fetch user profile"
  const VacanciesFailedMessage := "Failed to fetch vacancies"

  /** A card's skill list: a truthy `required_skills` string split on ',' with every piece
      trimmed (empty pieces kept), `[]` for a falsy value, and a TypeError (none) for a
      truthy value that is not a string. */
  function SkillsArray(required: Json): (r: Option<seq<string>>)
    ensures !Truthy(required) ==> r == Some([])
    ensures Truthy(required) && !required.Str? ==> r.None?
    ensures required.Str? && required.s != "" ==>
      && r.Some?
      && |r.value| == Count(required.s, ',') + 1
      && forall i :: 0 <= i < |r.value| ==>
           IsTrimmed(JavaScript, r.value[i]) && r.value[i] == Trim(JavaScript, Split(required.s, ',')[i])
  {
    if !Truthy(required) then Some([])
    else match required
      case Str(s) => Some(MapSeq(piece => Trim(JavaScript, piece), Split(s, ',')))
      case _ => None
  }

  /** `vacancy.location || 'Location not specified'`. */
  function LocationLabel(location: Json): (r: Json)
    ensures Truthy(location) ==> r == location
    ensures !Truthy(location) ==> r == Str(NoLocationLabel)
  {
    Or(location, Str(NoLocationLabel))
  }

  /** One salary bound: `'$' + value` when truthy, else "Negotiable". */
  function SalaryBound(v: Json): string {
    if Truthy(v) then "$" + ToStr(v) else NegotiableLabel
  }

  /** The salary line, rendered iff either bound is truthy. */
  function SalaryLine(min: Json, max: Json): (r: Option<string>)
    ensures r.Some? <==> Truthy(min) || Truthy(max)
    ensures r.Some? ==> r.value == SalaryBound(min) + " - " + SalaryBound(max)
  {
    if Truthy(min) || Truthy(max) then Some(SalaryBound(min) + " - " + SalaryBound(max)) else None
  }

  /** The "Match Me!" button is rendered iff `userRole === 'job_seeker'`. */
  predicate MatchButtonShown(role: Json)
    ensures MatchButtonShown(role) <==> role == Str("job_seeker")
  {
    StrictEq(role, Str("job_seeker"))
  }

  /** The card's `handleMatch`: remember the card's vacancy id and go to the match page. */
  function CardMatch(storage: Storage, vacancyId: Json): (t: Transition<()>)
    ensures GetItem(t.storage, VacancyIdKey) == Str(ToStr(vacancyId))
    ensures forall k :: k != VacancyIdKey ==> GetItem(t.storage, k) == GetItem(storage, k)
    ensures t.requests == [] && t.navigation == Some(MatchResumeRoute)
  {
    Transition((), SetItem(storage, VacancyIdKey, vacancyId), [], Some(MatchResumeRoute))
  }

  datatype State = State(vacancies: Json, loading: bool, error: Json, userRole: Json)

  const Initial := State(Arr([]), true, Null, Null)

  /** The message `fetch` failures carry: a non-ok response is turned into the given
      message; a network failure carries the transport's own. */
  function FetchError(outcome: Outcome, notOk: string): Json {
    match outcome
    case NoResponse(m) => Str(m)
    case _ => Str(notOk)
  }

  /** The mount-time `fetchData`: the profile is fetched (with whatever token is stored,
      even none), its role recorded, and only then the vacancies are fetched (without a
      token). Any failure records its message and skips the rest; loading ends false. */
  function FetchData(st: State, storage: Storage, profile: Outcome, list: Outcome): (t: Transition<State>)
    ensures t.storage == storage && t.navigation == None
    ensures !t.state.loading
    ensures 1 <= |t.requests| <= 2
    ensures t.requests[0] == Request(GET, ProfileUrl, NoBody, Some(Bearer(GetItem(storage, AccessTokenKey))))
    ensures |t.requests| == 2 <==> profile.Success? && !Nullish(profile.body)
    ensures |t.requests| == 2 ==>
      && t.requests[1] == Request(GET, VacanciesUrl, NoBody, None)
      && t.state.userRole == OptionalProp(profile.body, "role")
    ensures !profile.Success? ==>
      t.state == st.(error := FetchError(profile, ProfileFailedMessage), loading := false)
    ensures profile.Success? && Nullish(profile.body) ==>
      t.state == st.(error := Str(NullAccessMessage(profile.body, "role")), loading := false)
    ensures |t.requests| == 2 && list.Success? ==> t.state.vacancies == list.body && t.state.error == st.error
    ensures |t.requests| == 2 && !list.Success? ==>
      t.state.vacancies == st.vacancies && t.state.error == FetchError(list, VacanciesFailedMessage)
  {
    var first := Request(GET, ProfileUrl, NoBody, Some(Bearer(GetItem(storage, AccessTokenKey))));
    match profile
    case Success(body) =>
      (match GetProp(body, "role")
       case None => Transition(st.(error := Str(NullAccessMessage(body, "role")), loading := false), storage, [first], None)
       case Some(role) =>
         var known := st.(userRole := role);
         var second := Request(GET, VacanciesUrl, NoBody, None);
         match list
         case Success(vs) => Transition(known.(vacancies := vs, loading := false), storage, [first, second], None)
         case _ => Transition(known.(error := FetchError(list, VacanciesFailedMessage), loading := false), storage, [first, second], None))
    case _ => Transition(st.(error := FetchError(profile, ProfileFailedMessage), loading := false), storage, [first], None)
  }
}
