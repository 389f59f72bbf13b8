/** The profile page: loads the signed-in user and the vacancies they posted, and deletes
    one of them on request. */
module Profile {
  import opened Wrappers
  import opened Js
  import opened Seqs
  import opened Browser

  const ProfileUrl := "http://localhost:8000/users/api/profile/"
  const VacanciesUrl := "http://localhost:8000/vacancies/vacancies/"

  datatype State = State(userInfo: Json, userVacancies: seq<Json>)

  const Initial := State(Null, [])

  /** Every listed vacancy can be read from without throwing. The initial list is empty
      and the only lists ever stored are filters of a fetched array whose elements were
      all read, so this holds in every reachable state. */
  predicate Listable(st: State) {
    forall i :: 0 <= i < |st.userVacancies| ==> !Nullish(st.userVacancies[i])
  }

  function Authorized(verb: Method, url: string, token: Json): Request {
    Request(verb, url, NoBody, Some(Bearer(token)))
  }

  /** Whether a vacancy was posted by the user with id `userId`. */
  predicate PostedBy(userId: Json, vacancy: Json) {
    match GetProp(vacancy, "recruiter")
    case Some(r) => StrictEq(r, userId)
    case None => false
  }

  /** `vacanciesRes.data.filter(...)`: none when the call throws, because the data is not
      an array or one of its elements is null or undefined. */
  function OwnVacancies(userId: Json, data: Json): (r: Option<seq<Json>>)
    ensures r.Some? <==> data.Arr? && forall i :: 0 <= i < |data.items| ==> !Nullish(data.items[i])
    ensures r.Some? ==> r.value == Filter(v => PostedBy(userId, v), data.items)
  {
    match data
    case Arr(items) =>
      if forall i :: 0 <= i < |items| ==> !Nullish(items[i]) then Some(Filter(v => PostedBy(userId, v), items))
      else None
    case _ => None
  }

  /** `fetchProfileAndVacancies`, run only when a token is stored. The profile is stored as
      soon as it arrives; the list is replaced only when the vacancy fetch succeeds and
      every read on the way succeeds, otherwise the error is logged and the list stays. */
  function Fetch(st: State, storage: Storage, profile: Outcome, vacancies: Outcome): (t: Transition<State>)
    ensures t.storage == storage && t.navigation == None
    ensures !Truthy(GetItem(storage, AccessTokenKey)) ==> t.requests == [] && t.state == st
    ensures Truthy(GetItem(storage, AccessTokenKey)) ==>
      1 <= |t.requests| <= 2 && t.requests[0] == Authorized(GET, ProfileUrl, GetItem(storage, AccessTokenKey))
    ensures |t.requests| == 2 <==> Truthy(GetItem(storage, AccessTokenKey)) && profile.Success?
    ensures |t.requests| == 2 ==>
      t.requests[1] == Authorized(GET, VacanciesUrl, GetItem(storage, AccessTokenKey)) && t.state.userInfo == profile.body
    ensures |t.requests| < 2 ==> t.state == st
    ensures t.state.userVacancies != st.userVacancies ==>
      vacancies.Success? && vacancies.body.Arr? && !Nullish(profile.body)
    ensures forall v :: v in t.state.userVacancies && v !in st.userVacancies ==>
      PostedBy(GetProp(profile.body, "id").value, v)
    ensures Listable(st) ==> Listable(t.state)
    ensures t.state.userVacancies ==
      if ListReplaced(storage, profile, vacancies)
      then OwnVacancies(GetProp(profile.body, "id").value, vacancies.body).value
      else st.userVacancies
  {
    var token := GetItem(storage, AccessTokenKey);
    if !Truthy(token) then Transition(st, storage, [], None)
    else
      var first := Authorized(GET, ProfileUrl, token);
      match profile
      case Success(user) =>
        var withUser := st.(userInfo := user);
        var reqs := [first, Authorized(GET, VacanciesUrl, token)];
        (match (vacancies, GetProp(user, "id"))
         case (Success(data), Some(userId)) =>
           (match OwnVacancies(userId, data)
            case Some(own) =>
              assert forall v :: v in own ==> PostedBy(userId, v) by {
                forall v | v in own ensures PostedBy(userId, v) {
                  FilterMembership(v => PostedBy(userId, v), data.items, v);
                }
              }
              assert Listable(withUser.(userVacancies := own)) by {
                forall i | 0 <= i < |own| ensures !Nullish(own[i]) {
                  FilterMembership(v => PostedBy(userId, v), data.items, own[i]);
                }
              }
              Transition(withUser.(userVacancies := own), storage, reqs, None)
            case None => Transition(withUser, storage, reqs, None))
         case _ => Transition(withUser, storage, reqs, None))
      case _ => Transition(st, storage, [first], None)
  }

  /** Whether `Fetch` gets as far as replacing the list: a token is stored, both requests
      succeed, the profile has an id and the vacancy data can be filtered. */
  predicate ListReplaced(storage: Storage, profile: Outcome, vacancies: Outcome) {
    && Truthy(GetItem(storage, AccessTokenKey))
    && profile.Success? && vacancies.Success?
    && GetProp(profile.body, "id").Some?
    && OwnVacancies(GetProp(profile.body, "id").value, vacancies.body).Some?
  }

  /** After a complete fetch the page lists exactly the fetched vacancies whose recruiter
      is the signed-in user, each as often as fetched, in the fetched order. */
  lemma FetchListsOwn(st: State, storage: Storage, profile: Outcome, vacancies: Outcome)
    requires ListReplaced(storage, profile, vacancies)
    ensures var id := GetProp(profile.body, "id").value;
      var shown := Fetch(st, storage, profile, vacancies).state.userVacancies;
      && (forall v :: v in shown <==> v in vacancies.body.items && PostedBy(id, v))
      && (forall v :: multiset(shown)[v] == if PostedBy(id, v) then multiset(vacancies.body.items)[v] else 0)
  {
    var id := GetProp(profile.body, "id").value;
    var keep := v => PostedBy(id, v);
    forall v ensures v in Filter(keep, vacancies.body.items) <==> v in vacancies.body.items && PostedBy(id, v) {
      FilterMembership(keep, vacancies.body.items, v);
    }
    FilterCounts(keep, vacancies.body.items);
  }

  function DeleteUrl(id: Json): string {
    VacanciesUrl + ToStr(id) + "/"
  }

  /** Whether a listed vacancy survives the deletion of `id`. */
  predicate Survives(id: Json, vacancy: Json) {
    match GetProp(vacancy, "id")
    case Some(own) => !StrictEq(own, id)
    case None => false
  }

  /** What filtering by `Survives` keeps: exactly the surviving vacancies, each as often as
      before, and nothing that could not be read from. */
  lemma Surviving(vs: seq<Json>, id: Json)
    ensures forall v :: v in Filter(x => Survives(id, x), vs) <==> v in vs && Survives(id, v)
    ensures forall v ::
      multiset(Filter(x => Survives(id, x), vs))[v] == if Survives(id, v) then multiset(vs)[v] else 0
  {
    forall v ensures v in Filter(x => Survives(id, x), vs) <==> v in vs && Survives(id, v) {
      FilterMembership(x => Survives(id, x), vs, v);
    }
    FilterCounts(x => Survives(id, x), vs);
  }

  /** `handleDelete(id)`: one authorised DELETE; on success exactly the listed vacancies
      whose id is not strictly equal to `id` remain, in order and with their duplicates;
      on failure nothing changes. */
  function Delete(st: State, storage: Storage, id: Json, outcome: Outcome): (t: Transition<State>)
    requires Listable(st)
    ensures t.storage == storage && t.navigation == None && t.state.userInfo == st.userInfo
    ensures t.requests == [Authorized(DELETE, DeleteUrl(id), GetItem(storage, AccessTokenKey))]
    ensures !outcome.Success? ==> t.state == st
    ensures outcome.Success? ==> forall v ::
      v in t.state.userVacancies <==> v in st.userVacancies && !StrictEq(GetProp(v, "id").value, id)
    ensures outcome.Success? ==> forall v ::
      multiset(t.state.userVacancies)[v] == if Survives(id, v) then multiset(st.userVacancies)[v] else 0
    ensures Listable(t.state)
  {
    var req := Authorized(DELETE, DeleteUrl(id), GetItem(storage, AccessTokenKey));
    match outcome
    case Success(_) =>
      var kept := Filter(x => Survives(id, x), st.userVacancies);
      Surviving(st.userVacancies, id);
      assert Listable(st.(userVacancies := kept)) by {
        forall i | 0 <= i < |kept| ensures !Nullish(kept[i]) {
          assert kept[i] in kept;
        }
      }
      Transition(st.(userVacancies := kept), storage, [req], None)
    case _ => Transition(st, storage, [req], None)
  }

  /** Whether the "Your Vacancies" panel is rendered. */
  predicate PanelShown(st: State)
    ensures PanelShown(st) ==> st.userInfo.Obj?
    ensures PanelShown(st) <==> (st.userInfo.Obj? &&
      (Lookup(st.userInfo.entries, "role") == Str("recruiter") || Lookup(st.userInfo.entries, "role") == Str("admin")))
  {
    var role := OptionalProp(st.userInfo, "role");
    StrictEq(role, Str("recruiter")) || StrictEq(role, Str("admin"))
  }

  /** The panel is shown exactly to recruiters and administrators, and never before the
      profile has loaded. */
  lemma PanelShownToStaff(st: State)
    ensures PanelShown(st) <==> (st.userInfo.Obj? &&
      (Lookup(st.userInfo.entries, "role") == Str("recruiter") || Lookup(st.userInfo.entries, "role") == Str("admin")))
  {
  }

  /** Deleting an id no listed vacancy carries leaves the list as it was. */
  lemma {:induction false} DeleteAbsentKeepsList(vs: seq<Json>, id: Json)
    requires forall i :: 0 <= i < |vs| ==> !Nullish(vs[i]) && !StrictEq(GetProp(vs[i], "id").value, id)
    ensures Filter(v => Survives(id, v), vs) == vs
    decreases |vs|
  {
    if |vs| > 0 {
      DeleteAbsentKeepsList(vs[1..], id);
      assert vs == [vs[0]] + vs[1..];
    }
  }

  /** Deleting the same id twice has the effect of deleting it once. */
  lemma DeleteIdempotent(st: State, storage: Storage, id: Json, o1: Outcome, o2: Outcome)
    requires Listable(st)
    ensures var once := Delete(st, storage, id, o1).state;
      Delete(once, storage, id, o2).state.userVacancies == once.userVacancies || !o1.Success?
  {
    var once := Delete(st, storage, id, o1).state;
    if o1.Success? {
      forall i | 0 <= i < |once.userVacancies|
        ensures !Nullish(once.userVacancies[i]) && !StrictEq(GetProp(once.userVacancies[i], "id").value, id)
      {
        var v := once.userVacancies[i];
        assert v in once.userVacancies;
      }
      DeleteAbsentKeepsList(once.userVacancies, id);
    }
  }
}
