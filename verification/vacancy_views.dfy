/** Creating a vacancy through the API: only recruiters and administrators may, and the
    saved vacancy always belongs to the requesting user. */
module VacancyViews {
  import opened Wrappers
  import opened Permissions

  const DeniedMessage := "You do not have permission to create a vacancy."
  const NoRoleMessage := "'AnonymousUser' object has no attribute 'role'"

  /** The serializer's validated data: the vacancy fields, and the recruiter the client
      named, if any. */
  datatype Submitted = Submitted(fields: map<string, string>, recruiter: Option<int>)

  /** One `serializer.save(...)` call: the fields and the recruiter written. */
  datatype Saved = Saved(fields: map<string, string>, recruiter: User)

  /** What `perform_create` did: the saves performed, and the error raised, if any. */
  datatype Created = Created(saves: seq<Saved>, error: Option<string>)

  /** `VacancyViewSet.perform_create`: a role outside recruiter and admin raises
      PermissionDenied before anything is saved; otherwise one save whose recruiter is
      the requesting user, whatever the client sent. */
  function PerformCreate(user: User, data: Submitted): (r: Created)
    ensures r.error.None? <==> user.Account? && user.role in {"recruiter", "admin"}
    ensures r.error.Some? ==> r.saves == []
    ensures r.error.None? ==> |r.saves| == 1 && r.saves[0].recruiter == user && r.saves[0].fields == data.fields
    ensures user.Account? && r.error.Some? ==> r.error == Some(DeniedMessage)
  {
    match user
    case Anonymous => Created([], Some(NoRoleMessage))
    case Account(_, _, _, role, _, _) =>
      if role !in ["recruiter", "admin"] then Created([], Some(DeniedMessage))
      else Created([Saved(data.fields, user)], None)
  }

  /** The view admits exactly the users the combined permission check admits. */
  lemma CreateMatchesPermission(user: User, data: Submitted)
    ensures PerformCreate(user, data).error.None? <==> IsAdminOrRecruiter(user) == Some(true)
  {
  }
}
