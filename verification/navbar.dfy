/** The navigation bar: shows the sign-in links or the profile and logout controls
    according to whether an access token is stored, and logs the user out. */
module Navbar {
  import opened Wrappers
  import opened Js
  import opened Browser
  import Login

  const LoginRoute := "/login"

  datatype State = State(isAuthenticated: bool)

  const Initial := State(false)

  /** `checkAuth`, run on mount and every five seconds: `!!localStorage.getItem(...)`. */
  function CheckAuth(st: State, storage: Storage): (s: State)
    ensures s.isAuthenticated <==> AccessTokenKey in storage && storage[AccessTokenKey] != ""
  {
    State(Truthy(GetItem(storage, AccessTokenKey)))
  }

  /** `handleLogout`: both tokens removed, every other key kept, the flag cleared and the
      login page shown. */
  function Logout(st: State, storage: Storage): (t: Transition<State>)
    ensures !t.state.isAuthenticated && t.requests == [] && t.navigation == Some(LoginRoute)
    ensures AccessTokenKey !in t.storage && RefreshTokenKey !in t.storage
    ensures forall k :: k != AccessTokenKey && k != RefreshTokenKey ==> GetItem(t.storage, k) == GetItem(storage, k)
    ensures t.storage.Keys == storage.Keys - {AccessTokenKey, RefreshTokenKey}
  {
    var cleared := RemoveItem(RemoveItem(storage, AccessTokenKey), RefreshTokenKey);
    Transition(st.(isAuthenticated := false), cleared, [], Some(LoginRoute))
  }

  /** The controls offered: profile and logout when authenticated, login and register
      otherwise. */
  function Links(st: State): (r: seq<string>)
    ensures "/profile" in r <==> st.isAuthenticated
    ensures LoginRoute in r <==> !st.isAuthenticated
  {
    if st.isAuthenticated then ["/profile", "logout"] else [LoginRoute, "/register"]
  }

  /** A session's life cycle: after a login whose response carries an access token, the
      next check shows the user as signed in; after logging out, the next check shows
      them as signed out, whatever was stored before. */
  lemma LoginThenLogout(form: Login.State, storage: Storage, access: string, refresh: Json)
    requires access != ""
    ensures var t := Login.HandleLogin(form, storage, Success(Obj([("access", Str(access)), ("refresh", refresh)])));
      CheckAuth(Initial, t.storage).isAuthenticated &&
      !CheckAuth(Initial, Logout(State(true), t.storage).storage).isAuthenticated
  {
    var body := Obj([("access", Str(access)), ("refresh", refresh)]);
    assert OptionalProp(body, "access") == Str(access);
  }

  /** A login whose response omits the access token still signs the user in, because the
      stored value is the non-empty string "undefined". */
  lemma MissingAccessTokenCountsAsSignedIn(form: Login.State, storage: Storage)
    ensures var t := Login.HandleLogin(form, storage, Success(Obj([])));
      t.storage[AccessTokenKey] == "undefined" && CheckAuth(Initial, t.storage).isAuthenticated
  {
  }
}
