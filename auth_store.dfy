/**
 * The browser's authentication store: two tokens, the signed-in user and an
 * `isAuthenticated` flag, changed only by `setTokens`, `setUser` and
 * `logout`. Each setter merges its fields into the state and leaves the
 * others as they were.
 */
module AuthStore {
  import opened Wrappers

  datatype UserInfo = UserInfo(id: int, email: string, name: string)

  /** A snapshot of the four fields. */
  datatype AuthState = AuthState(
    accessToken: Option<string>,
    refreshToken: Option<string>,
    user: Option<UserInfo>,
    isAuthenticated: bool)

  datatype Action =
    | SetTokens(access: string, refresh: string)
    | SetUser(info: UserInfo)
    | Logout

  /** Both tokens null, no user, not authenticated. */
  const Initial: AuthState := AuthState(None, None, None, false)

  /** The state after one action. */
  function Step(s: AuthState, a: Action): (t: AuthState)
    ensures a.SetTokens? ==> t.user == s.user && t.isAuthenticated
    ensures a.SetUser? ==> t.accessToken == s.accessToken && t.refreshToken == s.refreshToken
                           && t.isAuthenticated == s.isAuthenticated
    ensures a.Logout? ==> t == Initial
  {
    match a
    case SetTokens(access, refresh) => s.(accessToken := Some(access), refreshToken := Some(refresh), isAuthenticated := true)
    case SetUser(info) => s.(user := Some(info))
    case Logout => Initial
  }

  /** The state after a sequence of actions from the initial state. */
  function Replay(actions: seq<Action>): AuthState {
    if actions == [] then Initial else Step(Replay(actions[..|actions| - 1]), actions[|actions| - 1])
  }

  /** The flag holds exactly when both tokens are present. */
  ghost predicate Consistent(s: AuthState) {
    s.isAuthenticated <==> s.accessToken.Some? && s.refreshToken.Some?
  }

  /** Every reachable state keeps the flag in step with the tokens. */
  lemma {:induction false} ReplayConsistent(actions: seq<Action>)
    ensures Consistent(Replay(actions))
  {
    if actions != [] {
      ReplayConsistent(actions[..|actions| - 1]);
    }
  }

  /** `SetTokens` happens at index `i` and no `Logout` after it. */
  ghost predicate TokensSinceLogout(actions: seq<Action>, i: int) {
    0 <= i < |actions| && actions[i].SetTokens?
    && forall k :: i < k < |actions| ==> !actions[k].Logout?
  }

  /** Authenticated iff `setTokens` has run since the last `logout`. */
  lemma {:induction false} AuthenticatedIffTokensSinceLogout(actions: seq<Action>)
    ensures Replay(actions).isAuthenticated <==> exists i :: TokensSinceLogout(actions, i)
  {
    if actions != [] {
      var n := |actions| - 1;
      var prefix := actions[..n];
      AuthenticatedIffTokensSinceLogout(prefix);
      match actions[n]
      case SetTokens(_, _) =>
        assert TokensSinceLogout(actions, n);
      case Logout =>
        forall i | 0 <= i < |actions| ensures !TokensSinceLogout(actions, i) {
          if i < n {
            assert actions[n].Logout?;
          }
        }
      case SetUser(_) =>
        if Replay(prefix).isAuthenticated {
          var i :| TokensSinceLogout(prefix, i);
          assert TokensSinceLogout(actions, i);
        }
        if i :| TokensSinceLogout(actions, i) {
          assert TokensSinceLogout(prefix, i);
        }
    }
  }

  /** A second logout changes nothing. */
  lemma LogoutIdempotent(s: AuthState)
    ensures Step(Step(s, Logout), Logout) == Step(s, Logout)
  {
  }

  /** Signing in without loading the profile leaves the store authenticated with no user. */
  lemma AuthenticatedWithoutUser()
    ensures Replay([SetTokens("a", "r")]).isAuthenticated && Replay([SetTokens("a", "r")]).user.None?
  {
    assert [SetTokens("a", "r")][..0] == [];
  }

  class Store {
    var accessToken: Option<string>
    var refreshToken: Option<string>
    var user: Option<UserInfo>
    var isAuthenticated: bool

    function State(): AuthState
      reads this
    {
      AuthState(accessToken, refreshToken, user, isAuthenticated)
    }

    ghost predicate Valid()
      reads this
    {
      Consistent(State())
    }

    constructor ()
      ensures State() == Initial && Valid()
    {
      accessToken := None;
      refreshToken := None;
      user := None;
      isAuthenticated := false;
    }

    method SetTokens(access: string, refresh: string)
      requires Valid()
      modifies this
      ensures Valid() && State() == Step(old(State()), Action.SetTokens(access, refresh))
    {
      accessToken := Some(access);
      refreshToken := Some(refresh);
      isAuthenticated := true;
    }

    method SetUser(info: UserInfo)
      requires Valid()
      modifies this
      ensures Valid() && State() == Step(old(State()), Action.SetUser(info))
    {
      user := Some(info);
    }

    method Logout()
      requires Valid()
      modifies this
      ensures Valid() && State() == Step(old(State()), Action.Logout)
    {
      accessToken := None;
      refreshToken := None;
      user := None;
      isAuthenticated := false;
    }
  }
}
