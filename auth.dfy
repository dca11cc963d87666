/**
 * `src/utils/auth.js`: the authentication check that reconciles the user
 * store with storage, and the navigation decision built on it.
 */
module Auth {
  import opened Wrappers
  import opened Storage
  import opened UserStore

  /** What `requireAuth` hands to `next`. */
  datatype Navigation = Proceed | RedirectTo(path: string)

  /** The decision of `requireAuth` once the check has settled. */
  function Decide(isAuthenticated: bool, requiresAuth: bool): (n: Navigation)
    ensures n.RedirectTo? <==> !isAuthenticated && requiresAuth
    ensures n.RedirectTo? ==> n.path == "/login"
  {
    if !isAuthenticated && requiresAuth then RedirectTo("/login") else Proceed
  }

  /**
   * `checkAuthStatus()`: consults only `userToken`; a token with a
   * logged-out store triggers a restore, whose outcome is the answer.
   */
  method CheckAuthStatus(store: UserStore) returns (isAuthenticated: bool)
    requires store.Valid()
    modifies store`state
    ensures store.Valid()
    ensures var token := GetItem(store.browser.local, TokenKey);
      && (Truthy(token) && !old(store.state.isLoggedIn) ==>
            store.state == Restored(store.browser.local, store.json)
            && isAuthenticated == store.state.isLoggedIn)
      && (!(Truthy(token) && !old(store.state.isLoggedIn)) ==>
            store.state == old(store.state)
            && isAuthenticated == (old(store.state.isLoggedIn) || Truthy(token)))
  {
    var token := GetItem(store.browser.local, TokenKey);
    if Truthy(token) && !store.state.isLoggedIn {
      var _ := store.RestoreFromStorage();
      return store.state.isLoggedIn;
    }
    return store.state.isLoggedIn || Truthy(token);
  }

  /** `requireAuth(to, from, next)`, with `requiresAuth` the truthiness of `to.meta.requiresAuth`. */
  method RequireAuth(store: UserStore, requiresAuth: bool) returns (next: Navigation)
    requires store.Valid()
    modifies store`state
    ensures store.Valid()
    ensures var token := GetItem(store.browser.local, TokenKey);
      var restores := Truthy(token) && !old(store.state.isLoggedIn);
      && (restores ==> store.state == Restored(store.browser.local, store.json))
      && (!restores ==> store.state == old(store.state))
      && next == Decide(if restores then store.state.isLoggedIn else old(store.state.isLoggedIn) || Truthy(token),
                        requiresAuth)
    ensures !requiresAuth ==> next == Proceed
    ensures next.RedirectTo? ==> next.path == "/login" && !store.state.isLoggedIn
  {
    var isAuthenticated := CheckAuthStatus(store);
    next := Decide(isAuthenticated, requiresAuth);
  }

  /**
   * Only `userToken` counts: a session stored under the alternate key alone
   * is reported unauthenticated by a logged-out store, although restoring
   * from storage would succeed.
   */
  lemma AlternateTokenIgnored(local: Store, json: Codec, info: Fields, t: string)
    requires Lawful(json) && t != ""
    requires local == map[TokenAltKey := t, UserInfoKey := json.stringify(info)]
    ensures !Truthy(GetItem(local, TokenKey))
    ensures Restored(local, json).isLoggedIn
  {
    assert json.parse(json.stringify(info)) == Some(info);
  }
}
