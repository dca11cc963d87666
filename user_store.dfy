/**
 * The session store of `src/stores/user.ts`: the in-memory `userState`, its
 * durable mirror in localStorage, and the "remember me" credentials.
 */
module UserStore {
  import opened Wrappers
  import opened Replies
  import opened Storage

  /** `{ isLoggedIn, userInfo }`. */
  datatype UserState = UserState(isLoggedIn: bool, userInfo: Option<Fields>)

  const LoggedOut: UserState := UserState(false, None)

  const TokenField: string := "token"
  const RefreshTokenField: string := "refreshToken"

  /** The `data` of a login answer; absent members are `undefined`. */
  datatype LoginData = LoginData(
    token: Option<string>,
    username: Option<string>,
    role: Option<string>,
    userId: Option<string>)

  /** `{ success: true }` or `{ success: false, error }`. */
  datatype LoginResult = LoginSucceeded | LoginFailed(error: string)

  /** The keys `clearStorage` removes from both storages, in its order. */
  const ClearedKeys: seq<string> := [
    TokenKey, TokenAltKey, RefreshTokenKey, UserInfoKey, "username", "userId",
    "sessionId", "lastLoginTime", "redirectAfterLogin", "system_greeting_shown",
    "system_greeting_shown_expires"]

  function KeySet(keys: seq<string>): set<string> {
    set k | k in keys
  }

  /** Removing the keys of a list and then one more key removes the keys of the longer list. */
  lemma RemoveNextKey(m: map<string, string>, keys: seq<string>, i: nat)
    requires i < |keys|
    ensures m - KeySet(keys[..i]) - {keys[i]} == m - KeySet(keys[..i + 1])
  {
    assert keys[..i + 1] == keys[..i] + [keys[i]];
    assert KeySet(keys[..i + 1]) == KeySet(keys[..i]) + {keys[i]};
  }

  /** A record member that is left out when its value is `undefined`, as `JSON.stringify` does. */
  function Put(f: Fields, k: string, v: Option<string>): Fields {
    if v.Some? then f[k := v.value] else f
  }

  /** What `restoreFromStorage` makes of the stored token and profile. */
  function Restored(local: Store, json: Codec): (s: UserState)
    ensures s.isLoggedIn <==> s.userInfo.Some?
  {
    var token := StoredToken(local);
    var info := GetItem(local, UserInfoKey);
    if !Truthy(token) || !Truthy(info) then LoggedOut
    else match json.parse(info.value)
      case None => LoggedOut
      case Some(f) => UserState(true, Some(f[TokenField := token.value]))
  }

  /** The profile a successful login stores: `{ username, role: role || 'user', userId }`. */
  function ProfileOf(d: LoginData): Fields {
    var role := if Truthy(d.role) then d.role.value else "user";
    Put(Put(map[], "username", d.username), "userId", d.userId)["role" := role]
  }

  /** The session a successful login establishes: the profile with the token added. */
  function LoggedInAs(d: LoginData): UserState {
    UserState(true, Some(Put(ProfileOf(d), TokenField, d.token)))
  }

  /** A login answer that counts as success. */
  predicate Accepted(reply: Reply<LoginData>) {
    reply.Reply? && reply.code == 200
  }

  /** The `error` a failed login reports: the server's message, or the exception's. */
  function FailureText(reply: Reply<LoginData>): string {
    if reply.Reply? then reply.message else reply.error
  }

  /** localStorage after a successful `login`. */
  function LoginWrites(
    local: Store, json: Codec, username: string, rememberMe: bool,
    d: LoginData, encrypted: Option<string>): Store
  {
    var t := SetItemText(d.token);
    var base := local[TokenKey := t][TokenAltKey := t][UserInfoKey := json.stringify(ProfileOf(d))];
    if rememberMe then SaveCredentials(base, username, encrypted) else base - CredentialKeys
  }

  /** `{ ...current, ...otherInfo }` with the token fields written back, as `setUserInfo` leaves it. */
  function Merged(current: Fields, info: Fields): Fields {
    current + info
  }

  /** localStorage after `setUserInfo(info)` on a logged-in session. */
  function PatchWrites(local: Store, json: Codec, current: Fields, info: Fields): Store {
    var m1 := if TokenField in info then local[TokenKey := info[TokenField]] else local;
    var m2 := if RefreshTokenField in info then m1[RefreshTokenKey := info[RefreshTokenField]] else m1;
    m2[UserInfoKey := json.stringify(Merged(current, info) - {TokenField, RefreshTokenField})]
  }

  /** The token check of `validateLoginStatus` and `forceCheckLoginStatus`. */
  predicate UsableToken(t: Option<string>) {
    Truthy(t) && t.value != "undefined" && t.value != "null"
  }

  /** The password the saved ciphertext decrypts to (`getSavedPassword`). */
  function SavedPassword(local: Store, decrypt: string -> Option<string>): Option<string> {
    var encrypted := GetItem(local, SavedPasswordKey);
    if !Truthy(encrypted) then None else decrypt(encrypted.value)
  }

  /** The steps of `tryAutoLogin` before the login call all pass. */
  predicate ReachesLogin(local: Store, decrypt: string -> Option<string>, captcha: Reply<string>) {
    && RememberMeOn(local)
    && CredentialsSaved(local)
    && Truthy(SavedPassword(local, decrypt))
    && captcha.Reply? && captcha.code == 200
  }

  class UserStore {
    const browser: Browser
    const json: Codec
    /** `decryptPassword`: deterministic for a given ciphertext and key. */
    const decrypt: string -> Option<string>
    var state: UserState

    ghost predicate Valid()
      reads this
    {
      && (state.isLoggedIn <==> state.userInfo.Some?)
      && Lawful(json)
    }

    /** Creating the store restores the session from storage. */
    constructor(browser: Browser, json: Codec, decrypt: string -> Option<string>)
      requires Lawful(json)
      ensures Valid()
      ensures this.browser == browser && this.json == json && this.decrypt == decrypt
      ensures state == Restored(browser.local, json)
    {
      this.browser := browser;
      this.json := json;
      this.decrypt := decrypt;
      state := LoggedOut;
      new;
      var _ := RestoreFromStorage();
    }

    method RestoreFromStorage() returns (ok: bool)
      requires Valid()
      modifies this`state
      ensures Valid()
      ensures state == Restored(browser.local, json)
      ensures ok == state.isLoggedIn
    {
      var token := Or(GetItem(browser.local, TokenKey), GetItem(browser.local, TokenAltKey));
      var info := GetItem(browser.local, UserInfoKey);
      if !Truthy(token) || !Truthy(info) {
        state := LoggedOut;
        return false;
      }
      var parsed := json.parse(info.value);
      if parsed.None? {
        state := LoggedOut;
        return false;
      }
      state := UserState(true, Some(parsed.value[TokenField := token.value]));
      return true;
    }

    /** Two restores in a row, with storage untouched in between, agree. */
    method RestoreTwice() returns (first: UserState, second: UserState)
      requires Valid()
      modifies this`state
      ensures Valid()
      ensures first == second == state
    {
      var _ := RestoreFromStorage();
      first := state;
      var _ := RestoreFromStorage();
      second := state;
    }

    method ClearStorage()
      modifies browser
      ensures browser.local == old(browser.local) - KeySet(ClearedKeys)
      ensures browser.session == old(browser.session) - KeySet(ClearedKeys)
      ensures browser.cookies == {}
      ensures browser.location == old(browser.location)
    {
      var keys := ClearedKeys;
      var i := 0;
      while i < |keys|
        invariant 0 <= i <= |keys|
        invariant browser.local == old(browser.local) - KeySet(keys[..i])
        invariant browser.session == old(browser.session) - KeySet(keys[..i])
        invariant browser.location == old(browser.location)
      {
        RemoveNextKey(old(browser.local), keys, i);
        RemoveNextKey(old(browser.session), keys, i);
        browser.local := browser.local - {keys[i]};
        browser.session := browser.session - {keys[i]};
        i := i + 1;
      }
      assert keys[..i] == keys;
      // every cookie is rewritten with an expiry date in the past
      browser.cookies := {};
    }

    method Logout(redirectToLogin: bool)
      requires Valid()
      modifies this`state, browser
      ensures Valid() && state == LoggedOut
      ensures browser.local == old(browser.local) - KeySet(ClearedKeys)
      ensures browser.session == old(browser.session) - KeySet(ClearedKeys)
      ensures browser.cookies == {}
      ensures browser.location == if redirectToLogin then "/login" else old(browser.location)
    {
      state := LoggedOut;
      ClearStorage();
      if redirectToLogin {
        browser.location := "/login";
      }
    }

    method LogoutComplete(redirectToLogin: bool)
      requires Valid()
      modifies this`state, browser
      ensures Valid() && state == LoggedOut
      ensures browser.local == old(browser.local) - KeySet(ClearedKeys) - CredentialKeys
      ensures browser.session == old(browser.session) - KeySet(ClearedKeys)
      ensures browser.cookies == {}
      ensures browser.location == if redirectToLogin then "/login" else old(browser.location)
    {
      state := LoggedOut;
      ClearStorage();
      ClearAutoLoginCredentials();
      if redirectToLogin {
        browser.location := "/login";
      }
    }

    /** `encrypted` is what `encryptPassword(password)` returned. */
    method SaveAutoLoginCredentials(username: string, encrypted: Option<string>)
      modifies browser`local
      ensures browser.local == SaveCredentials(old(browser.local), username, encrypted)
    {
      if Truthy(encrypted) {
        browser.local := browser.local[SavedUsernameKey := username];
        browser.local := browser.local[SavedPasswordKey := encrypted.value];
        browser.local := browser.local[RememberMeKey := "true"];
      }
    }

    function GetSavedPassword(): (p: Option<string>)
      reads this, browser
      ensures !Truthy(GetItem(browser.local, SavedPasswordKey)) ==> p.None?
      ensures p == SavedPassword(browser.local, decrypt)
    {
      var encrypted := GetItem(browser.local, SavedPasswordKey);
      if !Truthy(encrypted) then None else decrypt(encrypted.value)
    }

    function GetSavedUsername(): (u: Option<string>)
      reads this, browser
      ensures u.Some? <==> SavedUsernameKey in browser.local
      ensures SavedUsernameKey in browser.local ==> u == Some(browser.local[SavedUsernameKey])
    {
      GetItem(browser.local, SavedUsernameKey)
    }

    function IsRememberMeEnabled(): (on: bool)
      reads this, browser
      ensures on <==> RememberMeKey in browser.local && browser.local[RememberMeKey] == "true"
    {
      RememberMeOn(browser.local)
    }

    function HasAutoLoginCredentials(): (has: bool)
      reads this, browser
      ensures has <==> GetSavedUsername() != Some("") && GetSavedUsername().Some?
                       && Truthy(GetItem(browser.local, SavedPasswordKey))
    {
      CredentialsSaved(browser.local)
    }

    method ClearAutoLoginCredentials()
      modifies browser`local
      ensures browser.local == old(browser.local) - CredentialKeys
    {
      browser.local := browser.local - {SavedUsernameKey};
      browser.local := browser.local - {SavedPasswordKey};
      browser.local := browser.local - {RememberMeKey};
    }

    /**
     * `reply` is the awaited answer of the login endpoint and `encrypted`
     * what `encryptPassword(password)` returns; the request itself carries
     * `username`, `password` and `captcha`.
     */
    method Login(
      username: string, password: string, captcha: string, rememberMe: bool,
      reply: Reply<LoginData>, encrypted: Option<string>)
      returns (r: LoginResult)
      requires Valid()
      modifies this`state, browser`local
      ensures Valid()
      ensures r.LoginSucceeded? <==> Accepted(reply)
      ensures !Accepted(reply) ==>
        r == LoginFailed(FailureText(reply)) && browser.local == old(browser.local) && state == old(state)
      ensures Accepted(reply) ==>
        && browser.local == LoginWrites(old(browser.local), json, username, rememberMe, reply.data, encrypted)
        && state == LoggedInAs(reply.data)
    {
      if reply.Threw? {
        return LoginFailed(reply.error);
      }
      if reply.code != 200 {
        return LoginFailed(reply.message);
      }
      var d := reply.data;
      browser.local := browser.local[TokenKey := SetItemText(d.token)];
      browser.local := browser.local[TokenAltKey := SetItemText(d.token)];
      var userInfo := ProfileOf(d);
      browser.local := browser.local[UserInfoKey := json.stringify(userInfo)];
      if rememberMe {
        SaveAutoLoginCredentials(username, encrypted);
      } else {
        ClearAutoLoginCredentials();
      }
      state := UserState(true, Some(Put(userInfo, TokenField, d.token)));
      return LoginSucceeded;
    }

    /**
     * `captcha` is the awaited answer of the captcha endpoint, `reply` and
     * `encrypted` are passed on to `login`.
     */
    method TryAutoLogin(captcha: Reply<string>, reply: Reply<LoginData>, encrypted: Option<string>)
      returns (ok: bool)
      requires Valid()
      modifies this`state, browser`local
      ensures Valid()
      ensures !ReachesLogin(old(browser.local), decrypt, captcha) ==>
        !ok && browser.local == old(browser.local) && state == old(state)
      ensures ReachesLogin(old(browser.local), decrypt, captcha) ==>
        && ok == Accepted(reply)
        && (ok ==> browser.local == LoginWrites(old(browser.local), json,
                                                old(browser.local)[SavedUsernameKey], true,
                                                reply.data, encrypted)
                   && state == LoggedInAs(reply.data))
        && (!ok ==> browser.local == old(browser.local) - CredentialKeys && state == old(state))
    {
      var rememberMe := GetItem(browser.local, RememberMeKey) == Some("true");
      var username := GetItem(browser.local, SavedUsernameKey);
      var encryptedPwd := GetItem(browser.local, SavedPasswordKey);
      if !rememberMe || !Truthy(username) || !Truthy(encryptedPwd) {
        return false;
      }
      var password := decrypt(encryptedPwd.value);
      if !Truthy(password) {
        return false;
      }
      if captcha.Threw? || captcha.code != 200 {
        return false;
      }
      var result := Login(username.value, password.value, captcha.data, true, reply, encrypted);
      if result.LoginSucceeded? {
        return true;
      }
      ClearAutoLoginCredentials();
      return false;
    }

    /** `info` is the partial profile; members it leaves `undefined` are absent. */
    method SetUserInfo(info: Fields)
      requires Valid()
      modifies this`state, browser`local
      ensures Valid()
      ensures old(state.userInfo).None? ==> state == old(state) && browser.local == old(browser.local)
      ensures old(state.userInfo).Some? ==>
        && state == UserState(true, Some(Merged(old(state.userInfo.value), info)))
        && browser.local == PatchWrites(old(browser.local), json, old(state.userInfo.value), info)
    {
      if state.userInfo.None? {
        return;
      }
      var current := state.userInfo.value;
      var updated := current + (info - {TokenField, RefreshTokenField});
      var local := browser.local;
      if TokenField in info {
        local := local[TokenKey := info[TokenField]];
        updated := updated[TokenField := info[TokenField]];
      }
      if RefreshTokenField in info {
        local := local[RefreshTokenKey := info[RefreshTokenField]];
        updated := updated[RefreshTokenField := info[RefreshTokenField]];
      }
      MergeRestoresTokens(current, info, updated);
      state := state.(userInfo := Some(updated));
      browser.local := local[UserInfoKey := json.stringify(updated - {TokenField, RefreshTokenField})];
    }

    function ValidateLoginStatus(): (ok: bool)
      reads this, browser
      ensures ok ==> UsableToken(GetItem(browser.local, TokenKey))
      ensures ok ==> Truthy(GetItem(browser.local, UserInfoKey))
      ensures ok <==> LoginStatusValid(browser.local, json)
    {
      var token := GetItem(browser.local, TokenKey);
      var info := GetItem(browser.local, UserInfoKey);
      UsableToken(token) && Truthy(info) && json.parse(info.value).Some?
    }

    method ForceCheckLoginStatus() returns (ok: bool)
      requires Valid()
      modifies this`state
      ensures Valid()
      ensures !UsableToken(GetItem(browser.local, TokenKey)) ==> !ok && state == LoggedOut
      ensures UsableToken(GetItem(browser.local, TokenKey)) && !old(state.isLoggedIn) ==>
        state == Restored(browser.local, json) && ok == state.isLoggedIn
      ensures UsableToken(GetItem(browser.local, TokenKey)) && old(state.isLoggedIn) ==>
        ok && state == old(state)
    {
      var token := GetItem(browser.local, TokenKey);
      var hasToken := Truthy(token) && token.value != "undefined" && token.value != "null";
      if !hasToken && state.isLoggedIn {
        state := LoggedOut;
        return false;
      }
      if hasToken && !state.isLoggedIn {
        ok := RestoreFromStorage();
        return;
      }
      return state.isLoggedIn;
    }
  }

  /** Spreading the profile without the token fields and writing them back gives the plain merge. */
  lemma MergeRestoresTokens(current: Fields, info: Fields, updated: Fields)
    requires
      var spread := current + (info - {TokenField, RefreshTokenField});
      var withToken := if TokenField in info then spread[TokenField := info[TokenField]] else spread;
      updated == if RefreshTokenField in info then withToken[RefreshTokenField := info[RefreshTokenField]] else withToken
    ensures updated == Merged(current, info)
  {
    forall k | true
      ensures k in updated <==> k in Merged(current, info)
      ensures k in updated ==> updated[k] == Merged(current, info)[k]
    {
    }
  }

  /** `validateLoginStatus` on a given storage. */
  predicate LoginStatusValid(local: Store, json: Codec) {
    var info := GetItem(local, UserInfoKey);
    UsableToken(GetItem(local, TokenKey)) && Truthy(info) && json.parse(info.value).Some?
  }

  /** After a login whose answer carries a token, restoring from storage gives back the same session. */
  lemma LoginThenRestore(
    local: Store, json: Codec, username: string, rememberMe: bool,
    d: LoginData, encrypted: Option<string>)
    requires Lawful(json)
    requires Truthy(d.token)
    ensures Restored(LoginWrites(local, json, username, rememberMe, d, encrypted), json) == LoggedInAs(d)
  {
    var m := LoginWrites(local, json, username, rememberMe, d, encrypted);
    assert GetItem(m, TokenKey) == d.token;
    assert GetItem(m, UserInfoKey) == Some(json.stringify(ProfileOf(d)));
    assert json.parse(json.stringify(ProfileOf(d))) == Some(ProfileOf(d));
  }

  /** After logout storage holds no session, whatever it held before. */
  lemma LogoutThenRestore(local: Store, json: Codec)
    ensures Restored(local - KeySet(ClearedKeys), json) == LoggedOut
  {
    assert TokenKey in KeySet(ClearedKeys) && TokenAltKey in KeySet(ClearedKeys);
    assert UserInfoKey in KeySet(ClearedKeys);
  }

  /** `logout` keeps the remembered credentials; `logoutComplete` drops them. */
  lemma LogoutKeepsCredentials(local: Store)
    ensures var after := local - KeySet(ClearedKeys);
      && RememberMeOn(after) == RememberMeOn(local)
      && CredentialsSaved(after) == CredentialsSaved(local)
      && GetItem(after, SavedUsernameKey) == GetItem(local, SavedUsernameKey)
    ensures !RememberMeOn(local - KeySet(ClearedKeys) - CredentialKeys)
    ensures !CredentialsSaved(local - KeySet(ClearedKeys) - CredentialKeys)
  {
    assert SavedUsernameKey !in KeySet(ClearedKeys);
    assert SavedPasswordKey !in KeySet(ClearedKeys);
    assert RememberMeKey !in KeySet(ClearedKeys);
  }

  /** The profile `setUserInfo` stores never holds the tokens, and the alternate token key is left alone. */
  lemma PatchHidesTokens(local: Store, json: Codec, current: Fields, info: Fields)
    requires Lawful(json)
    ensures var m := PatchWrites(local, json, current, info);
      && UserInfoKey in m
      && (exists f :: json.parse(m[UserInfoKey]) == Some(f) && TokenField !in f && RefreshTokenField !in f
                      && f == Merged(current, info) - {TokenField, RefreshTokenField})
      && GetItem(m, TokenAltKey) == GetItem(local, TokenAltKey)
  {
    var f := Merged(current, info) - {TokenField, RefreshTokenField};
    assert json.parse(json.stringify(f)) == Some(f);
  }

  /** A login that stores a real token leaves a login status that validates. */
  lemma LoginMakesStatusValid(
    local: Store, json: Codec, username: string, rememberMe: bool,
    d: LoginData, encrypted: Option<string>)
    requires Lawful(json)
    requires UsableToken(d.token)
    ensures LoginStatusValid(LoginWrites(local, json, username, rememberMe, d, encrypted), json)
  {
    var m := LoginWrites(local, json, username, rememberMe, d, encrypted);
    assert GetItem(m, TokenKey) == d.token;
    assert GetItem(m, UserInfoKey) == Some(json.stringify(ProfileOf(d)));
    assert json.parse(json.stringify(ProfileOf(d))).Some?;
  }
}
