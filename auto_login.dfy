/**
 * `AutoLoginService` of `src/utils/autoLogin.ts`: the singleton that keeps
 * the "remember me" credentials and signs in with them at start-up through
 * the user store's `login`.
 */
module AutoLogin {
  import opened Wrappers
  import opened Replies
  import opened Storage
  import opened UserStore
  import Text

  /** The words that mark a failed login as a wrong user name or password. */
  const PasswordWord: string := "密码"
  const UsernameWord: string := "用户名"

  /** A login failure that makes `tryAutoLogin` forget the credentials. */
  predicate BadCredentials(error: string) {
    Text.Contains(error, PasswordWord) || Text.Contains(error, UsernameWord)
  }

  class AutoLoginService {
    const browser: Browser
    const store: UserStore

    ghost predicate Valid()
      reads this, store
    {
      store.browser == browser && store.Valid()
    }

    constructor(store: UserStore)
      requires store.Valid()
      ensures Valid() && this.store == store
    {
      this.store := store;
      this.browser := store.browser;
    }

    /** `encrypted` is what `encryptPassword(password)` returned. */
    method SaveCredentials(username: string, encrypted: Option<string>)
      modifies browser`local
      ensures browser.local == Storage.SaveCredentials(old(browser.local), username, encrypted)
    {
      if Truthy(encrypted) {
        browser.local := browser.local[SavedUsernameKey := username];
        browser.local := browser.local[SavedPasswordKey := encrypted.value];
        browser.local := browser.local[RememberMeKey := "true"];
      }
    }

    function GetSavedPassword(): (p: Option<string>)
      reads this, store, browser
      ensures !Truthy(GetItem(browser.local, SavedPasswordKey)) ==> p.None?
      ensures p == SavedPassword(browser.local, store.decrypt)
    {
      var encrypted := GetItem(browser.local, SavedPasswordKey);
      if !Truthy(encrypted) then None else store.decrypt(encrypted.value)
    }

    function GetSavedUsername(): (u: Option<string>)
      reads this, browser
      ensures u.Some? <==> SavedUsernameKey in browser.local
      ensures SavedUsernameKey in browser.local ==> u == Some(browser.local[SavedUsernameKey])
    {
      GetItem(browser.local, SavedUsernameKey)
    }

    function IsRememberMe(): (on: bool)
      reads this, browser
      ensures on <==> RememberMeKey in browser.local && browser.local[RememberMeKey] == "true"
    {
      RememberMeOn(browser.local)
    }

    function HasSavedCredentials(): (has: bool)
      reads this, browser
      ensures has <==> GetSavedUsername() != Some("") && GetSavedUsername().Some?
                       && Truthy(GetItem(browser.local, SavedPasswordKey))
    {
      CredentialsSaved(browser.local)
    }

    method ClearCredentials()
      modifies browser`local
      ensures browser.local == old(browser.local) - CredentialKeys
    {
      browser.local := browser.local - {SavedUsernameKey};
      browser.local := browser.local - {SavedPasswordKey};
      browser.local := browser.local - {RememberMeKey};
    }

    /**
     * `captcha` is the awaited answer of the captcha endpoint, `reply` and
     * `encrypted` what the store's `login` is given back.
     */
    method TryAutoLogin(captcha: Reply<string>, reply: Reply<LoginData>, encrypted: Option<string>)
      returns (ok: bool)
      requires Valid()
      modifies store`state, browser`local
      ensures Valid()
      ensures !RememberMeOn(old(browser.local)) || !CredentialsSaved(old(browser.local)) ==>
        !ok && browser.local == old(browser.local) && store.state == old(store.state)
      ensures RememberMeOn(old(browser.local)) && CredentialsSaved(old(browser.local))
              && !Truthy(SavedPassword(old(browser.local), store.decrypt)) ==>
        !ok && browser.local == old(browser.local) - CredentialKeys && store.state == old(store.state)
      ensures ReachesLogin(old(browser.local), store.decrypt, captcha) ==>
        && ok == Accepted(reply)
        && (ok ==> browser.local == LoginWrites(old(browser.local), store.json,
                                                old(browser.local)[SavedUsernameKey], true,
                                                reply.data, encrypted)
                   && store.state == LoggedInAs(reply.data))
        && (!ok && BadCredentials(FailureText(reply)) ==>
              browser.local == old(browser.local) - CredentialKeys && store.state == old(store.state))
        && (!ok && !BadCredentials(FailureText(reply)) ==>
              browser.local == old(browser.local) && store.state == old(store.state))
      ensures RememberMeOn(old(browser.local)) && CredentialsSaved(old(browser.local))
              && Truthy(SavedPassword(old(browser.local), store.decrypt))
              && !(captcha.Reply? && captcha.code == 200) ==>
        !ok && browser.local == old(browser.local) && store.state == old(store.state)
    {
      if !IsRememberMe() || !HasSavedCredentials() {
        return false;
      }
      var username := GetSavedUsername();
      var password := GetSavedPassword();
      if !Truthy(username) || !Truthy(password) {
        ClearCredentials();
        return false;
      }
      if captcha.Threw? || captcha.code != 200 {
        return false;
      }
      var result := store.Login(username.value, password.value, captcha.data, true, reply, encrypted);
      if result.LoginSucceeded? {
        return true;
      }
      if BadCredentials(result.error) {
        ClearCredentials();
      }
      return false;
    }

    /** Sign out without forgetting the credentials. */
    method Logout()
      modifies browser`local
      ensures browser.local == old(browser.local) - {TokenKey, TokenAltKey, UserInfoKey}
    {
      browser.local := browser.local - {TokenKey};
      browser.local := browser.local - {TokenAltKey};
      browser.local := browser.local - {UserInfoKey};
    }

    method LogoutComplete()
      modifies browser`local
      ensures browser.local == old(browser.local) - {TokenKey, TokenAltKey, UserInfoKey} - CredentialKeys
    {
      Logout();
      ClearCredentials();
    }
  }

  /** The service's `logout` leaves no session to restore and keeps the credentials. */
  lemma ServiceLogoutEndsSession(local: Store, json: Codec)
    ensures Restored(local - {TokenKey, TokenAltKey, UserInfoKey}, json) == LoggedOut
    ensures RememberMeOn(local - {TokenKey, TokenAltKey, UserInfoKey}) == RememberMeOn(local)
    ensures CredentialsSaved(local - {TokenKey, TokenAltKey, UserInfoKey}) == CredentialsSaved(local)
  {
  }

  /**
   * The service's `logout` removes fewer keys than the store's: the refresh
   * token survives it.
   */
  lemma ServiceLogoutKeepsRefreshToken(local: Store)
    requires RefreshTokenKey in local
    ensures RefreshTokenKey in local - {TokenKey, TokenAltKey, UserInfoKey}
    ensures RefreshTokenKey !in local - KeySet(ClearedKeys)
  {
    assert RefreshTokenKey in KeySet(ClearedKeys);
  }

  /**
   * Of the login refusals of `TestController.login`, only the wrong-password
   * message makes the service forget the saved credentials: an unknown
   * user, a disabled account and a wrong captcha keep them.
   */
  lemma {:induction false} LoginRefusalsClassified()
    ensures BadCredentials("密码错误")
    ensures !BadCredentials("用户不存在")
    ensures !BadCredentials("账号已被禁用")
    ensures !BadCredentials("验证码错误")
  {
    assert Text.OccursAt("密码错误", PasswordWord, 0);
    Text.AbsentFirstChar("用户不存在", PasswordWord);
    assert !Text.Contains("用户不存在", UsernameWord) by {
      forall i | 0 <= i <= |"用户不存在"| ensures !Text.OccursAt("用户不存在", UsernameWord, i) {
        if i <= 2 {
          assert "用户不存在"[i..i + 3][2] != UsernameWord[2];
        }
      }
    }
    Text.AbsentFirstChar("账号已被禁用", PasswordWord);
    assert !Text.Contains("账号已被禁用", UsernameWord) by {
      forall i | 0 <= i <= |"账号已被禁用"| ensures !Text.OccursAt("账号已被禁用", UsernameWord, i) {
        if i <= 3 {
          assert "账号已被禁用"[i..i + 3][0] != UsernameWord[0];
        }
      }
    }
    Text.AbsentFirstChar("验证码错误", PasswordWord);
    Text.AbsentFirstChar("验证码错误", UsernameWord);
  }
}
