/**
 * The browser state the client reads and writes: localStorage and
 * sessionStorage as maps from key to text, the cookie jar and the current
 * location, plus the key names of `src/utils/storageKeys.ts`.
 */
module Storage {
  import opened Wrappers

  type Store = map<string, string>

  const TokenKey: string := "userToken"
  const TokenAltKey: string := "token"
  const UserInfoKey: string := "userInfo"
  const SavedUsernameKey: string := "saved_username"
  const SavedPasswordKey: string := "saved_password"
  const RememberMeKey: string := "remember_me"
  /** Not among the shared constants; the stores spell it out. */
  const RefreshTokenKey: string := "refreshToken"

  /** The three keys of the "remember me" credentials. */
  const CredentialKeys: set<string> := {SavedUsernameKey, SavedPasswordKey, RememberMeKey}

  /** `storage.getItem(k)`: the stored text, or null. */
  function GetItem(m: Store, k: string): Option<string> {
    if k in m then Some(m[k]) else None
  }

  /** JavaScript truthiness of a `string | null`: present and non-empty. */
  predicate Truthy(v: Option<string>) {
    v.Some? && v.value != ""
  }

  /** JavaScript's `a || b` on two `string | null` values. */
  function Or(a: Option<string>, b: Option<string>): Option<string> {
    if Truthy(a) then a else b
  }

  /** The access token as every reader obtains it: `userToken || token`. */
  function StoredToken(m: Store): (t: Option<string>)
    ensures Truthy(t) <==> Truthy(GetItem(m, TokenKey)) || Truthy(GetItem(m, TokenAltKey))
    ensures Truthy(GetItem(m, TokenKey)) ==> t == GetItem(m, TokenKey)
    ensures !Truthy(GetItem(m, TokenKey)) ==> t == GetItem(m, TokenAltKey)
  {
    Or(GetItem(m, TokenKey), GetItem(m, TokenAltKey))
  }

  /** A `string | null` interpolated into a template literal. */
  function TemplateText(v: Option<string>): string {
    if v.Some? then v.value else "null"
  }

  /** The text `setItem` stores for a `string | undefined` value. */
  function SetItemText(v: Option<string>): string {
    if v.Some? then v.value else "undefined"
  }

  /** `isRememberMe()` / `isRememberMeEnabled()`: the flag is exactly 'true'. */
  predicate RememberMeOn(m: Store) {
    GetItem(m, RememberMeKey) == Some("true")
  }

  /** `hasSavedCredentials()` / `hasAutoLoginCredentials()`: both entries non-empty. */
  predicate CredentialsSaved(m: Store) {
    Truthy(GetItem(m, SavedUsernameKey)) && Truthy(GetItem(m, SavedPasswordKey))
  }

  /** The three writes of `saveCredentials`, made only for a truthy ciphertext. */
  function SaveCredentials(m: Store, username: string, encrypted: Option<string>): (r: Store)
    ensures !Truthy(encrypted) ==> r == m
    ensures Truthy(encrypted) ==> RememberMeOn(r) && (CredentialsSaved(r) <==> username != "")
    ensures Truthy(encrypted) ==> GetItem(r, SavedUsernameKey) == Some(username)
    ensures Truthy(encrypted) ==> GetItem(r, SavedPasswordKey) == encrypted
    ensures forall k :: k !in CredentialKeys ==> GetItem(r, k) == GetItem(m, k)
  {
    if Truthy(encrypted) then
      m[SavedUsernameKey := username][SavedPasswordKey := encrypted.value][RememberMeKey := "true"]
    else m
  }

  /** An object as a flat record of named fields. */
  type Fields = map<string, string>

  /** `JSON.stringify` and `JSON.parse` on such records. */
  datatype Codec = Codec(stringify: Fields -> string, parse: string -> Option<Fields>)

  /**
   * What the model requires of the JSON codec: the text of a record is never
   * empty and parses back to the record.
   */
  ghost predicate Lawful(c: Codec) {
    forall f :: c.stringify(f) != "" && c.parse(c.stringify(f)) == Some(f)
  }

  /** The browser as the client sees it. */
  class Browser {
    var local: Store
    var session: Store
    /** Names of the cookies that have not expired. */
    var cookies: set<string>
    /** The address a hard navigation last went to. */
    var location: string

    constructor(local: Store, session: Store, cookies: set<string>, location: string)
      ensures this.local == local && this.session == session
      ensures this.cookies == cookies && this.location == location
    {
      this.local := local;
      this.session := session;
      this.cookies := cookies;
      this.location := location;
    }
  }
}
