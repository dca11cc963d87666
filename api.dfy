/**
 * The second axios client, `service` of `src/api/index.ts`: its request
 * interceptor, its error interceptor with the status switch and the 401
 * session purge, `clearAuthHeader`, and the `request` helper that unwraps
 * `res.data`.
 */
module Api {
  import opened Wrappers
  import opened Storage
  import Decimal
  import Request

  const AuthorizationHeader: string := "Authorization"
  const ContentTypeHeader: string := "Content-Type"

  /** The keys the 401 branch and `clearAuthHeader` remove. */
  const SessionKeys: set<string> := {TokenKey, TokenAltKey, UserInfoKey, RefreshTokenKey}

  /** The generic rejection text when the server sent no message of its own. */
  function StatusText(response: Option<Request.ErrorResponse>): (m: string)
    ensures m != ""
    ensures response.None? ==> m == "请求失败"
    ensures response.Some? && response.value.status == 400 ==> m == "请求参数错误"
    ensures response.Some? && response.value.status == 401 ==> m == "未授权，请登录"
    ensures response.Some? && response.value.status == 403 ==> m == "拒绝访问"
    ensures response.Some? && response.value.status == 404 ==> m == "请求资源不存在"
    ensures response.Some? && response.value.status == 500 ==> m == "服务器内部错误"
    ensures response.Some? && response.value.status !in {400, 401, 403, 404, 500} ==>
      m == "连接错误: " + Decimal.IntToString(response.value.status)
  {
    if response.None? then "请求失败"
    else match response.value.status
      case 400 => "请求参数错误"
      case 401 => "未授权，请登录"
      case 403 => "拒绝访问"
      case 404 => "请求资源不存在"
      case 500 => "服务器内部错误"
      case _ => "连接错误: " + Decimal.IntToString(response.value.status)
  }

  /** The server's own message, when the error carries a non-empty one. */
  predicate HasServerMessage(response: Option<Request.ErrorResponse>) {
    response.Some? && Truthy(response.value.message)
  }

  /** The message the error interceptor rejects with. */
  function RejectionText(response: Option<Request.ErrorResponse>): (m: string)
    ensures m != ""
    ensures HasServerMessage(response) ==> m == response.value.message.value
    ensures !HasServerMessage(response) ==> m == StatusText(response)
  {
    if HasServerMessage(response) then response.value.message.value else StatusText(response)
  }

  /** Whether the error interceptor purges the session and leaves for the login page. */
  predicate PurgesSession(response: Option<Request.ErrorResponse>) {
    !HasServerMessage(response) && response.Some? && response.value.status == 401
  }

  /** The headers the request interceptor sends. */
  function PreparedHeaders(headers: map<string, string>, local: Store, isFormData: bool): (h: map<string, string>)
    ensures Truthy(StoredToken(local)) ==>
      AuthorizationHeader in h && h[AuthorizationHeader] == "Bearer " + StoredToken(local).value
    ensures !Truthy(StoredToken(local)) ==>
      (AuthorizationHeader in h <==> AuthorizationHeader in headers)
      && (AuthorizationHeader in h ==> h[AuthorizationHeader] == headers[AuthorizationHeader])
    ensures isFormData ==> ContentTypeHeader !in h
    ensures !isFormData ==> (ContentTypeHeader in h <==> ContentTypeHeader in headers)
    ensures forall k :: k in headers && k != AuthorizationHeader && k != ContentTypeHeader ==>
      k in h && h[k] == headers[k]
    ensures forall k :: k in h ==> k in headers || k == AuthorizationHeader
  {
    var token := Or(GetItem(local, TokenKey), GetItem(local, TokenAltKey));
    var withToken := if Truthy(token) then headers[AuthorizationHeader := "Bearer " + token.value] else headers;
    if isFormData then withToken - {ContentTypeHeader} else withToken
  }

  /** Both clients attach the same bearer header for the same storage. */
  lemma ClientsAgreeOnBearer(c: Request.Config, local: Store)
    ensures PreparedHeaders(c.headers, local, false) == Request.Authorize(c, local).headers
  {
  }

  /** A transport response: the status and the parsed body. */
  datatype Response<T> = Response(status: int, data: T)

  /** A settled promise. */
  datatype Settled<T> = Resolved(value: T) | Rejected(message: string)

  /** `request(config)`: the success interceptor passes the response on and `request` keeps its `data`. */
  function Unwrap<T>(transport: Settled<Response<T>>): (r: Settled<T>)
    ensures r.Resolved? <==> transport.Resolved?
    ensures transport.Resolved? ==> r.value == transport.value.data
    ensures transport.Rejected? ==> r.message == transport.message
  {
    match transport
    case Resolved(response) => Resolved(response.data)
    case Rejected(message) => Rejected(message)
  }

  /** A request config whose headers the interceptor rewrites in place. */
  class RequestConfig {
    var headers: map<string, string>
    /** `config.data instanceof FormData` */
    const isFormData: bool

    constructor(headers: map<string, string>, isFormData: bool)
      ensures this.headers == headers && this.isFormData == isFormData
    {
      this.headers := headers;
      this.isFormData := isFormData;
    }
  }

  class ApiClient {
    const browser: Browser
    /** `service.defaults.headers.common` */
    var defaultHeaders: map<string, string>

    constructor(browser: Browser, defaultHeaders: map<string, string>)
      ensures this.browser == browser && this.defaultHeaders == defaultHeaders
    {
      this.browser := browser;
      this.defaultHeaders := defaultHeaders;
    }

    method InterceptRequest(config: RequestConfig)
      modifies config`headers
      ensures config.headers == PreparedHeaders(old(config.headers), browser.local, config.isFormData)
    {
      var token := Or(GetItem(browser.local, TokenKey), GetItem(browser.local, TokenAltKey));
      if Truthy(token) {
        config.headers := config.headers[AuthorizationHeader := "Bearer " + token.value];
      }
      if config.isFormData {
        config.headers := config.headers - {ContentTypeHeader};
      }
    }

    /** The error interceptor; the result is the message of the `Error` it rejects with. */
    method OnResponseError(response: Option<Request.ErrorResponse>) returns (message: string)
      modifies browser`local, browser`location
      ensures message == RejectionText(response)
      ensures PurgesSession(response) ==>
        browser.local == old(browser.local) - SessionKeys && browser.location == "/login"
      ensures !PurgesSession(response) ==>
        browser.local == old(browser.local) && browser.location == old(browser.location)
    {
      if response.Some? && Truthy(response.value.message) {
        return response.value.message.value;
      }
      message := "请求失败";
      if response.Some? {
        var status := response.value.status;
        if status == 400 {
          message := "请求参数错误";
        } else if status == 401 {
          message := "未授权，请登录";
          browser.local := browser.local - {TokenKey};
          browser.local := browser.local - {TokenAltKey};
          browser.local := browser.local - {UserInfoKey};
          browser.local := browser.local - {RefreshTokenKey};
          browser.location := "/login";
        } else if status == 403 {
          message := "拒绝访问";
        } else if status == 404 {
          message := "请求资源不存在";
        } else if status == 500 {
          message := "服务器内部错误";
        } else {
          message := "连接错误: " + Decimal.IntToString(status);
        }
      }
    }

    method ClearAuthHeader()
      modifies browser`local, this`defaultHeaders
      ensures browser.local == old(browser.local) - SessionKeys
      ensures defaultHeaders == old(defaultHeaders) - {AuthorizationHeader}
    {
      browser.local := browser.local - {TokenKey};
      browser.local := browser.local - {TokenAltKey};
      browser.local := browser.local - {UserInfoKey};
      browser.local := browser.local - {RefreshTokenKey};
      defaultHeaders := defaultHeaders - {AuthorizationHeader};
    }
  }

  /** After the purge no bearer token is left for either client to send. */
  lemma PurgeLeavesNoToken(local: Store)
    ensures !Truthy(StoredToken(local - SessionKeys))
    ensures PreparedHeaders(map[], local - SessionKeys, false) == map[]
  {
  }

  /** A server message wins even for a 401: nothing is purged then. */
  lemma ServerMessageWins(status: int, text: string)
    requires text != ""
    ensures !PurgesSession(Some(Request.ErrorResponse(status, Some(text))))
    ensures RejectionText(Some(Request.ErrorResponse(status, Some(text)))) == text
  {
  }
}
