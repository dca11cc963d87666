/**
 * The axios client of `src/utils/request.js`: its request interceptor, the
 * business-code check on responses, and the error interceptor with its
 * single-flight auto-login (`isAutoLogging`, `failedQueue`, `_retry`).
 * Promises become explicit events: "an error reaches the interceptor" and
 * "the pending auto-login finished"; what the client then does is returned
 * as a list of effects.
 */
module Request {
  import opened Wrappers
  import opened Storage
  import Text
  import Decimal

  const AuthorizationHeader: string := "Authorization"

  /** The per-request config the interceptors read and write. */
  datatype Config = Config(id: nat, headers: map<string, string>, retried: bool, skipGlobalError: bool)

  /** `error.response`: the HTTP status and the `message` of the body, if any. */
  datatype ErrorResponse = ErrorResponse(status: int, message: Option<string>)

  /** The error handed to the error interceptor. */
  datatype Failure = Failure(
    config: Config,
    response: Option<ErrorResponse>,
    requestSent: bool,
    message: Option<string>)

  /** What the client does as a consequence of one event. */
  datatype Effect =
    | StartAutoLogin
    | Resubmit(config: Config)
    | Toast(text: string)
    | RejectWith(id: nat, reason: string)
    | RejectRaw(id: nat)

  /** How the awaited `autoLogin.tryAutoLogin()` ended. */
  datatype AutoLoginOutcome = Succeeded | Failed | Threw(message: string)

  /** The body of a response the transport delivered: `res.code` and `res.message`. */
  datatype Envelope = Envelope(code: Option<int>, message: Option<string>)

  /** The success interceptor either passes the body on or rejects and toasts. */
  datatype Verdict = PassOn | Refuse(message: string)

  const AutoLoginFailedText: string := "自动登录失败"
  const NetworkFailureText: string := "网络连接失败，请检查网络设置"
  const RequestFailedText: string := "请求失败，请稍后再试"
  const OperationFailedText: string := "操作失败"
  const FallbackPrefix: string := "请求失败 ("

  const StatusTable: map<int, string> := map[
    400 := "请求参数错误",
    401 := "未授权，请重新登录",
    403 := "没有权限访问此资源",
    404 := "请求的资源不存在",
    405 := "请求方法不允许",
    408 := "请求超时",
    409 := "资源冲突",
    413 := "请求体过大",
    422 := "请求格式错误",
    429 := "请求过于频繁，请稍后再试",
    500 := "服务器开小差了，请稍后再试",
    502 := "网关错误",
    503 := "服务不可用",
    504 := "网关超时"]

  /** `getHttpStatusMessage(status)` */
  function HttpStatusMessage(status: int): (m: string)
    ensures m != ""
    ensures status in StatusTable ==> m == StatusTable[status]
    ensures status !in StatusTable ==> m == FallbackPrefix + Decimal.IntToString(status) + ")"
  {
    if status in StatusTable then StatusTable[status]
    else FallbackPrefix + Decimal.IntToString(status) + ")"
  }

  /** The generic fallback text is produced exactly for the statuses the table does not list. */
  lemma FallbackIffUnlisted(status: int)
    ensures Text.StartsWith(HttpStatusMessage(status), FallbackPrefix) <==> status !in StatusTable
  {
    if status in StatusTable {
      var m := StatusTable[status];
      assert |m| >= 3 && m[2] != FallbackPrefix[2];
      if |FallbackPrefix| <= |m| {
        assert m[..|FallbackPrefix|][2] == m[2];
      }
    } else {
      var m := HttpStatusMessage(status);
      assert m[..|FallbackPrefix|] == FallbackPrefix;
    }
  }

  /** The fallback text of an unlisted status names that status between its parentheses. */
  lemma FallbackNamesStatus(status: int)
    requires status !in StatusTable && Decimal.IntMin <= status <= Decimal.IntMax
    ensures var m := HttpStatusMessage(status);
      |m| > |FallbackPrefix| && m[|m| - 1] == ')'
      && Decimal.JavaParseInt(m[|FallbackPrefix|..|m| - 1]) == Some(status)
  {
    var m := HttpStatusMessage(status);
    assert m[|FallbackPrefix|..|m| - 1] == Decimal.IntToString(status);
    Decimal.ParseIntOfIntToString(status);
  }

  /** The business-code check of the success interceptor. */
  function Classify(skipGlobalError: bool, res: Envelope): (v: Verdict)
    ensures v.PassOn? <==> skipGlobalError || res.code == Some(200) || res.code == Some(0)
    ensures v.Refuse? ==> v.message != ""
    ensures v.Refuse? && Truthy(res.message) ==> v.message == res.message.value
    ensures v.Refuse? && !Truthy(res.message) ==> v.message == OperationFailedText
  {
    if skipGlobalError then PassOn
    else if res.code == Some(200) || res.code == Some(0) then PassOn
    else Refuse(Or(res.message, Some(OperationFailedText)).value)
  }

  /** The request interceptor: a bearer header from `userToken || token` when one is non-empty. */
  function Authorize(config: Config, local: Store): (c: Config)
    ensures c.id == config.id && c.retried == config.retried && c.skipGlobalError == config.skipGlobalError
    ensures Truthy(StoredToken(local)) ==>
      c.headers == config.headers[AuthorizationHeader := "Bearer " + StoredToken(local).value]
    ensures !Truthy(StoredToken(local)) ==> c.headers == config.headers
  {
    var token := Or(GetItem(local, TokenKey), GetItem(local, TokenAltKey));
    if Truthy(token) then config.(headers := config.headers[AuthorizationHeader := "Bearer " + token.value])
    else config
  }

  /** The text the error interceptor toasts when it handles an error itself. */
  function ErrorToast(e: Failure): (t: string)
    ensures t != ""
    ensures e.response.Some? && Truthy(e.response.value.message) ==> t == e.response.value.message.value
    ensures e.response.Some? && !Truthy(e.response.value.message) ==> t == HttpStatusMessage(e.response.value.status)
    ensures e.response.None? && e.requestSent ==> t == NetworkFailureText
    ensures e.response.None? && !e.requestSent && Truthy(e.message) ==> t == e.message.value
    ensures e.response.None? && !e.requestSent && !Truthy(e.message) ==> t == RequestFailedText
  {
    if e.response.Some? then
      Or(e.response.value.message, Some(HttpStatusMessage(e.response.value.status))).value
    else if e.requestSent then NetworkFailureText
    else Or(e.message, Some(RequestFailedText)).value
  }

  /** The fall-through handling: toast unless `skipGlobalError`, then reject with the error itself. */
  function Generic(e: Failure): (effects: seq<Effect>)
    ensures |effects| >= 1 && effects[|effects| - 1] == RejectRaw(e.config.id)
    ensures e.config.skipGlobalError <==> |effects| == 1
    ensures !e.config.skipGlobalError ==> effects[0] == Toast(ErrorToast(e))
  {
    if e.config.skipGlobalError then [RejectRaw(e.config.id)]
    else [Toast(ErrorToast(e)), RejectRaw(e.config.id)]
  }

  /** A 401 on a request not yet retried: the case that involves auto-login. */
  predicate Unauthorized(e: Failure) {
    e.response.Some? && e.response.value.status == 401 && !e.config.retried
  }

  /** A config carrying `Bearer <token>`, the token interpolated as a template literal does. */
  function WithBearer(c: Config, token: Option<string>): Config {
    c.(headers := c.headers[AuthorizationHeader := "Bearer " + TemplateText(token)])
  }

  /** What happens to one waiter of `failedQueue` when the queue is processed. */
  function Settle(waiter: Config, error: Option<string>, token: Option<string>): Effect {
    if error.Some? then RejectWith(waiter.id, error.value) else Resubmit(WithBearer(waiter, token))
  }

  /** Number of auto-logins a list of effects starts. */
  function Starts(effects: seq<Effect>): nat {
    if effects == [] then 0
    else Starts(effects[..|effects| - 1]) + (if effects[|effects| - 1].StartAutoLogin? then 1 else 0)
  }

  lemma {:induction false} StartsAppend(a: seq<Effect>, b: seq<Effect>)
    ensures Starts(a + b) == Starts(a) + Starts(b)
    decreases |b|
  {
    if b == [] {
      assert a + b == a;
    } else {
      assert (a + b)[..|a + b| - 1] == a + b[..|b| - 1];
      StartsAppend(a, b[..|b| - 1]);
    }
  }

  /** The generic handling never starts an auto-login. */
  lemma GenericStartsNothing(e: Failure)
    ensures Starts(Generic(e)) == 0
  {
    var g := Generic(e);
    if |g| == 1 {
      assert g[..0] == [];
    } else {
      assert g[..1] == [Toast(ErrorToast(e))];
      assert g[..1][..0] == [];
      assert Starts(g[..1]) == 0;
      assert g[|g| - 1] == RejectRaw(e.config.id);
    }
  }

  /** The module-level state of the client. */
  class RequestClient {
    const browser: Browser
    var isAutoLogging: bool
    var failedQueue: seq<Config>
    /** The request whose 401 started the pending auto-login. */
    var original: Option<Failure>

    ghost predicate Valid()
      reads this
    {
      && (isAutoLogging <==> original.Some?)
      && (!isAutoLogging ==> failedQueue == [])
      && (original.Some? ==> original.value.config.retried)
    }

    constructor(browser: Browser)
      ensures Valid() && this.browser == browser
      ensures !isAutoLogging && failedQueue == [] && original == None
    {
      this.browser := browser;
      isAutoLogging := false;
      failedQueue := [];
      original := None;
    }

    /** `processQueue(error, token)`: every waiter is settled in order and the queue is emptied. */
    method ProcessQueue(error: Option<string>, token: Option<string>) returns (effects: seq<Effect>)
      modifies this`failedQueue
      ensures failedQueue == []
      ensures |effects| == |old(failedQueue)|
      ensures forall i :: 0 <= i < |effects| ==> effects[i] == Settle(old(failedQueue)[i], error, token)
    {
      effects := [];
      var i := 0;
      while i < |failedQueue|
        invariant 0 <= i <= |failedQueue|
        invariant failedQueue == old(failedQueue)
        invariant |effects| == i
        invariant forall j :: 0 <= j < i ==> effects[j] == Settle(failedQueue[j], error, token)
      {
        var prom := failedQueue[i];
        if error.Some? {
          effects := effects + [RejectWith(prom.id, error.value)];
        } else {
          effects := effects + [Resubmit(WithBearer(prom, token))];
        }
        i := i + 1;
      }
      failedQueue := [];
    }

    /** The error interceptor up to its first `await`. */
    method OnError(e: Failure) returns (effects: seq<Effect>)
      requires Valid()
      modifies this
      ensures Valid()
      ensures Unauthorized(e) && old(isAutoLogging) ==>
        && effects == [] && isAutoLogging
        && failedQueue == old(failedQueue) + [e.config] && original == old(original)
      ensures Unauthorized(e) && !old(isAutoLogging) ==>
        && effects == [StartAutoLogin] && isAutoLogging
        && failedQueue == old(failedQueue)
        && original == Some(e.(config := e.config.(retried := true)))
      ensures !Unauthorized(e) ==>
        && effects == Generic(e)
        && isAutoLogging == old(isAutoLogging) && failedQueue == old(failedQueue) && original == old(original)
    {
      if e.response.Some? && e.response.value.status == 401 && !e.config.retried {
        if isAutoLogging {
          failedQueue := failedQueue + [e.config];
          return [];
        }
        original := Some(e.(config := e.config.(retried := true)));
        isAutoLogging := true;
        return [StartAutoLogin];
      }
      effects := Generic(e);
    }

    /**
     * The error interceptor after `await autoLogin.tryAutoLogin()`. On failure
     * `userStore.clearUser()` throws, since the store has no such member, so
     * control passes to the `catch` and then to the generic handling; the
     * redirect to the login page is never reached.
     */
    method OnAutoLoginDone(outcome: AutoLoginOutcome) returns (effects: seq<Effect>)
      requires Valid() && isAutoLogging
      modifies this
      ensures Valid()
      ensures !isAutoLogging && failedQueue == [] && original == None
      ensures var waiters := old(failedQueue); var e := old(original.value);
        && |effects| >= |waiters| + 1
        && (forall i :: 0 <= i < |waiters| ==>
              effects[i] == Settle(waiters[i], ErrorOf(outcome), StoredToken(browser.local)))
        && (outcome.Succeeded? ==>
              effects[|waiters|..] == [Resubmit(WithBearer(e.config, StoredToken(browser.local)))])
        && (!outcome.Succeeded? ==> effects[|waiters|..] == Generic(e))
    {
      var e := original.value;
      if outcome.Succeeded? {
        var newToken := Or(GetItem(browser.local, TokenKey), GetItem(browser.local, TokenAltKey));
        effects := ProcessQueue(None, newToken);
        effects := effects + [Resubmit(WithBearer(e.config, newToken))];
      } else {
        var reason := if outcome.Failed? then AutoLoginFailedText else outcome.message;
        effects := ProcessQueue(Some(reason), None);
        // the second `processQueue` in the `catch` finds the queue empty
        var none := ProcessQueue(Some(reason), None);
        assert none == [];
        effects := effects + Generic(e);
      }
      isAutoLogging := false;
      original := None;
    }

    /**
     * A burst of errors arriving while no auto-login finishes starts at most
     * one auto-login, and none if one was already pending.
     */
    method OnErrors(errors: seq<Failure>) returns (effects: seq<Effect>)
      requires Valid()
      modifies this
      ensures Valid()
      ensures Starts(effects) <= 1
      ensures old(isAutoLogging) ==> Starts(effects) == 0
      ensures (exists i :: 0 <= i < |errors| && Unauthorized(errors[i])) ==> isAutoLogging
    {
      effects := [];
      var k := 0;
      while k < |errors|
        invariant 0 <= k <= |errors|
        invariant Valid()
        invariant Starts(effects) == if isAutoLogging && !old(isAutoLogging) then 1 else 0
        invariant old(isAutoLogging) ==> isAutoLogging
        invariant (exists i :: 0 <= i < k && Unauthorized(errors[i])) ==> isAutoLogging
      {
        var wasLogging := isAutoLogging;
        var step := OnError(errors[k]);
        if !Unauthorized(errors[k]) {
          GenericStartsNothing(errors[k]);
        } else if wasLogging {
          assert step == [];
        } else {
          assert step[..0] == [];
        }
        StartsAppend(effects, step);
        effects := effects + step;
        k := k + 1;
      }
    }
  }

  /** The error a waiter is rejected with, or none when it is resolved. */
  function ErrorOf(outcome: AutoLoginOutcome): Option<string> {
    match outcome
    case Succeeded => None
    case Failed => Some(AutoLoginFailedText)
    case Threw(message) => Some(message)
  }

  /** A retried request that gets 401 again is handled generically and never retried. */
  lemma RetriedIsNotRetriedAgain(e: Failure)
    requires e.config.retried
    ensures !Unauthorized(e)
    ensures Starts(Generic(e)) == 0
    ensures forall x :: x in Generic(e) ==> !x.Resubmit?
  {
    GenericStartsNothing(e);
  }
}
