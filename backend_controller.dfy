/**
 * The stateful endpoints of the backend's `controller/TestController.java`:
 * sending an e-mail code, registering, logging in and reading the profile.
 * The controller's three concurrent maps and the `users` table are the
 * fields of `Controller`; every endpoint is specified by an outcome function
 * of the state before the call, and the lemmas below relate those outcomes.
 */
module BackendController {
  import opened Wrappers
  import Text
  import opened Decimal
  import Lists
  import opened BackendUser
  import opened BackendRules

  const RegisterWindow: int := 30
  const VerifyWindow: int := 60
  /** The lifetime of an e-mail code, in seconds, as the response announces it. */
  const CodeLifetime: int := 600
  /** The code stored when no mail went out, and the only captcha `login` accepts. */
  const FixedCode: string := "123456"
  const DigitChars: string := "0123456789"

  const UsernameRuleText: string := "用户名只能包含字母、数字和下划线，长度3-20位"
  const PasswordRuleText: string := "密码至少6位，需包含字母和数字"
  const BlankUsernameText: string := "用户名不能为空"
  const ShortPasswordText: string := "密码长度至少6位"
  const EmailFormatText: string := "邮箱格式不正确"
  const CodeRejectedText: string := "验证码错误或已过期"
  const DevTip: string := "开发模式：验证码固定为 123456"

  /** One reading of the clock: whole seconds, milliseconds and the ISO text. */
  datatype Clock = Clock(seconds: int, millis: nat, text: string)

  /** The request headers `getClientIp` consults, and the peer address. */
  datatype Headers = Headers(forwardedFor: Option<string>, proxyClientIp: Option<string>,
                             wlProxyClientIp: Option<string>, remoteAddr: string)

  /** The controller's maps and the `users` table with its next identity value. */
  datatype State = State(codes: map<string, string>, lastRegister: map<string, int>,
                         lastVerify: map<string, int>, users: seq<UserRow>, nextId: int)

  /**
   * Which of the two flawed checks of the controller the model applies: the
   * password check and the student-number check as the source writes them,
   * or as their purpose calls for.
   */
  datatype Rules = AsWritten | Corrected

  /** A response and the state it leaves behind. */
  datatype Outcome = Outcome(response: Response, state: State)

  function CodeKey(email: string): string { "email:" + email }
  function VerifyKey(email: string): string { "verify:" + email }

  function Lookup(request: map<string, string>, key: string): Option<string> {
    if key in request then Some(request[key]) else None
  }

  /** The address `register` rate-limits by; the peer address is always known. */
  function RequestIp(h: Headers): (ip: string)
    ensures h.forwardedFor.None? && h.proxyClientIp.None? && h.wlProxyClientIp.None? && ',' !in h.remoteAddr
            ==> ip == h.remoteAddr
  {
    var r := ClientIp(h.forwardedFor, h.proxyClientIp, h.wlProxyClientIp, Some(h.remoteAddr));
    r.value
  }

  // ----- rate limits -----

  /** A key whose last success lies less than `window` seconds back. */
  predicate Throttled(times: map<string, int>, key: string, now: int, window: int) {
    key in times && now - times[key] < window
  }

  /** The refusal text: the window less the seconds already passed. */
  function WaitText(prefix: string, times: map<string, int>, key: string, now: int, window: int): string
    requires key in times
  {
    prefix + IntToString(window - (now - times[key])) + "秒后再试"
  }

  // ----- the users table -----

  predicate NameTaken(users: seq<UserRow>, name: string) {
    exists i :: 0 <= i < |users| && users[i].username == name
  }

  predicate EmailTaken(users: seq<UserRow>, email: string) {
    exists i :: 0 <= i < |users| && users[i].email == email
  }

  predicate HasStudentId(users: seq<UserRow>, sid: string) {
    exists i :: 0 <= i < |users| && users[i].studentId == Some(sid)
  }

  /** The student-number check of `register` as written: it looks up the text as received. */
  predicate DuplicateStudentIdAsWritten(users: seq<UserRow>, sid: Option<string>) {
    sid.Some? && Text.Trim(sid.value) != "" && HasStudentId(users, sid.value)
  }

  /** The check the stored value calls for: it looks up the trimmed text that is saved. */
  predicate DuplicateStudentId(users: seq<UserRow>, sid: Option<string>) {
    sid.Some? && Text.Trim(sid.value) != "" && HasStudentId(users, Text.Trim(sid.value))
  }

  /** The student-number check `register` applies under the given rules. */
  predicate StudentIdClash(rules: Rules, users: seq<UserRow>, sid: Option<string>) {
    if rules.AsWritten? then DuplicateStudentIdAsWritten(users, sid) else DuplicateStudentId(users, sid)
  }

  /** The password check `login` applies under the given rules. */
  predicate PasswordAccepted(rules: Rules, raw: Option<string>, encoded: string) {
    if rules.AsWritten? then CheckPasswordAsWritten(raw, Some(encoded)) else PasswordMatches(raw, Some(encoded))
  }

  /** Two rows that the identity and the unique columns tell apart. */
  predicate Distinct(a: UserRow, b: UserRow) {
    a.id != b.id && a.username != b.username && a.email != b.email
  }

  /** The intended student-number rule: no non-empty student number appears twice. */
  predicate StudentIdsUnique(users: seq<UserRow>) {
    forall i, j :: 0 <= i < j < |users| && users[i].studentId.Some? && users[i].studentId.value != "" ==>
      users[i].studentId != users[j].studentId
  }

  /** The table's invariant: unique columns and identities below the next one. */
  predicate TableConsistent(users: seq<UserRow>, nextId: int) {
    && 1 <= nextId
    && (forall i, j :: 0 <= i < j < |users| ==> Distinct(users[i], users[j]))
    && (forall i :: 0 <= i < |users| ==> 1 <= users[i].id < nextId)
  }

  predicate Consistent(s: State) {
    TableConsistent(s.users, s.nextId)
  }

  /** In a consistent table an identity names one row. */
  lemma IdentityNamesOneRow(users: seq<UserRow>, nextId: int, i: nat, j: nat)
    requires TableConsistent(users, nextId)
    requires i < |users| && j < |users| && users[i].id == users[j].id
    ensures i == j
  {
  }

  /** In a consistent table a user name names one row. */
  lemma NameNamesOneRow(users: seq<UserRow>, nextId: int, i: nat, j: nat)
    requires TableConsistent(users, nextId)
    requires i < |users| && j < |users| && users[i].username == users[j].username
    ensures i == j
  {
  }

  /** A row with a fresh identity, name, e-mail and student number keeps the table consistent. */
  lemma AppendKeepsConsistent(users: seq<UserRow>, nextId: int, row: UserRow)
    requires TableConsistent(users, nextId)
    requires row.id == nextId
    requires !NameTaken(users, row.username) && !EmailTaken(users, row.email)
    ensures TableConsistent(users + [row], nextId + 1)
  {
    var t := users + [row];
    forall i, j | 0 <= i < j < |t|
      ensures Distinct(t[i], t[j])
    {
      if j == |users| {
        assert t[i] == users[i] && t[j] == row;
      }
    }
  }

  /** A row whose student number is new keeps student numbers unique. */
  lemma AppendKeepsStudentIdsUnique(users: seq<UserRow>, row: UserRow)
    requires StudentIdsUnique(users)
    requires row.studentId.Some? && row.studentId.value != "" ==> !HasStudentId(users, row.studentId.value)
    ensures StudentIdsUnique(users + [row])
  {
    var t := users + [row];
    forall i, j | 0 <= i < j < |t| && t[i].studentId.Some? && t[i].studentId.value != ""
      ensures t[i].studentId != t[j].studentId
    {
      if j == |users| {
        assert t[i] == users[i] && t[j] == row;
      }
    }
  }

  /** The column lengths of the `users` table. */
  predicate Fits(o: Option<string>, n: nat) { o.None? || |o.value| <= n }

  predicate ColumnsFit(row: UserRow) {
    && |row.username| <= 50 && |row.password| <= 100 && |row.email| <= 100 && |row.role| <= 20
    && Fits(row.studentId, 20) && Fits(row.major, 100) && Fits(row.college, 100) && Fits(row.grade, 20)
  }

  /** `save` throws: a unique column repeats or a text is longer than its column. */
  predicate SaveRejected(users: seq<UserRow>, row: UserRow) {
    NameTaken(users, row.username) || EmailTaken(users, row.email) || !ColumnsFit(row)
  }

  // ----- e-mail codes -----

  /** `verifyEmailCode`: both texts given and the stored code equal to the one sent. */
  predicate CodeAccepted(codes: map<string, string>, email: Option<string>, code: Option<string>) {
    email.Some? && code.Some? && CodeKey(email.value) in codes && codes[CodeKey(email.value)] == code.value
  }

  /** The codes after `verifyEmailCode`: an accepted code is removed, anything else stays. */
  function CodesAfterCheck(codes: map<string, string>, email: Option<string>, code: Option<string>): map<string, string> {
    if CodeAccepted(codes, email, code) then codes - {CodeKey(email.value)} else codes
  }

  /** A code works once: whatever is sent next for that address is refused; a mismatch spends nothing. */
  lemma CodeSingleUse(codes: map<string, string>, email: string, code: string, again: Option<string>)
    ensures CodeAccepted(codes, Some(email), Some(code)) ==>
      !CodeAccepted(CodesAfterCheck(codes, Some(email), Some(code)), Some(email), again)
    ensures !CodeAccepted(codes, Some(email), Some(code)) ==>
      CodesAfterCheck(codes, Some(email), Some(code)) == codes
    ensures CodesAfterCheck(codes, None, again) == codes && CodesAfterCheck(codes, Some(email), None) == codes
  {
  }

  /** The six characters picked by six draws from `0..9`. */
  function CodeOf(draws: seq<int>): (code: string)
    requires |draws| == 6 && forall i :: 0 <= i < |draws| ==> 0 <= draws[i] < 10
    ensures |code| == 6 && AllDigits(code)
    ensures forall i :: 0 <= i < 6 ==> code[i] as int - '0' as int == draws[i]
  {
    seq(6, i requires 0 <= i < 6 => DigitChars[draws[i]])
  }

  /** `generateRandomCode`, with the six draws of the random source as input. */
  method GenerateRandomCode(draws: seq<int>) returns (code: string)
    requires |draws| == 6 && forall i :: 0 <= i < |draws| ==> 0 <= draws[i] < 10
    ensures code == CodeOf(draws)
  {
    code := "";
    var i := 0;
    while i < 6
      invariant 0 <= i <= 6
      invariant code == CodeOf(draws)[..i]
    {
      code := code + [DigitChars[draws[i]]];
      i := i + 1;
    }
  }

  /** `sendVerifyCode`: format, then the per-address limit, then registration, then the code is stored. */
  function SendCodeOutcome(s: State, email: Option<string>, code: string, mailSent: bool, now: int): (o: Outcome)
    ensures Coherent(o.response)
    ensures o.response.status != 200 ==> o.state == s
    ensures o.response.status == 200 <==>
      email.Some? && '@' in email.value && !Throttled(s.lastVerify, VerifyKey(email.value), now, VerifyWindow)
      && !EmailTaken(s.users, email.value)
    ensures o.response.status == 200 ==>
      && o.state.codes == s.codes[CodeKey(email.value) := if mailSent then code else FixedCode]
      && o.state.lastVerify == s.lastVerify[VerifyKey(email.value) := now]
    ensures o.state.users == s.users && o.state.lastRegister == s.lastRegister && o.state.nextId == s.nextId
  {
    if email.None? || '@' !in email.value then
      Outcome(ErrorResponse(400, EmailFormatText), s)
    else
      var e := email.value;
      if Throttled(s.lastVerify, VerifyKey(e), now, VerifyWindow) then
        Outcome(ErrorResponse(429, WaitText("验证码发送过于频繁，请", s.lastVerify, VerifyKey(e), now, VerifyWindow)), s)
      else if EmailTaken(s.users, e) then
        Outcome(ErrorResponse(400, "邮箱已被注册"), s)
      else
        var stored := if mailSent then code else FixedCode;
        var tip := if mailSent then None else Some(DevTip);
        Outcome(Ok("验证码发送成功", CodeSent(e, CodeLifetime, tip)),
                s.(codes := s.codes[CodeKey(e) := stored], lastVerify := s.lastVerify[VerifyKey(e) := now]))
  }

  // ----- registration -----

  /** The fields `register` reads from its JSON body. */
  datatype Form = Form(username: Option<string>, password: Option<string>, email: Option<string>,
                       verifyCode: Option<string>, studentId: Option<string>, major: Option<string>,
                       college: Option<string>, grade: Option<string>, gender: int)

  function FormOf(request: Body): Form {
    Form(StringValue(request, "username"), StringValue(request, "password"), StringValue(request, "email"),
         StringValue(request, "verifyCode"), StringValue(request, "studentId"), StringValue(request, "major"),
         StringValue(request, "college"), StringValue(request, "grade"), IntegerValue(request, "gender", 0))
  }

  /**
   * The format checks of `register`, in their order; the first failing one
   * names the refusal. The blank-name and short-password checks that follow
   * the two rules can never be the one that fails.
   */
  function FormProblem(f: Form): (m: Option<string>)
    ensures m.None? <==> IsValidUsername(f.username) && IsValidPassword(f.password) && f.email.Some? && '@' in f.email.value
    ensures !IsValidUsername(f.username) ==> m == Some(UsernameRuleText)
    ensures IsValidUsername(f.username) && !IsValidPassword(f.password) ==> m == Some(PasswordRuleText)
    ensures m != Some(BlankUsernameText) && m != Some(ShortPasswordText)
  {
    if !IsValidUsername(f.username) then Some(UsernameRuleText)
    else if !IsValidPassword(f.password) then Some(PasswordRuleText)
    else
      LaterChecksRedundant(f.username, f.password);
      if Text.Trim(f.username.value) == "" then Some(BlankUsernameText)
      else if Text.Utf16Length(f.password.value) < 6 then Some(ShortPasswordText)
      else if f.email.None? || '@' !in f.email.value then Some(EmailFormatText)
      else None
  }

  function TrimmedOpt(o: Option<string>): Option<string> {
    if o.None? then None else Some(Text.Trim(o.value))
  }

  function RegisterMetadata(ip: string, time: string): map<string, string> {
    map["theme" := "light", "notifications" := "true", "registered_via" := "web",
        "registration_time" := time, "register_ip" := ip]
  }

  /** The row `register` saves: trimmed texts, the encoded password, status 1, role "user". */
  function NewRow(id: int, f: Form, ip: string, clock: Clock): UserRow
    requires f.username.Some? && f.password.Some? && f.email.Some?
  {
    UserRow(id, Text.Trim(f.username.value), EncodePassword(f.password.value, clock.millis),
            Text.Trim(f.email.value), f.gender, None, 1, "user",
            TrimmedOpt(f.studentId), TrimmedOpt(f.major), TrimmedOpt(f.college), TrimmedOpt(f.grade),
            Some(clock.seconds), None, Some(RegisterMetadata(ip, clock.text)))
  }

  /**
   * `register`: the address limit, the format checks, the code (spent from
   * here on), the three uniqueness checks and the save, in that order. Only
   * a saved row records the address.
   */
  function RegisterOutcome(rules: Rules, s: State, f: Form, ip: string, clock: Clock, saveError: string): (o: Outcome)
    ensures Coherent(o.response)
    ensures o.response.status == 200 <==> |o.state.users| == |s.users| + 1
    ensures o.response.status != 200 ==>
      o.state.users == s.users && o.state.nextId == s.nextId && o.state.lastRegister == s.lastRegister
    ensures o.response.status == 200 ==>
      && o.state.users[..|s.users|] == s.users && o.state.nextId == s.nextId + 1
      && o.state.lastRegister == s.lastRegister[ip := clock.seconds]
    ensures o.state.codes == s.codes ||
      (CodeAccepted(s.codes, f.email, f.verifyCode) && o.state.codes == s.codes - {CodeKey(f.email.value)})
    ensures o.state.lastVerify == s.lastVerify
    ensures o.response.status == 200 ==>
      && !Throttled(s.lastRegister, ip, clock.seconds, RegisterWindow) && FormProblem(f).None?
      && CodeAccepted(s.codes, f.email, f.verifyCode) && o.state.codes == s.codes - {CodeKey(f.email.value)}
    ensures FormProblem(f).Some? ==> o.state == s
  {
    if Throttled(s.lastRegister, ip, clock.seconds, RegisterWindow) then
      Outcome(ErrorResponse(429, WaitText("注册过于频繁，请", s.lastRegister, ip, clock.seconds, RegisterWindow)), s)
    else if FormProblem(f).Some? then
      Outcome(ErrorResponse(400, FormProblem(f).value), s)
    else if !CodeAccepted(s.codes, f.email, f.verifyCode) then
      Outcome(ErrorResponse(400, CodeRejectedText), s)
    else
      EnrollOutcome(rules, s.(codes := s.codes - {CodeKey(f.email.value)}), f, ip, clock, saveError)
  }

  /**
   * The part of `register` after the code is spent: the three uniqueness
   * checks, then the save, which records the address.
   */
  function EnrollOutcome(rules: Rules, s: State, f: Form, ip: string, clock: Clock, saveError: string): (o: Outcome)
    requires f.username.Some? && f.password.Some? && f.email.Some?
    ensures Coherent(o.response)
    ensures o.response.status == 200 ==>
      && o.state == s.(users := s.users + [NewRow(s.nextId, f, ip, clock)], nextId := s.nextId + 1,
                       lastRegister := s.lastRegister[ip := clock.seconds])
      && !NameTaken(s.users, f.username.value) && !EmailTaken(s.users, f.email.value)
      && !StudentIdClash(rules, s.users, f.studentId)
    ensures o.response.status != 200 ==> o.state == s
    ensures StudentIdClash(rules, s.users, f.studentId) ==> o.response.status != 200
  {
    if NameTaken(s.users, f.username.value) then
      Outcome(ErrorResponse(400, "用户名已存在"), s)
    else if EmailTaken(s.users, f.email.value) then
      Outcome(ErrorResponse(400, "邮箱已注册"), s)
    else if StudentIdClash(rules, s.users, f.studentId) then
      Outcome(ErrorResponse(400, "学号已注册"), s)
    else
      var row := NewRow(s.nextId, f, ip, clock);
      if SaveRejected(s.users, row) then
        Outcome(ErrorResponse(500, "注册失败：" + saveError), s)
      else
        Outcome(Ok("注册成功", NoData),
                s.(users := s.users + [row], nextId := s.nextId + 1, lastRegister := s.lastRegister[ip := clock.seconds]))
  }

  // ----- login and profile -----

  /** `findByUsername(name).orElse(findByEmail(name))` */
  function FindAccount(users: seq<UserRow>, name: Option<string>): (k: Option<nat>)
    ensures k.Some? ==> k.value < |users| && name.Some?
    ensures k.Some? ==> users[k.value].username == name.value || users[k.value].email == name.value
    ensures name.Some? && NameTaken(users, name.value) ==> k.Some? && users[k.value].username == name.value
    ensures name.Some? && EmailTaken(users, name.value) ==> k.Some?
  {
    if name.None? then None
    else match Lists.FindFirst(users, (u: UserRow) => u.username == name.value)
      case Some(k) => Some(k)
      case None => Lists.FindFirst(users, (u: UserRow) => u.email == name.value)
  }

  /**
   * `login`: the fixed captcha, the account by name or e-mail, an enabled
   * status and the password; success stamps the login time and mints a token.
   */
  function LoginOutcome(rules: Rules, s: State, username: Option<string>, password: Option<string>,
                        captcha: Option<string>, clock: Clock): (o: Outcome)
    ensures Coherent(o.response)
    ensures var k := FindAccount(s.users, username);
      o.response.status == 200 <==>
        captcha == Some(FixedCode) && k.Some? && s.users[k.value].status != 0
        && PasswordAccepted(rules, password, s.users[k.value].password)
    ensures o.response.status != 200 ==> o.state == s
    ensures o.response.status == 200 ==>
      var k := FindAccount(s.users, username).value;
      var user := s.users[k].(lastLoginAt := Some(clock.seconds));
      && o.state == s.(users := s.users[k := user])
      && o.response.body.data == Session(MintToken(user.id, clock.millis), MintToken(user.id, clock.millis) + "-refresh",
                                         InfoOf(user))
  {
    if captcha != Some(FixedCode) then
      Outcome(ErrorResponse(400, "验证码错误"), s)
    else match FindAccount(s.users, username)
      case None => Outcome(ErrorResponse(400, "用户不存在"), s)
      case Some(k) =>
        var found := s.users[k];
        if found.status == 0 then Outcome(ErrorResponse(403, "账号已被禁用"), s)
        else if !PasswordAccepted(rules, password, found.password) then Outcome(ErrorResponse(400, "密码错误"), s)
        else
          var user := found.(lastLoginAt := Some(clock.seconds));
          var token := MintToken(user.id, clock.millis);
          Outcome(Ok("登录成功", Session(token, token + "-refresh", InfoOf(user))),
                  s.(users := s.users[k := user]))
  }

  /** `getUserProfile`: 401 without a well-formed bearer token, 404 for an unknown id. */
  function ProfileResponse(users: seq<UserRow>, header: Option<string>): (r: Response)
    ensures Coherent(r) && r.status in {200, 401, 404, 500}
    ensures r.status == 401 <==> TokenUserId(header).NoBearer? || TokenUserId(header).BadFormat?
    ensures r.status == 500 <==> TokenUserId(header).NotANumber?
    ensures r.status == 200 ==>
      r.body.data.Profile? && r.body.data.user in users && TokenUserId(header) == ForUser(r.body.data.user.id)
    ensures TokenUserId(header).ForUser? && (exists i :: 0 <= i < |users| && users[i].id == TokenUserId(header).id)
            ==> r.status == 200
  {
    match TokenUserId(header)
      case NoBearer => ErrorResponse(401, "未授权，请先登录")
      case BadFormat => ErrorResponse(401, "Token格式错误")
      case NotANumber => ErrorResponse(500, "获取用户信息失败")
      case ForUser(id) =>
        match Lists.FindFirst(users, (u: UserRow) => u.id == id)
          case None => ErrorResponse(404, "用户不存在")
          case Some(k) => Ok("获取成功", Profile(users[k]))
  }

  /**
   * The tenth step of `register`: a new `User`, the setters with the cleaned
   * form values, and the `onCreate` hook `save` runs. The entity's own
   * defaults fill what the setters leave alone.
   */
  method BuildUser(id: int, name: string, password: string, email: string, gender: int,
                   studentId: Option<string>, major: Option<string>, college: Option<string>,
                   grade: Option<string>, metadata: map<string, string>, now: int)
    returns (row: UserRow)
    ensures row == UserRow(id, name, password, email, gender, None, 1, "user",
                           studentId, major, college, grade, Some(now), None, Some(metadata))
  {
    var user := new User();
    user.SetForm(name, password, email, gender);
    user.SetProfile(studentId, major, college, grade, metadata);
    user.OnCreate(now);
    row := user.Row(id);
  }

  // ----- the controller -----

  class Controller {
    var emailCodes: map<string, string>
    var lastRegisterTime: map<string, int>
    var lastVerifyCodeTime: map<string, int>
    var users: seq<UserRow>
    var nextId: int
    /** Whether the two flawed checks run as written or corrected. */
    const rules: Rules

    function Snapshot(): State
      reads this
    {
      State(emailCodes, lastRegisterTime, lastVerifyCodeTime, users, nextId)
    }

    /** The table stays consistent; with the corrected checks student numbers stay unique too. */
    ghost predicate Valid()
      reads this
    {
      Consistent(Snapshot()) && (rules.Corrected? ==> StudentIdsUnique(users))
    }

    /** A fresh controller over the table as the database holds it. */
    constructor(table: seq<UserRow>, identity: int, rules: Rules)
      requires Consistent(State(map[], map[], map[], table, identity))
      requires rules.Corrected? ==> StudentIdsUnique(table)
      ensures Valid() && Snapshot() == State(map[], map[], map[], table, identity) && this.rules == rules
    {
      this.rules := rules;
      emailCodes := map[];
      lastRegisterTime := map[];
      lastVerifyCodeTime := map[];
      users := table;
      nextId := identity;
    }

    method VerifyEmailCode(email: Option<string>, code: Option<string>) returns (ok: bool)
      modifies this`emailCodes
      ensures ok == CodeAccepted(old(emailCodes), email, code)
      ensures emailCodes == CodesAfterCheck(old(emailCodes), email, code)
    {
      if email.None? || code.None? {
        return false;
      }
      var key := CodeKey(email.value);
      if key !in emailCodes {
        return false;
      }
      ok := emailCodes[key] == code.value;
      if ok {
        emailCodes := emailCodes - {key};
      }
    }

    /** The expiry timer of a code firing. */
    method ExpireCode(email: string)
      modifies this`emailCodes
      ensures emailCodes == old(emailCodes) - {CodeKey(email)}
      ensures forall code :: !CodeAccepted(emailCodes, Some(email), code)
    {
      emailCodes := emailCodes - {CodeKey(email)};
    }

    /**
     * `sendVerifyCode`, with the six random draws and whether the mail
     * service delivered the message as inputs.
     */
    method SendVerifyCode(request: map<string, string>, now: int, draws: seq<int>, mailSent: bool)
      returns (r: Response)
      requires Valid()
      requires |draws| == 6 && forall i :: 0 <= i < |draws| ==> 0 <= draws[i] < 10
      modifies this`emailCodes, this`lastVerifyCodeTime
      ensures Valid()
      ensures var o := SendCodeOutcome(old(Snapshot()), Lookup(request, "email"), CodeOf(draws), mailSent, now);
        r == o.response && Snapshot() == o.state
    {
      var email := Lookup(request, "email");
      if email.None? || '@' !in email.value {
        return ErrorResponse(400, EmailFormatText);
      }
      var e := email.value;
      var emailKey := VerifyKey(e);
      if emailKey in lastVerifyCodeTime && now - lastVerifyCodeTime[emailKey] < VerifyWindow {
        return ErrorResponse(429, WaitText("验证码发送过于频繁，请", lastVerifyCodeTime, emailKey, now, VerifyWindow));
      }
      if EmailTaken(users, e) {
        return ErrorResponse(400, "邮箱已被注册");
      }
      var code := GenerateRandomCode(draws);
      var key := CodeKey(e);
      emailCodes := emailCodes[key := code];
      if !mailSent {
        code := FixedCode;
        emailCodes := emailCodes[key := code];
      }
      lastVerifyCodeTime := lastVerifyCodeTime[emailKey := now];
      r := Ok("验证码发送成功", CodeSent(e, CodeLifetime, if mailSent then None else Some(DevTip)));
    }

    /**
     * `register`, with the clock reading and the text of the exception a
     * rejected save throws as inputs. The row is built through `User` as the
     * source builds it.
     */
    method Register(request: Body, headers: Headers, clock: Clock, saveError: string) returns (r: Response)
      requires Valid()
      modifies this`emailCodes, this`users, this`nextId, this`lastRegisterTime
      ensures Valid()
      ensures var o := RegisterOutcome(rules, old(Snapshot()), FormOf(request), RequestIp(headers), clock, saveError);
        r == o.response && Snapshot() == o.state
    {
      ghost var s := Snapshot();
      var f := FormOf(request);
      var ip := RequestIp(headers);
      RegisterKeepsConsistent(rules, s, f, ip, clock, saveError);
      if ip in lastRegisterTime && clock.seconds - lastRegisterTime[ip] < RegisterWindow {
        return ErrorResponse(429, WaitText("注册过于频繁，请", lastRegisterTime, ip, clock.seconds, RegisterWindow));
      }
      var problem := FormProblem(f);
      if problem.Some? {
        return ErrorResponse(400, problem.value);
      }
      var ok := VerifyEmailCode(f.email, f.verifyCode);
      if !ok {
        return ErrorResponse(400, CodeRejectedText);
      }
      r := Enroll(f, ip, clock, saveError);
    }

    /** Steps 7 to 11 of `register`. */
    method Enroll(f: Form, ip: string, clock: Clock, saveError: string) returns (r: Response)
      requires f.username.Some? && f.password.Some? && f.email.Some?
      modifies this`users, this`nextId, this`lastRegisterTime
      ensures var o := EnrollOutcome(rules, old(Snapshot()), f, ip, clock, saveError);
        r == o.response && Snapshot() == o.state
    {
      if NameTaken(users, f.username.value) {
        return ErrorResponse(400, "用户名已存在");
      }
      if EmailTaken(users, f.email.value) {
        return ErrorResponse(400, "邮箱已注册");
      }
      if StudentIdClash(rules, users, f.studentId) {
        return ErrorResponse(400, "学号已注册");
      }
      var row := BuildUser(nextId, Text.Trim(f.username.value), EncodePassword(f.password.value, clock.millis),
                           Text.Trim(f.email.value), f.gender, TrimmedOpt(f.studentId), TrimmedOpt(f.major),
                           TrimmedOpt(f.college), TrimmedOpt(f.grade), RegisterMetadata(ip, clock.text),
                           clock.seconds);
      if SaveRejected(users, row) {
        return ErrorResponse(500, "注册失败：" + saveError);
      }
      users := users + [row];
      nextId := nextId + 1;
      lastRegisterTime := lastRegisterTime[ip := clock.seconds];
      r := Ok("注册成功", NoData);
    }

    /** `login`, with the clock reading as input. */
    method Login(request: map<string, string>, clock: Clock) returns (r: Response)
      requires Valid()
      modifies this`users
      ensures Valid()
      ensures var o := LoginOutcome(rules, old(Snapshot()), Lookup(request, "username"), Lookup(request, "password"),
                                    Lookup(request, "captcha"), clock);
        r == o.response && Snapshot() == o.state
    {
      ghost var s := Snapshot();
      var username := Lookup(request, "username");
      var password := Lookup(request, "password");
      LoginKeepsConsistent(rules, s, username, password, Lookup(request, "captcha"), clock);
      if Lookup(request, "captcha") != Some(FixedCode) {
        return ErrorResponse(400, "验证码错误");
      }
      var found := FindAccount(users, username);
      if found.None? {
        return ErrorResponse(400, "用户不存在");
      }
      var k := found.value;
      if users[k].status == 0 {
        return ErrorResponse(403, "账号已被禁用");
      }
      if !PasswordAccepted(rules, password, users[k].password) {
        return ErrorResponse(400, "密码错误");
      }
      var user := users[k].(lastLoginAt := Some(clock.seconds));
      users := users[k := user];
      var token := MintToken(user.id, clock.millis);
      r := Ok("登录成功", Session(token, token + "-refresh", InfoOf(user)));
    }

    /** `getUserProfile`: reads the table and changes nothing. */
    method GetUserProfile(header: Option<string>) returns (r: Response)
      ensures r == ProfileResponse(users, header)
    {
      r := ProfileResponse(users, header);
    }
  }

  // ----- properties across calls -----

  /**
   * Registration keeps the table's unique columns unique and the identities
   * fresh; with the corrected student-number check it also keeps student
   * numbers unique.
   */
  lemma RegisterKeepsConsistent(rules: Rules, s: State, f: Form, ip: string, clock: Clock, saveError: string)
    requires Consistent(s)
    ensures Consistent(RegisterOutcome(rules, s, f, ip, clock, saveError).state)
    ensures rules.Corrected? && StudentIdsUnique(s.users) ==>
      StudentIdsUnique(RegisterOutcome(rules, s, f, ip, clock, saveError).state.users)
  {
    var o := RegisterOutcome(rules, s, f, ip, clock, saveError);
    if o.response.status == 200 {
      var row := NewRow(s.nextId, f, ip, clock);
      assert !SaveRejected(s.users, row) && !StudentIdClash(rules, s.users, f.studentId);
      assert o.state.users == s.users + [row] && o.state.nextId == s.nextId + 1;
      AppendKeepsConsistent(s.users, s.nextId, row);
      if rules.Corrected? && StudentIdsUnique(s.users) {
        AppendKeepsStudentIdsUnique(s.users, row);
      }
    }
  }

  /** Logging in changes only the login time of one row, so the table stays consistent. */
  lemma LoginKeepsConsistent(rules: Rules, s: State, username: Option<string>, password: Option<string>,
                             captcha: Option<string>, clock: Clock)
    requires Consistent(s)
    ensures Consistent(LoginOutcome(rules, s, username, password, captcha, clock).state)
    ensures StudentIdsUnique(s.users) ==>
      StudentIdsUnique(LoginOutcome(rules, s, username, password, captcha, clock).state.users)
  {
    var o := LoginOutcome(rules, s, username, password, captcha, clock);
    if o.response.status == 200 {
      var k := FindAccount(s.users, username).value;
      forall i | 0 <= i < |o.state.users|
        ensures o.state.users[i].(lastLoginAt := s.users[i].lastLoginAt) == s.users[i]
      {
      }
    }
  }

  /**
   * A second registration from the same address within thirty seconds of a
   * successful one is refused with 429 and the seconds left, and changes nothing.
   */
  lemma SecondRegistrationThrottled(rules: Rules, s: State, f: Form, g: Form, ip: string, first: Clock,
                                    second: Clock, e1: string, e2: string)
    requires RegisterOutcome(rules, s, f, ip, first, e1).response.status == 200
    requires first.seconds <= second.seconds < first.seconds + RegisterWindow
    ensures var s1 := RegisterOutcome(rules, s, f, ip, first, e1).state;
      var o := RegisterOutcome(rules, s1, g, ip, second, e2);
      && o.response == ErrorResponse(429, "注册过于频繁，请" + IntToString(RegisterWindow - (second.seconds - first.seconds)) + "秒后再试")
      && o.state == s1
      && 1 <= RegisterWindow - (second.seconds - first.seconds) <= RegisterWindow
  {
    var s1 := RegisterOutcome(rules, s, f, ip, first, e1).state;
    assert s1.lastRegister[ip] == first.seconds;
    assert Throttled(s1.lastRegister, ip, second.seconds, RegisterWindow);
  }

  /** The code is spent once it matches, even when the name then turns out to be taken. */
  lemma CodeSpentOnTakenName(rules: Rules, s: State, f: Form, ip: string, clock: Clock, saveError: string,
                             retry: Option<string>)
    requires !Throttled(s.lastRegister, ip, clock.seconds, RegisterWindow) && FormProblem(f).None?
    requires CodeAccepted(s.codes, f.email, f.verifyCode) && NameTaken(s.users, f.username.value)
    ensures var o := RegisterOutcome(rules, s, f, ip, clock, saveError);
      && o.response == ErrorResponse(400, "用户名已存在")
      && !CodeAccepted(o.state.codes, f.email, retry)
  {
  }

  /** A code stored without a mail going out is the fixed one, and registration accepts it. */
  lemma UndeliveredCodeIsFixed(s: State, email: string, code: string, now: int)
    requires SendCodeOutcome(s, Some(email), code, false, now).response.status == 200
    ensures var o := SendCodeOutcome(s, Some(email), code, false, now);
      && CodeAccepted(o.state.codes, Some(email), Some(FixedCode))
      && o.response.body.data.tip == Some(DevTip)
  {
  }

  /** A second code for the same address within sixty seconds is refused and changes nothing. */
  lemma SecondCodeThrottled(s: State, email: string, c1: string, c2: string, m1: bool, m2: bool, t1: int, t2: int)
    requires SendCodeOutcome(s, Some(email), c1, m1, t1).response.status == 200
    requires t1 <= t2 < t1 + VerifyWindow
    ensures var s1 := SendCodeOutcome(s, Some(email), c1, m1, t1).state;
      var o := SendCodeOutcome(s1, Some(email), c2, m2, t2);
      && o.response.status == 429 && o.state == s1
      && o.response.body.message == "验证码发送过于频繁，请" + IntToString(VerifyWindow - (t2 - t1)) + "秒后再试"
  {
    var s1 := SendCodeOutcome(s, Some(email), c1, m1, t1).state;
    assert s1.lastVerify[VerifyKey(email)] == t1;
  }

  /** The token a login returns opens that user's profile in the table the login leaves. */
  lemma LoginThenProfile(rules: Rules, s: State, username: Option<string>, password: Option<string>,
                         captcha: Option<string>, clock: Clock)
    requires Consistent(s)
    requires var o := LoginOutcome(rules, s, username, password, captcha, clock);
      o.response.status == 200 && o.response.body.data.info.id <= IntMax
    ensures var o := LoginOutcome(rules, s, username, password, captcha, clock);
      var p := ProfileResponse(o.state.users, Some(BearerPrefix + o.response.body.data.token));
      && p.status == 200 && p.body.data.Profile?
      && InfoOf(p.body.data.user) == o.response.body.data.info
  {
    var o := LoginOutcome(rules, s, username, password, captcha, clock);
    LoginKeepsConsistent(rules, s, username, password, captcha, clock);
    var k := FindAccount(s.users, username).value;
    var user := o.state.users[k];
    assert InfoOf(user) == o.response.body.data.info;
    TokenRoundTrip(user.id, clock.millis);
    var header := Some(BearerPrefix + o.response.body.data.token);
    assert TokenUserId(header) == ForUser(user.id);
    var found := Lists.FindFirst(o.state.users, (u: UserRow) => u.id == user.id);
    IdentityNamesOneRow(o.state.users, o.state.nextId, found.value, k);
  }

  /** With the corrected check, a password other than the one encoded at registration is refused. */
  lemma WrongPasswordRefused(s: State, name: string, raw: string, wrong: string, clock: Clock, k: nat)
    requires k < |s.users| && s.users[k].username == name && s.users[k].status != 0
    requires Consistent(s)
    requires exists t: nat :: s.users[k].password == EncodePassword(raw, t)
    requires wrong != raw
    ensures LoginOutcome(Corrected, s, Some(name), Some(wrong), Some(FixedCode), clock)
            == Outcome(ErrorResponse(400, "密码错误"), s)
  {
    var t: nat :| s.users[k].password == EncodePassword(raw, t);
    PasswordMatchesIff(wrong, raw, t);
    var found := FindAccount(s.users, Some(name)).value;
    NameNamesOneRow(s.users, s.nextId, found, k);
  }

  /** As written, the same wrong password signs in and is handed a token. */
  lemma AsWrittenLoginAcceptsWrongPassword(s: State, name: string, raw: string, wrong: string, clock: Clock,
                                           k: nat)
    requires k < |s.users| && s.users[k].username == name && s.users[k].status != 0
    requires Consistent(s)
    requires exists t: nat :: s.users[k].password == EncodePassword(raw, t)
    ensures var o := LoginOutcome(AsWritten, s, Some(name), Some(wrong), Some(FixedCode), clock);
      o.response.status == 200 && o.response.body.data.Session? && o.response.body.data.info.id == s.users[k].id
  {
    var t: nat :| s.users[k].password == EncodePassword(raw, t);
    AsWrittenAcceptsAnyPassword(wrong, raw, t);
    var found := FindAccount(s.users, Some(name)).value;
    NameNamesOneRow(s.users, s.nextId, found, k);
  }

  /**
   * As written, a student number sent with a leading blank passes the check
   * and is saved trimmed, next to the same number already stored, so student
   * numbers stop being unique; the corrected check refuses the registration.
   */
  lemma AsWrittenEnrollsDuplicateStudentId(s: State, f: Form, ip: string, clock: Clock, saveError: string, k: nat)
    requires f.username.Some? && f.password.Some? && f.email.Some?
    requires !NameTaken(s.users, f.username.value) && !EmailTaken(s.users, f.email.value)
    requires !SaveRejected(s.users, NewRow(s.nextId, f, ip, clock))
    requires k < |s.users| && s.users[k].studentId.Some? && s.users[k].studentId.value != ""
    requires forall i :: 0 <= i < |s.users[k].studentId.value| ==> s.users[k].studentId.value[i] > ' '
    requires f.studentId == Some(" " + s.users[k].studentId.value)
    requires !HasStudentId(s.users, " " + s.users[k].studentId.value)
    ensures var o := EnrollOutcome(AsWritten, s, f, ip, clock, saveError);
      && o.response.status == 200
      && o.state.users == s.users + [NewRow(s.nextId, f, ip, clock)]
      && o.state.users[|s.users|].studentId == s.users[k].studentId
      && !StudentIdsUnique(o.state.users)
    ensures EnrollOutcome(Corrected, s, f, ip, clock, saveError).response == ErrorResponse(400, "学号已注册")
  {
    var t := s.users[k].studentId.value;
    PaddedTrim(t);
    assert !StudentIdClash(AsWritten, s.users, f.studentId);
    assert StudentIdClash(Corrected, s.users, f.studentId) by {
      assert s.users[k].studentId == Some(Text.Trim(f.studentId.value));
    }
    var row := NewRow(s.nextId, f, ip, clock);
    var u := s.users + [row];
    assert u[k] == s.users[k] && u[|s.users|].studentId == Some(t);
    assert !(u[k].studentId != u[|s.users|].studentId);
  }

  /** A blank before a visible text is what `trim` removes. */
  lemma PaddedTrim(t: string)
    requires t != [] && forall i :: 0 <= i < |t| ==> t[i] > ' '
    ensures Text.Trim(" " + t) == t
  {
    assert (" " + t)[1..] == t;
    assert Text.TrimLeft(" " + t) == Text.TrimLeft(t) == t;
    Text.TrimOfVisible(t);
  }

  /**
   * The student-number check as written misses a number sent with
   * surrounding blanks, and the trimmed number it then saves repeats one
   * already stored; the corrected check refuses it.
   */
  lemma StudentIdCheckAsWrittenMisses(existing: UserRow)
    requires existing.studentId == Some("2021001")
    ensures !DuplicateStudentIdAsWritten([existing], Some(" 2021001"))
    ensures TrimmedOpt(Some(" 2021001")) == existing.studentId
    ensures DuplicateStudentId([existing], Some(" 2021001"))
  {
    assert Text.TrimLeft(" 2021001") == "2021001" by {
      assert " 2021001"[1..] == "2021001";
    }
    assert Text.TrimRight("2021001") == "2021001";
    assert " 2021001" != "2021001";
    assert [existing][0].studentId == Some("2021001");
  }
}
