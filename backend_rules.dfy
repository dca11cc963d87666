/**
 * The stateless rules of the backend's `controller/TestController.java`:
 * request field access, the response envelope, the client address, the
 * user name and password rules, the token format and the password encoding.
 */
module BackendRules {
  import opened Wrappers
  import Text
  import opened Decimal
  import opened BackendUser

  // ----- request bodies -----

  /**
   * A JSON value of a request body, as Jackson hands it over. An integer is
   * an `Integer` when it fits in 32 bits and a `Long` or `BigInteger`
   * otherwise.
   */
  datatype JValue =
    | JNull
    | JInteger(i: int)
    | JText(s: string)
    /** Any other value, by its `toString()` text. */
    | JOther(text: string)

  type Body = map<string, JValue>

  /** `getStringValue(map, key)`: the value's text, or null. */
  function StringValue(m: Body, key: string): (r: Option<string>)
    ensures r.None? <==> key !in m || m[key] == JNull
    ensures key in m && m[key].JText? ==> r == Some(m[key].s)
    ensures key in m && m[key].JInteger? ==> r == Some(IntToString(m[key].i))
  {
    if key !in m then None
    else match m[key]
      case JNull => None
      case JInteger(i) => Some(IntToString(i))
      case JText(s) => Some(s)
      case JOther(text) => Some(text)
  }

  /**
   * `getIntegerValue(map, key, default)`: only a 32-bit integer passes
   * `instanceof Integer`; a wider one is a `Long` whose text `parseInt`
   * refuses, so it gives the default.
   */
  function IntegerValue(m: Body, key: string, default: int): (r: int)
    ensures key !in m || m[key] == JNull ==> r == default
    ensures key in m && m[key].JInteger? && IntMin <= m[key].i <= IntMax ==> r == m[key].i
    ensures key in m && m[key].JInteger? && !(IntMin <= m[key].i <= IntMax) ==> r == default
    ensures key in m && m[key].JText? ==> r == JavaParseInt(m[key].s).GetOr(default)
    ensures key in m && m[key].JOther? ==> r == JavaParseInt(m[key].text).GetOr(default)
  {
    if key !in m || m[key] == JNull then default
    else if m[key].JInteger? && IntMin <= m[key].i <= IntMax then m[key].i
    else if m[key].JInteger? then
      // a `Long`: its text is out of range for `parseInt`
      ParseIntOfWideInt(m[key].i);
      JavaParseInt(StringValue(m, key).value).GetOr(default)
    else JavaParseInt(StringValue(m, key).value).GetOr(default)
  }

  /** A number sent as text reads back as that number; text that is not one gives the default. */
  lemma IntegerValueOfText(m: Body, key: string, n: nat, default: int)
    requires n <= IntMax
    ensures IntegerValue(m[key := JText(NatToString(n))], key, default) == n
    ensures IntegerValue(m[key := JText("")], key, default) == default
    ensures IntegerValue(m[key := JText("1.5")], key, default) == default
  {
    ParseIntOfNatToString(n);
    assert JavaDigit("1.5"[1]).None?;
  }

  // ----- responses -----

  /**
   * The `userInfo` map of a successful login: the row's columns except the
   * password, with the three display texts of the entity.
   */
  datatype UserInfo = UserInfo(
    id: int, username: string, email: string, gender: int, genderText: string,
    avatarUrl: Option<string>, avatar: string, status: int, statusText: string, role: string,
    studentId: Option<string>, major: Option<string>, college: Option<string>, grade: Option<string>,
    createdAt: Option<int>, lastLoginAt: Option<int>, metadata: Option<map<string, string>>)

  function InfoOf(u: UserRow): (i: UserInfo)
    ensures i.id == u.id && i.username == u.username && i.email == u.email && i.role == u.role
    ensures i.genderText == GenderText(u.gender) && i.avatar == AvatarOf(u.avatarUrl)
    ensures i.statusText == StatusText(u.status)
  {
    UserInfo(u.id, u.username, u.email, u.gender, GenderText(u.gender), u.avatarUrl, AvatarOf(u.avatarUrl),
             u.status, StatusText(u.status), u.role, u.studentId, u.major, u.college, u.grade,
             u.createdAt, u.lastLoginAt, u.metadata)
  }

  /** The login payload does not depend on, and so does not reveal, the stored password. */
  lemma InfoHidesPassword(u: UserRow, other: string)
    ensures InfoOf(u.(password := other)) == InfoOf(u)
  {
  }

  datatype Payload =
    | NoData
    | CodeSent(email: string, expiresIn: int, tip: Option<string>)
    | Session(token: string, refreshToken: string, info: UserInfo)
    | Profile(user: UserRow)

  datatype Envelope = Envelope(code: int, message: string, data: Payload)

  /** An HTTP status with a JSON envelope. */
  datatype Response = Response(status: int, body: Envelope)

  /** The envelope's `code` repeats the HTTP status. */
  predicate Coherent(r: Response) {
    r.body.code == r.status
  }

  /** `errorResponse(code, message)` */
  function ErrorResponse(code: int, message: string): (r: Response)
    ensures Coherent(r) && r.status == code
    ensures r.body.message == message && r.body.data == NoData
  {
    Response(code, Envelope(code, message, NoData))
  }

  /** `ResponseEntity.ok` with a success envelope. */
  function Ok(message: string, data: Payload): (r: Response)
    ensures Coherent(r) && r.status == 200 && r.body.data == data
  {
    Response(200, Envelope(200, message, data))
  }

  // ----- the client address -----

  /** A header value that is present, non-empty and not "unknown" under Java's case folding. */
  predicate Usable(ip: Option<string>) {
    ip.Some? && ip.value != "" && !Text.JavaEqualsIgnoreCase("unknown", ip.value)
  }

  /** The word "unknown" in any letter case, the Kelvin sign for its `k` included, is skipped. */
  lemma UnknownSpellingsSkipped()
    ensures !Usable(Some("UnKnown")) && !Usable(Some("un\U{212A}nown"))
    ensures Usable(Some("10.0.0.1"))
  {
    assert !Text.JavaEqualsIgnoreCase("unknown", "10.0.0.1");
  }

  /** The header fallback of `getClientIp`. */
  function ForwardedIp(forwardedFor: Option<string>, proxy: Option<string>, wlProxy: Option<string>,
                       remote: Option<string>): (ip: Option<string>)
    ensures Usable(forwardedFor) ==> ip == forwardedFor
    ensures !Usable(forwardedFor) && Usable(proxy) ==> ip == proxy
    ensures !Usable(forwardedFor) && !Usable(proxy) && Usable(wlProxy) ==> ip == wlProxy
    ensures !Usable(forwardedFor) && !Usable(proxy) && !Usable(wlProxy) ==> ip == remote
  {
    var ip1 := if Usable(forwardedFor) then forwardedFor else proxy;
    var ip2 := if Usable(ip1) then ip1 else wlProxy;
    if Usable(ip2) then ip2 else remote
  }

  /**
   * `getClientIp()`: the first usable address, cut to its first trimmed
   * element when it lists several. When the split yields no element the
   * indexing throws and the method answers "unknown".
   */
  function ClientIp(forwardedFor: Option<string>, proxy: Option<string>, wlProxy: Option<string>,
                    remote: Option<string>): (r: Option<string>)
    ensures var ip := ForwardedIp(forwardedFor, proxy, wlProxy, remote);
      && (ip.None? ==> r.None?)
      && (ip.Some? && ',' !in ip.value ==> r == ip)
      && (ip.Some? && ',' in ip.value ==> r.Some? && ',' !in r.value)
  {
    var ip := ForwardedIp(forwardedFor, proxy, wlProxy, remote);
    if ip.Some? && ',' in ip.value then
      var parts := Text.JavaSplit(ip.value, ',');
      if |parts| == 0 then Some("unknown")
      else
        assert parts[0] in parts;
        Some(Text.Trim(parts[0]))
    else ip
  }

  /** A split whose first piece is non-empty keeps that piece first. */
  lemma {:induction false} DropTrailingEmptyKeepsHead(parts: seq<string>)
    requires parts != [] && parts[0] != ""
    ensures var r := Text.DropTrailingEmpty(parts); r != [] && r[0] == parts[0]
    decreases |parts|
  {
    if parts[|parts| - 1] == "" {
      assert |parts| > 1;
      DropTrailingEmptyKeepsHead(parts[..|parts| - 1]);
    }
  }

  /** The first element of a proxy chain is the address before its first comma. */
  lemma SplitOfChain(client: string, rest: string)
    requires client != "" && ',' !in client
    ensures var parts := Text.JavaSplit(client + "," + rest, ',');
      parts != [] && parts[0] == client
  {
    var header := client + "," + rest;
    assert header[|client|] == ',';
    Text.PiecesAfterPrefix(client, ',', rest);
    DropTrailingEmptyKeepsHead(Text.Pieces(header, ','));
  }

  /** A text holding a comma is never the word "unknown". */
  lemma CommaTextIsNotUnknown(s: string, at: nat)
    requires at < |s| && s[at] == ','
    ensures !Text.JavaEqualsIgnoreCase("unknown", s)
  {
    if |s| == 7 {
      assert Text.JavaFold(s[at]) == ',';
      assert Text.AsciiLower("unknown"[at]) != ',';
    }
  }

  /** A proxy chain `client, proxy...` yields the client's address, trimmed. */
  lemma ClientOfProxyChain(client: string, rest: string, proxy: Option<string>, wlProxy: Option<string>,
                           remote: Option<string>)
    requires client != "" && ',' !in client
    ensures ClientIp(Some(client + "," + rest), proxy, wlProxy, remote) == Some(Text.Trim(client))
  {
    var header := client + "," + rest;
    CommaTextIsNotUnknown(header, |client|);
    assert ',' in header by {
      assert header[|client|] == ',';
    }
    SplitOfChain(client, rest);
    CutChain(header, Text.Trim(client));
  }

  /** The comma cut of `ClientIp` applied to a usable header. */
  lemma CutChain(header: string, client: string)
    requires ',' in header && Usable(Some(header))
    requires var parts := Text.JavaSplit(header, ','); parts != [] && Text.Trim(parts[0]) == client
    ensures forall proxy, wlProxy, remote :: ClientIp(Some(header), proxy, wlProxy, remote) == Some(client)
  {
  }

  /** A header of separators only makes the split empty, and the address "unknown". */
  lemma SeparatorsOnlyGiveUnknown(proxy: Option<string>, wlProxy: Option<string>, remote: Option<string>)
    ensures ClientIp(Some(","), proxy, wlProxy, remote) == Some("unknown")
  {
    assert !Text.JavaEqualsIgnoreCase("unknown", ",");
    assert Text.Pieces(",", ',') == ["", ""] by {
      assert ","[1..] == "";
    }
    assert Text.DropTrailingEmpty(["", ""]) == [] by {
      assert ["", ""][..1] == [""];
      assert [""][..0] == [];
    }
  }

  // ----- user name and password rules -----

  /** A character of the class `[a-zA-Z0-9_]`. */
  predicate WordChar(c: char) {
    'a' <= c <= 'z' || 'A' <= c <= 'Z' || '0' <= c <= '9' || c == '_'
  }

  predicate AllWordChars(s: string) {
    forall i :: 0 <= i < |s| ==> WordChar(s[i])
  }

  /** `isValidUsername`: 3 to 20 UTF-16 units, all matching `^[a-zA-Z0-9_]+$`. */
  function IsValidUsername(u: Option<string>): (ok: bool)
    ensures ok <==> u.Some? && 3 <= |u.value| <= 20 && AllWordChars(u.value)
  {
    if u.None? then false
    else
      var s := u.value;
      if AllWordChars(s) then
        Text.Utf16LengthOfBmp(s);
        3 <= Text.Utf16Length(s) <= 20
      else false
  }

  /** The characters Java's regular-expression `.` does not match. */
  predicate LineTerminator(c: char) {
    c == '\n' || c == '\r' || c == '\U{85}' || c == '\U{2028}' || c == '\U{2029}'
  }

  /** `s.matches(".*X.*")` for a character class X: some character is in X and none ends a line. */
  predicate MatchesSomewhere(s: string, inClass: char -> bool) {
    (forall i :: 0 <= i < |s| ==> !LineTerminator(s[i])) && exists i :: 0 <= i < |s| && inClass(s[i])
  }

  predicate AsciiLetter(c: char) { 'a' <= c <= 'z' || 'A' <= c <= 'Z' }

  /** `isValidPassword`: at least 6 UTF-16 units, a letter and a digit, on a single line. */
  function IsValidPassword(p: Option<string>): (ok: bool)
    ensures ok ==> p.Some? && Text.Utf16Length(p.value) >= 6
    ensures ok ==> exists i :: 0 <= i < |p.value| && AsciiLetter(p.value[i])
    ensures ok ==> exists i :: 0 <= i < |p.value| && IsDigit(p.value[i])
    ensures ok ==> forall i :: 0 <= i < |p.value| ==> !LineTerminator(p.value[i])
  {
    if p.None? || Text.Utf16Length(p.value) < 6 then false
    else MatchesSomewhere(p.value, AsciiLetter) && MatchesSomewhere(p.value, IsDigit)
  }

  /** Any single-line password of six UTF-16 units with a letter and a digit passes. */
  lemma PasswordRuleComplete(p: string, letterAt: nat, digitAt: nat)
    requires Text.Utf16Length(p) >= 6 && forall i :: 0 <= i < |p| ==> !LineTerminator(p[i])
    requires letterAt < |p| && AsciiLetter(p[letterAt]) && digitAt < |p| && IsDigit(p[digitAt])
    ensures IsValidPassword(Some(p))
  {
  }

  /** A character beyond the Basic Multilingual Plane counts as two units towards the six. */
  lemma SurrogatePairsCountTwice()
    ensures IsValidPassword(Some("a1\U{1F600}\U{1F600}"))
    ensures !IsValidPassword(Some("a1\U{1F600}"))
  {
    PasswordRuleComplete("a1\U{1F600}\U{1F600}", 0, 1);
  }

  /** A line break anywhere fails the rule, whatever else the password holds. */
  lemma LineBreakFailsPasswordRule()
    ensures !IsValidPassword(Some("abc123\n"))
    ensures IsValidPassword(Some("abc123"))
  {
    assert LineTerminator("abc123\n"[6]);
    Text.Utf16LengthOfBmp("abc123");
    PasswordRuleComplete("abc123", 0, 3);
  }

  /**
   * The later checks of `register` (name not blank, password at least six
   * long) can never fail once the two rules above have passed.
   */
  lemma LaterChecksRedundant(u: Option<string>, p: Option<string>)
    requires IsValidUsername(u) && IsValidPassword(p)
    ensures u.Some? && Text.Trim(u.value) != ""
    ensures p.Some? && Text.Utf16Length(p.value) >= 6
  {
    forall i | 0 <= i < |u.value|
      ensures u.value[i] > ' '
    {
      assert WordChar(u.value[i]);
    }
    Text.TrimOfVisible(u.value);
  }

  // ----- tokens -----

  const BearerPrefix: string := "Bearer "
  const TokenPrefix: string := "jwt-"

  /** The token `login` issues: "jwt-" + id + "-" + the current milliseconds. */
  function MintToken(id: int, millis: nat): string {
    TokenPrefix + IntToString(id) + "-" + NatToString(millis)
  }

  /** What `getUserProfile` makes of the `Authorization` header. */
  datatype TokenCheck = NoBearer | BadFormat | NotANumber | ForUser(id: int)

  function TokenUserId(header: Option<string>): (c: TokenCheck)
    ensures header.None? || !Text.StartsWith(header.value, BearerPrefix) ==> c == NoBearer
    ensures (header.Some? && Text.StartsWith(header.value, BearerPrefix)
             && !Text.StartsWith(header.value[7..], TokenPrefix)) ==> c == BadFormat
    ensures c.ForUser? ==> IntMin <= c.id <= IntMax
    ensures c == BadFormat || c == NotANumber || c.ForUser? ==>
      header.Some? && Text.StartsWith(header.value, BearerPrefix)
    ensures var token := if header.Some? && |header.value| >= 7 then header.value[7..] else "";
      && (c == BadFormat <==>
            header.Some? && Text.StartsWith(header.value, BearerPrefix)
            && (!Text.StartsWith(token, TokenPrefix) || |Text.JavaSplit(token, '-')| < 2))
      && (c == NotANumber ==>
            |Text.JavaSplit(token, '-')| >= 2 && JavaParseInt(Text.JavaSplit(token, '-')[1]).None?)
      && (c.ForUser? ==>
            Text.StartsWith(token, TokenPrefix) && |Text.JavaSplit(token, '-')| >= 2
            && JavaParseInt(Text.JavaSplit(token, '-')[1]) == Some(c.id))
  {
    if header.None? || !Text.StartsWith(header.value, BearerPrefix) then NoBearer
    else
      var token := header.value[7..];
      if !Text.StartsWith(token, TokenPrefix) then BadFormat
      else
        var parts := Text.JavaSplit(token, '-');
        if |parts| < 2 then BadFormat
        else match JavaParseInt(parts[1])
          case None => NotANumber
          case Some(id) => ForUser(id)
  }

  lemma DigitsHaveNoDash(s: string)
    requires AllDigits(s)
    ensures '-' !in s
  {
    forall i | 0 <= i < |s|
      ensures s[i] != '-'
    {
      assert IsDigit(s[i]);
    }
  }

  /** Split at `-`, a token minted for a non-negative id gives the prefix, the id and the time. */
  lemma MintedTokenPieces(id: nat, millis: nat)
    ensures Text.JavaSplit(MintToken(id, millis), '-') == ["jwt", NatToString(id), NatToString(millis)]
  {
    var idText := NatToString(id);
    var msText := NatToString(millis);
    var token := MintToken(id, millis);
    assert IntToString(id) == idText;
    DigitsHaveNoDash(idText);
    DigitsHaveNoDash(msText);
    assert token == "jwt" + ['-'] + (idText + ['-'] + msText);
    Text.PiecesAfterPrefix("jwt", '-', idText + ['-'] + msText);
    Text.PiecesAfterPrefix(idText, '-', msText);
    Text.PiecesWithoutSeparator(msText, '-');
    var parts := Text.Pieces(token, '-');
    assert parts == ["jwt", idText, msText];
    assert Text.DropTrailingEmpty(parts) == parts;
  }

  /** A token minted for a non-negative 32-bit id names that id again. */
  lemma TokenRoundTrip(id: nat, millis: nat)
    requires id <= IntMax
    ensures TokenUserId(Some(BearerPrefix + MintToken(id, millis))) == ForUser(id)
  {
    var token := MintToken(id, millis);
    var header := BearerPrefix + token;
    assert header[7..] == token;
    assert token[..4] == TokenPrefix;
    MintedTokenPieces(id, millis);
    ParseIntOfNatToString(id);
  }

  // ----- password encoding -----

  const EncodedPrefix: string := "encrypted_"

  /** `encodePassword(raw)`: the raw text between a prefix and the current milliseconds. */
  function EncodePassword(raw: string, millis: nat): string {
    EncodedPrefix + raw + "_" + NatToString(millis)
  }

  /** `checkPassword(raw, encoded)` as written: it looks only at the prefix. */
  predicate CheckPasswordAsWritten(raw: Option<string>, encoded: Option<string>) {
    encoded.Some? && Text.StartsWith(encoded.value, EncodedPrefix)
  }

  /** Any password passes the check as written against any stored encoding. */
  lemma AsWrittenAcceptsAnyPassword(raw: string, stored: string, millis: nat)
    ensures CheckPasswordAsWritten(Some(raw), Some(EncodePassword(stored, millis)))
    ensures CheckPasswordAsWritten(Some("wrong1"), Some(EncodePassword("secret1", 0)))
    ensures "wrong1" != "secret1"
  {
    assert EncodePassword(stored, millis)[..10] == EncodedPrefix;
    assert EncodePassword("secret1", 0)[..10] == EncodedPrefix;
    assert "wrong1"[0] != "secret1"[0];
  }

  /** The check the encoding calls for: the stored text is the raw password encoded at some time. */
  predicate PasswordMatches(raw: Option<string>, encoded: Option<string>) {
    raw.Some? && encoded.Some? &&
    var p := EncodedPrefix + raw.value + "_";
    Text.StartsWith(encoded.value, p) && |encoded.value| > |p| && AllDigits(encoded.value[|p|..])
  }

  /** The corrected check accepts exactly the password that was encoded. */
  lemma PasswordMatchesIff(raw: string, stored: string, millis: nat)
    ensures PasswordMatches(Some(raw), Some(EncodePassword(stored, millis))) <==> raw == stored
  {
    var e := EncodePassword(stored, millis);
    var digits := NatToString(millis);
    var n := |raw|;
    var m := |stored|;
    assert |e| == 11 + m + |digits|;
    assert e[10 + m] == '_';
    assert forall k :: 11 + m <= k < |e| ==> e[k] == digits[k - 11 - m];
    assert AllDigits(digits);
    if raw == stored {
      assert e[..11 + n] == EncodedPrefix + raw + "_";
      assert e[11 + n..] == digits;
    } else {
      var p := EncodedPrefix + raw + "_";
      assert p[10 + n] == '_';
      if n < m {
        // the stored password's separator falls among what should be digits
        if |p| < |e| {
          assert e[|p|..][m - n - 1] == e[10 + m] == '_';
          assert !AllDigits(e[|p|..]);
        }
      } else if n > m {
        // a digit of the timestamp stands where the separator should be
        if |p| <= |e| {
          assert e[10 + n] == digits[n - m - 1];
          assert IsDigit(e[10 + n]);
          assert e[..|p|][10 + n] != p[10 + n];
        }
      } else {
        var i :| 0 <= i < n && raw[i] != stored[i];
        assert e[..|p|][10 + i] == stored[i] && p[10 + i] == raw[i];
      }
    }
  }
}
