# Smart Campus: session, interception and account rules in Dafny

This project models the logic that decides who is signed in to the Smart
Campus web client and what the backend accepts at registration and login.

On the client side it covers:

- the Pinia user store (`src/stores/user.ts`), with its remember-me
  credential lifecycle;
- the standalone `AutoLoginService` (`src/utils/autoLogin.ts`);
- the two HTTP clients' interceptors: `src/utils/request.js`, with its
  single-flight auto-login queue, and `src/api/index.ts`;
- the authentication helpers (`src/utils/auth.js`) and the route table
  (`src/router/index.ts`);
- the two study-plan stores (`src/stores/studyPlan.ts`,
  `src/stores/studyPlanDetail.ts`).

On the backend it covers the `TestController` endpoints for verification
codes, registration, login and profile lookup, and the `User` entity.

`localStorage` and `sessionStorage` are `map<string, string>` fields of one
`Storage.Browser` object. The stores and services that share them hold a
reference to it. The six storage key names are the constants of
`src/utils/storageKeys.ts`.

Things the code reaches outside itself for become parameters:

- server replies (`Reply<T>`: a response with a code and data, or a thrown
  error);
- `JSON.parse`/`JSON.stringify`, as a `Codec` pair with a round-trip law;
- password encryption and decryption;
- the clock, as a `Clock` value with seconds, milliseconds and a formatted
  text;
- the random digits of a verification code, and whether the mail was sent.

Each stateful source entity is a Dafny `class`:

- the user store, `AutoLoginService` and the study-plan stores;
- the interceptor state of `request.js`, as `Request.RequestClient`;
- the axios instance of `api/index.ts`, as `Api.ApiClient`;
- the controller with its three in-memory maps and the user table;
- the `User` entity.

Each class method is proved against a specification function of the old
state and the inputs. Properties that relate several calls are lemmas.

Two guards of `TestController` do not do what they evidently mean to (see
"## Findings"). The controller therefore takes a `Rules` value: `AsWritten`
runs the password comparison and the student-id lookup as the code has
them, `Corrected` runs the intended ones. Every endpoint outcome is defined
under both, and lemmas show where they part.

The modules follow the source files:

- `Storage`: storage keys and `Browser`;
- `UserStore`, `AutoLogin`, `Request`, `Api`, `Auth`, `Router`;
- `StudyPlan`, `StudyPlanDetail`;
- `BackendUser`: `User.java`;
- `BackendRules`: the pure validators, the IP, token and password helpers
  of `TestController.java`;
- `BackendController`: the stateful endpoints of `TestController.java`;
- shared helpers: `Wrappers`, `Text` (Java and JavaScript string
  operations), `Decimal` (integer/text conversion, Java's
  `Integer.parseInt`) and `Lists` (`filter`, `findIndex`).

## Model

| member | source | states |
|---|---|---|
| Storage.StoredToken | src/utils/request.js:56 | the bearer token is `userToken` when that is non-empty and `token` otherwise; a token exists iff one of the two is non-empty |
| Storage.SaveCredentials | src/utils/autoLogin.ts:11-25 | with no encrypted password storage is unchanged; otherwise `savedUsername` is the username, `savedPassword` the encrypted text, remember-me is on, and the credentials count as saved iff the username is non-empty; every other key keeps its value |
| Storage.Browser.constructor | src/utils/storageKeys.ts:3-10 | a browser starts with the given local and session storage, cookies and location |
| UserStore.Restored | src/stores/user.ts:16-42 | the restored state is logged in iff it carries user info |
| UserStore.UserStore.constructor | src/stores/user.ts:372-373 | creating the store restores from storage at once |
| UserStore.UserStore.RestoreFromStorage | src/stores/user.ts:16-42 | the new state is the restore of the current storage, and the result is its logged-in flag |
| UserStore.UserStore.RestoreTwice | src/stores/user.ts:16-42 | two restores over unchanged storage give the same state |
| UserStore.UserStore.ClearStorage | src/stores/user.ts:75-99 | exactly the eleven listed keys leave both storages, every cookie expires, and the location is kept |
| UserStore.UserStore.Logout | src/stores/user.ts:44-57 | the state is logged out; both storages lose exactly the eleven keys; redirect to `/login` only when asked |
| UserStore.UserStore.LogoutComplete | src/stores/user.ts:59-73 | as Logout, and the three credential keys also leave local storage |
| UserStore.UserStore.SaveAutoLoginCredentials | src/stores/user.ts:104-118 | local storage becomes `SaveCredentials` of the old storage |
| UserStore.UserStore.GetSavedPassword | src/stores/user.ts:123-127 | no saved password gives null; otherwise the decryption of the saved text |
| UserStore.UserStore.GetSavedUsername | src/stores/user.ts:132-134 | a username is returned iff the key is stored, and it is the stored value |
| UserStore.UserStore.IsRememberMeEnabled | src/stores/user.ts:139-141 | true iff `remember_me` is stored and is exactly `"true"` |
| UserStore.UserStore.HasAutoLoginCredentials | src/stores/user.ts:146-148 | true iff both the saved username and the saved password are non-empty |
| UserStore.UserStore.ClearAutoLoginCredentials | src/stores/user.ts:153-158 | exactly the three credential keys are removed |
| UserStore.UserStore.Login | src/stores/user.ts:218-275 | success iff the reply has code 200; a refused login changes neither storage nor state; an accepted one writes the token under both keys, the profile and the remember-me keys, and logs in |
| UserStore.UserStore.TryAutoLogin | src/stores/user.ts:163-216 | without remember-me, credentials, a decrypted password and captcha 200 nothing changes; otherwise the login outcome decides, and only a refused login clears the credentials |
| UserStore.UserStore.SetUserInfo | src/stores/user.ts:299-330 | with no user info it does nothing; otherwise the state holds the merged profile and storage gets the patch writes |
| UserStore.UserStore.ValidateLoginStatus | src/stores/user.ts:332-350 | true iff `userToken` is neither empty, `"undefined"` nor `"null"` and the stored user info parses |
| UserStore.UserStore.ForceCheckLoginStatus | src/stores/user.ts:352-369 | an unusable token logs out and gives false; a token with a logged-out state restores from storage; a logged-in state is kept |
| UserStore.MergeRestoresTokens | src/stores/user.ts:309-312 | the object spread of the current profile and the patch is the key-wise merge |
| UserStore.LoginThenRestore | src/stores/user.ts:232-270 | restoring right after a successful login yields the logged-in state the login set |
| UserStore.LogoutThenRestore | src/stores/user.ts:44-57 | restoring after logout yields the logged-out state |
| UserStore.LogoutKeepsCredentials | src/stores/user.ts:75-99 | logout keeps the remember-me and credential entries; logoutComplete removes them |
| UserStore.PatchHidesTokens | src/stores/user.ts:316-326 | after setUserInfo the stored user info parses to the merged profile without token or refresh token, and `token` is untouched |
| UserStore.LoginMakesStatusValid | src/stores/user.ts:232-270 | after a successful login with a usable token, validateLoginStatus holds |
| AutoLogin.AutoLoginService.constructor | src/utils/autoLogin.ts:148 | the service is bound to the store's browser |
| AutoLogin.AutoLoginService.SaveCredentials | src/utils/autoLogin.ts:11-25 | local storage becomes `SaveCredentials` of the old storage |
| AutoLogin.AutoLoginService.GetSavedPassword | src/utils/autoLogin.ts:30-36 | no saved password gives null; otherwise the decryption of the saved text |
| AutoLogin.AutoLoginService.GetSavedUsername | src/utils/autoLogin.ts:41-44 | a username is returned iff the key is stored, and it is the stored value |
| AutoLogin.AutoLoginService.IsRememberMe | src/utils/autoLogin.ts:49-52 | true iff the stored flag is exactly `"true"` |
| AutoLogin.AutoLoginService.HasSavedCredentials | src/utils/autoLogin.ts:57-59 | true iff username and password entries are both non-empty |
| AutoLogin.AutoLoginService.ClearCredentials | src/utils/autoLogin.ts:122-127 | exactly the three credential keys are removed |
| AutoLogin.AutoLoginService.TryAutoLogin | src/utils/autoLogin.ts:64-117 | false with nothing changed without remember-me and credentials; a failed decryption clears them; a refused captcha keeps them; a refused login clears them only when the message names the password or the username; an accepted login logs in |
| AutoLogin.AutoLoginService.Logout | src/utils/autoLogin.ts:132-136 | only `userToken`, `token` and `userInfo` leave local storage |
| AutoLogin.AutoLoginService.LogoutComplete | src/utils/autoLogin.ts:141-144 | logout followed by removing the three credential keys |
| AutoLogin.ServiceLogoutEndsSession | src/utils/autoLogin.ts:132-136 | after the service's logout a restore is logged out, and remember-me and saved credentials are unchanged |
| AutoLogin.ServiceLogoutKeepsRefreshToken | src/utils/autoLogin.ts:132-136 | the service's logout leaves `refreshToken`, which the store's logout removes |
| AutoLogin.LoginRefusalsClassified | src/utils/autoLogin.ts:103-111 | of the backend's login refusals, `密码错误` clears the saved credentials, while `用户不存在`, `账号已被禁用` and `验证码错误` keep them |
| Request.HttpStatusMessage | src/utils/request.js:32-50 | the table entry for the fourteen listed codes, and for any other status the fallback prefix, the decimal status and `)` |
| Request.FallbackNamesStatus | src/utils/request.js:49 | the fallback text for an unlisted status carries that status, which reads back from its digits |
| Request.FallbackIffUnlisted | src/utils/request.js:32-50 | the `请求失败 (status)` fallback is used iff the status is not in the table |
| Request.Classify | src/utils/request.js:75-97 | the body passes iff skipGlobalError is set or the code is 200 or 0; otherwise it is refused with the server's message or `操作失败` |
| Request.Authorize | src/utils/request.js:53-72 | the bearer header is set iff a token exists; the rest of the request config is unchanged |
| Request.ErrorToast | src/utils/request.js:160-175 | the server message wins over the status table; no response gives the network text when the request was sent, else the error's own message, else `请求失败，请稍后再试`; the text is never empty |
| Request.Generic | src/utils/request.js:154-178 | the raw error is always rejected last; a toast comes first unless skipGlobalError is set |
| Request.GenericStartsNothing | src/utils/request.js:154-178 | generic error handling never starts an auto-login |
| Request.RequestClient.constructor | src/utils/request.js:17-18 | no auto-login is running and the queue is empty |
| Request.RequestClient.ProcessQueue | src/utils/request.js:20-29 | every queued waiter is settled, in order, with the error or the token, and the queue is left empty |
| Request.RequestClient.OnError | src/utils/request.js:98-152 | a 401 during an auto-login is queued and starts nothing; a first 401 marks the request retried and starts one auto-login; anything else goes to generic handling |
| Request.RequestClient.OnAutoLoginDone | src/utils/request.js:115-151 | the flag is cleared and the queue emptied; every waiter is settled; on success the original request is resubmitted with the stored bearer token |
| Request.RequestClient.OnErrors | src/utils/request.js:98-113 | a run of errors starts at most one auto-login, none while one is running |
| Request.RetriedIsNotRetriedAgain | src/utils/request.js:102 | a request already marked retried is never queued, resubmitted or retried again |
| Api.StatusText | src/api/index.ts:146-186 | `请求参数错误` for 400, `未授权，请登录` for 401, `拒绝访问` for 403, `请求资源不存在` for 404, `服务器内部错误` for 500, `连接错误: ` and the decimal status for any other status, `请求失败` without a response |
| Api.RejectionText | src/api/index.ts:136-186 | a server message is the rejection text; otherwise the status text |
| Api.PreparedHeaders | src/api/index.ts:77-119 | Authorization is set iff a token exists; FormData drops Content-Type; other headers are kept and none is invented |
| Api.ClientsAgreeOnBearer | src/api/index.ts:80-83 | both clients attach the same Authorization header for the same storage |
| Api.Unwrap | src/api/index.ts:191-195 | `request` resolves to the response's `data` and rejects with the same error |
| Api.RequestConfig.constructor | src/api/index.ts:78-79 | a request config carries the given headers and body kind |
| Api.ApiClient.constructor | src/api/index.ts:26-32 | the client holds the given browser and default headers |
| Api.ApiClient.InterceptRequest | src/api/index.ts:77-119 | the config's headers become `PreparedHeaders` of the old ones |
| Api.ApiClient.OnResponseError | src/api/index.ts:134-187 | rejects with `RejectionText`; a 401 without a server message removes exactly the four session keys and goes to `/login`; nothing else changes storage or location |
| Api.ApiClient.ClearAuthHeader | src/api/index.ts:199-207 | the four session keys and the default Authorization header are removed |
| Api.PurgeLeavesNoToken | src/api/index.ts:153-164 | after the purge no token is found and no Authorization header is attached |
| Api.ServerMessageWins | src/api/index.ts:136-143 | a server message is returned as is and never purges storage, even for 401 |
| Auth.Decide | src/utils/auth.js:26-35 | a redirect to `/login` happens iff the user is not authenticated and the route requires it |
| Auth.CheckAuthStatus | src/utils/auth.js:2-24 | with a `userToken` and a logged-out store it restores and answers the restored flag; otherwise the store is unchanged and the answer is `isLoggedIn || !!token` |
| Auth.RequireAuth | src/utils/auth.js:26-35 | the store is restored exactly when a `userToken` is stored and the store is logged out, and is otherwise unchanged; the navigation is the guard decision on the flag `checkAuthStatus` answers; a route without the flag proceeds, and a redirect goes to `/login` only for a logged-out store |
| Auth.AlternateTokenIgnored | src/utils/auth.js:4 | a token stored only under `token` is not seen by the guard, although restore logs in with it |
| Router.FirstMatch | src/router/index.ts:3-85 | the index of the first route that matches the path, ignoring ASCII letter case and one trailing slash, or none when no route matches |
| Router.Resolve | src/router/index.ts:6-85 | a path resolves to a page of the table, following redirects |
| Router.ResolvePage | src/router/index.ts:6-85 | a direct match resolves to a page of the table |
| Router.TableIsUnambiguous | src/router/index.ts:6-79 | the explicit paths are pairwise distinct, and so are the page names |
| Router.HomeResolves | src/router/index.ts:7-9 | `/index` is the home page |
| Router.RootRedirectsHome | src/router/index.ts:11-14 | `/` resolves to the home page |
| Router.UnlistedPathsGoHome | src/router/index.ts:80-84 | every path that no explicit entry matches in any letter case, with or without a trailing slash, resolves to the home page |
| Router.PagesResolveToThemselves | src/router/index.ts:6-79 | every listed page path resolves to its own route |
| Router.CaseIrrelevant | src/router/index.ts:3-5 | between texts without upper-case letters, matching in any case is plain equality |
| Router.PatternsLowerCase | src/router/index.ts:6-79 | every explicit pattern of the table is written in lower case |
| Router.PatternsEndShape | src/router/index.ts:6-79 | every explicit pattern is non-empty and only `/` ends in a slash |
| Router.DistinctPatternsDisjoint | src/router/index.ts:3-5 | two different lower-case patterns without a trailing slash never match the same path |
| Router.MatchesAtMostOneEntry | src/router/index.ts:3-79 | no path matches two explicit entries of the table |
| Router.PageReachedInAnyCase | src/router/index.ts:3-79 | a path matching a page's pattern in any letter case, with or without a trailing slash, lands on that page |
| Router.UpperCaseIgnored | src/router/index.ts:16-19 | `/LOGIN` lands on the login page |
| Router.TrailingSlashIgnored | src/router/index.ts:16-19 | `/login/` lands on the login page |
| Router.EveryPathResolves | src/router/index.ts:80-84 | every path lands on a page of the table |
| Router.NoPageRequiresAuth | src/router/index.ts:6-79 | no page of the table sets `meta.requiresAuth` |
| Router.AnalysisAndAdviceShareComponent | src/router/index.ts:45-54 | the analysis and advice pages have one component and two names |
| Router.NavigationNeverRedirects | src/utils/auth.js:26-35 | `requireAuth` applied to the page any path lands on proceeds, whatever the session, and leaves the store valid |
| StudyPlan.CompletionRate | src/stores/studyPlan.ts:75-79 | 0 for no plans, within 0..100, 100 when all are completed, 0 when none is |
| StudyPlan.RoundedPercent | src/stores/studyPlan.ts:78 | the result is `100·c/n` rounded half up, so within one half of the exact ratio |
| StudyPlan.CreateRequest | src/stores/studyPlan.ts:181-190 | a missing plan type becomes `learning`; an absent or empty difficulty becomes `medium`; the other fields are copied |
| StudyPlan.EmptyTypeKeptEmptyDifficultyReplaced | src/stores/studyPlan.ts:184-186 | `??` keeps an empty plan type but `||` replaces an empty difficulty |
| StudyPlan.Toggled | src/stores/studyPlan.ts:251-256 | the status becomes completed iff it was not, active iff it was; nothing else changes |
| StudyPlan.ToggleTwice | src/stores/studyPlan.ts:251 | toggling twice restores an active or completed plan; a paused one ends active |
| StudyPlan.MergePlan | src/stores/studyPlan.ts:263-268 | the server's plan wins, and its missing latest detail id keeps the current one |
| StudyPlan.StudyPlanStore.constructor | src/stores/studyPlan.ts:66-72 | empty lists, page 1 of size 10, nothing selected |
| StudyPlan.StudyPlanStore.FetchPendingTasks | src/stores/studyPlan.ts:95-108 | with the reply the endpoint would give (as written the endpoint is missing, so only the exception path runs): code 200 stores the pending filter of the reply; an exception or any other reply keeps the list |
| StudyPlan.StudyPlanStore.CompleteTask | src/stores/studyPlan.ts:111-137 | with the reply the endpoint would give (as written the endpoint is missing, so only the exception path runs): an unknown id changes nothing; otherwise only the found slot changes, to the reply's item on success and back to the original on failure |
| StudyPlan.StudyPlanStore.FetchStudyPlans | src/stores/studyPlan.ts:140-162 | the query the action builds uses the given page and size or the current ones (it is not sent: `api.getStudyPlans` takes no parameters); code 200 stores the page; otherwise nothing changes |
| StudyPlan.StudyPlanStore.AddPlan | src/stores/studyPlan.ts:178-200 | the request carries the defaults; code 200 or 201 returns the created plan; when the refresh then answers 200, the list, total, page and size are the refreshed ones; in every other case the list, total, page and size are unchanged, and a refused creation returns nothing |
| StudyPlan.StudyPlanStore.TogglePlanComplete | src/stores/studyPlan.ts:241-278 | with the reply the endpoint would give (as written the endpoint is missing, so only the exception path runs): only the found slot changes; an exception restores it, a non-200 reply keeps the toggled value |
| StudyPlan.StudyPlanStore.UpdatePlanLatestDetail | src/stores/studyPlan.ts:280-289 | only the latest detail id of the matching plan and of the selected plan changes |
| StudyPlan.ActiveCountCounts | src/stores/studyPlan.ts:81-83 | the active count counts exactly the active plans, with multiplicity |
| StudyPlan.CompletedPlansExact | src/stores/studyPlan.ts:85-87 | completed plans are an order-preserving sublist holding exactly the completed plans |
| StudyPlan.PlansWithDetailsExcludesZero | src/stores/studyPlan.ts:90-92 | a plan whose latest detail id is absent or 0 is left out |
| StudyPlan.PendingTasksExact | src/stores/studyPlan.ts:100-103 | a task is pending iff its date is at most today in string order or its stage is 0 |
| StudyPlanDetail.Parsed | src/stores/studyPlanDetail.ts:77-84 | an entity's `planDetails` becomes the detail's `plan`; id, plan id, duration, level and date are kept |
| StudyPlanDetail.ParseAll | src/stores/studyPlanDetail.ts:112-119 | the map keeps the length and parses each entry |
| StudyPlanDetail.Insert | src/stores/studyPlanDetail.ts:68-70 | inserting into a newest-first list keeps it newest first and adds exactly one entry |
| StudyPlanDetail.SortNewestFirst | src/stores/studyPlanDetail.ts:68-70 | the sort is newest first and a permutation of its input |
| StudyPlanDetail.InsertKeepsTies | src/stores/studyPlanDetail.ts:68-70 | an inserted entry goes before the entries of its own time, whose order is kept |
| StudyPlanDetail.SortIsStable | src/stores/studyPlanDetail.ts:68-70 | the sort is stable, as the engine's `Array.prototype.sort` is: entries created at the same time keep their input order |
| StudyPlanDetail.HeadIsNewest | src/stores/studyPlanDetail.ts:73 | the first sorted entry is at least as new as every entry |
| StudyPlanDetail.HeadIsFirstNewest | src/stores/studyPlanDetail.ts:68-73 | the stable sort puts first the earliest entry of the input among those with the greatest date |
| StudyPlanDetail.StudyPlanDetailStore.constructor | src/stores/studyPlanDetail.ts:48-56 | empty maps, dialog closed, nothing loading |
| StudyPlanDetail.StudyPlanDetailStore.FetchLatestPlan | src/stores/studyPlanDetail.ts:59-96 | with the reply the endpoint would give (as written the endpoint is missing, so only the exception path runs): a non-empty 200 reply stores and returns the first entry, in reply order, with the greatest date; otherwise none and the map is unchanged |
| StudyPlanDetail.StudyPlanDetailStore.FetchHistoryPlans | src/stores/studyPlanDetail.ts:99-131 | with the reply the endpoint would give (as written the endpoint is missing, so only the exception path runs): code 200 stores the parsed newest-first list, of the same length; otherwise `[]` and nothing changes |
| StudyPlanDetail.StudyPlanDetailStore.GeneratePlanDetail | src/stores/studyPlanDetail.ts:133-168 | with the reply the endpoint would give (as written the endpoint is missing, so only the exception path runs): code 200 sets the current detail and prepends it to the history; otherwise none, both maps unchanged, and generation ends |
| StudyPlanDetail.StudyPlanDetailStore.GetCurrentPlanDetail | src/stores/studyPlanDetail.ts:170-172 | the stored detail, or none for an absent plan |
| StudyPlanDetail.StudyPlanDetailStore.GetHistoryPlans | src/stores/studyPlanDetail.ts:174-176 | the stored history, or `[]` for an absent plan |
| StudyPlanDetail.StudyPlanDetailStore.OpenHistoryDialog | src/stores/studyPlanDetail.ts:178-181 | the dialog opens and the history is fetched |
| StudyPlanDetail.StudyPlanDetailStore.CloseHistoryDialog | src/stores/studyPlanDetail.ts:183-186 | the dialog closes and no history plan is shown |
| StudyPlanDetail.StudyPlanDetailStore.ViewHistoryPlan | src/stores/studyPlanDetail.ts:188-190 | the given plan is shown |
| StudyPlanDetail.StudyPlanDetailStore.BackToHistoryList | src/stores/studyPlanDetail.ts:192-194 | only the shown history plan is cleared |
| StudyPlanDetail.StudyPlanDetailStore.ClearPlanDetail | src/stores/studyPlanDetail.ts:196-199 | the plan leaves both maps, every other key is kept, and both getters then report it absent |
| StudyPlanDetail.HistoryIsNewestFirst | src/stores/studyPlanDetail.ts:106-122 | the stored history is ordered newest first |
| Lists.Filter | src/stores/studyPlan.ts:86 | `filter` keeps exactly the elements satisfying the predicate, in order |
| Lists.FilterMultiplicity | src/stores/studyPlan.ts:82 | each element occurs in the filter as often as in the input when it passes, never otherwise |
| Lists.FindFirst | src/stores/studyPlan.ts:112 | `findIndex` gives the first matching index, or none when nothing matches |
| Text.Trim | smart-campus-backend/src/main/java/com/smartcampus/controller/TestController.java:351 | Java's `trim` leaves no control or space character at either end |
| Text.TrimOfVisible | smart-campus-backend/src/main/java/com/smartcampus/controller/TestController.java:351 | a text without spaces or controls is its own trim |
| Text.Utf16Length | smart-campus-backend/src/main/java/com/smartcampus/controller/TestController.java:361 | Java's `length()` lies between the number of characters and twice it |
| Text.Utf16LengthOfBmp | smart-campus-backend/src/main/java/com/smartcampus/controller/TestController.java:370 | BMP text has one code unit per character |
| Text.JavaFold | smart-campus-backend/src/main/java/com/smartcampus/controller/TestController.java:339 | the fold of Java's `equalsIgnoreCase` against ASCII text: ASCII letters to lower case, the Kelvin sign to `k` |
| Text.LexLessEqTotal | src/stores/studyPlan.ts:102 | the string order of the pending filter is total |
| Text.LexLessEqTransitive | src/stores/studyPlan.ts:102 | the string order of the pending filter is transitive |
| Text.UnitOrderIsNotCodePointOrder | src/stores/studyPlan.ts:102 | strings compare by UTF-16 units, so an emoji sorts before U+FF5E |
| Decimal.NatToString | smart-campus-backend/src/main/java/com/smartcampus/controller/TestController.java:427 | decimal text of a number is a non-empty digit string |
| Decimal.DigitsValueOfNatToString | smart-campus-backend/src/main/java/com/smartcampus/controller/TestController.java:427 | reading the decimal text back gives the number |
| Decimal.JavaDigit | smart-campus-backend/src/main/java/com/smartcampus/controller/TestController.java:545 | `Character.digit` in radix 10: the ASCII digits give their value, and the other BMP decimal digit runs give theirs |
| Decimal.AsciiDigitsValue | smart-campus-backend/src/main/java/com/smartcampus/controller/TestController.java:545 | on ASCII digit strings the digit reading of `parseInt` is the plain decimal value |
| Decimal.JavaParseInt | smart-campus-backend/src/main/java/com/smartcampus/controller/TestController.java:545 | a value lies within the 32-bit range; it needs a non-empty text whose characters after an optional sign are all decimal digits; a negative value needs the `-` sign; empty and sign-only texts fail; an ASCII digit string within range gives its decimal value |
| Decimal.ParseIntOfIntToString | smart-campus-backend/src/main/java/com/smartcampus/controller/TestController.java:545 | `parseInt` of the decimal text of any 32-bit number gives it back |
| Decimal.ParseIntOfWideInt | smart-campus-backend/src/main/java/com/smartcampus/controller/TestController.java:545 | the decimal text of a number outside 32 bits does not parse |
| Decimal.OtherScriptsParse | smart-campus-backend/src/main/java/com/smartcampus/controller/TestController.java:545 | fullwidth `１２３` gives 123, Arabic-Indic `-٤٢` gives -42, and `12a` fails |
| Decimal.ParseIntOfNatToString | smart-campus-backend/src/main/java/com/smartcampus/controller/TestController.java:485 | `parseInt` of the decimal text of a 32-bit number gives it back |
| BackendUser.GenderText | smart-campus-backend/src/main/java/com/smartcampus/entity/User.java:86-92 | `男` iff 1, `女` iff 2, `未知` iff neither |
| BackendUser.StatusText | smart-campus-backend/src/main/java/com/smartcampus/entity/User.java:94-96 | `正常` iff status is 1, `禁用` otherwise |
| BackendUser.AvatarOf | smart-campus-backend/src/main/java/com/smartcampus/entity/User.java:98-104 | the avatar URL when non-empty, the default avatar otherwise |
| BackendUser.User.constructor | smart-campus-backend/src/main/java/com/smartcampus/entity/User.java:24-73 | gender 0, status 1, role `user`, an empty metadata map, no dates |
| BackendUser.User.SetForm | smart-campus-backend/src/main/java/com/smartcampus/controller/TestController.java:256-262 | the account fields take the given values, with status 1 and role `user` |
| BackendUser.User.SetProfile | smart-campus-backend/src/main/java/com/smartcampus/controller/TestController.java:264-275 | the optional profile fields and the metadata take the given values |
| BackendUser.User.OnCreate | smart-campus-backend/src/main/java/com/smartcampus/entity/User.java:75-83 | creation time and metadata are filled only when missing |
| BackendUser.User.OnCreateTwice | smart-campus-backend/src/main/java/com/smartcampus/entity/User.java:75-83 | a second onCreate changes nothing |
| BackendUser.User.GetGenderText | smart-campus-backend/src/main/java/com/smartcampus/entity/User.java:86-92 | the gender text of the entity's gender |
| BackendUser.User.GetStatusText | smart-campus-backend/src/main/java/com/smartcampus/entity/User.java:94-96 | `正常` iff the entity's status is 1 |
| BackendUser.User.GetAvatar | smart-campus-backend/src/main/java/com/smartcampus/entity/User.java:98-104 | the entity's avatar URL when non-empty, the default otherwise |
| BackendUser.User.Row | smart-campus-backend/src/main/java/com/smartcampus/entity/User.java:24-73 | the saved row carries the entity's fields and the assigned id |
| BackendRules.StringValue | smart-campus-backend/src/main/java/com/smartcampus/controller/TestController.java:535-538 | null iff the key is absent or null; text is returned as is and a number as its decimal text |
| BackendRules.IntegerValue | smart-campus-backend/src/main/java/com/smartcampus/controller/TestController.java:540-549 | the default for an absent or null value; an integer within 32 bits is itself (Jackson's `Integer`), and a wider one (a `Long` or `BigInteger`) gives `parseInt` of its text, hence the default; any other value gives `parseInt` of its text, or the default when that fails |
| BackendRules.InfoOf | smart-campus-backend/src/main/java/com/smartcampus/controller/TestController.java:438-455 | the login user map carries the entity's id, username, email, role, texts and avatar |
| BackendRules.InfoHidesPassword | smart-campus-backend/src/main/java/com/smartcampus/controller/TestController.java:438-455 | the login user map does not depend on the password |
| BackendRules.IntegerValueOfText | smart-campus-backend/src/main/java/com/smartcampus/controller/TestController.java:540-549 | a decimal text reads back as its number; `""` and `"1.5"` give the default |
| BackendRules.ErrorResponse | smart-campus-backend/src/main/java/com/smartcampus/controller/TestController.java:551-557 | the body code equals the HTTP status and data is null |
| BackendRules.Ok | smart-campus-backend/src/main/java/com/smartcampus/controller/TestController.java:283-288 | a success is status 200 with body code 200 and the given data |
| BackendRules.ForwardedIp | smart-campus-backend/src/main/java/com/smartcampus/controller/TestController.java:337-349 | the first of the three headers that is present, non-empty and not `unknown` under Java's `equalsIgnoreCase`, else the remote address |
| BackendRules.UnknownSpellingsSkipped | smart-campus-backend/src/main/java/com/smartcampus/controller/TestController.java:339-346 | `UnKnown` and `un` Kelvin-sign `nown` are skipped as `unknown`, while an address is used |
| BackendRules.ClientIp | smart-campus-backend/src/main/java/com/smartcampus/controller/TestController.java:337-357 | no header and no remote address gives no address; a comma-free address is returned unchanged; an address listing several gives a comma-free one |
| BackendRules.ClientOfProxyChain | smart-campus-backend/src/main/java/com/smartcampus/controller/TestController.java:350-352 | for `client,proxies` with a non-empty, comma-free client, the answer is the client trimmed as Java's `trim` does |
| BackendRules.SeparatorsOnlyGiveUnknown | smart-campus-backend/src/main/java/com/smartcampus/controller/TestController.java:351 | a header of only commas splits to nothing and yields `unknown` |
| BackendRules.IsValidUsername | smart-campus-backend/src/main/java/com/smartcampus/controller/TestController.java:360-366 | true iff present, 3 to 20 characters long, all in `[A-Za-z0-9_]` |
| BackendRules.IsValidPassword | smart-campus-backend/src/main/java/com/smartcampus/controller/TestController.java:369-377 | an accepted password is at least 6 code units long, has an ASCII letter and a digit, and no line terminator |
| BackendRules.PasswordRuleComplete | smart-campus-backend/src/main/java/com/smartcampus/controller/TestController.java:369-377 | the converse of `IsValidPassword`: every password of at least six UTF-16 units with an ASCII letter, an ASCII digit and no line terminator is accepted |
| BackendRules.SurrogatePairsCountTwice | smart-campus-backend/src/main/java/com/smartcampus/controller/TestController.java:370-377 | `a1` and two emoji make six code units and pass; `a1` and one emoji does not |
| BackendRules.LineBreakFailsPasswordRule | smart-campus-backend/src/main/java/com/smartcampus/controller/TestController.java:374-376 | `abc123` is accepted and `abc123` followed by a newline is not |
| BackendRules.LaterChecksRedundant | smart-campus-backend/src/main/java/com/smartcampus/controller/TestController.java:223-228 | a valid username and password never trip the later blank-username and short-password guards |
| BackendRules.TokenUserId | smart-campus-backend/src/main/java/com/smartcampus/controller/TestController.java:470-485 | no `Bearer ` prefix is rejected first; a bad format exactly when the token lacks `jwt-` or a second `-` piece; a non-number exactly when that piece does not parse; otherwise the parsed 32-bit id |
| BackendRules.DigitsHaveNoDash | smart-campus-backend/src/main/java/com/smartcampus/controller/TestController.java:480 | a decimal id holds no `-`, so the split keeps it whole |
| BackendRules.TokenRoundTrip | smart-campus-backend/src/main/java/com/smartcampus/controller/TestController.java:427 | the token minted at login, sent as `Bearer` plus token, yields the same id |
| BackendRules.AsWrittenAcceptsAnyPassword | smart-campus-backend/src/main/java/com/smartcampus/controller/TestController.java:386-388 | the password comparison as written accepts any password against any stored one |
| BackendRules.PasswordMatchesIff | smart-campus-backend/src/main/java/com/smartcampus/controller/TestController.java:382-388 | the corrected comparison accepts iff the password equals the one that was encoded |
| BackendController.RequestIp | smart-campus-backend/src/main/java/com/smartcampus/controller/TestController.java:200 | with no forwarding headers and a remote address without a comma, the client address is the remote address |
| BackendController.IdentityNamesOneRow | smart-campus-backend/src/main/java/com/smartcampus/controller/TestController.java:486 | in a consistent table an id names one row |
| BackendController.NameNamesOneRow | smart-campus-backend/src/main/java/com/smartcampus/controller/TestController.java:406-411 | in a consistent table a username names one row |
| BackendController.AppendKeepsConsistent | smart-campus-backend/src/main/java/com/smartcampus/controller/TestController.java:239-277 | adding a row whose id, username and email are new keeps ids, usernames and emails distinct |
| BackendController.AppendKeepsStudentIdsUnique | smart-campus-backend/src/main/java/com/smartcampus/controller/TestController.java:249-264 | adding a row whose non-empty student id is new keeps non-empty student ids distinct |
| BackendController.CodeSingleUse | smart-campus-backend/src/main/java/com/smartcampus/controller/TestController.java:310-334 | an accepted code is removed and then refused; a refused code is kept; a null email or code is refused |
| BackendController.CodeOf | smart-campus-backend/src/main/java/com/smartcampus/controller/TestController.java:297-305 | a code is six digits, each the random draw at its place |
| BackendController.GenerateRandomCode | smart-campus-backend/src/main/java/com/smartcampus/controller/TestController.java:297-305 | the loop builds `CodeOf` of the draws |
| BackendController.SendCodeOutcome | smart-campus-backend/src/main/java/com/smartcampus/controller/TestController.java:93-179 | success iff the email has `@`, is outside its 60 s window and is not registered; success stores the code, or `123456` when the mail failed, and stamps the email; failure changes nothing |
| BackendController.FormProblem | smart-campus-backend/src/main/java/com/smartcampus/controller/TestController.java:211-231 | no problem iff username, password and email are valid; the username message comes first, then the password one; the blank and short messages never appear |
| BackendController.RegisterOutcome | smart-campus-backend/src/main/java/com/smartcampus/controller/TestController.java:183-294 | under either comparison rule, as written or corrected: success iff one user is added; a success needs an unthrottled address, a valid form and an accepted code, and spends exactly that code; a form refusal changes nothing; failures leave users and IP stamps unchanged; success stamps the IP; codes change only by the spent code |
| BackendController.EnrollOutcome | smart-campus-backend/src/main/java/com/smartcampus/controller/TestController.java:239-288 | success appends the new row with the next id and stamps the IP, and needs a new name, a new email and no student-id clash under the chosen rule (the untrimmed lookup as written, the trimmed one corrected); a failure changes nothing |
| BackendController.FindAccount | smart-campus-backend/src/main/java/com/smartcampus/controller/TestController.java:406-411 | a found row has the name as username or email; a username match is preferred; a taken username or email is always found |
| BackendController.LoginOutcome | smart-campus-backend/src/main/java/com/smartcampus/controller/TestController.java:391-466 | success iff the captcha, account, status and password (under the chosen rule) all pass; failure changes nothing; success stamps only that user's last login and answers the token, its refresh token and the user map without the password |
| BackendController.ProfileResponse | smart-campus-backend/src/main/java/com/smartcampus/controller/TestController.java:469-505 | 401 for a missing bearer or bad token, 500 for a non-number, 200 with the profile iff the id is in the table, 404 otherwise |
| BackendController.BuildUser | smart-campus-backend/src/main/java/com/smartcampus/controller/TestController.java:256-275 | the entity built with the setters and saved is `NewRow` of the form |
| BackendController.Controller.constructor | smart-campus-backend/src/main/java/com/smartcampus/controller/TestController.java:46-52 | the three maps start empty over the given user table, under the chosen comparison rule |
| BackendController.Controller.VerifyEmailCode | smart-campus-backend/src/main/java/com/smartcampus/controller/TestController.java:310-334 | the answer is `CodeAccepted` and the code map becomes `CodesAfterCheck` |
| BackendController.Controller.ExpireCode | smart-campus-backend/src/main/java/com/smartcampus/controller/TestController.java:124-130 | the timer removes the email's code, after which no code is accepted for it |
| BackendController.Controller.SendVerifyCode | smart-campus-backend/src/main/java/com/smartcampus/controller/TestController.java:93-179 | the response and new state are `SendCodeOutcome` of the old state |
| BackendController.Controller.Register | smart-campus-backend/src/main/java/com/smartcampus/controller/TestController.java:183-294 | the response and new state are `RegisterOutcome` of the old state under the controller's rule; the table stays consistent |
| BackendController.Controller.Enroll | smart-campus-backend/src/main/java/com/smartcampus/controller/TestController.java:239-288 | the response and new state are `EnrollOutcome` of the old state under the controller's rule |
| BackendController.Controller.Login | smart-campus-backend/src/main/java/com/smartcampus/controller/TestController.java:391-466 | the response and new state are `LoginOutcome` of the old state under the controller's rule |
| BackendController.Controller.GetUserProfile | smart-campus-backend/src/main/java/com/smartcampus/controller/TestController.java:469-505 | the response is `ProfileResponse` over the table |
| BackendController.RegisterKeepsConsistent | smart-campus-backend/src/main/java/com/smartcampus/controller/TestController.java:239-280 | registration keeps ids, usernames and emails distinct; with the corrected student-id lookup it also keeps non-empty student ids distinct |
| BackendController.LoginKeepsConsistent | smart-campus-backend/src/main/java/com/smartcampus/controller/TestController.java:423-424 | login keeps the table consistent, and keeps student ids distinct where they were |
| BackendController.SecondRegistrationThrottled | smart-campus-backend/src/main/java/com/smartcampus/controller/TestController.java:204-208 | a second registration from the same IP within 30 s gets 429 |
| BackendController.CodeSpentOnTakenName | smart-campus-backend/src/main/java/com/smartcampus/controller/TestController.java:234-241 | a registration refused for a taken username has already spent its code |
| BackendController.UndeliveredCodeIsFixed | smart-campus-backend/src/main/java/com/smartcampus/controller/TestController.java:148-152 | when the mail is not sent the stored code is `123456` |
| BackendController.SecondCodeThrottled | smart-campus-backend/src/main/java/com/smartcampus/controller/TestController.java:104-109 | a second code for the same email within 60 s gets 429 |
| BackendController.LoginThenProfile | smart-campus-backend/src/main/java/com/smartcampus/controller/TestController.java:427-505 | the token from a successful login fetches that user's profile, whose user map is the one login answered |
| BackendController.WrongPasswordRefused | smart-campus-backend/src/main/java/com/smartcampus/controller/TestController.java:418-420 | with the corrected comparison a wrong password is refused with 400 `密码错误` and nothing changes |
| BackendController.AsWrittenLoginAcceptsWrongPassword | smart-campus-backend/src/main/java/com/smartcampus/controller/TestController.java:386-388 | as written, a wrong password for an active account is accepted with 200 and a session for that user |
| BackendController.AsWrittenEnrollsDuplicateStudentId | smart-campus-backend/src/main/java/com/smartcampus/controller/TestController.java:249-264 | as written, a student id sent with a leading space is saved next to the same stored id, breaking student-id uniqueness; corrected, it is refused with 400 `学号已注册` |
| BackendController.StudentIdCheckAsWrittenMisses | smart-campus-backend/src/main/java/com/smartcampus/controller/TestController.java:249-264 | the untrimmed lookup misses ` 2021001` against a stored `2021001`, which the trimmed lookup catches |

## Left out

- Network, promises and timers: every server reply and every `await` is an input value. Real async interleaving is not modelled. The `request.js` queue is driven by explicit events: "a 401 arrived for a request" and "auto-login finished with this outcome".
- Encryption (`src/utils/encryption.ts`) is not part of this model. Encrypt and decrypt are parameters returning an optional text. The stores import names the file does not export.
- `JSON.parse`/`JSON.stringify` are a parameter pair with the law `parse(stringify(f)) == Some(f)`. A user-info object is a string-to-string map.
- Console logging and `ElMessage` toasts are not modelled. `request.js` toasts appear as output effects.
- `window.location` navigation is a location field. The cookie loop of `clearStorage` is "all cookies expired".
- `user.ts` `register` (src/stores/user.ts:277-297) and the `initApp` rule in `src/main.ts` are not modelled. Both are thin wrappers around a server call.
- `request.js` calls `userStore.clearUser()`, which the store lacks. That `TypeError` is modelled as a failed auto-login, as the code behaves.
- The development `userId` header of `src/api/index.ts:86-95` is random and development-only, so it is left out.
- The one-line HTTP wrappers of the `api` object and `askQuestionStream` are not modelled: they are I/O.
- StudyPlan.StudyPlanStore.FetchPendingTasks: the `api` object of src/api/index.ts:198-349 has no `api.getPendingTasks`, which src/stores/studyPlan.ts:98 calls. As written the call throws a `TypeError` that the action's `catch` absorbs, so only the exception branch (`Threw`) is reachable. The model also states what the action does with the reply such an endpoint would give.
- StudyPlan.StudyPlanStore.CompleteTask: the `api` object of src/api/index.ts:198-349 has no `api.completeTask`, which src/stores/studyPlan.ts:123 calls. As written the call throws a `TypeError` that the action's `catch` absorbs, so only the exception branch (`Threw`) is reachable. The model also states what the action does with the reply such an endpoint would give.
- StudyPlan.StudyPlanStore.TogglePlanComplete: the `api` object of src/api/index.ts:198-349 has no `api.togglePlanComplete`, which src/stores/studyPlan.ts:259 calls. As written the call throws a `TypeError` that the action's `catch` absorbs, so only the exception branch (`Threw`) is reachable. The model also states what the action does with the reply such an endpoint would give.
- StudyPlanDetail.StudyPlanDetailStore.FetchLatestPlan: the `api` object of src/api/index.ts:198-349 has no `api.getStudyPlanDetails`, which src/stores/studyPlanDetail.ts:62 calls. As written the call throws a `TypeError` that the action's `catch` absorbs, so only the exception branch (`Threw`) is reachable. The model also states what the action does with the reply such an endpoint would give.
- StudyPlanDetail.StudyPlanDetailStore.FetchHistoryPlans: the `api` object of src/api/index.ts:198-349 has no `api.getStudyPlanDetails`, which src/stores/studyPlanDetail.ts:102 calls. As written the call throws a `TypeError` that the action's `catch` absorbs, so only the exception branch (`Threw`) is reachable. The model also states what the action does with the reply such an endpoint would give.
- StudyPlanDetail.StudyPlanDetailStore.GeneratePlanDetail: the `api` object of src/api/index.ts:198-349 has no `api.generatePlanDetail`, which src/stores/studyPlanDetail.ts:136 calls. As written the call throws a `TypeError` that the action's `catch` absorbs, so only the exception branch (`Threw`) is reachable. The model also states what the action does with the reply such an endpoint would give.
- StudyPlan.StudyPlanStore.FetchStudyPlans: `api.getStudyPlans` (src/api/index.ts:225-226) takes no parameters, so the query built at src/stores/studyPlan.ts:143-149 is never sent. The method still returns it, as what the action computes.
- `studyPlan.ts` `getPlanById`, `updatePlan`, `deletePlan` and `init` (src/stores/studyPlan.ts:164, 202, 227, 291) are not modelled. They are request forwarding without a rule of their own.
- StudyPlan.CompletionRate: `Math.round` on floating point is modelled as integer rounding half up. Half-way cases of binary floating point may differ.
- StudyPlanDetail.SortNewestFirst: `new Date(...).getTime()` is a parameter `timeOf` returning an integer. An unparsable date, which gives `NaN` and an inconsistent comparator, is not modelled.
- `TestController` `testMail`, `test` and `getAllUsers` (TestController.java:55-89, 507-532) are not modelled: they are diagnostics. `EmailService` is not part of this model; whether the mail was sent is an input.
- The expiry `Timer` (TestController.java:124-130) is the explicit event `ExpireCode`. Like the original, it can remove a newer code for the same email.
- The repository (`UserRepository`) is a sequence of user rows. `save` fails exactly when a unique column repeats or a text exceeds its column (`SaveRejected`). The exception's message is an input.
- BackendController.RequestIp: a null `getRemoteAddr()` is not modelled, because the servlet container always supplies one.
- Column lengths in `SaveRejected` are counted in characters, not in the database's own units.
- Times are whole seconds and milliseconds. `LocalDateTime` formatting is an input text.
- Auth.CheckAuthStatus: `src/utils/auth.js:1-3` calls `useUserStore()` without importing it. Unless a build step injects the import, that is a `ReferenceError`, so the promise is never created and the navigation never settles. The model assumes the name resolves to the user store.
- Auth.RequireAuth: for the same reason, the guard as written would throw before deciding. The model decides as if `checkAuthStatus` ran. The 100 ms wait before the restored flag is read is not modelled.
- Router.Resolve: vue-router's percent-decoding, query and hash handling, and `BASE_URL` prefixes are not modelled. Paths are compared as given, in any ASCII letter case, with one optional trailing slash.
- BackendController.EnrollOutcome: a save the database refuses is modelled as not using up an id. With PostgreSQL `IDENTITY` columns (User.java:27), a failed insert still consumes its sequence value, so later ids can have gaps.
- BackendRules.IntegerValue: a JSON number with a fraction or exponent is modelled through its text. Jackson would hand over a `Double`, whose `toString` may differ from the text sent.
- BackendUser.GenderText: a null `gender` is not modelled; the `switch` would throw on it.

## Findings

| source | as written | input that shows it | evidently intended | confidence | as-written member | corrected member |
|---|---|---|---|---|---|---|
| smart-campus-backend/src/main/java/com/smartcampus/controller/TestController.java:386-388 | `checkPassword` only tests that the stored value starts with `encrypted_`, ignoring the raw password | user stored with `encodePassword("secret1")`, login with password `wrong1`: accepted | accept iff the raw password equals the encoded one's original | not executed | BackendController.AsWrittenLoginAcceptsWrongPassword | BackendController.WrongPasswordRefused |
| smart-campus-backend/src/main/java/com/smartcampus/controller/TestController.java:249-264 | the student-id uniqueness guard looks up the untrimmed id, but the trimmed id is saved | stored `2021001`, registration with ` 2021001`: not found, so a duplicate is saved | look up the trimmed id that will be saved | not executed | BackendController.AsWrittenEnrollsDuplicateStudentId | BackendController.RegisterKeepsConsistent |
