/**
 * The route table of `src/router/index.ts` and how a path resolves in it.
 * The router is created without `strict` or `sensitive`, so vue-router 4
 * matches a path in any ASCII letter case and with or without one trailing
 * slash; the catch-all entry matches every path.
 */
module Router {
  import opened Wrappers
  import Auth
  import Text
  import UserStore

  /** A page's `requiresAuth` is the truthiness of its `meta.requiresAuth`. */
  datatype Route =
    | Page(path: string, name: string, component: string, requiresAuth: bool)
    | Redirect(path: string, target: string)
    | CatchAll(target: string)

  /** The routes in declaration order. None of them carries `meta`. */
  const Routes: seq<Route> := [
    Page("/index", "home", "Home.vue", false),
    Redirect("/", "/index"),
    Page("/login", "login", "Login.vue", false),
    Page("/register", "register", "Register.vue", false),
    Page("/user-manage", "user-manage", "UserManage.vue", false),
    Page("/ai/chat", "smart-qa", "SmartQa.vue", false),
    Page("/ai/study", "personal-study-plan", "PersonalStudyPlan.vue", false),
    Page("/ai/study/review", "smart-review", "SmartReview.vue", false),
    Page("/campus/analysis", "campus-analysis", "StudyManagement.vue", false),
    Page("/campus/advice", "campus-advice", "StudyManagement.vue", false),
    Page("/campus/library", "library-status", "LibraryStatus.vue", false),
    Page("/career/competitions", "competition-management", "CompetitionManagement.vue", false),
    Page("/career/position", "career-navigation", "CareerNavigation.vue", false),
    Page("/career/pee", "exam-support", "PostgraduateSupport.vue", false),
    Page("/profile", "user-center", "UserCenter.vue", false),
    CatchAll("/index")]

  /**
   * The non-strict, case-insensitive match of a static path pattern: equal
   * up to ASCII letter case, allowing one extra trailing slash after any
   * pattern but the root.
   */
  predicate PathMatches(pattern: string, path: string) {
    || Text.EqualsIgnoreCase(pattern, path)
    || (pattern != "/" && |path| == |pattern| + 1 && path[|pattern|] == '/'
        && Text.EqualsIgnoreCase(pattern, path[..|pattern|]))
  }

  predicate Matches(r: Route, path: string) {
    r.CatchAll? || PathMatches(r.path, path)
  }

  /** The first route of `routes` that matches `path`. */
  function FirstMatch(routes: seq<Route>, path: string): (r: Option<nat>)
    ensures r.Some? ==> r.value < |routes| && Matches(routes[r.value], path)
    ensures r.Some? ==> forall j :: 0 <= j < r.value ==> !Matches(routes[j], path)
    ensures r.None? ==> forall j :: 0 <= j < |routes| ==> !Matches(routes[j], path)
  {
    if routes == [] then None
    else if Matches(routes[0], path) then Some(0)
    else match FirstMatch(routes[1..], path)
      case None => None
      case Some(i) => Some(i + 1)
  }

  /** The page a navigation to `path` lands on, following at most one redirect. */
  function Resolve(path: string): (p: Option<Route>)
    ensures p.Some? ==> p.value.Page? && p.value in Routes
  {
    match FirstMatch(Routes, path)
    case None => None
    case Some(i) =>
      match Routes[i]
      case Page(_, _, _, _) => Some(Routes[i])
      case Redirect(_, target) => ResolvePage(target)
      case CatchAll(target) => ResolvePage(target)
  }

  function ResolvePage(path: string): (p: Option<Route>)
    ensures p.Some? ==> p.value.Page? && p.value in Routes
  {
    match FirstMatch(Routes, path)
    case Some(i) => if Routes[i].Page? then Some(Routes[i]) else None
    case None => None
  }

  /** Whether an explicit entry of the table (every entry but the catch-all) matches `path`. */
  predicate Listed(path: string) {
    exists i | 0 <= i < |Routes| - 1 :: Matches(Routes[i], path)
  }

  const Home: Route := Routes[0]

  /** The first route that matches is the one the search finds. */
  lemma FirstMatchAt(routes: seq<Route>, path: string, i: nat)
    requires i < |routes| && Matches(routes[i], path)
    requires forall j :: 0 <= j < i ==> !Matches(routes[j], path)
    ensures FirstMatch(routes, path) == Some(i)
  {
  }

  /** The explicit paths of the table, and the names of its pages, are pairwise distinct. */
  lemma TableIsUnambiguous()
    ensures forall i, j | 0 <= i < j < |Routes| - 1 :: Routes[i].path != Routes[j].path
    ensures forall i, j | 0 <= i < j < |Routes| && Routes[i].Page? && Routes[j].Page? ::
      Routes[i].name != Routes[j].name
  {
  }

  lemma HomeResolves()
    ensures ResolvePage("/index") == Some(Home)
  {
    FirstMatchAt(Routes, "/index", 0);
  }

  /** `/` redirects to the home page. */
  lemma RootRedirectsHome()
    ensures Resolve("/") == Some(Home)
  {
    FirstMatchAt(Routes, "/", 1);
    HomeResolves();
  }

  /** Whether `s` has no upper-case ASCII letter. */
  predicate NoUpper(s: string) {
    forall k | 0 <= k < |s| :: !('A' <= s[k] <= 'Z')
  }

  /** Between strings without upper-case letters, ignoring case changes nothing. */
  lemma {:induction false} CaseIrrelevant(a: string, b: string)
    requires NoUpper(a) && NoUpper(b)
    ensures Text.EqualsIgnoreCase(a, b) <==> a == b
  {
    if a != [] && b != [] && |a| == |b| {
      assert NoUpper(a[1..]) by { forall k | 0 <= k < |a[1..]| ensures !('A' <= a[1..][k] <= 'Z') { assert a[1..][k] == a[k + 1]; } }
      assert NoUpper(b[1..]) by { forall k | 0 <= k < |b[1..]| ensures !('A' <= b[1..][k] <= 'Z') { assert b[1..][k] == b[k + 1]; } }
      CaseIrrelevant(a[1..], b[1..]);
      if Text.EqualsIgnoreCase(a, b) {
        assert Text.EqualsIgnoreCase(a[1..], b[1..]) by {
          forall i | 0 <= i < |a[1..]| ensures Text.AsciiLower(a[1..][i]) == Text.AsciiLower(b[1..][i]) {
            assert Text.AsciiLower(a[i + 1]) == Text.AsciiLower(b[i + 1]);
          }
        }
        assert a == [a[0]] + a[1..] && b == [b[0]] + b[1..];
      }
    }
  }

  /** The patterns of the first five entries are written in lower case. */
  lemma HeadPatternsLowerCase()
    ensures forall i | 0 <= i < 5 :: NoUpper(Routes[i].path)
  {
  }

  /** The patterns of the next five entries are written in lower case. */
  lemma MiddlePatternsLowerCase()
    ensures forall i | 5 <= i < 10 :: NoUpper(Routes[i].path)
  {
  }

  /** The patterns of the last explicit entries are written in lower case. */
  lemma TailPatternsLowerCase()
    ensures forall i | 10 <= i < |Routes| - 1 :: NoUpper(Routes[i].path)
  {
  }

  /** The explicit patterns are written in lower case. */
  lemma PatternsLowerCase()
    ensures forall i | 0 <= i < |Routes| - 1 :: NoUpper(Routes[i].path)
  {
    HeadPatternsLowerCase();
    MiddlePatternsLowerCase();
    TailPatternsLowerCase();
  }

  /** The explicit patterns are non-empty, and only `/` ends in a slash. */
  lemma PatternsEndShape()
    ensures forall i | 0 <= i < |Routes| - 1 ::
      Routes[i].path != [] && (Routes[i].path[|Routes[i].path| - 1] == '/' ==> Routes[i].path == "/")
  {
  }

  /** Whether `p` is a non-empty pattern in lower case that ends in a slash only when it is `/`. */
  predicate WellFormedPattern(p: string) {
    p != [] && NoUpper(p) && (p[|p| - 1] == '/' ==> p == "/")
  }

  /** Two different well-formed patterns never match the same path. */
  lemma DistinctPatternsDisjoint(p: string, q: string, path: string)
    requires WellFormedPattern(p) && WellFormedPattern(q) && p != q
    ensures !(PathMatches(p, path) && PathMatches(q, path))
  {
    CaseIrrelevant(p, q);
  }

  /** Two explicit entries never both match one path, in any letter case, with or without a trailing slash. */
  lemma MatchesAtMostOneEntry(path: string)
    ensures forall i, j | 0 <= i < j < |Routes| - 1 :: !(Matches(Routes[i], path) && Matches(Routes[j], path))
  {
    PatternsLowerCase();
    PatternsEndShape();
    TableIsUnambiguous();
    forall i, j | 0 <= i < j < |Routes| - 1
      ensures !(Matches(Routes[i], path) && Matches(Routes[j], path))
    {
      DistinctPatternsDisjoint(Routes[i].path, Routes[j].path, path);
    }
  }

  /** Every path the table does not list lands on the home page. */
  lemma UnlistedPathsGoHome(path: string)
    requires !Listed(path)
    ensures Resolve(path) == Some(Home)
  {
    FirstMatchAt(Routes, path, |Routes| - 1);
    HomeResolves();
  }

  /**
   * A path that matches a page's pattern, in any letter case and with or
   * without a trailing slash, lands on that page.
   */
  lemma PageReachedInAnyCase(i: nat, path: string)
    requires i < |Routes| && Routes[i].Page? && PathMatches(Routes[i].path, path)
    ensures Resolve(path) == Some(Routes[i])
  {
    MatchesAtMostOneEntry(path);
    FirstMatchAt(Routes, path, i);
  }

  /** Every page is reached through its own path. */
  lemma PagesResolveToThemselves(i: nat)
    requires i < |Routes| && Routes[i].Page?
    ensures Resolve(Routes[i].path) == Some(Routes[i])
  {
    PageReachedInAnyCase(i, Routes[i].path);
  }

  /** Letter case does not change where a path lands. */
  lemma UpperCaseIgnored()
    ensures Resolve("/LOGIN") == Some(Routes[2])
  {
    assert Text.EqualsIgnoreCase("/login", "/LOGIN");
    PageReachedInAnyCase(2, "/LOGIN");
  }

  /** A trailing slash does not change where a path lands. */
  lemma TrailingSlashIgnored()
    ensures Resolve("/login/") == Some(Routes[2])
  {
    assert "/login/"[..6] == "/login";
    PageReachedInAnyCase(2, "/login/");
  }

  /** The analysis and advice pages share one component. */
  lemma AnalysisAndAdviceShareComponent()
    ensures Resolve("/campus/analysis").Some? && Resolve("/campus/advice").Some?
    ensures Resolve("/campus/analysis").value.component == Resolve("/campus/advice").value.component
    ensures Resolve("/campus/analysis").value.name != Resolve("/campus/advice").value.name
  {
    PagesResolveToThemselves(8);
    PagesResolveToThemselves(9);
  }

  /** Every path lands on a page: the catch-all and the redirect both lead home. */
  lemma EveryPathResolves(path: string)
    ensures Resolve(path).Some?
  {
    assert Matches(Routes[|Routes| - 1], path);
    var k := FirstMatch(Routes, path).value;
    if !Routes[k].Page? {
      assert k == 1 || k == |Routes| - 1;
      HomeResolves();
    }
  }

  /** No page of the table sets `meta.requiresAuth`. */
  lemma NoPageRequiresAuth()
    ensures forall i | 0 <= i < |Routes| && Routes[i].Page? :: !Routes[i].requiresAuth
  {
  }

  /**
   * A navigation to any path, passed through `requireAuth` with the meta of
   * the page it lands on, always proceeds, whatever the session.
   */
  method NavigationNeverRedirects(store: UserStore.UserStore, path: string) returns (next: Auth.Navigation)
    requires store.Valid()
    modifies store`state
    ensures store.Valid()
    ensures next == Auth.Proceed
  {
    EveryPathResolves(path);
    NoPageRequiresAuth();
    var page := Resolve(path).value;
    next := Auth.RequireAuth(store, page.requiresAuth);
  }
}
