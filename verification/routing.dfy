/**
 * Where a signed-in user is sent: the routes of the application, the start
 * page's and the login page's redirect by role, the consent dialog that
 * holds the login redirect back, and the guard each dashboard runs when it
 * is shown to a user of another role.
 */
module Routing {
  import opened Wrappers
  import opened Schema
  import opened Text

  datatype Route = Root | Login | RequesterHome | ManagerHome | AdminHome | Profile | NotFound

  function RoutePath(r: Route): string {
    match r
    case Root => "/"
    case Login => "/login"
    case RequesterHome => "/dashboard-solicitante"
    case ManagerHome => "/dashboard-gestora"
    case AdminHome => "/dashboard-admin"
    case Profile => "/profile"
    case NotFound => "*"
  }

  /** The path without its trailing '/'s: every route pattern ends in "any number of '/'s". */
  function TrimTrailingSlashes(path: string): (t: string)
    ensures |t| <= |path| && t == path[..|t|]
    ensures t == [] || t[|t| - 1] != '/'
    ensures forall i :: |t| <= i < |path| ==> path[i] == '/'
    decreases |path|
  {
    if |path| > 0 && path[|path| - 1] == '/' then TrimTrailingSlashes(path[..|path| - 1]) else path
  }

  /** What the router compares of a path: letters in lower case, trailing '/'s dropped. */
  function RouteKey(path: string): string {
    TrimTrailingSlashes(ToLower(path))
  }

  /**
   * Whether a route pattern matches a location path as the router's default
   * matching does: case is ignored and any number of trailing '/'s is
   * allowed; the empty path matches nothing, not even the root pattern.
   */
  predicate Matches(pattern: string, path: string) {
    path != "" && RouteKey(path) == RouteKey(pattern)
  }

  /** The keys of the six listed patterns. */
  lemma PatternKeys()
    ensures RouteKey(RoutePath(Root)) == ""
    ensures RouteKey(RoutePath(Login)) == "/login"
    ensures RouteKey(RoutePath(RequesterHome)) == "/dashboard-solicitante"
    ensures RouteKey(RoutePath(ManagerHome)) == "/dashboard-gestora"
    ensures RouteKey(RoutePath(AdminHome)) == "/dashboard-admin"
    ensures RouteKey(RoutePath(Profile)) == "/profile"
  {
    LowercaseKept("/");
    LowercaseKept("/login");
    LowercaseKept("/dashboard-solicitante");
    LowercaseKept("/dashboard-gestora");
    LowercaseKept("/dashboard-admin");
    LowercaseKept("/profile");
  }

  /** A path of lower-case letters, digits and punctuation is its own lower case. */
  lemma LowercaseKept(s: string)
    requires forall i :: 0 <= i < |s| ==> s[i] < 'A' || 'Z' < s[i] < '\U{00C0}'
    ensures ToLower(s) == s
  {
    assert forall i :: 0 <= i < |s| ==> ToLower(s)[i] == s[i];
  }

  /**
   * The route table: the page of the listed pattern the path matches, and
   * the not-found page when it matches none of them.
   */
  function Resolve(path: string): (r: Route)
    ensures r != NotFound ==> Matches(RoutePath(r), path)
    ensures r == NotFound <==> forall q: Route :: q != NotFound ==> !Matches(RoutePath(q), path)
  {
    if path == "" then NotFound else PageOfKey(RouteKey(path))
  }

  /** The page whose pattern has the given key. */
  function PageOfKey(key: string): (r: Route)
    ensures r != NotFound ==> RouteKey(RoutePath(r)) == key
    ensures r == NotFound <==> forall q: Route :: q != NotFound ==> RouteKey(RoutePath(q)) != key
  {
    PatternKeys();
    if key == "" then Root
    else if key == "/login" then Login
    else if key == "/dashboard-solicitante" then RequesterHome
    else if key == "/dashboard-gestora" then ManagerHome
    else if key == "/dashboard-admin" then AdminHome
    else if key == "/profile" then Profile
    else NotFound
  }

  /** Every listed route is reached by its own path. */
  lemma ResolveRoundTrip(r: Route)
    requires r != NotFound
    ensures Resolve(RoutePath(r)) == r
  {
    PatternKeys();
  }

  /** A trailing '/' does not change the page a path reaches. */
  lemma ResolveIgnoresTrailingSlash(path: string)
    requires path != ""
    ensures Resolve(path + "/") == Resolve(path)
  {
    var l := ToLower(path + "/");
    assert l == ToLower(path) + "/" by {
      assert forall i :: 0 <= i < |l| ==> l[i] == (ToLower(path) + "/")[i];
    }
    assert l[..|l| - 1] == ToLower(path);
    assert RouteKey(path + "/") == RouteKey(path);
  }

  /** Nor does the case of its letters. */
  lemma ResolveIgnoresCase(path: string)
    ensures Resolve(ToLower(path)) == Resolve(path)
  {
    ToLowerIdempotent(path);
    assert RouteKey(ToLower(path)) == RouteKey(path);
    assert ToLower(path) == "" <==> path == "";
  }

  /** So "/LOGIN" reaches the login page, */
  lemma UpperCaseLogin()
    ensures Resolve("/LOGIN") == Login
  {
    var l := ToLower("/LOGIN");
    assert l == "/login" by {
      assert forall i :: 0 <= i < 6 ==> l[i] == LowerChar("/LOGIN"[i]);
    }
    ResolveIgnoresCase("/LOGIN");
    ResolveRoundTrip(Login);
  }

  /** and so does "/login/", */
  lemma SlashedLogin()
    ensures Resolve("/login/") == Login
  {
    assert "/login" + "/" == "/login/";
    ResolveIgnoresTrailingSlash("/login");
    ResolveRoundTrip(Login);
  }

  /** but "/login/x" does not. */
  lemma LongerThanLogin()
    ensures Resolve("/login/x") == NotFound
  {
    var l := ToLower("/login/x");
    assert l == "/login/x" by {
      assert forall i :: 0 <= i < 8 ==> l[i] == LowerChar("/login/x"[i]);
    }
    assert RouteKey("/login/x") == "/login/x";
  }

  /** The dashboard of each role. */
  function HomeOf(role: UserRole): (r: Route)
    ensures r in {RequesterHome, ManagerHome, AdminHome}
    ensures role == Admin <==> r == AdminHome
    ensures role == Gestora <==> r == ManagerHome
  {
    match role
    case Admin => AdminHome
    case Gestora => ManagerHome
    case Solicitante => RequesterHome
  }

  /**
   * The start page: nothing while the session loads, then the profile's
   * dashboard, or the login page without a profile. The role is the
   * database enum, so the `default` branch of the switch cannot be taken.
   */
  function IndexRedirect(loading: bool, profile: Option<UserRow>): (r: Option<Route>)
    ensures loading <==> r.None?
    ensures !loading && profile.None? ==> r == Some(Login)
    ensures !loading && profile.Some? ==> r == Some(HomeOf(profile.value.role))
  {
    if loading then None
    else if profile.Some? then Some(HomeOf(profile.value.role))
    else Some(Login)
  }

  /** What the login page does once its effect runs. */
  datatype LoginEffect = Wait | AskConsent | GoTo(route: Route)

  /**
   * The login page's effect: with a session and a profile, a profile that
   * has not consented gets the consent dialog, any other goes to its
   * dashboard; otherwise nothing happens.
   */
  function LoginRedirect(hasUser: bool, profile: Option<UserRow>): (e: LoginEffect)
    ensures e == Wait <==> !hasUser || profile.None?
    ensures e == AskConsent <==> hasUser && profile.Some? && !profile.value.privacyConsent
    ensures e.GoTo? ==> profile.Some? && profile.value.privacyConsent && e.route == HomeOf(profile.value.role)
  {
    if hasUser && profile.Some? then
      if !profile.value.privacyConsent then AskConsent else GoTo(HomeOf(profile.value.role))
    else Wait
  }

  /** The start page and the login page send a consenting user to the same dashboard. */
  lemma IndexAndLoginAgree(profile: UserRow)
    requires profile.privacyConsent
    ensures IndexRedirect(false, Some(profile)) == Some(LoginRedirect(true, Some(profile)).route)
  {
  }

  /**
   * Closing the consent dialog: it redirects only when the dialog closes
   * and the profile now records consent; the dialog's open flag follows
   * the event either way.
   */
  function ConsentDialogChange(open: bool, profile: Option<UserRow>): (r: (Option<Route>, bool))
    ensures r.1 == open
    ensures r.0.Some? <==> !open && profile.Some? && profile.value.privacyConsent
    ensures r.0.Some? ==> r.0.value == HomeOf(profile.value.role)
  {
    if !open && profile.Some? && profile.value.privacyConsent then (Some(HomeOf(profile.value.role)), open)
    else (None, open)
  }

  /** Dismissing the dialog without consenting leaves the user on the login page. */
  lemma DismissWithoutConsentStays(profile: UserRow)
    requires !profile.privacyConsent
    ensures ConsentDialogChange(false, Some(profile)) == (None, false)
    ensures LoginRedirect(true, Some(profile)) == AskConsent
  {
  }

  /** The call the login form makes. */
  datatype AuthCall = SignUp(email: string, password: string, name: string, role: UserRole) | SignIn(email: string, password: string)

  /** `handleSubmit`: sign up with the chosen role, or sign in. */
  function SubmitCall(isSignUp: bool, email: string, password: string, name: string, role: UserRole): (c: AuthCall)
    ensures c.SignUp? <==> isSignUp
    ensures c.email == email && c.password == password
    ensures c.SignUp? ==> c.name == name && c.role == role
  {
    if isSignUp then SignUp(email, password, name, role) else SignIn(email, password)
  }

  /** The sign-up form offers every role, the administrator's included. */
  lemma SignUpOffersEveryRole(email: string, password: string, name: string)
    ensures forall role: UserRole :: SubmitCall(true, email, password, name, role).role == role
  {
  }

  /** The link under the form switches between signing in and signing up. */
  function ToggleMode(isSignUp: bool): (r: bool)
    ensures r != isSignUp
  {
    !isSignUp
  }

  /** The form's heading, button and link texts. */
  function ModeTexts(isSignUp: bool, loading: bool): (r: (string, string, string))
    ensures r.1 == if loading then "Processando..." else if isSignUp then "Cadastrar" else "Entrar"
    ensures isSignUp ==> r.0 == "Criar nova conta" && r.2 == "Já tem conta? Fazer login"
    ensures !isSignUp ==> r.0 == "Entre com suas credenciais" && r.2 == "Criar nova conta"
  {
    (if isSignUp then "Criar nova conta" else "Entre com suas credenciais",
     if loading then "Processando..." else if isSignUp then "Cadastrar" else "Entrar",
     if isSignUp then "Já tem conta? Fazer login" else "Criar nova conta")
  }

  /** Toggling twice restores the mode. */
  lemma ToggleTwiceRestores(isSignUp: bool)
    ensures ToggleMode(ToggleMode(isSignUp)) == isSignUp
  {
  }

  /**
   * The guards as written: the administrator's dashboard sends other roles
   * to their dashboards, the manager's dashboard and the profile page send
   * everyone but a manager to the requester's dashboard, and the
   * requester's dashboard sends everyone but a requester to the manager's.
   */
  function GuardAsWritten(page: Route, role: UserRole): (r: Option<Route>)
    ensures page == AdminHome ==> (r.None? <==> role == Admin)
    ensures page in {ManagerHome, Profile} ==> (r.None? <==> role == Gestora) && (r.Some? ==> r.value == RequesterHome)
    ensures page == RequesterHome ==> (r.None? <==> role == Solicitante) && (r.Some? ==> r.value == ManagerHome)
    ensures page !in {AdminHome, ManagerHome, Profile, RequesterHome} ==> r.None?
  {
    match page
    case AdminHome => if role == Admin then None else if role == Gestora then Some(ManagerHome) else Some(RequesterHome)
    case ManagerHome => if role != Gestora then Some(RequesterHome) else None
    case Profile => if role != Gestora then Some(RequesterHome) else None
    case RequesterHome => if role != Solicitante then Some(ManagerHome) else None
    case _ => None
  }

  /** The role a guarded page is meant for. */
  function PageRole(page: Route): Option<UserRole> {
    match page
    case AdminHome => Some(Admin)
    case ManagerHome => Some(Gestora)
    case Profile => Some(Gestora)
    case RequesterHome => Some(Solicitante)
    case _ => None
  }

  /** The guards as the administrator's dashboard writes its own: anyone on a page not meant for them goes to their dashboard. */
  function Guard(page: Route, role: UserRole): (r: Option<Route>)
    ensures r.None? <==> PageRole(page).None? || PageRole(page) == Some(role)
    ensures r.Some? ==> r.value == HomeOf(role)
  {
    if PageRole(page).None? || PageRole(page) == Some(role) then None else Some(HomeOf(role))
  }

  /** The page reached after following at most `n` redirects. */
  function Follow(guard: (Route, UserRole) -> Option<Route>, page: Route, role: UserRole, n: nat): Route
    decreases n
  {
    if n == 0 then page
    else match guard(page, role)
      case None => page
      case Some(next) => Follow(guard, next, role, n - 1)
  }

  /**
   * As written, an administrator who lands on the manager's or the
   * requester's dashboard is sent back and forth between the two and never
   * comes to rest: after any number of redirects another one is due.
   */
  lemma {:induction false} AdminBouncesBetweenDashboards(n: nat, start: Route)
    requires start in {ManagerHome, RequesterHome}
    ensures Follow(GuardAsWritten, start, Admin, n) in {ManagerHome, RequesterHome}
    ensures GuardAsWritten(Follow(GuardAsWritten, start, Admin, n), Admin).Some?
  {
    if n > 0 {
      var next := GuardAsWritten(start, Admin).value;
      AdminBouncesBetweenDashboards(n - 1, next);
    }
  }

  /** The corrected guards settle every role on every page after at most one redirect, on a page meant for that role. */
  lemma GuardSettlesInOneStep(page: Route, role: UserRole)
    ensures Guard(Follow(Guard, page, role, 1), role).None?
    ensures Guard(page, role).Some? ==> Follow(Guard, page, role, 1) == HomeOf(role)
  {
    var home := HomeOf(role);
    assert PageRole(home) == Some(role);
  }

  /** The two sets of guards send every role but the administrator to the same place. */
  lemma GuardsDifferOnlyForAdmin(page: Route, role: UserRole)
    requires role != Admin || page == AdminHome
    ensures GuardAsWritten(page, role) == Guard(page, role)
  {
  }

  /** Each role's dashboard admits that role under both sets of guards. */
  lemma HomeAdmitsItsRole(role: UserRole)
    ensures GuardAsWritten(HomeOf(role), role).None?
    ensures Guard(HomeOf(role), role).None?
  {
  }

  /** The profile page's back button. */
  function ProfileBack(): (r: Route)
    ensures Guard(r, Gestora).None? && r == HomeOf(Gestora)
  {
    ManagerHome
  }
}
