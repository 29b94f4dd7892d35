/** The sign-in form of src/pages/LoginPage.jsx: a presence check on both
    inputs, then `login` from the session provider, a toast, and on success
    a move to /dashboard. */
module LoginPage {
  import opened Common
  import opened Entities
  import opened Browser
  import opened AuthContext
  import opened AppRoutes
  import opened Config
  import opened AuthService
  import opened ApiService

  /** The form and what the page shows. */
  datatype LoginForm = LoginForm(email: string, password: string, loading: bool, toast: Toast)

  const FillAllFields: string := "Please fill in all fields"
  const WelcomeBack: string := "Welcome back!"

  /** Both inputs are non-empty (`!email || !password` is the guard). */
  predicate Filled(form: LoginForm) {
    form.email != "" && form.password != ""
  }

  /** The form as a freshly loaded page shows it. */
  const BlankForm: LoginForm := LoginForm("", "", false, NoToast)

  /** `handleSubmit`, where `answer` is what the server answers the login
      request. An empty input stops before `login`. When the API client logs
      the admin out (a 401), `window.location.href = '/login'` reloads the
      application: the page comes back blank and the provider mounts again
      on what the storage holds. Otherwise the page shows the outcome: the
      welcome and a move to /dashboard, or the refusal. */
  function HandleSubmit(form: LoginForm, s: Session, c: Config, answer: Result<Envelope<AdminRecord>, HttpError>)
    : (r: (LoginForm, Session))
    ensures !Filled(form) ==> r == (form.(toast := ErrorToast(FillAllFields)), s)
    ensures Filled(form) && ClientLogsOut(s, answer) ==>
              && r.0 == BlankForm
              && r.1 == Mount(Remove(s.store, AdminKey)).(location := Some("/login"))
              && !IsAuthenticatedInContext(r.1) && !IsAuthenticated(r.1.store)
    ensures var (result, after) := LoginThroughClient(s, c, form.email, form.password, answer);
            Filled(form) && !ClientLogsOut(s, answer) ==>
              && !r.0.loading && r.1.admin == after.admin && r.1.store == after.store
              && (result.LoggedIn? ==> r.0.toast == SuccessToast(WelcomeBack) && r.1.location == Some("/dashboard"))
              && (result.LoginRefused? ==> r.0.toast == ErrorToast(OrElse(Some(result.message), LoginFailed)) && r.1 == s)
  {
    if !Filled(form) then
      (form.(toast := ErrorToast(FillAllFields)), s)
    else
      var (result, next) := LoginThroughClient(s, c, form.email, form.password, answer);
      if ClientLogsOut(s, answer) then
        (BlankForm, Mount(next.store).(location := next.location))
      else
        match result
        case LoggedIn(_) => (form.(loading := false, toast := SuccessToast(WelcomeBack)), next.(location := Some("/dashboard")))
        case LoginRefused(message) =>
          (form.(loading := false, toast := ErrorToast(if message != "" then message else LoginFailed)), next)
  }

  /** Signing in as an admin ends on the dashboard: the page navigates to
      /dashboard and the router, now seeing a signed-in session, renders it. */
  lemma AdminLoginReachesDashboard(form: LoginForm, s: Session, c: Config, admin: AdminRecord, message: Option<string>)
    requires Filled(form) && admin.role == AdminRole && GetCurrentAdmin(s.store).Ok?
    ensures var (_, after) := HandleSubmit(form, s, c, Ok(Envelope(Some(admin), message)));
            && after.admin == Some(admin)
            && after.location == Some("/dashboard")
            && Destination(after.location.value, IsAuthenticatedInContext(after)) == Some(DashboardScreen)
  {
    SignedInLandsInside("/dashboard");
  }

  /** Any other role is turned away: the session is unchanged, so a
      signed-out visitor stays on the login screen. */
  lemma OtherRoleStaysOut(form: LoginForm, s: Session, c: Config, user: AdminRecord, message: Option<string>)
    requires Filled(form) && user.role != AdminRole && !IsAuthenticatedInContext(s) && GetCurrentAdmin(s.store).Ok?
    ensures var (page, after) := HandleSubmit(form, s, c, Ok(Envelope(Some(user), message)));
            && after == s
            && page.toast == ErrorToast(AccessDenied)
            && Destination("/dashboard", IsAuthenticatedInContext(after)) == Some(LoginScreen)
  {
    SignedOutLandsOnLogin("/dashboard");
  }

  /** A wrong password answered with 401 goes through the API client's
      logout: the typed email and password are lost with the reload, and the
      browser is back on the login screen. */
  lemma RejectedPasswordReloadsPage(form: LoginForm, s: Session, c: Config, message: Option<string>)
    requires Filled(form) && GetCurrentAdmin(s.store).Ok?
    ensures var (page, after) := HandleSubmit(form, s, c, Err(HttpError(Some(401), message)));
            && page.email == "" && page.password == "" && page.toast == NoToast
            && Destination(after.location.value, IsAuthenticatedInContext(after)) == Some(LoginScreen)
  {
    SignedOutLandsOnLogin("/login");
  }

  /** Another failure (no response, or a status other than 401) keeps the
      page and shows the server's message, or "Login failed". */
  lemma OtherFailureKeepsPage(form: LoginForm, s: Session, c: Config, e: HttpError)
    requires Filled(form) && GetCurrentAdmin(s.store).Ok? && e.status != Some(401)
    ensures var (page, after) := HandleSubmit(form, s, c, Err(e));
            && after == s && page.email == form.email && page.password == form.password
            && page.toast == ErrorToast(ServerMessage(e, LoginFailed))
  {
  }
}
