/** The session provider of src/context/AuthContext.jsx: the admin held in
    memory, the mount-time role check of the stored record, the role-gated
    login, logout, and the `useAuth` guard. */
module AuthContext {
  import opened Common
  import opened Entities
  import opened Config
  import opened Browser
  import opened AuthService
  import opened ApiService

  const AdminRole: string := "admin"
  const AccessDenied: string := "Access denied. Admin privileges required."
  const LoginFailed: string := "Login failed"

  /** The provider's state, the browser storage, the page the browser has
      been sent to, if any, and the last toast the provider raised. */
  datatype Session = Session(admin: Option<AdminRecord>, loading: bool, store: Store, location: Option<string>,
                             toast: Toast)

  /** Before the mount effect has run: no admin, still loading. */
  function Initial(store: Store): (s: Session)
    ensures s.admin.None? && s.loading && s.store == store && s.toast == NoToast
  {
    Session(None, true, store, None, NoToast)
  }

  /** The context's `isAuthenticated`: an admin is held in memory. */
  predicate IsAuthenticatedInContext(s: Session) {
    s.admin.Some?
  }

  /** The provider renders its children only once loading is over. */
  predicate RendersChildren(s: Session) {
    !s.loading
  }

  /** The mount effect. A stored admin record becomes the admin; a stored
      record with any other role is removed, with an access-denied toast. A
      stored text that does not parse makes the effect throw before loading
      ends. */
  function Mount(store: Store): (s: Session)
    ensures s.location.None?
    ensures s.admin.Some? <==> GetCurrentAdmin(store).Ok? && GetCurrentAdmin(store).value.Some?
                               && GetCurrentAdmin(store).value.value.role == AdminRole
    ensures s.admin.Some? ==> s.store == store && AdminKey in store && store[AdminKey] == AdminJson(s.admin.value)
    ensures s.loading <==> GetCurrentAdmin(store).Err?
    ensures s.toast == ErrorToast(AccessDenied) <==>
              (GetCurrentAdmin(store).Ok? && GetCurrentAdmin(store).value.Some?
               && GetCurrentAdmin(store).value.value.role != AdminRole)
    ensures s.toast != ErrorToast(AccessDenied) ==> s.toast == NoToast
    ensures s.toast == ErrorToast(AccessDenied) ==> s.store == Remove(store, AdminKey)
  {
    match GetCurrentAdmin(store)
    case Err(_) => Session(None, true, store, None, NoToast)
    case Ok(None) => Session(None, false, store, None, NoToast)
    case Ok(Some(a)) =>
      if a.role == AdminRole then Session(Some(a), false, store, None, NoToast)
      else Session(None, false, Remove(store, AdminKey), None, ErrorToast(AccessDenied))
  }

  /** A stored record of another role does not survive the mount: both the
      context and the storage check then say "not signed in", and the admin
      is told access is denied. */
  lemma MountDropsOtherRoles(store: Store, a: AdminRecord)
    requires a.role != AdminRole
    ensures var s := Mount(store[AdminKey := AdminJson(a)]);
            !IsAuthenticatedInContext(s) && !IsAuthenticated(s.store) && RendersChildren(s)
            && s.toast == ErrorToast(AccessDenied)
  {
  }

  /** After the mount, a signed-in context implies a stored record; the
      converse fails, because an empty stored text counts as signed in for
      the storage check but yields no admin. */
  lemma ContextImpliesStorage(store: Store)
    ensures IsAuthenticatedInContext(Mount(store)) ==> IsAuthenticated(Mount(store).store)
    ensures var empty := map[AdminKey := Text("")];
            IsAuthenticated(Mount(empty).store) && !IsAuthenticatedInContext(Mount(empty))
  {
    AuthenticatedWithoutRecord();
  }

  /** What `login` resolves with. */
  datatype LoginResult = LoggedIn(data: AdminRecord) | LoginRefused(message: string)

  /** `login(email, password)` given what the login request settled with
      (after the API client's interceptor). `loginAdmin` returns the
      envelope's `data`; a missing one makes reading its role throw, which
      the `catch` reports like a failed request without a server message. */
  function Login(s: Session, outcome: Result<Envelope<AdminRecord>, HttpError>): (r: (LoginResult, Session))
    ensures r.0.LoggedIn? <==> outcome.Ok? && outcome.value.data.Some? && outcome.value.data.value.role == AdminRole
    ensures r.0.LoggedIn? ==> r.0.data == outcome.value.data.value
    ensures r.0.LoggedIn? ==> r.1 == s.(admin := Some(r.0.data), store := s.store[AdminKey := AdminJson(r.0.data)])
    ensures r.0.LoginRefused? ==> r.1 == s
  {
    match Unwrap(outcome)
    case Err(e) => (LoginRefused(ServerMessage(e, LoginFailed)), s)
    case Ok(None) => (LoginRefused(LoginFailed), s)
    case Ok(Some(data)) =>
      if data.role != AdminRole then (LoginRefused(AccessDenied), s)
      else (LoggedIn(data), s.(admin := Some(data), store := s.store[AdminKey := AdminJson(data)]))
  }

  /** The refusal messages: another role is told access is denied; a failed
      request reports the server's message, or "Login failed". */
  lemma LoginRefusalMessages(s: Session, outcome: Result<Envelope<AdminRecord>, HttpError>)
    ensures outcome.Ok? && outcome.value.data.Some? && outcome.value.data.value.role != AdminRole ==>
              Login(s, outcome).0 == LoginRefused(AccessDenied)
    ensures outcome.Err? ==> Login(s, outcome).0 == LoginRefused(ServerMessage(outcome.error, LoginFailed))
    ensures outcome.Ok? && outcome.value.data.None? ==> Login(s, outcome).0 == LoginRefused(LoginFailed)
  {
  }

  /** A successful login survives a reload: mounting on the storage it left
      restores the same admin, and requests then carry its token. */
  lemma LoginSurvivesReload(s: Session, outcome: Result<Envelope<AdminRecord>, HttpError>)
    requires Login(s, outcome).0.LoggedIn?
    ensures var after := Login(s, outcome).1;
            && Mount(after.store).admin == after.admin
            && IsAuthenticated(after.store)
            && GetAdminToken(after.store) == Ok(if Truthy(after.admin.value.token) then after.admin.value.token else None)
  {
    var after := Login(s, outcome).1;
    assert GetCurrentAdmin(after.store) == Ok(after.admin);
  }

  /** The API client logs the admin out during a login attempt: the stored
      record parses, so the request is sent, and the server answers 401. */
  predicate ClientLogsOut(s: Session, answer: Result<Envelope<AdminRecord>, HttpError>) {
    GetCurrentAdmin(s.store).Ok? && answer.Err? && answer.error.status == Some(401)
  }

  /** `login(email, password)` as it runs: `loginAdmin` sends the
      credentials through the API client, and `answer` is what the server
      answers. A stored text that does not parse stops the request before it
      is sent, which `login` reports as "Login failed"; a 401 answer first
      logs the admin out (removing the stored record and sending the browser
      to /login) and then reaches `login` as a refusal; any other answer
      reaches `login` unchanged. */
  function LoginThroughClient(s: Session, c: Config, email: string, password: string,
                              answer: Result<Envelope<AdminRecord>, HttpError>): (r: (LoginResult, Session))
    ensures GetCurrentAdmin(s.store).Err? ==> r == (LoginRefused(LoginFailed), s)
    ensures ClientLogsOut(s, answer) ==>
              && r.0 == LoginRefused(ServerMessage(answer.error, LoginFailed))
              && r.1 == s.(store := Remove(s.store, AdminKey), location := Some("/login"))
    ensures GetCurrentAdmin(s.store).Ok? && !ClientLogsOut(s, answer) ==> r == Login(s, answer)
  {
    var x := Call(c, LoginRequest(c, email, password), s.store, answer);
    var next := s.(store := x.effect.store, location := if x.effect.location.Some? then x.effect.location else s.location);
    Login(next, x.outcome)
  }

  /** What a successful login stores is exactly the record `loginAdmin`
      resolves with, and the request that brought it carried the typed
      credentials. */
  lemma LoginStoresWhatServiceReturns(s: Session, c: Config, email: string, password: string,
                                      answer: Result<Envelope<AdminRecord>, HttpError>)
    requires GetCurrentAdmin(s.store).Ok?
    requires Unwrap(answer).Ok? && Unwrap(answer).value.Some? && Unwrap(answer).value.value.role == AdminRole
    ensures var (result, after) := LoginThroughClient(s, c, email, password, answer);
            && result == LoggedIn(Unwrap(answer).value.value)
            && after.store[AdminKey] == AdminJson(Unwrap(answer).value.value)
            && after.admin == Unwrap(answer).value
    ensures Call(c, LoginRequest(c, email, password), s.store, answer).sent.value.body == Credentials(email, password)
  {
  }

  /** `logout()`: the storage is cleared through `logoutAdmin`, and the
      admin is dropped. */
  function Logout(s: Session): (r: Session)
    ensures !IsAuthenticatedInContext(r) && !IsAuthenticated(r.store)
    ensures r.location == Some("/login") && r.loading == s.loading
  {
    var effect := LogoutAdmin(s.store);
    s.(admin := None, store := effect.store, location := effect.location)
  }

  /** After a logout, a reload finds nobody signed in. */
  lemma LogoutSurvivesReload(s: Session)
    ensures !IsAuthenticatedInContext(Mount(Logout(s).store))
    ensures RendersChildren(Mount(Logout(s).store))
  {
  }

  /** `useAuth()`: the context value, or the error thrown outside a provider. */
  function UseAuth(context: Option<Session>): (r: Result<Session, string>)
    ensures r.Err? <==> context.None?
    ensures r.Ok? ==> r.value == context.value
  {
    match context
    case Some(s) => Ok(s)
    case None => Err("useAuth must be used within AuthProvider")
  }
}
