/** The session helpers of src/services/authService.js: the stored admin
    record under `adminData`, the token derived from it, the login and
    register requests, and logout. */
module AuthService {
  import opened Common
  import opened Entities
  import opened Config
  import opened Browser
  import opened Urls

  /** The storage key of the session record. */
  const AdminKey: string := "adminData"

  /** The error `JSON.parse` throws on a stored text that is not a record. */
  const ParseError: string := "SyntaxError"

  /** `getCurrentAdmin()`: the parsed record, `null` when the key is absent or
      holds the empty text, and a parse error for any other text. */
  function GetCurrentAdmin(store: Store): (r: Result<Option<AdminRecord>, string>)
    ensures r == Ok(None) <==> AdminKey !in store || store[AdminKey] == Text("")
    ensures (r.Ok? && r.value.Some?) <==> AdminKey in store && store[AdminKey].AdminJson?
    ensures r.Ok? && r.value.Some? ==> store[AdminKey] == AdminJson(r.value.value)
  {
    if AdminKey !in store then Ok(None)
    else match store[AdminKey]
      case AdminJson(a) => Ok(Some(a))
      case Text(t) => if t == "" then Ok(None) else Err(ParseError)
  }

  /** `getAdminToken()`: `record?.token || null`; the parse error propagates. */
  function GetAdminToken(store: Store): (r: Result<Option<string>, string>)
    ensures r.Err? <==> GetCurrentAdmin(store).Err?
    ensures r.Ok? && r.value.Some? <==>
      AdminKey in store && store[AdminKey].AdminJson? && Truthy(store[AdminKey].admin.token)
    ensures r.Ok? && r.value.Some? ==> r.value == store[AdminKey].admin.token && r.value.value != ""
  {
    match GetCurrentAdmin(store)
    case Err(e) => Err(e)
    case Ok(None) => Ok(None)
    case Ok(Some(a)) => if Truthy(a.token) then Ok(a.token) else Ok(None)
  }

  /** `isAuthenticated()`: the key is present; the record is neither parsed
      nor role-checked. */
  predicate IsAuthenticated(store: Store) {
    AdminKey in store
  }

  /** An empty stored text counts as authenticated though it holds no
      record. */
  lemma AuthenticatedWithoutRecord()
    ensures var store := map[AdminKey := Text("")];
            IsAuthenticated(store) && GetCurrentAdmin(store) == Ok(None)
  {
  }

  // ---------------------------------------------------------------------------
  // The plain-axios services' header

  /** `getAuthHeader()` of the service modules: the bearer header for the
      stored token, none without one; like `getAdminToken`, it throws when
      the stored text does not parse. */
  function AuthHeader(store: Store): (r: Result<Option<string>, string>)
    ensures r.Err? <==> GetCurrentAdmin(store).Err?
    ensures r.Err? ==> r.error == ParseError
    ensures r.Ok? ==> (r.value.Some? <==>
                         (AdminKey in store && store[AdminKey].AdminJson? && Truthy(store[AdminKey].admin.token)))
    ensures r.Ok? && r.value.Some? ==> r.value.value == "Bearer " + store[AdminKey].admin.token.value
  {
    match GetAdminToken(store)
    case Err(e) => Err(e)
    case Ok(token) => Ok(Bearer(token))
  }

  /** A service call made straight through axios: the header is computed
      while the call's arguments are evaluated, so a stored text that does
      not parse rejects the call before anything is sent; otherwise the
      request `build` makes for the stored token goes out. Every service
      request builder of this model takes that token as its `token`
      parameter. */
  function ServiceRequest(store: Store, build: Option<string> -> Request): (r: Result<Request, string>)
    ensures r.Err? <==> GetCurrentAdmin(store).Err?
    ensures r.Err? ==> r.error == ParseError
    ensures r.Ok? && GetCurrentAdmin(store).value.None? ==> r.value == build(None)
    ensures r.Ok? && GetCurrentAdmin(store).value.Some? ==>
              r.value == build(if Truthy(GetCurrentAdmin(store).value.value.token)
                               then GetCurrentAdmin(store).value.value.token else None)
  {
    match GetAdminToken(store)
    case Err(e) => Err(e)
    case Ok(token) => Ok(build(token))
  }

  /** A request built with the bearer header of its token carries, when it
      is sent, exactly the header `getAuthHeader()` computes from storage. */
  lemma ServiceHeaderFromStore(store: Store, build: Option<string> -> Request)
    requires forall t :: build(t).authorization == Bearer(t)
    ensures ServiceRequest(store, build).Ok? <==> AuthHeader(store).Ok?
    ensures ServiceRequest(store, build).Ok? ==>
              ServiceRequest(store, build).value.authorization == AuthHeader(store).value
  {
  }

  /** A stored text that does not parse blocks every service call, and a
      stored record sends the request built for its token. */
  lemma ServiceRequestOfStoredText(store: Store, build: Option<string> -> Request, t: string, a: AdminRecord)
    requires t != ""
    ensures ServiceRequest(store[AdminKey := Text(t)], build) == Err(ParseError)
    ensures Truthy(a.token) ==> ServiceRequest(store[AdminKey := AdminJson(a)], build) == Ok(build(a.token))
    ensures !Truthy(a.token) ==> ServiceRequest(store[AdminKey := AdminJson(a)], build) == Ok(build(None))
  {
  }

  /** A session and the page the browser is sent to, if any. */
  datatype Effect = Effect(store: Store, location: Option<string>)

  /** `logoutAdmin()`: removes the record and sends the browser to /login. */
  function LogoutAdmin(store: Store): (r: Effect)
    ensures !IsAuthenticated(r.store)
    ensures GetCurrentAdmin(r.store) == Ok(None)
    ensures r.location == Some("/login")
    ensures forall k :: k != AdminKey ==> (k in r.store <==> k in store)
    ensures forall k :: k in r.store ==> r.store[k] == store[k]
  {
    Effect(Remove(store, AdminKey), Some("/login"))
  }

  /** Logging out twice is logging out once. */
  lemma LogoutIdempotent(store: Store)
    ensures LogoutAdmin(LogoutAdmin(store).store) == LogoutAdmin(store)
  {
    RemoveIdempotent(store, AdminKey);
  }

  /** `loginAdmin(email, password)`: POST `{email, password}` to the admin
      login endpoint, before the API client's interceptor adds a header. */
  function LoginRequest(c: Config, email: string, password: string): (r: Request)
    ensures r.verb == POST && r.body == Credentials(email, password) && r.authorization.None?
    ensures WellFormed(c) ==> r.url == c.baseUrl + "/api/admin/auth/login"
  {
    Request(POST, c.adminApi + "/auth/login", Credentials(email, password), None)
  }

  /** `registerAdmin(fullName, email, password, phone)`. */
  function RegisterAdminRequest(c: Config, fullName: string, email: string, password: string, phone: string): (r: Request)
    ensures r.verb == POST && r.body == SignUp(fullName, email, password, phone) && r.authorization.None?
    ensures WellFormed(c) ==> r.url == c.baseUrl + "/api/admin/auth/register"
  {
    Request(POST, c.adminApi + "/auth/register", SignUp(fullName, email, password, phone), None)
  }

  /** Both auth endpoints are plain paths under the admin root. */
  lemma AuthUrlsHaveNoQuery(c: Config, email: string, password: string, fullName: string, phone: string)
    requires SafeRoot(c.adminApi)
    ensures ParseUrl(LoginRequest(c, email, password).url) == ParsedUrl(c.adminApi + "/auth/login", [])
    ensures ParseUrl(RegisterAdminRequest(c, fullName, email, password, phone).url)
         == ParsedUrl(c.adminApi + "/auth/register", [])
  {
    PlainUrlParses(c.adminApi + "/auth/login");
    PlainUrlParses(c.adminApi + "/auth/register");
  }

  /** The value `loginAdmin` / `registerAdmin` resolve with: the envelope's
      `data` field; a failed request is rethrown unchanged. */
  function Unwrap<T>(outcome: Result<Envelope<T>, HttpError>): (r: Result<Option<T>, HttpError>)
    ensures r.Err? <==> outcome.Err?
    ensures outcome.Err? ==> r.error == outcome.error
    ensures outcome.Ok? ==> r.value == outcome.value.data
  {
    match outcome
    case Ok(env) => Ok(env.data)
    case Err(e) => Err(e)
  }
}
