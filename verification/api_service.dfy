/** The shared API client of src/services/apiService.js: an axios instance
    rooted at the admin API whose request interceptor attaches the bearer
    token and whose response interceptor logs the admin out on 401. */
module ApiService {
  import opened Common
  import opened Entities
  import opened Config
  import opened Browser
  import opened AuthService

  /** The instance's `baseURL`. */
  function InstanceBase(c: Config): (r: string)
    ensures WellFormed(c) ==> r == c.baseUrl + "/api/admin"
  {
    c.adminApi
  }

  // ---------------------------------------------------------------------------
  // Where a request goes: axios's `buildFullPath`

  /** The characters a URL scheme continues with. */
  predicate IsSchemeChar(c: char) {
    IsAsciiLower(c) || IsAsciiUpper(c) || IsAsciiDigit(c) || c == '+' || c == '-' || c == '.'
  }

  /** A scheme of `k` characters opens `url` and is followed by `://`. */
  ghost predicate SchemeAt(url: string, k: nat) {
    && 1 <= k && k + 3 <= |url|
    && (IsAsciiLower(url[0]) || IsAsciiUpper(url[0]))
    && (forall j :: 1 <= j < k ==> IsSchemeChar(url[j]))
    && url[k] == ':' && url[k + 1] == '/' && url[k + 2] == '/'
  }

  /** What `/^([a-z][a-z\d+\-.]*:)?\/\//i` matches: `//`, or a scheme (a
      letter, then letters, digits, `+`, `-` or `.`, in either case) with a
      colon, followed by `//`. */
  ghost predicate AbsoluteShape(url: string) {
    || (|url| >= 2 && url[0] == '/' && url[1] == '/')
    || exists k :: SchemeAt(url, k)
  }

  /** The first position from `k` on that does not continue a scheme. */
  function SchemeEnd(url: string, k: nat): (e: nat)
    requires 1 <= k <= |url|
    ensures k <= e <= |url|
    ensures forall j :: k <= j < e ==> IsSchemeChar(url[j])
    ensures e < |url| ==> !IsSchemeChar(url[e])
    decreases |url| - k
  {
    if k == |url| || !IsSchemeChar(url[k]) then k else SchemeEnd(url, k + 1)
  }

  /** axios's `isAbsoluteURL`. */
  function IsAbsolute(url: string): (r: bool)
    ensures r <==> AbsoluteShape(url)
  {
    if |url| >= 2 && url[0] == '/' && url[1] == '/' then true
    else if url == [] || !(IsAsciiLower(url[0]) || IsAsciiUpper(url[0])) then false
    else
      var e := SchemeEnd(url, 1);
      var r := e + 3 <= |url| && url[e] == ':' && url[e + 1] == '/' && url[e + 2] == '/';
      assert r ==> SchemeAt(url, e);
      assert forall k :: SchemeAt(url, k) ==> k == e;
      r
  }

  /** Whatever follows an absolute URL, it stays absolute. */
  lemma AbsoluteExtends(a: string, b: string)
    requires IsAbsolute(a)
    ensures IsAbsolute(a + b)
  {
    if !(|a| >= 2 && a[0] == '/' && a[1] == '/') {
      var k :| SchemeAt(a, k);
      assert SchemeAt(a + b, k);
    }
  }

  /** Any scheme counts, in either case. */
  lemma AnySchemeIsAbsolute()
    ensures IsAbsolute("HTTPS://example.com") && IsAbsolute("git+ssh://example.com")
  {
    assert SchemeAt("HTTPS://example.com", 5);
    assert SchemeAt("git+ssh://example.com", 7);
  }

  /** A protocol-relative URL counts as absolute. */
  lemma ProtocolRelativeIsAbsolute(host: string)
    ensures IsAbsolute("//" + host)
  {
  }

  /** A scheme without `//`, a rooted path and a bare path do not count. */
  lemma PathsAreRelative(path: string)
    requires path != [] && path[0] != '/'
    ensures !IsAbsolute("mailto:" + path)
    ensures !IsAbsolute("/" + path)
  {
    var m := "mailto:" + path;
    assert SchemeEnd(m, 1) == 6 by {
      assert forall j :: 1 <= j < 6 ==> IsSchemeChar(m[j]);
      assert m[6] == ':';
    }
    assert m[7] == path[0];
  }

  /** `baseURL.replace(/\/?\/$/, '')`: one or two trailing slashes removed. */
  function TrimTrailingSlashes(base: string): (r: string)
    ensures |base| - 2 <= |r| <= |base| && r == base[..|r|]
    ensures forall j :: |r| <= j < |base| ==> base[j] == '/'
    ensures |base| - |r| < 2 ==> r == [] || r[|r| - 1] != '/'
  {
    if |base| >= 2 && base[|base| - 1] == '/' && base[|base| - 2] == '/' then base[..|base| - 2]
    else if |base| >= 1 && base[|base| - 1] == '/' then base[..|base| - 1]
    else base
  }

  /** `relativeURL.replace(/^\/+/, '')`: every leading slash removed. */
  function DropLeadingSlashes(url: string): (r: string)
    ensures |r| <= |url| && r == url[|url| - |r|..]
    ensures forall j :: 0 <= j < |url| - |r| ==> url[j] == '/'
    ensures r == [] || r[0] != '/'
  {
    if url != [] && url[0] == '/' then
      var r := DropLeadingSlashes(url[1..]);
      assert url[1..][|url| - 1 - |r|..] == url[|url| - |r|..];
      r
    else url
  }

  /** Where the instance sends `url` (axios's `buildFullPath` and
      `combineURLs`): an absolute URL, or any URL when there is no base, is
      used as it is; otherwise the base, without its trailing slashes, and
      the URL, without its leading slashes, are joined by one slash. */
  function Resolve(base: string, url: string): (r: string)
    ensures base == "" || IsAbsolute(url) ==> r == url
    ensures base != "" && !IsAbsolute(url) && url == "" ==> r == base
    ensures base != "" && !IsAbsolute(url) && url != "" ==>
              r == TrimTrailingSlashes(base) + "/" + DropLeadingSlashes(url)
  {
    if base == "" || IsAbsolute(url) then url
    else if url == "" then base
    else TrimTrailingSlashes(base) + "/" + DropLeadingSlashes(url)
  }

  /** A path starting with one `/` is appended to a base without a trailing
      slash. */
  lemma RootedPathResolves(base: string, path: string)
    requires base != "" && base[|base| - 1] != '/'
    requires path != [] && path[0] == '/' && (|path| == 1 || path[1] != '/')
    ensures Resolve(base, path) == base + path
  {
    assert DropLeadingSlashes(path) == path[1..] by {
      assert DropLeadingSlashes(path) == DropLeadingSlashes(path[1..]);
      assert path[1..] == [] || path[1..][0] != '/';
    }
    assert path == "/" + path[1..];
  }

  /** A path without a leading slash gets one: `users` goes to
      `<base>/users`. */
  lemma UnrootedPathResolves(base: string, path: string)
    requires base != "" && base[|base| - 1] != '/'
    requires path != [] && path[0] != '/' && !IsAbsolute(path)
    ensures Resolve(base, path) == base + "/" + path
  {
  }

  /** A base written with a trailing slash gives the same URL as without. */
  lemma TrailingSlashIgnored(base: string, path: string)
    requires base != "" && base[|base| - 1] != '/'
    requires path != "" && !IsAbsolute(path)
    ensures Resolve(base + "/", path) == Resolve(base, path)
  {
    var b := base + "/";
    assert TrimTrailingSlashes(b) == base by {
      assert b[|b| - 1] == '/' && b[|b| - 2] == base[|base| - 1];
      assert b[..|b| - 1] == base;
    }
    assert TrimTrailingSlashes(base) == base;
    assert Resolve(b, path) == base + "/" + DropLeadingSlashes(path);
  }

  // ---------------------------------------------------------------------------
  // The interceptors

  /** The request interceptor: `Authorization: Bearer <token>` when the
      stored token is truthy; otherwise the request goes on as it was. When
      the stored text does not parse, `getAdminToken` throws and so does the
      interceptor. */
  function OnRequest(req: Request, store: Store): (r: Result<Request, string>)
    ensures r.Err? <==> GetCurrentAdmin(store).Err?
    ensures r.Err? ==> r.error == ParseError
    ensures r.Ok? ==> r.value.verb == req.verb && r.value.url == req.url && r.value.body == req.body
    ensures r.Ok? && GetAdminToken(store).value.Some? ==>
              r.value.authorization == Some("Bearer " + GetAdminToken(store).value.value)
    ensures r.Ok? && GetAdminToken(store).value.None? ==> r.value.authorization == req.authorization
  {
    match GetAdminToken(store)
    case Err(e) => Err(e)
    case Ok(token) => if Truthy(token) then Ok(req.(authorization := Some("Bearer " + token.value))) else Ok(req)
  }

  /** After logging in, every request through the instance carries the
      record's token. */
  lemma RequestCarriesStoredToken(req: Request, store: Store, admin: AdminRecord)
    requires Truthy(admin.token)
    ensures OnRequest(req, store[AdminKey := AdminJson(admin)]) == Ok(req.(authorization := Some("Bearer " + admin.token.value)))
  {
    var s := store[AdminKey := AdminJson(admin)];
    assert GetCurrentAdmin(s) == Ok(Some(admin));
  }

  /** The response interceptor: responses pass through; an error is still
      rejected to the caller, and a 401 first logs the admin out. */
  function OnResponse<T>(outcome: Result<T, HttpError>, store: Store): (r: (Result<T, HttpError>, Effect))
    ensures r.0 == outcome
    ensures (outcome.Err? && outcome.error.status == Some(401)) ==> r.1 == LogoutAdmin(store)
    ensures !(outcome.Err? && outcome.error.status == Some(401)) ==> r.1 == Effect(store, None)
  {
    match outcome
    case Ok(_) => (outcome, Effect(store, None))
    case Err(e) => if e.status == Some(401) then (outcome, LogoutAdmin(store)) else (outcome, Effect(store, None))
  }

  /** Only a 401 ends the session: a missing response or any other status
      keeps the stored record. */
  lemma OnlyUnauthorizedLogsOut<T>(outcome: Result<T, HttpError>, store: Store)
    requires AdminKey in store
    ensures AdminKey !in OnResponse(outcome, store).1.store <==> outcome.Err? && outcome.error.status == Some(401)
  {
  }

  // ---------------------------------------------------------------------------
  // One call through the instance

  /** A call's course: the request put on the wire, if any; the outcome its
      caller sees; and the session and location afterwards. */
  datatype Exchange<T> = Exchange(sent: Option<Request>, outcome: Result<T, HttpError>, effect: Effect)

  /** The rejection a caller sees when the request interceptor throws: an
      error without a response. */
  const NoResponse: HttpError := HttpError(None, None)

  /** `api.<verb>(url, body)`, where `answer` is what the server would answer.
      The request interceptor runs first and the request goes to the
      resolved URL; the response interceptor sees the answer. When the
      request interceptor throws, nothing is sent: the error travels down the
      promise chain to the response interceptor's error handler, which, as
      the error has no response, rejects with it without logging out. */
  function Call<T>(c: Config, req: Request, store: Store, answer: Result<T, HttpError>): (r: Exchange<T>)
    ensures r.sent.None? <==> GetCurrentAdmin(store).Err?
    ensures r.sent.None? ==> r.outcome == Err(NoResponse) && r.effect == Effect(store, None)
    ensures r.sent.Some? ==> && r.sent.value.verb == req.verb && r.sent.value.body == req.body
                             && r.sent.value.url == Resolve(InstanceBase(c), req.url)
                             && r.outcome == answer
    ensures r.sent.Some? && answer.Err? && answer.error.status == Some(401) ==> r.effect == LogoutAdmin(store)
    ensures r.sent.Some? && !(answer.Err? && answer.error.status == Some(401)) ==> r.effect == Effect(store, None)
  {
    match OnRequest(req, store)
    case Err(_) =>
      var (outcome, effect) := OnResponse(Err(NoResponse), store);
      Exchange(None, outcome, effect)
    case Ok(withToken) =>
      var (outcome, effect) := OnResponse(answer, store);
      Exchange(Some(withToken.(url := Resolve(InstanceBase(c), withToken.url))), outcome, effect)
  }

  /** A stored text that does not parse blocks every call: nothing is sent,
      the caller sees an error without a response, and the text stays. */
  lemma CorruptRecordBlocksCalls<T>(c: Config, req: Request, store: Store, answer: Result<T, HttpError>, t: string)
    requires AdminKey in store && store[AdminKey] == Text(t) && t != ""
    ensures var x := Call(c, req, store, answer);
            x.sent.None? && x.outcome == Err(NoResponse) && x.effect.store == store && IsAuthenticated(x.effect.store)
  {
  }

  /** A request that reaches the instance without a header, or with the
      header `getAuthHeader()` computed, leaves with that header: the
      interceptor and the services agree on what they attach. */
  lemma CallCarriesStoredHeader<T>(c: Config, req: Request, store: Store, answer: Result<T, HttpError>)
    requires req.authorization.None? || (AuthHeader(store).Ok? && req.authorization == AuthHeader(store).value)
    ensures Call(c, req, store, answer).sent.Some? <==> AuthHeader(store).Ok?
    ensures Call(c, req, store, answer).sent.Some? ==>
              Call(c, req, store, answer).sent.value.authorization == AuthHeader(store).value
  {
  }

  /** The two auth calls through the instance: the credentials or sign-up
      data go out as a POST, to the URL the service built when the backend
      root is absolute, and the caller receives the server's envelope, whose
      `data` is what the service resolves with. */
  lemma AuthCallsThroughClient(c: Config, store: Store, email: string, password: string, fullName: string, phone: string,
                               answer: Result<Envelope<AdminRecord>, HttpError>)
    requires WellFormed(c) && IsAbsolute(c.baseUrl) && GetCurrentAdmin(store).Ok?
    ensures var x := Call(c, LoginRequest(c, email, password), store, answer);
            && x.sent.Some? && x.sent.value.verb == POST && x.sent.value.body == Credentials(email, password)
            && x.sent.value.url == c.baseUrl + "/api/admin/auth/login"
            && Unwrap(x.outcome) == Unwrap(answer)
    ensures var x := Call(c, RegisterAdminRequest(c, fullName, email, password, phone), store, answer);
            && x.sent.Some? && x.sent.value.verb == POST && x.sent.value.body == SignUp(fullName, email, password, phone)
            && x.sent.value.url == c.baseUrl + "/api/admin/auth/register"
            && Unwrap(x.outcome) == Unwrap(answer)
  {
    AbsoluteExtends(c.baseUrl, "/api/admin/auth/login");
    AbsoluteExtends(c.baseUrl, "/api/admin/auth/register");
    assert LoginRequest(c, email, password).url == c.baseUrl + "/api/admin/auth/login";
    assert RegisterAdminRequest(c, fullName, email, password, phone).url == c.baseUrl + "/api/admin/auth/register";
  }

  /** The auth services hand the instance a URL that already holds the
      root, so a relative backend root is written twice. */
  lemma RelativeRootRepeats(root: string, email: string, password: string)
    requires |root| >= 2 && root[0] == '/' && root[1] != '/'
    ensures var c := Make(Some(root));
            Resolve(InstanceBase(c), LoginRequest(c, email, password).url)
            == c.adminApi + "/" + DropLeadingSlashes(c.adminApi + "/auth/login")
  {
    var c := Make(Some(root));
    var url := LoginRequest(c, email, password).url;
    assert !IsAbsolute(url) by {
      assert url[0] == '/' && url[1] == root[1];
    }
    assert c.adminApi[|c.adminApi| - 1] == 'n';
  }
}
