/** The restaurant client of src/services/restaurantService.js. Its root is
    the configured admin root. Every call computes the bearer header from
    storage first; the list call then goes through the shared API client,
    whose interceptors apply (GetAllRestaurantsCall), and the others go
    straight through axios. */
module RestaurantService {
  import opened Common
  import opened Entities
  import opened Config
  import opened Urls
  import opened Browser
  import opened AuthService
  import opened ApiService

  /** `API_URL = config.ADMIN_API`. */
  function Root(c: Config): string {
    c.adminApi
  }

  /** The resource name and sub-paths are plain URL text. */
  lemma ResourceIsPlain()
    ensures SafeRoot("restaurants") && SafeRoot("/pending") && SafeRoot("/verification")
  {
  }

  /** The filter keys are plain URL text. */
  lemma KeysAreSafe()
    ensures SafeKey("verificationStatus") && SafeKey("cuisineType")
  {
  }

  /** `getAllRestaurants(page = 0, size = 10, verificationStatus = null, cuisineType = null)`. */
  function GetAllRestaurants(c: Config, token: Option<string>, page: Option<nat>, size: Option<nat>,
                             verificationStatus: Option<string>, cuisineType: Option<string>): Request
  {
    var filters := [("verificationStatus", verificationStatus), ("cuisineType", cuisineType)];
    Request(GET, ListUrl(Root(c), "restaurants", page.GetOr(0), size.GetOr(10), filters), NoBody, Bearer(token))
  }

  /** The list call reads back as `/restaurants` with page and size (defaults
      0 and 10), then `verificationStatus` and `cuisineType`, each only when
      truthy. */
  lemma GetAllRestaurantsQuery(c: Config, token: Option<string>, page: Option<nat>, size: Option<nat>,
                               verificationStatus: Option<string>, cuisineType: Option<string>)
    requires SafeRoot(c.adminApi)
    requires verificationStatus.Some? ==> SafeValue(verificationStatus.value)
    requires cuisineType.Some? ==> SafeValue(cuisineType.value)
    ensures var r := GetAllRestaurants(c, token, page, size, verificationStatus, cuisineType);
            && r.verb == GET && r.authorization == Bearer(token)
            && ParseUrl(r.url) == ParsedUrl(Root(c) + "/" + "restaurants",
                 [("page", Dec(page.GetOr(0))), ("size", Dec(size.GetOr(10)))]
                 + (if Truthy(verificationStatus) then [("verificationStatus", verificationStatus.value)] else [])
                 + (if Truthy(cuisineType) then [("cuisineType", cuisineType.value)] else []))
  {
    ResourceIsPlain();
    KeysAreSafe();
    ListUrlTwoParses(Root(c), "restaurants", page.GetOr(0), size.GetOr(10),
                     ("verificationStatus", verificationStatus), ("cuisineType", cuisineType));
  }

  /** `getAllRestaurants(...)` as it runs: `getAuthHeader()` is evaluated
      with the call's arguments, so a stored text that does not parse
      rejects before the client is reached; otherwise the request goes
      through the shared client, which resolves the URL, attaches the same
      header and logs out on 401. */
  function GetAllRestaurantsCall<T>(c: Config, store: Store, page: Option<nat>, size: Option<nat>,
                                    verificationStatus: Option<string>, cuisineType: Option<string>,
                                    answer: Result<T, HttpError>): (r: Exchange<T>)
    ensures r.sent.None? <==> GetCurrentAdmin(store).Err?
    ensures r.sent.None? ==> r.outcome == Err(NoResponse) && r.effect == Effect(store, None)
    ensures r.sent.Some? ==> && r.outcome == answer && r.sent.value.verb == GET
                             && r.sent.value.authorization == AuthHeader(store).value
                             && r.sent.value.url == Resolve(InstanceBase(c),
                                  GetAllRestaurants(c, None, page, size, verificationStatus, cuisineType).url)
    ensures r.sent.Some? && answer.Err? && answer.error.status == Some(401) ==> r.effect == LogoutAdmin(store)
    ensures r.sent.Some? && !(answer.Err? && answer.error.status == Some(401)) ==> r.effect == Effect(store, None)
  {
    match ServiceRequest(store, t => GetAllRestaurants(c, t, page, size, verificationStatus, cuisineType))
    case Err(_) => Exchange(None, Err(NoResponse), Effect(store, None))
    case Ok(req) =>
      ServiceHeaderFromStore(store, t => GetAllRestaurants(c, t, page, size, verificationStatus, cuisineType));
      CallCarriesStoredHeader(c, req, store, answer);
      Call(c, req, store, answer)
  }

  /** With an absolute admin root, the client sends the list request to the
      URL the service built, and a 401 answer ends the session. */
  lemma ListCallKeepsServiceUrl<T>(c: Config, store: Store, page: Option<nat>, size: Option<nat>,
                                   verificationStatus: Option<string>, cuisineType: Option<string>,
                                   answer: Result<T, HttpError>)
    requires IsAbsolute(Root(c)) && GetCurrentAdmin(store).Ok?
    ensures var x := GetAllRestaurantsCall(c, store, page, size, verificationStatus, cuisineType, answer);
            && x.sent.Some?
            && x.sent.value == GetAllRestaurants(c, GetAdminToken(store).value, page, size, verificationStatus, cuisineType)
    ensures answer.Err? && answer.error.status == Some(401) ==>
              !IsAuthenticated(GetAllRestaurantsCall(c, store, page, size, verificationStatus, cuisineType, answer).effect.store)
  {
    var url := GetAllRestaurants(c, None, page, size, verificationStatus, cuisineType).url;
    var filters := [("verificationStatus", verificationStatus), ("cuisineType", cuisineType)];
    ListUrlExtendsRoot(Root(c), "restaurants", page.GetOr(0), size.GetOr(10), filters);
    AbsoluteExtends(Root(c), url[|Root(c)|..]);
    assert IsAbsolute(url);
  }

  /** `getPendingRestaurants()`: no page, size or filter. */
  function GetPendingRestaurants(c: Config, token: Option<string>): Request {
    Request(GET, Root(c) + "/" + "restaurants" + "/pending", NoBody, Bearer(token))
  }

  lemma PendingRestaurantsHasNoQuery(c: Config, token: Option<string>)
    requires SafeRoot(c.adminApi)
    ensures ParseUrl(GetPendingRestaurants(c, token).url) == ParsedUrl(Root(c) + "/" + "restaurants" + "/pending", [])
  {
    ResourceIsPlain();
    PlainUrlParses(Root(c) + "/" + "restaurants" + "/pending");
  }

  function GetRestaurantById(c: Config, token: Option<string>, id: int): Request {
    Request(GET, ItemUrl(Root(c), "restaurants", id), NoBody, Bearer(token))
  }

  function UpdateRestaurant(c: Config, token: Option<string>, id: int, data: RestaurantDraft): Request {
    Request(PUT, ItemUrl(Root(c), "restaurants", id), RestaurantEdit(data), Bearer(token))
  }

  function DeleteRestaurant(c: Config, token: Option<string>, id: int): Request {
    Request(DELETE, ItemUrl(Root(c), "restaurants", id), NoBody, Bearer(token))
  }

  /** Get, update and delete address the same item URL, which reads back
      with no query; only the update sends a body, the caller's draft. */
  lemma RestaurantItemCalls(c: Config, token: Option<string>, id: int, data: RestaurantDraft)
    requires SafeRoot(c.adminApi)
    ensures GetRestaurantById(c, token, id).url == UpdateRestaurant(c, token, id, data).url
         == DeleteRestaurant(c, token, id).url
    ensures ParseUrl(GetRestaurantById(c, token, id).url) == ParsedUrl(ItemUrl(Root(c), "restaurants", id), [])
    ensures GetRestaurantById(c, token, id).verb == GET && UpdateRestaurant(c, token, id, data).verb == PUT
         && DeleteRestaurant(c, token, id).verb == DELETE
    ensures UpdateRestaurant(c, token, id, data).body == RestaurantEdit(data)
  {
    ResourceIsPlain();
    ItemUrlParses(Root(c), "restaurants", id);
  }

  /** `updateRestaurantVerification(id, status)`: PATCH with an empty body
      and the status as the only, unencoded, query parameter. */
  function UpdateRestaurantVerification(c: Config, token: Option<string>, id: int, status: string): Request {
    Request(PATCH, WithParam(ItemUrl(Root(c), "restaurants", id) + "/verification", "status", status),
            EmptyObject, Bearer(token))
  }

  lemma RestaurantVerificationQuery(c: Config, token: Option<string>, id: int, status: string)
    requires SafeRoot(c.adminApi) && SafeValue(status)
    ensures var r := UpdateRestaurantVerification(c, token, id, status);
            && r.verb == PATCH && r.body == EmptyObject
            && ParseUrl(r.url) == ParsedUrl(ItemUrl(Root(c), "restaurants", id) + "/verification", [("status", status)])
  {
    ResourceIsPlain();
    StatusKeyIsSafe();
    IntStrPlain(id);
    SingleParamParses(ItemUrl(Root(c), "restaurants", id) + "/verification", "status", status);
  }
}
