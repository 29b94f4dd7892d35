/** The review client of src/services/reviewService.js, rooted at the base URL
    with `/admin`. The list filters are whatever JavaScript value the caller
    passes: a number, a string or `null`, each appended only when truthy. */
module ReviewService {
  import opened Common
  import opened Entities
  import opened Config
  import opened Urls
  import ComplaintService

  /** `API_URL = BASE_URL + '/admin'`: the complaint client's root. */
  function Root(c: Config): (r: string)
    ensures WellFormed(c) ==> r != c.adminApi
    ensures SafeRoot(c.baseUrl) ==> SafeRoot(r)
  {
    ComplaintService.Root(c)
  }

  /** The resource name and sub-paths are plain URL text. */
  lemma ResourceIsPlain()
    ensures SafeRoot("reviews") && SafeRoot("/restaurant/") && SafeRoot("/delivery-person/") && SafeRoot("/rating")
  {
  }

  /** The filter keys are plain URL text. */
  lemma KeysAreSafe()
    ensures SafeKey("restaurantId") && SafeKey("deliveryPersonId")
  {
  }

  /** `getAllReviews(page = 0, size = 10, restaurantId = null, deliveryPersonId = null)`. */
  function GetAllReviews(c: Config, token: Option<string>, page: Option<nat>, size: Option<nat>,
                         restaurantId: Arg, deliveryPersonId: Arg): Request
  {
    var filters := [ArgFilter("restaurantId", restaurantId), ArgFilter("deliveryPersonId", deliveryPersonId)];
    Request(GET, ListUrl(Root(c), "reviews", page.GetOr(0), size.GetOr(10), filters), NoBody, Bearer(token))
  }

  /** The text `${a}` gives an argument in a template string. */
  function ArgText(a: Arg): string {
    match a
    case Null => "null"
    case Num(n) => IntStr(n)
    case Str(s) => s
  }

  predicate SafeArg(a: Arg) {
    a.Str? ==> SafeValue(a.s)
  }

  /** A safe argument makes a filter whose value, when present, is its text. */
  lemma ArgFilterSafe(key: string, a: Arg)
    requires SafeArg(a)
    ensures var f := ArgFilter(key, a);
            f.1.Some? ==> f.1.value == ArgText(a) && SafeValue(f.1.value)
  {
    if a.Num? { IntStrPlain(a.n); }
  }

  /** The list call reads back as `/reviews` with page and size, then
      `restaurantId` and `deliveryPersonId` each only when truthy: an id of 0
      or an empty string is dropped. */
  lemma GetAllReviewsQuery(c: Config, token: Option<string>, page: Option<nat>, size: Option<nat>,
                           restaurantId: Arg, deliveryPersonId: Arg)
    requires SafeRoot(c.baseUrl) && SafeArg(restaurantId) && SafeArg(deliveryPersonId)
    ensures var r := GetAllReviews(c, token, page, size, restaurantId, deliveryPersonId);
            && r.verb == GET && r.authorization == Bearer(token)
            && ParseUrl(r.url) == ParsedUrl(Root(c) + "/" + "reviews",
                 [("page", Dec(page.GetOr(0))), ("size", Dec(size.GetOr(10)))]
                 + (if ArgTruthy(restaurantId) then [("restaurantId", ArgText(restaurantId))] else [])
                 + (if ArgTruthy(deliveryPersonId) then [("deliveryPersonId", ArgText(deliveryPersonId))] else []))
  {
    var a := ArgFilter("restaurantId", restaurantId);
    var b := ArgFilter("deliveryPersonId", deliveryPersonId);
    ArgFilterSafe("restaurantId", restaurantId);
    ArgFilterSafe("deliveryPersonId", deliveryPersonId);
    ResourceIsPlain();
    KeysAreSafe();
    ListUrlTwoParses(Root(c), "reviews", page.GetOr(0), size.GetOr(10), a, b);
  }

  function GetReviewById(c: Config, token: Option<string>, id: int): Request {
    Request(GET, ItemUrl(Root(c), "reviews", id), NoBody, Bearer(token))
  }

  function DeleteReview(c: Config, token: Option<string>, id: int): Request {
    Request(DELETE, ItemUrl(Root(c), "reviews", id), NoBody, Bearer(token))
  }

  /** Get and delete address the same item URL, which reads back with no
      query. */
  lemma ReviewItemCalls(c: Config, token: Option<string>, id: int)
    requires SafeRoot(c.baseUrl)
    ensures GetReviewById(c, token, id).url == DeleteReview(c, token, id).url
    ensures ParseUrl(GetReviewById(c, token, id).url) == ParsedUrl(ItemUrl(Root(c), "reviews", id), [])
    ensures GetReviewById(c, token, id).verb == GET && DeleteReview(c, token, id).verb == DELETE
  {
    ResourceIsPlain();
    ItemUrlParses(Root(c), "reviews", id);
  }

  /** `${API_URL}/reviews/restaurant/${id}` and the delivery-person twin. */
  function RestaurantPath(c: Config, id: int): string {
    Root(c) + "/" + "reviews" + "/restaurant/" + IntStr(id)
  }

  function DeliveryPersonPath(c: Config, id: int): string {
    Root(c) + "/" + "reviews" + "/delivery-person/" + IntStr(id)
  }

  /** `getReviewsByRestaurant(id)` and `getReviewsByDeliveryPerson(id)`. */
  function GetReviewsByRestaurant(c: Config, token: Option<string>, id: int): Request {
    Request(GET, RestaurantPath(c, id), NoBody, Bearer(token))
  }

  function GetReviewsByDeliveryPerson(c: Config, token: Option<string>, id: int): Request {
    Request(GET, DeliveryPersonPath(c, id), NoBody, Bearer(token))
  }

  /** The two average-rating calls extend the per-target paths with `/rating`. */
  function GetRestaurantAverageRating(c: Config, token: Option<string>, id: int): Request {
    Request(GET, RestaurantPath(c, id) + "/rating", NoBody, Bearer(token))
  }

  function GetDeliveryPersonAverageRating(c: Config, token: Option<string>, id: int): Request {
    Request(GET, DeliveryPersonPath(c, id) + "/rating", NoBody, Bearer(token))
  }

  /** None of the four per-target calls carries a query, and a restaurant's
      reviews and a delivery person's reviews never share a URL. */
  lemma TargetCalls(c: Config, token: Option<string>, id: int, other: int)
    requires SafeRoot(c.baseUrl)
    ensures ParseUrl(GetReviewsByRestaurant(c, token, id).url) == ParsedUrl(RestaurantPath(c, id), [])
    ensures ParseUrl(GetReviewsByDeliveryPerson(c, token, id).url) == ParsedUrl(DeliveryPersonPath(c, id), [])
    ensures ParseUrl(GetRestaurantAverageRating(c, token, id).url) == ParsedUrl(RestaurantPath(c, id) + "/rating", [])
    ensures ParseUrl(GetDeliveryPersonAverageRating(c, token, id).url)
         == ParsedUrl(DeliveryPersonPath(c, id) + "/rating", [])
    ensures GetReviewsByRestaurant(c, token, id).url != GetReviewsByDeliveryPerson(c, token, other).url
  {
    IntStrPlain(id);
    ResourceIsPlain();
    PlainUrlParses(RestaurantPath(c, id));
    PlainUrlParses(DeliveryPersonPath(c, id));
    PlainUrlParses(RestaurantPath(c, id) + "/rating");
    PlainUrlParses(DeliveryPersonPath(c, id) + "/rating");
    var k := |Root(c) + "/" + "reviews" + "/"|;
    assert RestaurantPath(c, id)[k] == 'r';
    assert DeliveryPersonPath(c, other)[k] == 'd';
  }
}
