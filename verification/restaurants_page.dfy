/** The restaurants screen, src/pages/RestaurantsPage.jsx: the list call with
    a verification and a cuisine select, the search over name and cuisine,
    the cuisine options gathered from the loaded page, the approve/reject
    pair offered only for pending restaurants, the edit draft and the
    verification badge. */
module RestaurantsPage {
  import opened Common
  import opened Entities
  import opened Config
  import opened Urls
  import opened ListPages
  import opened RestaurantService
  import opened Browser
  import opened AuthService
  import opened ApiService

  const PageSize: nat := 10

  datatype Query = Query(searchTerm: string, statusFilter: string, cuisineFilter: string, currentPage: nat)

  /** `fetchRestaurants()`'s request. */
  function ListCall(c: Config, token: Option<string>, q: Query): Request {
    GetAllRestaurants(c, token, Some(q.currentPage), Some(PageSize), FilterArg(q.statusFilter), FilterArg(q.cuisineFilter))
  }

  /** The list call asks for the current page, ten rows, and each filter
      only when its select is neither "all" nor empty. */
  lemma ListCallQuery(c: Config, token: Option<string>, q: Query)
    requires SafeRoot(c.adminApi) && SafeValue(q.statusFilter) && SafeValue(q.cuisineFilter)
    ensures ParseUrl(ListCall(c, token, q).url) == ParsedUrl(Root(c) + "/" + "restaurants",
              [("page", Dec(q.currentPage)), ("size", Dec(PageSize))]
              + (if q.statusFilter != "all" && q.statusFilter != "" then [("verificationStatus", q.statusFilter)] else [])
              + (if q.cuisineFilter != "all" && q.cuisineFilter != "" then [("cuisineType", q.cuisineFilter)] else []))
  {
    FilterArgTruthy(q.statusFilter);
    FilterArgTruthy(q.cuisineFilter);
    GetAllRestaurantsQuery(c, token, Some(q.currentPage), Some(PageSize), FilterArg(q.statusFilter),
                           FilterArg(q.cuisineFilter));
  }

  /** Sent through the shared client from a readable session, with an
      absolute admin root, the list call is the request above for the
      stored token; a stored text that does not parse sends nothing. */
  lemma ListCallThroughClient<T>(c: Config, store: Store, q: Query, answer: Result<T, HttpError>)
    requires IsAbsolute(Root(c))
    ensures var x := GetAllRestaurantsCall(c, store, Some(q.currentPage), Some(PageSize), FilterArg(q.statusFilter),
                                           FilterArg(q.cuisineFilter), answer);
            && (x.sent.None? <==> GetCurrentAdmin(store).Err?)
            && (x.sent.Some? ==> x.sent.value == ListCall(c, GetAdminToken(store).value, q))
  {
    if GetCurrentAdmin(store).Ok? {
      ListCallKeepsServiceUrl(c, store, Some(q.currentPage), Some(PageSize), FilterArg(q.statusFilter),
                              FilterArg(q.cuisineFilter), answer);
    }
  }

  // ---------------------------------------------------------------------------
  // Search

  /** The name contains the term, or the cuisine, when there is one, does. */
  predicate MatchesRestaurant(term: string, r: Restaurant) {
    MatchesTerm(r.name, term) || MatchesOptional(r.cuisineType, term)
  }

  /** `filteredRestaurants`. */
  function Search(restaurants: seq<Restaurant>, term: string): (r: seq<Restaurant>)
    ensures IsSubsequence(r, restaurants)
    ensures forall i :: 0 <= i < |r| ==> MatchesRestaurant(term, r[i])
    ensures forall i :: 0 <= i < |restaurants| && MatchesRestaurant(term, restaurants[i]) ==> restaurants[i] in r
    ensures forall x :: multiset(r)[x] == if MatchesRestaurant(term, x) then multiset(restaurants)[x] else 0
  {
    FilterCounts(restaurants, x => MatchesRestaurant(term, x));
    Filter(restaurants, x => MatchesRestaurant(term, x))
  }

  /** Every name contains the empty term, so an empty search keeps all. */
  lemma EmptySearchKeepsAll(restaurants: seq<Restaurant>)
    ensures Search(restaurants, "") == restaurants
  {
    forall i | 0 <= i < |restaurants|
      ensures MatchesRestaurant("", restaurants[i])
    {
      IncludesEmpty(Lower(restaurants[i].name));
    }
    FilterAll(restaurants, x => MatchesRestaurant("", x));
  }

  /** The header's "Total" is the length of the searched list, not of the
      loaded page: it counts exactly the positions holding a matching
      restaurant, and only an empty search shows the page's size. */
  lemma HeaderTotalCountsMatches(restaurants: seq<Restaurant>, term: string)
    ensures |Search(restaurants, term)| == |Matching(restaurants, x => MatchesRestaurant(term, x))|
    ensures |Search(restaurants, term)| <= |restaurants|
    ensures |Search(restaurants, "")| == |restaurants|
  {
    CountMatching(restaurants, x => MatchesRestaurant(term, x));
    EmptySearchKeepsAll(restaurants);
  }

  // ---------------------------------------------------------------------------
  // Cuisine options

  /** `restaurants.map(r => r.cuisineType).filter(Boolean)`. */
  function Cuisines(restaurants: seq<Restaurant>): (r: seq<string>)
    ensures forall x :: x in r <==> exists i :: 0 <= i < |restaurants| && restaurants[i].cuisineType == Some(x) && x != ""
  {
    if restaurants == [] then []
    else
      var rest := Cuisines(restaurants[1..]);
      assert forall i :: 1 <= i < |restaurants| ==> restaurants[i] == restaurants[1..][i - 1];
      if Truthy(restaurants[0].cuisineType) then [restaurants[0].cuisineType.value] + rest else rest
  }

  /** No value occurs twice. */
  predicate Distinct(xs: seq<string>) {
    forall i, j :: 0 <= i < j < |xs| ==> xs[i] != xs[j]
  }

  /** `[...new Set(xs)]` with `seen` already taken: each value at its first
      occurrence. */
  function Dedup(xs: seq<string>, seen: set<string>): (r: seq<string>)
    ensures forall x :: x in r <==> x in xs && x !in seen
    ensures Distinct(r)
    ensures IsSubsequence(r, xs)
  {
    if xs == [] then []
    else if xs[0] in seen then
      var r := Dedup(xs[1..], seen);
      assert forall x :: x in xs[1..] ==> x in xs;
      assert forall x :: x in xs && x != xs[0] ==> x in xs[1..];
      r
    else
      var rest := Dedup(xs[1..], seen + {xs[0]});
      var r := [xs[0]] + rest;
      assert forall x :: x in xs[1..] ==> x in xs;
      assert forall x :: x in xs && x != xs[0] ==> x in xs[1..];
      assert forall j :: 0 < j < |r| ==> r[j] == rest[j - 1];
      r
  }

  /** `uniqueCuisines`: the distinct non-empty cuisines of the loaded page, in
      the order they first appear. */
  function UniqueCuisines(restaurants: seq<Restaurant>): (r: seq<string>)
    ensures Distinct(r)
    ensures IsSubsequence(r, Cuisines(restaurants))
    ensures forall x :: x in r <==> exists i :: 0 <= i < |restaurants| && restaurants[i].cuisineType == Some(x) && x != ""
  {
    Dedup(Cuisines(restaurants), {})
  }

  /** A list without repeats (none of them already taken) comes back
      unchanged, so gathering the options twice gives the same options. */
  lemma {:induction false} DedupDistinct(xs: seq<string>, seen: set<string>)
    requires Distinct(xs) && forall i :: 0 <= i < |xs| ==> xs[i] !in seen
    ensures Dedup(xs, seen) == xs
  {
    if xs != [] {
      DistinctTail(xs, seen);
      DedupDistinct(xs[1..], seen + {xs[0]});
      assert [xs[0]] + xs[1..] == xs;
    }
  }

  /** The tail of a list without repeats has none, and avoids its head too. */
  lemma DistinctTail(xs: seq<string>, seen: set<string>)
    requires xs != [] && Distinct(xs) && forall i :: 0 <= i < |xs| ==> xs[i] !in seen
    ensures Distinct(xs[1..]) && forall i :: 0 <= i < |xs[1..]| ==> xs[1..][i] !in seen + {xs[0]}
  {
    assert forall i :: 0 <= i < |xs[1..]| ==> xs[1..][i] == xs[i + 1] && xs[i + 1] != xs[0];
  }

  lemma UniqueCuisinesSettle(restaurants: seq<Restaurant>)
    ensures Dedup(UniqueCuisines(restaurants), {}) == UniqueCuisines(restaurants)
  {
    DedupDistinct(UniqueCuisines(restaurants), {});
  }

  // ---------------------------------------------------------------------------
  // Verification

  /** The statuses the row (and the details dialog) offers: approve and
      reject for a pending restaurant, nothing otherwise. */
  function VerifyActions(r: Restaurant): (a: seq<string>)
    ensures a != [] <==> r.verificationStatus == Some("pending")
    ensures a != [] ==> a == ["verified", "rejected"]
  {
    if r.verificationStatus == Some("pending") then ["verified", "rejected"] else []
  }

  /** `handleVerify(restaurant, status)`'s request for an offered action. */
  lemma VerifyRequest(c: Config, token: Option<string>, r: Restaurant, k: nat)
    requires SafeRoot(c.adminApi) && k < |VerifyActions(r)|
    ensures var req := UpdateRestaurantVerification(c, token, r.restaurantId, VerifyActions(r)[k]);
            && req.verb == PATCH
            && ParseUrl(req.url).query == [("status", VerifyActions(r)[k])]
            && r.verificationStatus == Some("pending")
  {
    RestaurantVerificationQuery(c, token, r.restaurantId, VerifyActions(r)[k]);
  }

  // ---------------------------------------------------------------------------
  // Edit, delete, badge

  /** `handleEdit`: the six editable fields. */
  function EditDraft(r: Restaurant): RestaurantDraft {
    RestaurantDraft(r.name, r.cuisineType, r.contactNumber, r.address, r.openTime, r.closeTime)
  }

  /** Saving an untouched draft sends the restaurant's own editable fields,
      and never its verification status, to its own URL. */
  lemma UntouchedEditResends(c: Config, token: Option<string>, r: Restaurant)
    ensures var req := UpdateRestaurant(c, token, r.restaurantId, EditDraft(r));
            && req.verb == PUT && req.url == GetRestaurantById(c, token, r.restaurantId).url
            && req.body.RestaurantEdit?
            && req.body.restaurant.name == r.name && req.body.restaurant.cuisineType == r.cuisineType
            && req.body.restaurant.contactNumber == r.contactNumber && req.body.restaurant.address == r.address
            && req.body.restaurant.openTime == r.openTime && req.body.restaurant.closeTime == r.closeTime
  {
  }

  function DeleteCalls(c: Config, token: Option<string>, r: Restaurant, confirmed: bool): (rs: seq<Request>)
    ensures confirmed ==> rs == [DeleteRestaurant(c, token, r.restaurantId)]
    ensures !confirmed ==> rs == []
  {
    ConfirmedRequests(confirmed, DeleteRestaurant(c, token, r.restaurantId))
  }

  const StatusBadges: BadgeTable := [("pending", "warning"), ("verified", "success"), ("rejected", "danger")]

  lemma StatusBadgeColours(status: string)
    ensures Lower(status) == "pending" ==> BadgeClass(StatusBadges, Some(status)) == "warning"
    ensures Lower(status) == "verified" ==> BadgeClass(StatusBadges, Some(status)) == "success"
    ensures Lower(status) == "rejected" ==> BadgeClass(StatusBadges, Some(status)) == "danger"
    ensures Lower(status) !in ["pending", "verified", "rejected"] ==> BadgeClass(StatusBadges, Some(status)) == "secondary"
  {
    assert DistinctKeys(StatusBadges);
    if Lower(status) == "pending" { BadgeClassByKey(StatusBadges, status, 0); }
    if Lower(status) == "verified" { BadgeClassByKey(StatusBadges, status, 1); }
    if Lower(status) == "rejected" { BadgeClassByKey(StatusBadges, status, 2); }
  }
}
