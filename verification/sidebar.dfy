/** The navigation sidebar of src/components/Sidebar.jsx: three badge counts
    fetched together through the shared API client (whose interceptors add
    the stored header and log out on 401), a fixed menu in which
    three entries carry a badge, and the admin's avatar letter and name. */
module Sidebar {
  import opened Common
  import opened Entities
  import opened Config
  import opened Browser
  import opened AuthService
  import opened ApiService
  import RestaurantService

  datatype BadgeCounts = BadgeCounts(restaurants: int, deliveryPersons: int, complaints: int)

  /** The counts before any fetch has completed. */
  function InitialCounts(): (r: BadgeCounts)
    ensures r.restaurants == 0 && r.deliveryPersons == 0 && r.complaints == 0
  {
    BadgeCounts(0, 0, 0)
  }

  /** The three paths the badge fetch asks the API client for. */
  const BadgePaths: seq<string> := ["/admin/restaurants/pending", "/admin/delivery-persons/pending", "/admin/complaints/unresolved"]

  /** Where the API client sends each badge request. */
  function BadgeUrls(c: Config): (r: seq<string>)
    ensures |r| == |BadgePaths|
    ensures WellFormed(c) ==> forall i :: 0 <= i < |r| ==> r[i] == c.adminApi + BadgePaths[i]
  {
    assert WellFormed(c) ==> forall i :: 0 <= i < |BadgePaths| ==>
                               Resolve(InstanceBase(c), BadgePaths[i]) == c.adminApi + BadgePaths[i] by {
      if WellFormed(c) {
        BadgeBase(c);
        forall i | 0 <= i < |BadgePaths|
          ensures Resolve(InstanceBase(c), BadgePaths[i]) == c.adminApi + BadgePaths[i]
        {
          assert BadgePaths[i][0] == '/' && BadgePaths[i][1] == 'a';
          RootedPathResolves(InstanceBase(c), BadgePaths[i]);
        }
      }
    }
    seq(|BadgePaths|, i requires 0 <= i < |BadgePaths| => Resolve(InstanceBase(c), BadgePaths[i]))
  }

  lemma BadgeBase(c: Config)
    requires WellFormed(c)
    ensures InstanceBase(c) != "" && InstanceBase(c)[|InstanceBase(c)| - 1] != '/'
  {
    assert c.adminApi[|c.adminApi| - 1] == 'n';
  }

  /** The relative paths are appended to a root that already ends in
      `/api/admin`, so the sidebar's pending-restaurants URL repeats `/admin`
      and is not the URL the restaurant client asks for the same list. */
  lemma BadgeUrlIsNotServiceUrl(c: Config, token: Option<string>)
    requires WellFormed(c)
    ensures BadgeUrls(c)[0] != RestaurantService.GetPendingRestaurants(c, token).url
  {
    var k := |c.adminApi| + 1;
    assert BadgeUrls(c)[0][k] == 'a';
    assert RestaurantService.GetPendingRestaurants(c, token).url[k] == 'r';
  }

  /** What one badge request resolved with: the length of `data.data` when it
      is an array, `None` when it is missing (reading its length throws). */
  type BadgeOutcome = Result<Option<nat>, HttpError>

  predicate Delivered(o: BadgeOutcome) {
    o.Ok? && o.value.Some?
  }

  /** `fetchBadgeCounts()`: `Promise.all` rejects on the first failed request
      and reading a missing array throws; the `catch` then leaves the counts
      as they were. Only when all three deliver are all three replaced. */
  function FetchBadgeCounts(counts: BadgeCounts, restaurants: BadgeOutcome, deliveryPersons: BadgeOutcome,
                            complaints: BadgeOutcome): (r: BadgeCounts)
    ensures Delivered(restaurants) && Delivered(deliveryPersons) && Delivered(complaints) ==>
              r == BadgeCounts(restaurants.value.value, deliveryPersons.value.value, complaints.value.value)
    ensures !(Delivered(restaurants) && Delivered(deliveryPersons) && Delivered(complaints)) ==> r == counts
  {
    match (restaurants, deliveryPersons, complaints)
    case (Ok(Some(a)), Ok(Some(b)), Ok(Some(k))) => BadgeCounts(a, b, k)
    case _ => counts
  }

  /** The join is all-or-nothing: after a fetch either every count is the
      fresh one or none is, and a fetch never mixes old and new counts. */
  lemma FetchIsAllOrNothing(counts: BadgeCounts, restaurants: BadgeOutcome, deliveryPersons: BadgeOutcome,
                            complaints: BadgeOutcome)
    ensures var r := FetchBadgeCounts(counts, restaurants, deliveryPersons, complaints);
            || r == counts
            || (r.restaurants == restaurants.value.value && r.deliveryPersons == deliveryPersons.value.value
                && r.complaints == complaints.value.value)
    ensures restaurants.Err? || deliveryPersons.Err? || complaints.Err? ==>
              FetchBadgeCounts(counts, restaurants, deliveryPersons, complaints) == counts
  {
  }

  /** A badge answer that makes the response interceptor log out. */
  predicate Unauthorized(o: BadgeOutcome) {
    o.Err? && o.error.status == Some(401)
  }

  /** The request for one badge path, as handed to the client. */
  function BadgeRequest(path: string): Request {
    Request(GET, path, NoBody, None)
  }

  /** A badge fetch's course: the requests put on the wire, the counts, and
      the session and location afterwards. */
  datatype BadgeFetch = BadgeFetch(sent: seq<Request>, counts: BadgeCounts, effect: Effect)

  /** `fetchBadgeCounts()` through the shared client, given the server's
      three answers. The three requests start together, so each request
      interceptor reads the same storage: a stored text that does not parse
      makes all three throw, nothing is sent and the counts stay. Otherwise
      all three go out with the stored header, a 401 on any of them runs the
      client's logout, and the counts follow FetchBadgeCounts. */
  function FetchThroughClient(c: Config, store: Store, counts: BadgeCounts, restaurants: BadgeOutcome,
                              deliveryPersons: BadgeOutcome, complaints: BadgeOutcome): (r: BadgeFetch)
    ensures r.sent == [] <==> GetCurrentAdmin(store).Err?
    ensures r.sent == [] ==> r.counts == counts && r.effect == Effect(store, None)
    ensures r.sent != [] ==> && |r.sent| == 3
                             && (forall i :: 0 <= i < 3 ==> && r.sent[i].verb == GET
                                                            && r.sent[i].url == BadgeUrls(c)[i]
                                                            && r.sent[i].authorization == AuthHeader(store).value)
                             && r.counts == FetchBadgeCounts(counts, restaurants, deliveryPersons, complaints)
    ensures r.sent != [] && (Unauthorized(restaurants) || Unauthorized(deliveryPersons) || Unauthorized(complaints)) ==>
              r.effect == LogoutAdmin(store)
    ensures r.sent != [] && !(Unauthorized(restaurants) || Unauthorized(deliveryPersons) || Unauthorized(complaints)) ==>
              r.effect == Effect(store, None)
  {
    var x0 := Call(c, BadgeRequest(BadgePaths[0]), store, restaurants);
    var x1 := Call(c, BadgeRequest(BadgePaths[1]), store, deliveryPersons);
    var x2 := Call(c, BadgeRequest(BadgePaths[2]), store, complaints);
    CallCarriesStoredHeader(c, BadgeRequest(BadgePaths[0]), store, restaurants);
    CallCarriesStoredHeader(c, BadgeRequest(BadgePaths[1]), store, deliveryPersons);
    CallCarriesStoredHeader(c, BadgeRequest(BadgePaths[2]), store, complaints);
    var counts' := FetchBadgeCounts(counts, x0.outcome, x1.outcome, x2.outcome);
    var effect := if x0.effect.location.Some? then x0.effect else if x1.effect.location.Some? then x1.effect else x2.effect;
    if x0.sent.None? then BadgeFetch([], counts', effect)
    else BadgeFetch([x0.sent.value, x1.sent.value, x2.sent.value], counts', effect)
  }

  /** A 401 on any one badge call ends the session and sends the browser to
      the login page, and the counts stay as they were. */
  lemma UnauthorizedBadgeEndsSession(c: Config, store: Store, counts: BadgeCounts, restaurants: BadgeOutcome,
                                     deliveryPersons: BadgeOutcome, complaints: BadgeOutcome)
    requires GetCurrentAdmin(store).Ok?
    requires Unauthorized(restaurants) || Unauthorized(deliveryPersons) || Unauthorized(complaints)
    ensures var r := FetchThroughClient(c, store, counts, restaurants, deliveryPersons, complaints);
            && !IsAuthenticated(r.effect.store) && r.effect.location == Some("/login") && r.counts == counts
  {
  }

  /** With a readable session and no 401, the fetch keeps the session, and
      the counts are replaced exactly when all three answers deliver. */
  lemma BadgeFetchKeepsSession(c: Config, store: Store, counts: BadgeCounts, restaurants: BadgeOutcome,
                               deliveryPersons: BadgeOutcome, complaints: BadgeOutcome)
    requires GetCurrentAdmin(store).Ok?
    requires !(Unauthorized(restaurants) || Unauthorized(deliveryPersons) || Unauthorized(complaints))
    ensures var r := FetchThroughClient(c, store, counts, restaurants, deliveryPersons, complaints);
            && r.effect.store == store && r.effect.location.None?
            && (r.counts != counts ==> Delivered(restaurants) && Delivered(deliveryPersons) && Delivered(complaints))
  {
  }

  /** A menu entry; `badge` is the count it shows, absent for unbadged entries. */
  datatype MenuItem = MenuItem(path: string, title: string, badge: Option<int>)

  /** The menu, in display order. */
  function MenuItems(counts: BadgeCounts): (r: seq<MenuItem>)
    ensures |r| == 9
  {
    [ MenuItem("/dashboard", "Dashboard", None),
      MenuItem("/users", "Users", None),
      MenuItem("/restaurants", "Restaurants", Some(counts.restaurants)),
      MenuItem("/delivery-persons", "Delivery Persons", Some(counts.deliveryPersons)),
      MenuItem("/orders", "Orders", None),
      MenuItem("/complaints", "Complaints", Some(counts.complaints)),
      MenuItem("/reviews", "Reviews", None),
      MenuItem("/notifications", "Notifications", None),
      MenuItem("/settings", "Settings", None) ]
  }

  /** `item.badge > 0`: an absent badge compares as false. */
  predicate ShowsBadge(item: MenuItem) {
    item.badge.Some? && item.badge.value > 0
  }

  /** The count a path's badge shows, for the three badged paths. */
  function BadgeFor(path: string, counts: BadgeCounts): Option<int> {
    if path == "/restaurants" then Some(counts.restaurants)
    else if path == "/delivery-persons" then Some(counts.deliveryPersons)
    else if path == "/complaints" then Some(counts.complaints)
    else None
  }

  /** Every entry's badge is the one its path calls for, so only the
      restaurants, delivery-persons and complaints entries carry one, and a
      badge shows exactly when its count is positive. */
  lemma MenuBadges(counts: BadgeCounts)
    ensures forall i :: 0 <= i < 9 ==> MenuItems(counts)[i].badge == BadgeFor(MenuItems(counts)[i].path, counts)
    ensures forall i :: 0 <= i < 9 ==>
              (ShowsBadge(MenuItems(counts)[i]) <==> BadgeFor(MenuItems(counts)[i].path, counts).Some?
                                                     && BadgeFor(MenuItems(counts)[i].path, counts).value > 0)
  {
  }

  /** Before the first fetch no badge is shown. */
  lemma NoBadgeInitially()
    ensures forall i :: 0 <= i < 9 ==> !ShowsBadge(MenuItems(InitialCounts())[i])
  {
  }

  /** `admin?.fullName?.charAt(0) || 'A'`: the first code unit of the name,
      so half a character when the name opens outside the Basic
      Multilingual Plane. */
  function AvatarLetter(admin: Option<AdminRecord>): (r: seq<CodeUnit>)
    ensures |r| == 1
    ensures admin.Some? && admin.value.fullName != "" ==> r == [CharUnits(admin.value.fullName[0])[0]]
    ensures admin.None? || admin.value.fullName == "" ==> r == ['A' as int]
  {
    if admin.Some? && admin.value.fullName != "" then [Utf16(admin.value.fullName)[0]] else ['A' as int]
  }

  /** `admin?.fullName || 'Admin'`. */
  function DisplayName(admin: Option<AdminRecord>): (r: string)
    ensures r != ""
    ensures admin.Some? && admin.value.fullName != "" ==> r == admin.value.fullName
    ensures !(admin.Some? && admin.value.fullName != "") ==> r == "Admin"
  {
    if admin.Some? && admin.value.fullName != "" then admin.value.fullName else "Admin"
  }

  /** The avatar letter is the first code unit of the displayed name. */
  lemma AvatarMatchesName(admin: Option<AdminRecord>)
    ensures AvatarLetter(admin) == Utf16(DisplayName(admin))[..1]
  {
  }

  /** A name opening with an emoji shows a lone high surrogate. */
  lemma AvatarOfAstralName(a: AdminRecord)
    requires a.fullName != "" && IsAstral(a.fullName[0])
    ensures IsHighSurrogate(AvatarLetter(Some(a))[0])
  {
  }
}
