/** The dashboard statistics of src/services/dashboardService.js: eleven list
    calls are settled side by side, each outcome independently becomes its
    value or `null`, and every statistic falls back to 0 on its own. */
module DashboardService {
  import opened Common
  import opened Entities
  import opened Config
  import opened Urls
  import UserService
  import RestaurantService
  import DeliveryPersonService
  import ComplaintService
  import ReviewService

  /** What a settled call resolved with, as far as the statistics look at it:
      a page object with its optional `totalElements`, an array of some
      length, or any other value (`undefined` included). */
  datatype Resolved = PageOf(totalElements: Option<int>) | ListOf(length: nat) | NoData

  /** One element of the `Promise.allSettled` result. */
  type Outcome = Result<Resolved, HttpError>

  /** The number of calls the dashboard settles. */
  const CallCount: nat := 11

  /** The number of keys of the statistics object. */
  const FieldCount: nat := 15

  datatype Stats = Stats(
    totalUsers: int,
    totalCustomers: int,
    totalRestaurantOwners: int,
    totalDeliveryPersonsUsers: int,
    totalRestaurants: int,
    pendingRestaurants: int,
    totalDeliveryPersons: int,
    pendingDeliveryPersons: int,
    totalComplaints: int,
    newComplaints: int,
    totalReviews: int,
    totalOrders: int,
    todayRevenue: int,
    activeDeliveries: int,
    deliveredToday: int)

  /** `getAllUsers(0, 1, role)`: one user, to read the total. */
  function UserCall(c: Config, token: Option<string>, role: Option<string>): Request {
    UserService.GetAllUsers(c, token, Some(0), Some(1), role, None)
  }

  /** The eleven calls, in the order they are settled. */
  function Calls(c: Config, token: Option<string>): (r: seq<Request>)
    ensures |r| == CallCount
    ensures forall i :: 0 <= i < |r| ==> r[i].verb == GET && r[i].authorization == Bearer(token)
  {
    [ UserCall(c, token, UserRoles[0]),
      UserCall(c, token, UserRoles[1]),
      UserCall(c, token, UserRoles[2]),
      UserCall(c, token, UserRoles[3]),
      RestaurantService.GetAllRestaurants(c, token, Some(0), Some(1), None, None),
      RestaurantService.GetPendingRestaurants(c, token),
      DeliveryPersonService.GetAllDeliveryPersons(c, token, Some(0), Some(1), None, None),
      DeliveryPersonService.GetPendingDeliveryPersons(c, token, Some(0), Some(100)),
      ComplaintService.GetNewComplaints(c, token),
      ComplaintService.GetAllComplaints(c, token, Some(0), Some(1), None),
      ReviewService.GetAllReviews(c, token, Some(0), Some(1), Null, Null) ]
  }

  /** The role each of the four user counts asks for. */
  const UserRoles: seq<Option<string>> := [None, Some("customer"), Some("restaurant_owner"), Some("delivery_person")]

  lemma RolesAreSafe()
    ensures forall i :: 0 <= i < |UserRoles| ==> UserRoles[i].Some? ==> UserRoles[i].value != "" && SafeValue(UserRoles[i].value)
  {
  }

  /** A user-count call asks for one element of the users list, filtered by
      its role when it has one. */
  lemma UserCallQuery(c: Config, token: Option<string>, role: Option<string>)
    requires SafeRoot(c.baseUrl)
    requires role.Some? ==> role.value != "" && SafeValue(role.value)
    ensures ParseUrl(UserCall(c, token, role).url) == ParsedUrl(UserService.Root(c) + "/" + "users",
              [("page", Dec(0)), ("size", Dec(1))] + (if role.Some? then [("role", role.value)] else []))
  {
    UserService.GetAllUsersQuery(c, token, Some(0), Some(1), role, None);
  }

  /** The first four calls count all users and then each role in turn. */
  lemma UserCallsAreRoleCounts(c: Config, token: Option<string>, i: nat)
    requires SafeRoot(c.baseUrl) && i < |UserRoles|
    ensures Calls(c, token)[i] == UserCall(c, token, UserRoles[i])
    ensures ParseUrl(Calls(c, token)[i].url) == ParsedUrl(UserService.Root(c) + "/" + "users",
              [("page", Dec(0)), ("size", Dec(1))]
              + (if UserRoles[i].Some? then [("role", UserRoles[i].value)] else []))
  {
    var role := UserRoles[i];
    assert Calls(c, token)[i] == UserCall(c, token, role);
    assert role.Some? ==> role.value != "" && SafeValue(role.value) by { RolesAreSafe(); }
    UserCallQuery(c, token, role);
  }

  /** The pending delivery persons are fetched as one page of up to 100. */
  lemma PendingDeliveryCallQuery(c: Config, token: Option<string>)
    requires SafeRoot(c.adminApi)
    ensures ParseUrl(Calls(c, token)[7].url) == ParsedUrl(DeliveryPersonService.Root(c) + "/" + "delivery-persons/pending",
              [("page", Dec(0)), ("size", Dec(100))])
  {
    assert Calls(c, token)[7] == DeliveryPersonService.GetPendingDeliveryPersons(c, token, Some(0), Some(100));
    DeliveryPersonService.PendingDeliveryPersonsQuery(c, token, Some(0), Some(100));
  }

  /** `getValue`: a fulfilled outcome gives its value, a rejected one `null`. */
  function GetValue(o: Outcome): (r: Option<Resolved>)
    ensures r.Some? <==> o.Ok?
    ensures o.Ok? ==> r.value == o.value
  {
    match o
    case Ok(v) => Some(v)
    case Err(_) => None
  }

  /** `value?.totalElements || 0`. */
  function TotalOf(v: Option<Resolved>): (r: int)
    ensures r != 0 ==> v == Some(PageOf(Some(r)))
    ensures v.Some? && v.value.PageOf? && v.value.totalElements.Some? ==> r == v.value.totalElements.value
  {
    match v
    case Some(PageOf(n)) => NumOrZero(n)
    case _ => 0
  }

  /** `Array.isArray(value) ? value.length : 0`. */
  function LengthOf(v: Option<Resolved>): (r: nat)
    ensures r != 0 ==> v == Some(ListOf(r))
    ensures v.Some? && v.value.ListOf? ==> r == v.value.length
  {
    match v
    case Some(ListOf(n)) => n
    case _ => 0
  }

  /** `getDashboardStats()` once the eleven calls have settled. */
  function DashboardStats(outcomes: seq<Outcome>): (r: Stats)
    requires |outcomes| == CallCount
    ensures r.totalOrders == 0 && r.todayRevenue == 0 && r.activeDeliveries == 0 && r.deliveredToday == 0
    ensures r.pendingRestaurants >= 0 && r.pendingDeliveryPersons >= 0 && r.newComplaints >= 0
  {
    var v := seq(CallCount, i requires 0 <= i < CallCount => GetValue(outcomes[i]));
    Stats(
      totalUsers := TotalOf(v[0]),
      totalCustomers := TotalOf(v[1]),
      totalRestaurantOwners := TotalOf(v[2]),
      totalDeliveryPersonsUsers := TotalOf(v[3]),
      totalRestaurants := TotalOf(v[4]),
      pendingRestaurants := LengthOf(v[5]),
      totalDeliveryPersons := TotalOf(v[6]),
      pendingDeliveryPersons := LengthOf(v[7]),
      totalComplaints := TotalOf(v[9]),
      newComplaints := LengthOf(v[8]),
      totalReviews := TotalOf(v[10]),
      totalOrders := 0,
      todayRevenue := 0,
      activeDeliveries := 0,
      deliveredToday := 0)
  }

  /** The object the `catch` branch returns: the same fifteen keys, all 0. */
  function Fallback(): (r: Stats)
    ensures forall k :: 0 <= k < FieldCount ==> Field(r, k) == 0
  {
    Stats(0, 0, 0, 0, 0, 0, 0, 0, 0, 0, 0, 0, 0, 0, 0)
  }

  /** The statistics as a table of fields, in the order the object lists them. */
  function Field(s: Stats, k: nat): int
    requires k < FieldCount
  {
    if k == 0 then s.totalUsers
    else if k == 1 then s.totalCustomers
    else if k == 2 then s.totalRestaurantOwners
    else if k == 3 then s.totalDeliveryPersonsUsers
    else if k == 4 then s.totalRestaurants
    else if k == 5 then s.pendingRestaurants
    else if k == 6 then s.totalDeliveryPersons
    else if k == 7 then s.pendingDeliveryPersons
    else if k == 8 then s.totalComplaints
    else if k == 9 then s.newComplaints
    else if k == 10 then s.totalReviews
    else if k == 11 then s.totalOrders
    else if k == 12 then s.todayRevenue
    else if k == 13 then s.activeDeliveries
    else s.deliveredToday
  }

  /** The call whose outcome feeds field `k`, if any. The complaint fields
      cross over: the total comes from call 9 and the new count from call 8. */
  function Source(k: nat): (r: Option<nat>)
    requires k < FieldCount
    ensures r.Some? ==> r.value < CallCount
  {
    if k < 8 || k == 10 then Some(k)
    else if k == 8 then Some(9)
    else if k == 9 then Some(8)
    else None
  }

  /** The fields that count the elements of an array rather than read a total. */
  predicate IsCount(k: nat) {
    k == 5 || k == 7 || k == 9
  }

  /** The reference reading of one field: 0 when no call feeds it, otherwise
      the length or total of its own call's value. */
  function Expected(outcomes: seq<Outcome>, k: nat): int
    requires |outcomes| == CallCount && k < FieldCount
  {
    match Source(k)
    case None => 0
    case Some(i) => if IsCount(k) then LengthOf(GetValue(outcomes[i])) else TotalOf(GetValue(outcomes[i]))
  }

  /** Every field is the reference reading of its own call. */
  lemma StatsByField(outcomes: seq<Outcome>)
    requires |outcomes| == CallCount
    ensures forall k :: 0 <= k < FieldCount ==> Field(DashboardStats(outcomes), k) == Expected(outcomes, k)
  {
  }

  /** A call that settles differently changes only the field it feeds. */
  lemma BranchIsolation(outcomes: seq<Outcome>, i: nat, o: Outcome)
    requires |outcomes| == CallCount && i < CallCount
    ensures forall k :: 0 <= k < FieldCount && Source(k) != Some(i) ==>
              Field(DashboardStats(outcomes[i := o]), k) == Field(DashboardStats(outcomes), k)
  {
    StatsByField(outcomes);
    StatsByField(outcomes[i := o]);
  }

  /** When every call is rejected, the statistics are those of the `catch`
      branch: no field is ever `null`. */
  lemma AllRejectedIsFallback(outcomes: seq<Outcome>)
    requires |outcomes| == CallCount
    requires forall i :: 0 <= i < |outcomes| ==> outcomes[i].Err?
    ensures DashboardStats(outcomes) == Fallback()
  {
  }

  /** A field is non-zero only if its own call was fulfilled. */
  lemma NonZeroNeedsFulfilled(outcomes: seq<Outcome>, k: nat)
    requires |outcomes| == CallCount && k < FieldCount
    requires Field(DashboardStats(outcomes), k) != 0
    ensures Source(k).Some? && outcomes[Source(k).value].Ok?
  {
    StatsByField(outcomes);
  }
}
