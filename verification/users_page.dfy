/** The users screen, src/pages/UsersPage.jsx: the list call with its two
    filter selects, the client-side search, the one status action offered
    per user, the edit draft, the role label and the badge colours. */
module UsersPage {
  import opened Common
  import opened Entities
  import opened Config
  import opened Urls
  import opened ListPages
  import opened UserService

  /** Rows per page the screen asks for. */
  const PageSize: nat := 20

  /** The filter and paging state the list call depends on. */
  datatype Query = Query(searchTerm: string, roleFilter: string, statusFilter: string, currentPage: nat)

  /** `fetchUsers()`'s request. */
  function ListCall(c: Config, token: Option<string>, q: Query): Request {
    GetAllUsers(c, token, Some(q.currentPage), Some(PageSize), FilterArg(q.roleFilter), FilterArg(q.statusFilter))
  }

  /** The list call asks for the current page, twenty rows, and a role or
      status filter only when that select is neither "all" nor empty. */
  lemma ListCallQuery(c: Config, token: Option<string>, q: Query)
    requires SafeRoot(c.baseUrl) && SafeValue(q.roleFilter) && SafeValue(q.statusFilter)
    ensures ParseUrl(ListCall(c, token, q).url) == ParsedUrl(Root(c) + "/" + "users",
              [("page", Dec(q.currentPage)), ("size", Dec(PageSize))]
              + (if q.roleFilter != "all" && q.roleFilter != "" then [("role", q.roleFilter)] else [])
              + (if q.statusFilter != "all" && q.statusFilter != "" then [("status", q.statusFilter)] else []))
  {
    FilterArgTruthy(q.roleFilter);
    FilterArgTruthy(q.statusFilter);
    GetAllUsersQuery(c, token, Some(q.currentPage), Some(PageSize), FilterArg(q.roleFilter), FilterArg(q.statusFilter));
  }

  // ---------------------------------------------------------------------------
  // Search

  /** Name or email contains the term, ignoring ASCII case. */
  predicate MatchesUser(term: string, u: User) {
    MatchesTerm(u.fullName, term) || MatchesTerm(u.email, term)
  }

  /** `filteredUsers`: the loaded users the search keeps, in their order. */
  function Search(users: seq<User>, term: string): (r: seq<User>)
    ensures IsSubsequence(r, users)
    ensures forall i :: 0 <= i < |r| ==> MatchesUser(term, r[i])
    ensures forall i :: 0 <= i < |users| && MatchesUser(term, users[i]) ==> users[i] in r
    ensures forall u :: multiset(r)[u] == if MatchesUser(term, u) then multiset(users)[u] else 0
  {
    FilterCounts(users, u => MatchesUser(term, u));
    Filter(users, u => MatchesUser(term, u))
  }

  /** An empty search keeps every loaded user. */
  lemma EmptySearchKeepsAll(users: seq<User>)
    ensures Search(users, "") == users
  {
    forall i | 0 <= i < |users|
      ensures MatchesUser("", users[i])
    {
      IncludesEmpty(Lower(users[i].fullName));
    }
    FilterAll(users, u => MatchesUser("", u));
  }

  // ---------------------------------------------------------------------------
  // Status action

  /** The status the one status button sets: "suspended" for an active user,
      "active" for any other status, a missing one included. */
  function StatusAction(status: Option<string>): (r: string)
    ensures r == "suspended" || r == "active"
    ensures r == "suspended" <==> status == Some("active")
  {
    if status == Some("active") then "suspended" else "active"
  }

  /** The button never offers the status a user already has, and pressing
      it twice restores an active or a suspended user. */
  lemma StatusActionToggles(status: string)
    ensures StatusAction(Some(status)) != status
    ensures status == "active" || status == "suspended" ==>
              StatusAction(Some(StatusAction(Some(status)))) == status
  {
  }

  /** The request the status button sends: the offered status, as the only
      query parameter of a PATCH on the user. */
  function StatusChange(c: Config, token: Option<string>, u: User): Request {
    UpdateUserStatus(c, token, u.userId, StatusAction(u.status))
  }

  lemma StatusChangeQuery(c: Config, token: Option<string>, u: User)
    requires SafeRoot(c.baseUrl)
    ensures ParseUrl(StatusChange(c, token, u).url).query == [("status", StatusAction(u.status))]
    ensures StatusChange(c, token, u).verb == PATCH
  {
    UpdateUserStatusQuery(c, token, u.userId, StatusAction(u.status));
  }

  // ---------------------------------------------------------------------------
  // Edit and delete

  /** `handleEdit`: the draft copies the four editable fields. */
  function EditDraft(u: User): UserDraft {
    UserDraft(u.fullName, u.email, u.phone, u.role)
  }

  /** Saving a draft nobody touched sends the user's own editable fields
      back to the user's own URL. */
  lemma UntouchedEditResends(c: Config, token: Option<string>, u: User)
    ensures var r := UpdateUser(c, token, u.userId, EditDraft(u));
            && r.verb == PUT && r.url == GetUserById(c, token, u.userId).url
            && r.body.UserEdit? && r.body.user.fullName == u.fullName && r.body.user.email == u.email
            && r.body.user.phone == u.phone && r.body.user.role == u.role
  {
  }

  /** `handleDelete`: the delete goes out only when confirmed. */
  function DeleteCalls(c: Config, token: Option<string>, u: User, confirmed: bool): (r: seq<Request>)
    ensures confirmed ==> r == [DeleteUser(c, token, u.userId)]
    ensures !confirmed ==> r == []
  {
    ConfirmedRequests(confirmed, DeleteUser(c, token, u.userId))
  }

  // ---------------------------------------------------------------------------
  // Counts

  /** The header cards compare with `===`: exact text, unlike the badges. */
  predicate IsActive(u: User) { u.status == Some("active") }
  predicate IsOwner(u: User) { u.role == Some("restaurant_owner") }
  predicate IsCourier(u: User) { u.role == Some("delivery_person") }
  predicate IsOwnerOrCourier(u: User) { IsOwner(u) || IsCourier(u) }

  /** The four header cards, over the whole loaded page whatever the search
      keeps: all users, the active ones, the restaurant owners and the
      delivery persons. */
  datatype Stats = Stats(total: nat, active: nat, restaurantOwners: nat, deliveryPersons: nat)

  function Counts(users: seq<User>): Stats {
    Stats(|users|, Count(users, IsActive), Count(users, IsOwner), Count(users, IsCourier))
  }

  /** No user is counted under two roles: the owner and delivery-person
      cards never add up to more than the total, and reach it exactly when
      every loaded user has one of those two roles. */
  lemma CountsPartition(users: seq<User>)
    ensures var s := Counts(users);
            s.active <= s.total && s.restaurantOwners + s.deliveryPersons <= s.total
    ensures var s := Counts(users);
            s.restaurantOwners + s.deliveryPersons == s.total
            <==> forall i :: 0 <= i < |users| ==> IsOwnerOrCourier(users[i])
  {
    CountUnion(users, IsOwner, IsCourier, IsOwnerOrCourier);
    if forall i :: 0 <= i < |users| ==> IsOwnerOrCourier(users[i]) {
      CountAll(users, IsOwnerOrCourier);
    } else {
      var i :| 0 <= i < |users| && !IsOwnerOrCourier(users[i]);
      CountMisses(users, IsOwnerOrCourier, i);
    }
  }

  /** A role written in another case gets the owner's badge colour but is
      not counted on the owners' card. */
  lemma CountsAreCaseSensitive(u: User)
    requires u.role == Some("Restaurant_Owner")
    ensures Counts([u]).restaurantOwners == 0
    ensures BadgeClass(RoleBadges, u.role) == "success"
  {
    FilterNone([u], IsOwner);
    RoleBadgeColours(u.role.value);
  }

  // ---------------------------------------------------------------------------
  // Badges

  const RoleBadges: BadgeTable :=
    [("customer", "primary"), ("restaurant_owner", "success"), ("delivery_person", "info"), ("admin", "danger")]

  const StatusBadges: BadgeTable := [("active", "success"), ("inactive", "secondary"), ("suspended", "danger")]

  /** Each role and status colour is found whatever the key's letter case;
      anything else, a missing key included, is "secondary". */
  lemma RoleBadgeColours(role: string)
    ensures Lower(role) == "customer" ==> BadgeClass(RoleBadges, Some(role)) == "primary"
    ensures Lower(role) == "restaurant_owner" ==> BadgeClass(RoleBadges, Some(role)) == "success"
    ensures Lower(role) == "delivery_person" ==> BadgeClass(RoleBadges, Some(role)) == "info"
    ensures Lower(role) == "admin" ==> BadgeClass(RoleBadges, Some(role)) == "danger"
    ensures Lower(role) !in ["customer", "restaurant_owner", "delivery_person", "admin"] ==>
              BadgeClass(RoleBadges, Some(role)) == "secondary"
  {
    assert DistinctKeys(RoleBadges);
    if Lower(role) == "customer" { BadgeClassByKey(RoleBadges, role, 0); }
    if Lower(role) == "restaurant_owner" { BadgeClassByKey(RoleBadges, role, 1); }
    if Lower(role) == "delivery_person" { BadgeClassByKey(RoleBadges, role, 2); }
    if Lower(role) == "admin" { BadgeClassByKey(RoleBadges, role, 3); }
  }

  lemma StatusBadgeColours(status: string)
    ensures Lower(status) == "active" ==> BadgeClass(StatusBadges, Some(status)) == "success"
    ensures Lower(status) == "inactive" ==> BadgeClass(StatusBadges, Some(status)) == "secondary"
    ensures Lower(status) == "suspended" ==> BadgeClass(StatusBadges, Some(status)) == "danger"
    ensures Lower(status) !in ["active", "inactive", "suspended"] ==> BadgeClass(StatusBadges, Some(status)) == "secondary"
  {
    assert DistinctKeys(StatusBadges);
    if Lower(status) == "active" { BadgeClassByKey(StatusBadges, status, 0); }
    if Lower(status) == "inactive" { BadgeClassByKey(StatusBadges, status, 1); }
    if Lower(status) == "suspended" { BadgeClassByKey(StatusBadges, status, 2); }
  }
}
