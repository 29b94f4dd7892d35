/** The user client of src/services/userService.js. Its root is the base
    URL with `/api/admin`, and every call carries the bearer header. */
module UserService {
  import opened Common
  import opened Entities
  import opened Config
  import opened Urls

  /** `API_URL`, built from the base URL; it is the configured admin root. */
  function Root(c: Config): (r: string)
    ensures WellFormed(c) ==> r == c.adminApi
    ensures SafeRoot(c.baseUrl) ==> SafeRoot(r)
  {
    c.baseUrl + "/api/admin"
  }

  /** The resource name and filter key are plain URL text. */
  lemma NamesAreSafe()
    ensures SafeRoot("users") && SafeRoot("/role/") && SafeKey("role")
  {
  }

  /** `getAllUsers(page = 0, size = 10, role = null, status = null)`. */
  function GetAllUsers(c: Config, token: Option<string>, page: Option<nat>, size: Option<nat>,
                       role: Option<string>, status: Option<string>): Request
  {
    var url := ListUrl(Root(c), "users", page.GetOr(0), size.GetOr(10), [("role", role), ("status", status)]);
    Request(GET, url, NoBody, Bearer(token))
  }

  /** The list call reads back as `/users` with page and size (defaults 0
      and 10), then `role` only when truthy, then `status` only when truthy. */
  lemma GetAllUsersQuery(c: Config, token: Option<string>, page: Option<nat>, size: Option<nat>,
                         role: Option<string>, status: Option<string>)
    requires SafeRoot(c.baseUrl)
    requires role.Some? ==> SafeValue(role.value)
    requires status.Some? ==> SafeValue(status.value)
    ensures var r := GetAllUsers(c, token, page, size, role, status);
            && r.verb == GET && r.authorization == Bearer(token)
            && ParseUrl(r.url) == ParsedUrl(Root(c) + "/" + "users",
                 [("page", Dec(page.GetOr(0))), ("size", Dec(size.GetOr(10)))]
                 + (if Truthy(role) then [("role", role.value)] else [])
                 + (if Truthy(status) then [("status", status.value)] else []))
  {
    NamesAreSafe();
    StatusKeyIsSafe();
    ListUrlTwoParses(Root(c), "users", page.GetOr(0), size.GetOr(10), ("role", role), ("status", status));
  }

  function GetUserById(c: Config, token: Option<string>, id: int): Request {
    Request(GET, ItemUrl(Root(c), "users", id), NoBody, Bearer(token))
  }

  function UpdateUser(c: Config, token: Option<string>, id: int, data: UserDraft): Request {
    Request(PUT, ItemUrl(Root(c), "users", id), UserEdit(data), Bearer(token))
  }

  function DeleteUser(c: Config, token: Option<string>, id: int): Request {
    Request(DELETE, ItemUrl(Root(c), "users", id), NoBody, Bearer(token))
  }

  /** Get, update and delete address the same item URL, which reads back
      with no query; only the update sends a body, the caller's draft. */
  lemma UserItemCalls(c: Config, token: Option<string>, id: int, data: UserDraft)
    requires SafeRoot(c.baseUrl)
    ensures GetUserById(c, token, id).url == UpdateUser(c, token, id, data).url == DeleteUser(c, token, id).url
    ensures ParseUrl(GetUserById(c, token, id).url) == ParsedUrl(ItemUrl(Root(c), "users", id), [])
    ensures GetUserById(c, token, id).verb == GET && UpdateUser(c, token, id, data).verb == PUT
         && DeleteUser(c, token, id).verb == DELETE
    ensures UpdateUser(c, token, id, data).body == UserEdit(data)
  {
    NamesAreSafe();
    ItemUrlParses(Root(c), "users", id);
  }

  /** `getUsersByRole(role)`: the role is a path segment. */
  function GetUsersByRole(c: Config, token: Option<string>, role: string): Request {
    Request(GET, Root(c) + "/" + "users" + "/role/" + role, NoBody, Bearer(token))
  }

  lemma GetUsersByRolePath(c: Config, token: Option<string>, role: string)
    requires SafeRoot(c.baseUrl) && SafeRoot(role)
    ensures ParseUrl(GetUsersByRole(c, token, role).url) == ParsedUrl(GetUsersByRole(c, token, role).url, [])
  {
    NamesAreSafe();
    PlainUrlParses(Root(c) + "/" + "users" + "/role/" + role);
  }

  /** `updateUserStatus(id, status)`: PATCH with an empty body and the status
      as the only, unencoded, query parameter. */
  function UpdateUserStatus(c: Config, token: Option<string>, id: int, status: string): Request {
    Request(PATCH, WithParam(ItemUrl(Root(c), "users", id) + "/status", "status", status), EmptyObject, Bearer(token))
  }

  lemma UpdateUserStatusQuery(c: Config, token: Option<string>, id: int, status: string)
    requires SafeRoot(c.baseUrl) && SafeValue(status)
    ensures var r := UpdateUserStatus(c, token, id, status);
            && r.verb == PATCH && r.body == EmptyObject
            && ParseUrl(r.url) == ParsedUrl(ItemUrl(Root(c), "users", id) + "/status", [("status", status)])
  {
    NamesAreSafe();
    StatusKeyIsSafe();
    IntStrPlain(id);
    SingleParamParses(ItemUrl(Root(c), "users", id) + "/status", "status", status);
  }
}
