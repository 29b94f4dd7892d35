/** The complaint client of src/services/complaintService.js. Its root is the
    base URL with `/admin` (not `/api/admin`). The response text is the one
    value any client passes through `encodeURIComponent`. */
module ComplaintService {
  import opened Common
  import opened Entities
  import opened Config
  import opened Urls
  import opened UriComponent

  /** `API_URL = BASE_URL + '/admin'`: a sibling of the admin API root, not
      the same path. */
  function Root(c: Config): (r: string)
    ensures WellFormed(c) ==> r != c.adminApi
    ensures SafeRoot(c.baseUrl) ==> SafeRoot(r)
  {
    c.baseUrl + "/admin"
  }

  /** The resource name and sub-paths are plain URL text. */
  lemma ResourceIsPlain()
    ensures SafeRoot("complaints") && SafeRoot("/new") && SafeRoot("/status") && SafeRoot("/response")
  {
  }

  lemma ResponseKeyIsSafe()
    ensures SafeKey("response")
  {
  }

  /** `getAllComplaints(page = 0, size = 10, status = null)`. */
  function GetAllComplaints(c: Config, token: Option<string>, page: Option<nat>, size: Option<nat>,
                            status: Option<string>): Request
  {
    Request(GET, ListUrl(Root(c), "complaints", page.GetOr(0), size.GetOr(10), [("status", status)]), NoBody, Bearer(token))
  }

  /** The list call reads back as `/complaints` with page and size, then
      `status` only when truthy. */
  lemma GetAllComplaintsQuery(c: Config, token: Option<string>, page: Option<nat>, size: Option<nat>,
                              status: Option<string>)
    requires SafeRoot(c.baseUrl)
    requires status.Some? ==> SafeValue(status.value)
    ensures var r := GetAllComplaints(c, token, page, size, status);
            && r.verb == GET && r.authorization == Bearer(token)
            && ParseUrl(r.url) == ParsedUrl(Root(c) + "/" + "complaints",
                 [("page", Dec(page.GetOr(0))), ("size", Dec(size.GetOr(10)))]
                 + (if Truthy(status) then [("status", status.value)] else []))
  {
    ResourceIsPlain();
    StatusKeyIsSafe();
    ListUrlOneParses(Root(c), "complaints", page.GetOr(0), size.GetOr(10), ("status", status));
  }

  /** `getNewComplaints()`: no page, size or filter. */
  function GetNewComplaints(c: Config, token: Option<string>): Request {
    Request(GET, Root(c) + "/" + "complaints" + "/new", NoBody, Bearer(token))
  }

  lemma NewComplaintsHasNoQuery(c: Config, token: Option<string>)
    requires SafeRoot(c.baseUrl)
    ensures ParseUrl(GetNewComplaints(c, token).url) == ParsedUrl(Root(c) + "/" + "complaints" + "/new", [])
  {
    ResourceIsPlain();
    PlainUrlParses(Root(c) + "/" + "complaints" + "/new");
  }

  function GetComplaintById(c: Config, token: Option<string>, id: int): Request {
    Request(GET, ItemUrl(Root(c), "complaints", id), NoBody, Bearer(token))
  }

  function DeleteComplaint(c: Config, token: Option<string>, id: int): Request {
    Request(DELETE, ItemUrl(Root(c), "complaints", id), NoBody, Bearer(token))
  }

  /** Get and delete address the same item URL, which reads back with no
      query. */
  lemma ComplaintItemCalls(c: Config, token: Option<string>, id: int)
    requires SafeRoot(c.baseUrl)
    ensures GetComplaintById(c, token, id).url == DeleteComplaint(c, token, id).url
    ensures ParseUrl(GetComplaintById(c, token, id).url) == ParsedUrl(ItemUrl(Root(c), "complaints", id), [])
    ensures GetComplaintById(c, token, id).verb == GET && DeleteComplaint(c, token, id).verb == DELETE
  {
    ResourceIsPlain();
    ItemUrlParses(Root(c), "complaints", id);
  }

  /** `addComplaintResponse(id, responseText)`: PUT with an empty body and the
      encoded text as the `response` parameter. */
  function AddComplaintResponse(c: Config, token: Option<string>, id: int, text: string): Request {
    Request(PUT, WithParam(ItemUrl(Root(c), "complaints", id) + "/response", "response", Encode(text)),
            EmptyObject, Bearer(token))
  }

  /** Whatever the text holds, the URL reads back as exactly one `response`
      parameter, and decoding its value gives the text back. */
  lemma ComplaintResponseQuery(c: Config, token: Option<string>, id: int, text: string)
    requires SafeRoot(c.baseUrl)
    ensures var r := AddComplaintResponse(c, token, id, text);
            var parsed := ParseUrl(r.url);
            && r.verb == PUT && r.body == EmptyObject
            && parsed == ParsedUrl(ItemUrl(Root(c), "complaints", id) + "/response", [("response", Encode(text))])
            && Decode(parsed.query[0].1) == Some(text)
  {
    ResourceIsPlain();
    ResponseKeyIsSafe();
    IntStrPlain(id);
    EncodeIsPlain(text);
    DecodeEncode(text);
    SingleParamParses(ItemUrl(Root(c), "complaints", id) + "/response", "response", Encode(text));
  }

  /** `updateComplaintStatus(id, status)`: the status is not encoded. */
  function UpdateComplaintStatus(c: Config, token: Option<string>, id: int, status: string): Request {
    Request(PATCH, WithParam(ItemUrl(Root(c), "complaints", id) + "/status", "status", status), EmptyObject, Bearer(token))
  }

  lemma ComplaintStatusQuery(c: Config, token: Option<string>, id: int, status: string)
    requires SafeRoot(c.baseUrl) && SafeValue(status)
    ensures var r := UpdateComplaintStatus(c, token, id, status);
            && r.verb == PATCH && r.body == EmptyObject
            && ParseUrl(r.url) == ParsedUrl(ItemUrl(Root(c), "complaints", id) + "/status", [("status", status)])
  {
    ResourceIsPlain();
    StatusKeyIsSafe();
    IntStrPlain(id);
    SingleParamParses(ItemUrl(Root(c), "complaints", id) + "/status", "status", status);
  }

  /** The unencoded status, unlike the response text, can smuggle in a
      second parameter: a status `a&b` reads back as `status=a` and a bare `b`. */
  lemma StatusIsNotEncoded(c: Config, token: Option<string>, id: int, before: string, after: string)
    requires SafeRoot(c.baseUrl) && SafeValue(before) && SafeKey(after)
    ensures ParseUrl(UpdateComplaintStatus(c, token, id, before + "&" + after).url).query
         == [("status", before), (after, "")]
  {
    ResourceIsPlain();
    StatusKeyIsSafe();
    IntStrPlain(id);
    ParamValueSplits(ItemUrl(Root(c), "complaints", id) + "/status", "status", before, after);
  }
}
