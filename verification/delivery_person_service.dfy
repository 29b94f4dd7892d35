/** The delivery-person client of src/services/deliveryPersonService.js,
    rooted at the configured admin root. */
module DeliveryPersonService {
  import opened Common
  import opened Entities
  import opened Config
  import opened Urls

  /** `API_URL = config.ADMIN_API`. */
  function Root(c: Config): string {
    c.adminApi
  }

  /** The resource names and sub-path are plain URL text. */
  lemma ResourceIsPlain()
    ensures SafeRoot("delivery-persons") && SafeRoot("delivery-persons/pending") && SafeRoot("/verification")
  {
  }

  /** The filter keys are plain URL text. */
  lemma KeysAreSafe()
    ensures SafeKey("verificationStatus") && SafeKey("operatingArea")
  {
  }

  /** `getAllDeliveryPersons(page = 0, size = 10, verificationStatus = null, operatingArea = null)`. */
  function GetAllDeliveryPersons(c: Config, token: Option<string>, page: Option<nat>, size: Option<nat>,
                                 verificationStatus: Option<string>, operatingArea: Option<string>): Request
  {
    var filters := [("verificationStatus", verificationStatus), ("operatingArea", operatingArea)];
    Request(GET, ListUrl(Root(c), "delivery-persons", page.GetOr(0), size.GetOr(10), filters), NoBody, Bearer(token))
  }

  /** The list call reads back as `/delivery-persons` with page and size
      (defaults 0 and 10), then `verificationStatus` and `operatingArea`,
      each only when truthy. */
  lemma GetAllDeliveryPersonsQuery(c: Config, token: Option<string>, page: Option<nat>, size: Option<nat>,
                                   verificationStatus: Option<string>, operatingArea: Option<string>)
    requires SafeRoot(c.adminApi)
    requires verificationStatus.Some? ==> SafeValue(verificationStatus.value)
    requires operatingArea.Some? ==> SafeValue(operatingArea.value)
    ensures var r := GetAllDeliveryPersons(c, token, page, size, verificationStatus, operatingArea);
            && r.verb == GET && r.authorization == Bearer(token)
            && ParseUrl(r.url) == ParsedUrl(Root(c) + "/" + "delivery-persons",
                 [("page", Dec(page.GetOr(0))), ("size", Dec(size.GetOr(10)))]
                 + (if Truthy(verificationStatus) then [("verificationStatus", verificationStatus.value)] else [])
                 + (if Truthy(operatingArea) then [("operatingArea", operatingArea.value)] else []))
  {
    ResourceIsPlain();
    KeysAreSafe();
    ListUrlTwoParses(Root(c), "delivery-persons", page.GetOr(0), size.GetOr(10),
                     ("verificationStatus", verificationStatus), ("operatingArea", operatingArea));
  }

  /** `getPendingDeliveryPersons(page = 0, size = 10)`: always paged, never
      filtered. */
  function GetPendingDeliveryPersons(c: Config, token: Option<string>, page: Option<nat>, size: Option<nat>): Request {
    Request(GET, ListUrl(Root(c), "delivery-persons/pending", page.GetOr(0), size.GetOr(10), []), NoBody, Bearer(token))
  }

  lemma PendingDeliveryPersonsQuery(c: Config, token: Option<string>, page: Option<nat>, size: Option<nat>)
    requires SafeRoot(c.adminApi)
    ensures ParseUrl(GetPendingDeliveryPersons(c, token, page, size).url)
         == ParsedUrl(Root(c) + "/" + "delivery-persons/pending",
                      [("page", Dec(page.GetOr(0))), ("size", Dec(size.GetOr(10)))])
  {
    ResourceIsPlain();
    ListUrlParses(Root(c), "delivery-persons/pending", page.GetOr(0), size.GetOr(10), []);
    assert KeptFilters([]) == [];
  }

  function GetDeliveryPersonById(c: Config, token: Option<string>, id: int): Request {
    Request(GET, ItemUrl(Root(c), "delivery-persons", id), NoBody, Bearer(token))
  }

  /** `updateDeliveryPerson(id, data)`: PUT with the caller's data as body. */
  function UpdateDeliveryPerson(c: Config, token: Option<string>, id: int, data: DeliveryDraft): Request {
    Request(PUT, ItemUrl(Root(c), "delivery-persons", id), DeliveryEdit(data), Bearer(token))
  }

  function DeleteDeliveryPerson(c: Config, token: Option<string>, id: int): Request {
    Request(DELETE, ItemUrl(Root(c), "delivery-persons", id), NoBody, Bearer(token))
  }

  /** Get, update and delete address the same item URL, which reads back
      with no query; only the update sends a body, the caller's draft. */
  lemma DeliveryPersonItemCalls(c: Config, token: Option<string>, id: int, data: DeliveryDraft)
    requires SafeRoot(c.adminApi)
    ensures GetDeliveryPersonById(c, token, id).url == UpdateDeliveryPerson(c, token, id, data).url
         == DeleteDeliveryPerson(c, token, id).url
    ensures ParseUrl(GetDeliveryPersonById(c, token, id).url)
         == ParsedUrl(ItemUrl(Root(c), "delivery-persons", id), [])
    ensures GetDeliveryPersonById(c, token, id).verb == GET && UpdateDeliveryPerson(c, token, id, data).verb == PUT
         && DeleteDeliveryPerson(c, token, id).verb == DELETE
    ensures UpdateDeliveryPerson(c, token, id, data).body == DeliveryEdit(data)
  {
    ResourceIsPlain();
    ItemUrlParses(Root(c), "delivery-persons", id);
  }

  /** `updateDeliveryPersonVerification(id, status)`. */
  function UpdateDeliveryPersonVerification(c: Config, token: Option<string>, id: int, status: string): Request {
    Request(PATCH, WithParam(ItemUrl(Root(c), "delivery-persons", id) + "/verification", "status", status),
            EmptyObject, Bearer(token))
  }

  lemma DeliveryPersonVerificationQuery(c: Config, token: Option<string>, id: int, status: string)
    requires SafeRoot(c.adminApi) && SafeValue(status)
    ensures var r := UpdateDeliveryPersonVerification(c, token, id, status);
            && r.verb == PATCH && r.body == EmptyObject
            && ParseUrl(r.url)
               == ParsedUrl(ItemUrl(Root(c), "delivery-persons", id) + "/verification", [("status", status)])
  {
    ResourceIsPlain();
    StatusKeyIsSafe();
    IntStrPlain(id);
    SingleParamParses(ItemUrl(Root(c), "delivery-persons", id) + "/verification", "status", status);
  }
}
