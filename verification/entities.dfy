/** The records the backend hands the console and the requests the console
    sends back. Entities are opaque to the client: only the fields the pages
    read are modelled, with `Option` for fields the code reads through `?.`
    or `||`. */
module Entities {
  import opened Common

  /** The authenticated session record returned by the login endpoint. */
  datatype AdminRecord = AdminRecord(
    userId: int,
    email: string,
    fullName: string,
    role: string,
    token: Option<string>,
    status: string)

  datatype User = User(
    userId: int,
    fullName: string,
    email: string,
    phone: Option<string>,
    role: Option<string>,
    status: Option<string>)

  datatype Restaurant = Restaurant(
    restaurantId: int,
    name: string,
    cuisineType: Option<string>,
    contactNumber: Option<string>,
    address: Option<string>,
    openTime: Option<string>,
    closeTime: Option<string>,
    verificationStatus: Option<string>)

  /** The nested `deliveryPerson` object of a delivery-person row. */
  datatype DeliveryDetail = DeliveryDetail(
    userId: Option<int>,
    vehicleNumber: Option<string>,
    operatingArea: Option<string>,
    status: Option<string>,
    earnings: Option<int>)

  datatype DeliveryPersonRow = DeliveryPersonRow(
    deliveryPersonId: int,
    userName: Option<string>,
    userEmail: Option<string>,
    deliveryPerson: Option<DeliveryDetail>)

  datatype Complaint = Complaint(
    complaintId: int,
    userName: Option<string>,
    userEmail: Option<string>,
    message: Option<string>,
    adminResponse: Option<string>,
    status: string)

  datatype Review = Review(
    reviewId: int,
    userName: Option<string>,
    comment: Option<string>,
    restaurantName: Option<string>,
    deliveryPersonName: Option<string>,
    rating: int,
    restaurantId: Option<int>,
    deliveryPersonId: Option<int>)

  /** A page object `{content, totalPages}`; either field may be missing. */
  datatype PageData<T> = PageData(content: Option<seq<T>>, totalPages: Option<int>)

  /** A response body `{data, message}`; the services return its `data`. */
  datatype Envelope<T> = Envelope(data: Option<T>, message: Option<string>)

  /** A rejected request: the HTTP status when a response arrived, and the
      `message` of the error body when there is one. */
  datatype HttpError = HttpError(status: Option<int>, message: Option<string>)

  /** `error.response?.data?.message || fallback`. */
  function ServerMessage(e: HttpError, fallback: string): (r: string)
    ensures Truthy(e.message) ==> r == e.message.value
    ensures !Truthy(e.message) ==> r == fallback
  {
    OrElse(e.message, fallback)
  }

  /** Edit drafts the list pages seed and send with PUT. */
  datatype UserDraft = UserDraft(fullName: string, email: string, phone: Option<string>, role: Option<string>)

  datatype RestaurantDraft = RestaurantDraft(
    name: string,
    cuisineType: Option<string>,
    contactNumber: Option<string>,
    address: Option<string>,
    openTime: Option<string>,
    closeTime: Option<string>)

  datatype DeliveryDraft = DeliveryDraft(
    userId: Option<int>,
    vehicleNumber: Option<string>,
    operatingArea: Option<string>,
    status: Option<string>,
    earnings: int)

  /** JSON request bodies. */
  datatype Body =
    | NoBody
    | EmptyObject
    | Credentials(email: string, password: string)
    | SignUp(fullName: string, email: string, password: string, phone: string)
    | UserEdit(user: UserDraft)
    | RestaurantEdit(restaurant: RestaurantDraft)
    | DeliveryEdit(delivery: DeliveryDraft)

  datatype Method = GET | POST | PUT | PATCH | DELETE

  /** An outgoing request; `authorization` is the `Authorization` header. */
  datatype Request = Request(verb: Method, url: string, body: Body, authorization: Option<string>)

  /** The header a service attaches for a token: `Bearer <token>` when the
      token is truthy, nothing otherwise. */
  function Bearer(token: Option<string>): (r: Option<string>)
    ensures r.Some? <==> Truthy(token)
    ensures r.Some? ==> r.value == "Bearer " + token.value
  {
    if Truthy(token) then Some("Bearer " + token.value) else None
  }
}
