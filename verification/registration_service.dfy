/** The sign-up helpers of src/services/registrationService.js: the
    field-by-field validator and the mapping from the register endpoint's
    answer to a success or failure result. */
module RegistrationService {
  import opened Common
  import opened Entities
  import opened Config
  import opened Urls
  import opened Validators

  /** The fields the validator judges. */
  datatype Field = FullName | Email | Password | Phone

  /** What can be wrong with a field: it is missing, or it has the wrong
      shape. */
  datatype Issue = Required | Malformed

  /** The message shown for each issue. */
  function Message(f: Field, i: Issue): string {
    match (f, i)
    case (FullName, Required) => "Full name is required"
    case (FullName, Malformed) => "Name must be at least 2 characters"
    case (Email, Required) => "Email is required"
    case (Email, Malformed) => "Invalid email format"
    case (Password, Required) => "Password is required"
    case (Password, Malformed) => "Password must be at least 8 characters with uppercase, lowercase, and number"
    case (Phone, Required) => "Phone number is required"
    case (Phone, Malformed) => "Phone number must be exactly 10 digits"
  }

  /** The sign-up fields as the caller passes them; any may be missing. */
  datatype SignUpData = SignUpData(fullName: Option<string>, email: Option<string>, password: Option<string>,
                                   phone: Option<string>)

  /** The `errors` object: at most one issue per field. */
  datatype FieldErrors = FieldErrors(fullName: Option<Issue>, email: Option<Issue>, password: Option<Issue>,
                                     phone: Option<Issue>)

  const NoErrors: FieldErrors := FieldErrors(None, None, None, None)

  datatype Validation = Validation(isValid: bool, errors: FieldErrors)

  /** The full-name rule: required when missing or empty once trimmed, then
      at least two code units once trimmed. */
  function NameIssue(name: Option<string>): (r: Option<Issue>)
    ensures r == Some(Required) <==> name.None? || Trim(name.value) == ""
    ensures r == Some(Malformed) <==> name.Some? && JsLength(Trim(name.value)) == 1
    ensures r.None? <==> name.Some? && JsLength(Trim(name.value)) >= 2
    ensures r == Some(Malformed) ==> |Trim(name.value)| == 1 && !IsAstral(Trim(name.value)[0])
  {
    if !Truthy(name) || Trim(name.value) == "" then Some(Required)
    else if JsLength(Trim(name.value)) < 2 then Some(Malformed)
    else None
  }

  /** A single character outside the Basic Multilingual Plane already has
      length two, so it passes as a name. */
  lemma AstralNameIsLongEnough()
    ensures NameIssue(Some("\U{1D49C}")).None?
  {
    assert Trim("\U{1D49C}") == "\U{1D49C}";
  }

  /** A name is required exactly when it is missing or whitespace only. */
  lemma NameRequiredIffBlank(name: Option<string>)
    ensures NameIssue(name) == Some(Required) <==> name.None? || AllWhitespace(name.value)
  {
    if name.Some? {
      TrimEmptyIffBlank(name.value);
    }
  }

  /** The rule shape every other field follows: required when falsy, then
      the format check. */
  function RequiredThen(v: Option<string>, valid: bool): (r: Option<Issue>)
    ensures r == Some(Required) <==> !Truthy(v)
    ensures r == Some(Malformed) <==> Truthy(v) && !valid
    ensures r.None? <==> Truthy(v) && valid
  {
    if !Truthy(v) then Some(Required) else if !valid then Some(Malformed) else None
  }

  function EmailIssue(email: Option<string>): (r: Option<Issue>)
    ensures r.None? <==> email.Some? && ValidEmail(email.value)
    ensures r == Some(Required) <==> !Truthy(email)
  {
    RequiredThen(email, email.Some? && ValidEmail(email.value))
  }

  function PasswordIssue(password: Option<string>): (r: Option<Issue>)
    ensures r.None? <==> password.Some? && StrongPassword(password.value)
    ensures r == Some(Required) <==> !Truthy(password)
  {
    RequiredThen(password, password.Some? && StrongPassword(password.value))
  }

  function PhoneIssue(phone: Option<string>): (r: Option<Issue>)
    ensures r.None? <==> phone.Some? && ValidPhone(phone.value)
    ensures r == Some(Required) <==> !Truthy(phone)
  {
    RequiredThen(phone, phone.Some? && ValidPhone(phone.value))
  }

  /** `validateRegistrationData(userData)`: each field is judged by its own
      rule alone, and the data is valid exactly when no field has an error. */
  function ValidateRegistrationData(data: SignUpData): (r: Validation)
    ensures r.errors == FieldErrors(NameIssue(data.fullName), EmailIssue(data.email),
                                    PasswordIssue(data.password), PhoneIssue(data.phone))
    ensures r.isValid <==> r.errors == NoErrors
  {
    var errors := FieldErrors(NameIssue(data.fullName), EmailIssue(data.email),
                              PasswordIssue(data.password), PhoneIssue(data.phone));
    Validation(errors == NoErrors, errors)
  }

  /** The data is accepted exactly when every field has the shape its rule
      asks for. */
  lemma AcceptedIffWellShaped(data: SignUpData)
    ensures ValidateRegistrationData(data).isValid <==>
      && data.fullName.Some? && JsLength(Trim(data.fullName.value)) >= 2
      && data.email.Some? && EmailShape(data.email.value)
      && data.password.Some? && PasswordShape(data.password.value)
      && data.phone.Some? && |data.phone.value| == 10
      && (forall k :: 0 <= k < |data.phone.value| ==> IsAsciiDigit(data.phone.value[k]))
  {
    EmailMatchesRegex(data.email.GetOr(""));
  }

  /** "Required" wins over the format message: a missing or empty field
      reports only that it is required, whatever else holds. */
  lemma RequiredTakesPrecedence(data: SignUpData)
    ensures !Truthy(data.fullName) ==> ValidateRegistrationData(data).errors.fullName == Some(Required)
    ensures !Truthy(data.email) ==> ValidateRegistrationData(data).errors.email == Some(Required)
    ensures !Truthy(data.password) ==> ValidateRegistrationData(data).errors.password == Some(Required)
    ensures !Truthy(data.phone) ==> ValidateRegistrationData(data).errors.phone == Some(Required)
  {
  }

  // ---------------------------------------------------------------------------
  // registerUser

  /** `fetch(`${BASE_URL}/api/auth/register`)`: outside the admin root. */
  function RegisterUrl(c: Config): (r: string)
    ensures WellFormed(c) ==> r != c.adminApi + "/auth/register"
  {
    var r := c.baseUrl + "/api/auth/register";
    assert WellFormed(c) ==> (c.adminApi + "/auth/register")[|c.baseUrl| + 6] == 'd' && r[|c.baseUrl| + 6] == 'u';
    r
  }

  /** A thrown error: its `name` and `message`. */
  datatype Thrown = Thrown(name: string, message: string)

  /** The parsed response body `{data, message}`. */
  datatype ResponseBody<T> = ResponseBody(data: Option<T>, message: Option<string>)

  /** What `fetch` and `response.json()` produced: either call may throw. */
  datatype FetchOutcome<T> =
    | FetchThrew(error: Thrown)
    | Responded(status: int, body: Result<ResponseBody<T>, Thrown>)

  /** The value `registerUser` resolves with; it never rejects. */
  datatype RegisterResult<T> = Registered(data: Option<T>, message: string) | NotRegistered(message: string)

  const NetworkError: string := "Network error. Please check your connection and try again."
  const GenericError: string := "An error occurred during registration"
  const Registration403: string := "Access denied. You may not have permission to register."
  const Registration409: string := "Email already exists. Please use a different email."
  const Registration400: string := "Invalid registration data. Please check your inputs."
  const RegisteredMessage: string := "Registration successful"

  /** `response.ok`: a 2xx status. */
  predicate IsOk(status: int) {
    200 <= status < 300
  }

  /** The message a non-ok status fails with when the body carries none. */
  function StatusDefault(status: int): (r: string)
    ensures r != ""
  {
    if status == 403 then Registration403
    else if status == 409 then Registration409
    else if status == 400 then Registration400
    else "Registration failed with status " + IntStr(status)
  }

  /** The `catch` branch: a `TypeError` mentioning `fetch` is a network
      failure; any other error fails with its own message. */
  function Caught<T>(e: Thrown): (r: RegisterResult<T>)
    ensures r.NotRegistered?
    ensures e.name == "TypeError" && Includes(e.message, "fetch") ==> r.message == NetworkError
    ensures !(e.name == "TypeError" && Includes(e.message, "fetch")) ==>
              r.message == (if e.message != "" then e.message else GenericError)
  {
    if e.name == "TypeError" && Includes(e.message, "fetch") then NotRegistered(NetworkError)
    else NotRegistered(if e.message != "" then e.message else GenericError)
  }

  /** `registerUser(userData)` once the request has been answered. */
  function RegisterUser<T>(outcome: FetchOutcome<T>): (r: RegisterResult<T>)
  {
    match outcome
    case FetchThrew(e) => Caught(e)
    case Responded(status, Err(e)) => Caught(e)
    case Responded(status, Ok(body)) =>
      if status == 403 || status == 409 || status == 400 || !IsOk(status) then
        Caught(Thrown("Error", OrElse(body.message, StatusDefault(status))))
      else
        Registered(body.data, OrElse(body.message, RegisteredMessage))
  }

  /** Success exactly when a 2xx response had a readable body; it then
      carries the body's data and message, or the fixed success message. */
  lemma RegisteredIffOk<T>(outcome: FetchOutcome<T>)
    ensures RegisterUser(outcome).Registered? <==> outcome.Responded? && IsOk(outcome.status) && outcome.body.Ok?
    ensures RegisterUser(outcome).Registered? ==>
              RegisterUser(outcome) == Registered(outcome.body.value.data, OrElse(outcome.body.value.message, RegisteredMessage))
  {
  }

  /** A readable non-2xx answer fails with the server's message, or the fixed
      default for 403, 409 and 400, or "Registration failed with status N". */
  lemma StatusFailureMessage<T>(status: int, body: ResponseBody<T>)
    requires !IsOk(status)
    ensures RegisterUser(Responded(status, Ok(body))) == NotRegistered(OrElse(body.message, StatusDefault(status)))
  {
  }

  /** A network failure is reported with the fixed message, never with the
      browser's own text. */
  lemma NetworkFailureMessage<T>(message: string)
    requires Includes(message, "fetch")
    ensures RegisterUser<T>(FetchThrew(Thrown("TypeError", message))) == NotRegistered(NetworkError)
  {
  }
}
