# Foodgram admin console — a Dafny model

The Foodgram admin console is a React single-page application. Administrators use it to sign in and to manage the
users, restaurants, delivery persons, complaints and reviews of a food-delivery backend. This project models, in
Dafny, the logic that sits between the screens and that backend:

- **Configuration and URLs.** The configured roots, and the URL every service call builds. This covers the
  paging query, the optional filters that are appended only when truthy, and the item paths. It also covers the
  one value that is percent-encoded, which is modelled with a UTF-8 `encodeURIComponent` and a decoder.
- **Authentication and the session.**
  - The stored session record under `adminData` and the token read from it.
  - The shared HTTP client's two interceptors: attach the bearer token, and log out on a 401.
  - The auth context's mount, login and logout.
  - The route guards.
- **Registration.** The sign-up validators and the page's own form validation, and the `fetch`-based
  registration call with its error mapping.
- **The dashboard's aggregation.** Eleven settled calls are folded into the statistics record.
- **The list screens** (users, restaurants, delivery persons, complaints, reviews). Each one has:
  - the list call it issues, and the client-side search over the loaded page;
  - the header counts and the pager;
  - the status badges and the verify, status, edit and delete actions.
- **The in-page screens.** Notifications, settings and profile, the sidebar, and the daily-notes card.

Every operation is a pure function. HTTP outcomes are `Result` values passed in. `localStorage` is a map passed in
and returned. `window.confirm` is a boolean, a toast is part of the returned state, and a navigation is a
`location` field.

Modules follow the source files, and one module models one file:

| module | source file |
|---|---|
| `Config` | `src/services/config.js` |
| `UserService`, `RestaurantService`, `DeliveryPersonService`, `ComplaintService`, `ReviewService` | the services of the same names |
| `AuthService`, `ApiService`, `DashboardService`, `RegistrationService` | the services of the same names |
| `AuthContext` | `src/context/AuthContext.jsx` |
| `AppRoutes` | `src/App.jsx` |
| `Sidebar`, `DailyNotes` | the components of the same names |
| `LoginPage`, `RegistrationPage`, `ProfilePage`, `UsersPage`, `RestaurantsPage`, `DeliveryPersonsPage`, `ComplaintsPage`, `ReviewsPage`, `NotificationsPage`, `SettingsPage` | the pages of the same names |

Shared logic the files repeat is defined once:

- `Common`: options, JavaScript's `trim`, `toLowerCase` and `includes`, decimal rendering, split and join, filter
  and count.
- `Entities`: the backend's records and the request value.
- `Browser`: storage and toasts.
- `Urls`: the query builder and a query parser used to state what a URL carries.
- `UriComponent`: percent-encoding.
- `Validators`: the sign-up regular expressions.
- `ListPages`: the list screens' common machinery — filter arguments, page loading, the pager, underscore labels,
  the badge lookup and confirmed deletes.

## Model

A service's request builder takes the token its `getAuthHeader()` reads as a parameter, and
AuthService.ServiceRequest supplies that token from storage. Each `...Query` lemma row below covers its builder:
the builder has no row of its own, and the lemma states what the request carries.

| member | source | states |
|---|---|---|
| Config.BaseUrl | src/services/config.js:2 | the backend root is the environment's value when that is a non-empty string, otherwise the production URL; never empty |
| Config.Make | src/services/config.js:4-8 | the admin root is the base followed by `/api/admin`, and the restaurant root extends the admin root with `/restaurants` |
| Config.DefaultRoots | src/services/config.js:2-8 | with no environment value, or an empty one, the roots are derived from the production URL |
| Common.OrElse | src/services/authService.js:15 | `x \|\| fallback` on an optional string: the value when truthy (present and non-empty), otherwise the fallback |
| Common.NumOrZero | src/pages/DeliveryPersonsPage.jsx:84 | `x \|\| 0` on an optional number: the value when present, otherwise zero |
| Common.Lower | src/pages/UsersPage.jsx:61 | `toLowerCase` keeps the length and folds each character independently |
| Common.Upper | src/pages/ProfilePage.jsx:94 | `toUpperCase` keeps the length and folds each character independently |
| Common.UpperAppend | src/pages/ProfilePage.jsx:94 | upper-casing distributes over concatenation, so joining then upper-casing equals upper-casing each part |
| Common.CharUnits | src/pages/ProfilePage.jsx:94 | a character is one code unit inside the Basic Multilingual Plane, and otherwise a high surrogate followed by a low surrogate |
| Common.CharUnitsDecode | src/pages/ProfilePage.jsx:94 | a surrogate pair combines back into the character it encodes |
| Common.Utf16 | src/pages/ProfilePage.jsx:94 | a text has between one and two code units per character, exactly one each when no character is astral, and its first code unit is its first character's first code unit |
| Common.Utf16Append | src/pages/ProfilePage.jsx:94 | the code units of a concatenation are those of its halves, one after the other |
| Common.Utf16Bmp | src/pages/ProfilePage.jsx:94 | a text inside the Basic Multilingual Plane has one code unit per character, equal to it |
| Common.UpperCharUnits | src/pages/ProfilePage.jsx:94 | upper-casing a character and encoding it equals encoding it and upper-casing its code units |
| Common.Includes | src/pages/UsersPage.jsx:61-62 | `includes` holds exactly when the term occurs at some position of the text |
| Common.IncludesEmpty | src/pages/UsersPage.jsx:61-62 | every text includes the empty term, so an empty search matches every present field |
| Common.MatchesOptionalEmptyTerm | src/pages/ComplaintsPage.jsx:59-63 | `field?.toLowerCase().includes('')` is true exactly when the field is present |
| Common.TrimStart | src/services/registrationService.js:153 | the result is a suffix of the input, what was removed is all whitespace, and the result does not start with whitespace |
| Common.TrimEnd | src/services/registrationService.js:153 | the result is a prefix of the input, what was removed is all whitespace, and the result does not end with whitespace |
| Common.Trim | src/services/registrationService.js:153-157 | `trim` removes a whitespace prefix and a whitespace suffix and leaves text that neither starts nor ends with whitespace |
| Common.TrimEmptyIffBlank | src/pages/ComplaintsPage.jsx:77 | a text trims to empty exactly when every character is whitespace |
| Common.Dec | src/pages/NotificationsPage.jsx:134 | a number renders as a non-empty run of ASCII digits with no leading zero |
| Common.DecRoundTrip | src/pages/NotificationsPage.jsx:134 | reading the rendered digits back gives the number |
| Common.DecInjective | src/services/userService.js:17 | distinct page numbers render as distinct texts |
| Common.IntStr | src/services/userService.js:37 | an integer id renders as its decimal, with a leading minus for negatives |
| Common.Filter | src/pages/UsersPage.jsx:60-63 | `Array.filter` keeps, in their order, only elements that satisfy the predicate, and every element that does |
| Common.FilterCounts | src/pages/UsersPage.jsx:60-63 | `Array.filter` keeps each qualifying value exactly as often as the list holds it, and no other value |
| Common.Count | src/pages/ComplaintsPage.jsx:144-146 | `filter(...).length` is the number of positions whose element satisfies the predicate, so never more than the length |
| Common.CountMatching | src/pages/ComplaintsPage.jsx:144-146 | the filtered list is exactly as long as the set of qualifying positions |
| Common.FilterAll | src/pages/NotificationsPage.jsx:90-92 | a filter that keeps every element returns the list unchanged |
| Common.FilterNone | src/pages/NotificationsPage.jsx:88 | a filter that keeps no element returns the empty list |
| Common.FilterOne | src/pages/SettingsPage.jsx:139 | a filter that keeps only one position returns exactly that element |
| Common.Split | src/pages/ProfilePage.jsx:94 | `split(sep)` yields at least one part, and no part contains the separator |
| Entities.ServerMessage | src/context/AuthContext.jsx:60 | `error.response?.data?.message \|\| fallback`: the server's message when non-empty, otherwise the fallback |
| Entities.Bearer | src/services/userService.js:9-12 | an Authorization header is sent exactly when the token is truthy, and it is `Bearer ` followed by the token |
| AuthService.AuthHeader | src/services/userService.js:9-12 | `getAuthHeader()` throws exactly when the stored record does not parse; otherwise it is `Bearer ` and the stored token when one is truthy, and nothing else |
| AuthService.ServiceRequest | src/services/userService.js:9-12 | a plain-axios service call rejects with the parse error exactly when the stored record does not parse; otherwise the request is built for the stored truthy token, or for none |
| AuthService.ServiceHeaderFromStore | src/services/restaurantService.js:11-14 | a request built with its token's bearer header goes out with exactly the header `getAuthHeader()` computes from storage |
| AuthService.ServiceRequestOfStoredText | src/services/authService.js:47-56 | an unparsable stored text blocks every service call, and a stored record's token builds the request |
| Browser.Remove | src/services/authService.js:36 | `removeItem` drops the key and keeps every other entry as it was |
| Browser.RemoveIdempotent | src/services/authService.js:36 | removing twice is removing once, and removing an absent key changes nothing |
| Urls.ListUrlParses | src/services/userService.js:17-19 | a list URL reads back as its path, then `page`, then `size`, then exactly the truthy filters in order |
| Urls.QueryUrlParses | src/services/userService.js:17-19 | a path followed by a query of safe pairs reads back as that path and those pairs |
| Urls.PlainUrlParses | src/services/restaurantService.js:35-37 | a URL without a query reads back as the path with no parameters |
| Urls.SingleParamParses | src/services/complaintService.js:80 | a path with one safe parameter reads back as that path and that one pair |
| Urls.ParamValueSplits | src/services/complaintService.js:80 | an unencoded value containing `&` reads back as two parameters, so the value is cut short |
| Urls.UnencodedValueSplits | src/services/userService.js:18-19 | an unencoded filter value containing `&` adds an extra parameter to a list URL |
| Urls.ValueSplitParses | src/services/userService.js:18-19 | a query whose last value was split at `&` reads back as the pairs plus a stray key with an empty value |
| Urls.ItemUrlParses | src/services/userService.js:37 | an item URL `<root>/<resource>/<id>` carries no query |
| Urls.ArgFilter | src/services/reviewService.js:18-19 | a numeric or text argument is appended exactly when it is truthy, rendered as its decimal or its text |
| Urls.ListUrlTwoParses | src/services/userService.js:17-19 | a list URL with two optional filters reads back with just those filters that are truthy |
| Urls.ListUrlOneParses | src/services/complaintService.js:17-18 | a list URL with one optional filter reads back with that filter only when it is truthy |
| UriComponent.Utf8 | src/services/complaintService.js:63 | a character encodes as one to four bytes, and every byte after the first is a continuation byte |
| UriComponent.Escape | src/services/complaintService.js:63 | a byte escapes as `%` followed by two upper-case hex digits |
| UriComponent.EscapeAll | src/services/complaintService.js:63 | escaping a byte sequence puts each byte's escape at its own three-character slot |
| UriComponent.EscapedByte | src/services/complaintService.js:63 | reading an escape yields a byte only where a `%` starts three characters of text |
| UriComponent.EscapeRead | src/services/complaintService.js:63 | reading an escape gives back the byte that was escaped |
| UriComponent.EncodeChar | src/services/complaintService.js:63 | an unreserved character stays as itself, and any other becomes the escapes of its UTF-8 bytes |
| UriComponent.Encode | src/services/complaintService.js:63 | `encodeURIComponent` yields only unreserved characters, `%` and hex digits |
| UriComponent.EncodeIsPlain | src/services/complaintService.js:63 | encoded text contains no `&`, `=`, `?` or `#`, so it cannot break the query |
| UriComponent.DecodeEscapes | src/services/complaintService.js:63 | decoding one character consumes at least one escape and never runs past the text |
| UriComponent.Utf8Decodes | src/services/complaintService.js:63 | the UTF-8 bytes of a character announce their length, fold back to the code point, and are not overlong |
| UriComponent.EscapesDecode | src/services/complaintService.js:63 | the escapes of one character, whatever follows them, decode to that character and consume exactly those escapes |
| UriComponent.DecodeEncode | src/services/complaintService.js:63 | decoding an encoded text gives back the text, for every string |
| Validators.ValidEmail | src/services/registrationService.js:160 | an accepted e-mail contains `@` and no whitespace |
| Validators.DomainMatchesRegex | src/services/registrationService.js:160 | the domain scan accepts exactly a run of non-space, non-`@` text, a dot, and another such run |
| Validators.EmailScanSound | src/services/registrationService.js:160 | every e-mail the scan accepts has the regular expression's shape |
| Validators.EmailScanComplete | src/services/registrationService.js:160 | every text of the regular expression's shape is accepted by the scan |
| Validators.EmailMatchesRegex | src/services/registrationService.js:160-165 | the e-mail check accepts exactly the texts matching `^[^\s@]+@[^\s@]+\.[^\s@]+$` |
| Validators.StrongPassword | src/services/registrationService.js:168-173 | a password passes exactly when it has at least eight UTF-16 code units, no line terminator, and a lower-case letter, an upper-case letter and a digit |
| Validators.AstralPasswordCountsUnits | src/services/registrationService.js:168-173 | a six-character password with three emoji is nine code units long and passes |
| Validators.ValidPhone | src/services/registrationService.js:176-181 | a phone passes exactly when it is ten ASCII digits |
| UserService.Root | src/services/userService.js:6 | the users service's root is the admin root |
| UserService.GetAllUsersQuery | src/services/userService.js:15-19 | the list call is an authorised GET on `/users` with page and size, then `role` and `status` when truthy |
| UserService.UserItemCalls | src/services/userService.js:35-37 | the details, update and delete calls target the same item URL with GET, PUT carrying the draft, and DELETE |
| UserService.GetUsersByRolePath | src/services/userService.js:49-51 | the by-role call puts the role in the path and sends no query |
| UserService.UpdateUserStatusQuery | src/services/userService.js:80-86 | the status change is a PATCH with an empty body and the status as its only parameter |
| RestaurantService.GetAllRestaurantsQuery | src/services/restaurantService.js:17-21 | the list request built for a token is a GET with that token's bearer header on `/restaurants` with page and size, then `verificationStatus` and `cuisineType` when truthy |
| RestaurantService.GetAllRestaurantsCall | src/services/restaurantService.js:17-31 | the list call sends nothing and rejects without a response exactly when the stored record does not parse; otherwise the shared client sends a GET to the resolved list URL with the stored header, the caller sees the answer, and only a 401 logs out |
| RestaurantService.ListCallKeepsServiceUrl | src/services/restaurantService.js:19-25 | with an absolute admin root the client sends exactly the request the service built for the stored token, and a 401 ends the session |
| RestaurantService.PendingRestaurantsHasNoQuery | src/services/restaurantService.js:35-37 | the pending call asks for `/restaurants/pending` with no paging |
| RestaurantService.RestaurantItemCalls | src/services/restaurantService.js:49-51 | the details, update and delete calls share one item URL with their own verbs |
| RestaurantService.RestaurantVerificationQuery | src/services/restaurantService.js:63-66 | verification is a PATCH with an empty body and the status as its only parameter |
| DeliveryPersonService.GetAllDeliveryPersonsQuery | src/services/deliveryPersonService.js:15-19 | the list call is an authorised GET on `/delivery-persons` with page and size, then `verificationStatus` and `operatingArea` when truthy |
| DeliveryPersonService.PendingDeliveryPersonsQuery | src/services/deliveryPersonService.js:33-36 | the pending call is paged: it carries page and size only |
| DeliveryPersonService.DeliveryPersonItemCalls | src/services/deliveryPersonService.js:48-50 | the details, update and delete calls share one item URL with their own verbs |
| DeliveryPersonService.DeliveryPersonVerificationQuery | src/services/deliveryPersonService.js:62-65 | verification is a PATCH with an empty body and the status as its only parameter |
| ComplaintService.Root | src/services/complaintService.js:6 | the complaints root is the base URL followed by `/admin`, which differs from the `/api/admin` admin root |
| ComplaintService.GetAllComplaintsQuery | src/services/complaintService.js:15-18 | the list call is an authorised GET on `/complaints` with page and size, then `status` when truthy |
| ComplaintService.NewComplaintsHasNoQuery | src/services/complaintService.js:32-34 | the new-complaints call has no query |
| ComplaintService.ComplaintItemCalls | src/services/complaintService.js:46-48 | the details and delete calls share one item URL, as GET and DELETE |
| ComplaintService.ComplaintResponseQuery | src/services/complaintService.js:60-63 | a response is a PUT with the encoded text as the only parameter, and the server decodes it to the text typed |
| ComplaintService.ComplaintStatusQuery | src/services/complaintService.js:77-80 | a status change is a PATCH with the status as the only parameter |
| ComplaintService.StatusIsNotEncoded | src/services/complaintService.js:80 | the status is not encoded, so a status containing `&` reaches the server cut short, with a stray parameter |
| ReviewService.Root | src/services/reviewService.js:6 | the reviews root is the complaints root, the base URL followed by `/admin`, which differs from the `/api/admin` admin root |
| ReviewService.GetAllReviewsQuery | src/services/reviewService.js:15-19 | the list call is an authorised GET on `/reviews` with page and size, then `restaurantId` and `deliveryPersonId` when truthy |
| ReviewService.ReviewItemCalls | src/services/reviewService.js:33-35 | the details and delete calls share one item URL, as GET and DELETE |
| ReviewService.TargetCalls | src/services/reviewService.js:47-90 | the per-restaurant and per-delivery-person lists and ratings are query-free paths under their target |
| AuthService.GetCurrentAdmin | src/services/authService.js:47-50 | the stored record is read back as itself; a missing or empty entry reads as no admin; other text fails to parse |
| AuthService.GetAdminToken | src/services/authService.js:53-56 | the token is the stored record's token when non-empty, and the read fails exactly when parsing does |
| AuthService.AuthenticatedWithoutRecord | src/services/authService.js:42-44 | an empty stored entry counts as signed in although no admin record can be read |
| AuthService.LogoutAdmin | src/services/authService.js:35-39 | logout removes only the session entry, leaves the admin signed out, and navigates to `/login` |
| AuthService.LogoutIdempotent | src/services/authService.js:35-39 | logging out twice has the same effect as logging out once |
| AuthService.LoginRequest | src/services/authService.js:6-10 | login POSTs the credentials, without a header of its own, to the admin root's `/auth/login` |
| AuthService.RegisterAdminRequest | src/services/authService.js:21-25 | admin registration POSTs the sign-up data to the admin root's `/auth/register` |
| AuthService.AuthUrlsHaveNoQuery | src/services/authService.js:9 | the login and registration URLs carry no query |
| AuthService.Unwrap | src/services/authService.js:13-16 | the service returns the envelope's `data` on success and rethrows a failure unchanged |
| ApiService.InstanceBase | src/services/apiService.js:7-9 | the shared client is rooted at the admin root |
| ApiService.IsAbsolute | src/services/apiService.js:7-9 | a URL counts as absolute exactly when it opens with `//` or with a letter, further scheme characters, a colon and `//` |
| ApiService.AbsoluteExtends | src/services/apiService.js:7-9 | whatever is appended to an absolute URL, it stays absolute |
| ApiService.AnySchemeIsAbsolute | src/services/apiService.js:7-9 | an upper-case scheme and a scheme with `+` both count as absolute |
| ApiService.ProtocolRelativeIsAbsolute | src/services/apiService.js:7-9 | a URL opening with `//` counts as absolute |
| ApiService.PathsAreRelative | src/services/apiService.js:7-9 | a scheme without `//` and a rooted path do not count as absolute |
| ApiService.TrimTrailingSlashes | src/services/apiService.js:7-9 | the root loses one or two trailing slashes and nothing else |
| ApiService.DropLeadingSlashes | src/services/apiService.js:7-9 | the URL loses all its leading slashes and nothing else |
| ApiService.Resolve | src/services/apiService.js:7-9 | a URL that is absolute, or any URL when the root is empty, is used as given; an empty URL gives the root; any other URL is joined to the root by exactly one slash |
| ApiService.RootedPathResolves | src/services/apiService.js:7-9 | a path opening with a single `/` is appended to a root without a trailing slash |
| ApiService.UnrootedPathResolves | src/services/apiService.js:7-9 | a relative path without a leading slash is joined to the root with one |
| ApiService.TrailingSlashIgnored | src/services/apiService.js:7-9 | a root written with a trailing slash sends every relative URL to the same place as without it |
| ApiService.OnRequest | src/services/apiService.js:12-19 | the request interceptor throws exactly when the stored record does not parse; otherwise it sets `Bearer <token>` exactly when a token is stored and changes nothing else |
| ApiService.RequestCarriesStoredToken | src/services/apiService.js:12-19 | after a login stores a record with a token, every request carries that token |
| ApiService.OnResponse | src/services/apiService.js:26-38 | the response interceptor passes every outcome through, and logs out only on a 401 |
| ApiService.OnlyUnauthorizedLogsOut | src/services/apiService.js:31-35 | the stored session disappears exactly when the response is a 401 |
| ApiService.Call | src/services/apiService.js:12-37 | a call is sent, to the resolved URL with its verb and body, exactly when the stored record parses; the caller sees the answer, and only a 401 answer logs out; an unsent call rejects without a response and keeps the session |
| ApiService.CallCarriesStoredHeader | src/services/apiService.js:12-19 | a request without a header, or with the one `getAuthHeader()` computed, leaves the client with exactly that stored header, and leaves exactly when the record parses |
| ApiService.CorruptRecordBlocksCalls | src/services/authService.js:47-56 | a stored text that does not parse stops every call before it is sent, and the text stays, so the admin still counts as signed in |
| ApiService.AuthCallsThroughClient | src/services/authService.js:6-31 | with an absolute backend root, login and registration POST their bodies to the URLs the service built, and the service resolves with the envelope's data of the server's answer |
| ApiService.RelativeRootRepeats | src/services/authService.js:9-10 | with a relative backend root, the login request goes to the admin root followed by the admin root again |
| DashboardService.Calls | src/services/dashboardService.js:23-35 | the dashboard issues eleven authorised GETs |
| DashboardService.UserCallQuery | src/services/dashboardService.js:24-27 | each user-count call asks for page 0, size 1 and at most one role |
| DashboardService.UserCallsAreRoleCounts | src/services/dashboardService.js:24-27 | the first four calls are the user counts for all users, customers, restaurant owners and delivery persons |
| DashboardService.PendingDeliveryCallQuery | src/services/dashboardService.js:31 | the pending delivery-persons call asks for page 0, size 100 |
| DashboardService.GetValue | src/services/dashboardService.js:38 | a settled outcome yields its value exactly when fulfilled |
| DashboardService.TotalOf | src/services/dashboardService.js:54-72 | a total is non-zero only for a fulfilled page that reports it, and is then that figure |
| DashboardService.LengthOf | src/services/dashboardService.js:61-69 | a pending count is non-zero only for a fulfilled array, and is then its length |
| DashboardService.DashboardStats | src/services/dashboardService.js:52-79 | the order and revenue figures are always zero, and the counts are never negative |
| DashboardService.Fallback | src/services/dashboardService.js:80-99 | the fallback record is zero in every field |
| DashboardService.StatsByField | src/services/dashboardService.js:38-79 | every figure is read from its own call's outcome, or is zero |
| DashboardService.BranchIsolation | src/services/dashboardService.js:38-79 | changing one call's outcome changes only the figures that call feeds |
| DashboardService.AllRejectedIsFallback | src/services/dashboardService.js:38-99 | when every call fails, the figures equal the fallback record |
| DashboardService.NonZeroNeedsFulfilled | src/services/dashboardService.js:38-79 | a non-zero figure implies its call was fulfilled |
| RegistrationService.NameIssue | src/services/registrationService.js:153-157 | a name is required when missing or blank after trimming, too short at one trimmed code unit (one character of the Basic Multilingual Plane), and valid from two code units |
| RegistrationService.AstralNameIsLongEnough | src/services/registrationService.js:153-157 | one character outside the Basic Multilingual Plane is two code units long, so it passes as a name |
| RegistrationService.NameRequiredIffBlank | src/services/registrationService.js:153-154 | the name is reported as required exactly when it is missing or all whitespace |
| RegistrationService.RequiredThen | src/services/registrationService.js:161-181 | a field is required when falsy, malformed when present but invalid, and otherwise fine |
| RegistrationService.EmailIssue | src/services/registrationService.js:160-165 | the e-mail is fine exactly when present and valid, and required exactly when falsy |
| RegistrationService.PasswordIssue | src/services/registrationService.js:168-173 | the password is fine exactly when present and strong, and required exactly when falsy |
| RegistrationService.PhoneIssue | src/services/registrationService.js:176-181 | the phone is fine exactly when present and ten digits, and required exactly when falsy |
| RegistrationService.ValidateRegistrationData | src/services/registrationService.js:149-187 | each field gets its own verdict, and the data is valid exactly when no field has an error |
| RegistrationService.AcceptedIffWellShaped | src/services/registrationService.js:149-187 | sign-up data is accepted exactly when the name trims to two or more UTF-16 code units and the e-mail, password and phone have their shapes |
| RegistrationService.RequiredTakesPrecedence | src/services/registrationService.js:153-181 | a falsy field is always reported as required, never as malformed |
| RegistrationService.RegisterUrl | src/services/registrationService.js:17 | the public sign-up URL is not the admin registration URL |
| RegistrationService.StatusDefault | src/services/registrationService.js:36-50 | every HTTP failure status maps to a non-empty message |
| RegistrationService.Caught | src/services/registrationService.js:57-71 | a thrown error becomes a failure: network errors get the network message, others their own message or the generic one |
| RegistrationService.RegisteredIffOk | src/services/registrationService.js:15-56 | registration succeeds exactly on an OK status with a parsed body, and returns that body's data and message |
| RegistrationService.StatusFailureMessage | src/services/registrationService.js:36-50 | a failure status reports the server's message, or the status's default message |
| RegistrationService.NetworkFailureMessage | src/services/registrationService.js:59-63 | a `TypeError` mentioning `fetch` reports the network message |
| RegistrationPage.ConfirmIssue | src/pages/RegistrationPage.jsx:81-85 | confirmation is required when empty and mismatched when it differs from the password |
| RegistrationPage.PageAgreesWithService | src/pages/RegistrationPage.jsx:56-96 | for the name, e-mail, password and phone inputs, the page's verdict equals the service's verdict |
| RegistrationPage.FormErrors | src/pages/RegistrationPage.jsx:56-96 | an input has an error message exactly when its check finds an issue, and the message is that issue's text for that input |
| RegistrationPage.ValidateForm | src/pages/RegistrationPage.jsx:94-95 | the form is valid exactly when there are no errors |
| RegistrationPage.NoErrorsIffEachInput | src/pages/RegistrationPage.jsx:56-96 | there are no errors exactly when every input has no issue |
| RegistrationPage.ServiceValidIffSharedInputs | src/pages/RegistrationPage.jsx:56-96 | the service accepts the form's data exactly when the four shared inputs have no issue |
| RegistrationPage.FormPassesService | src/pages/RegistrationPage.jsx:56-96 | the page accepts the form exactly when the service accepts its data and the confirmation matches |
| RegistrationPage.HandleChange | src/pages/RegistrationPage.jsx:40-54 | typing sets that input only and clears only that input's error |
| RegistrationPage.HandleChangeIdempotent | src/pages/RegistrationPage.jsx:40-54 | typing the same value twice is typing it once |
| RegistrationPage.HandleSubmit | src/pages/RegistrationPage.jsx:98-128 | submitting shows the form's errors; an invalid form only raises a toast, and a valid one ends not loading |
| RegistrationPage.Settled | src/pages/RegistrationPage.jsx:116-127 | after the call the page leaves loading, goes to `/login` exactly on success, and on failure stays with an error toast |
| RegistrationPage.InvalidFormNeverRegisters | src/pages/RegistrationPage.jsx:101-104 | an invalid form's submission does not depend on the call's outcome |
| RegistrationPage.SubmitOutcome | src/pages/RegistrationPage.jsx:98-128 | a valid form reaches `/login` exactly when registration succeeds; otherwise it shows the service's message |
| AuthContext.Initial | src/context/AuthContext.jsx:19-20 | the context starts with no admin and loading |
| AuthContext.Mount | src/context/AuthContext.jsx:23-36 | on mount, the stored record becomes the admin exactly when it parses and has the admin role; the access-denied toast is raised exactly for a parsed record of another role, which is then removed; no other toast is raised |
| AuthContext.MountDropsOtherRoles | src/context/AuthContext.jsx:29-32 | a stored record of another role is removed, leaves no admin, and raises the access-denied toast |
| AuthContext.ContextImpliesStorage | src/context/AuthContext.jsx:76 | an admin in the context implies a stored session, but an empty stored entry passes the storage check and not the context check |
| AuthContext.Login | src/context/AuthContext.jsx:39-63 | login succeeds exactly for an admin-role record, which is stored and set; a refusal changes nothing |
| AuthContext.LoginRefusalMessages | src/context/AuthContext.jsx:44-62 | another role is refused with the access-denied message, and a failure with the server's message or the default |
| AuthContext.LoginSurvivesReload | src/context/AuthContext.jsx:53-56 | after a successful login a reload restores the same admin and the same token |
| AuthContext.LoginThroughClient | src/context/AuthContext.jsx:39-63 | a login whose stored record does not parse fails with the default message and changes nothing; one answered with 401 is refused with the server's message, drops the session and goes to `/login`; any other answer behaves as the plain login |
| AuthContext.LoginStoresWhatServiceReturns | src/context/AuthContext.jsx:41-56 | an admin answer is stored and set exactly as the service returns it, and the request carried the typed credentials |
| AuthContext.Logout | src/context/AuthContext.jsx:66-69 | logout leaves no admin, no stored session, and the location `/login` |
| AuthContext.LogoutSurvivesReload | src/context/AuthContext.jsx:66-69 | after logout a reload is still signed out and renders its children |
| AuthContext.UseAuth | src/context/AuthContext.jsx:9-15 | the hook fails exactly outside a provider, and otherwise returns the context |
| AppRoutes.Protected | src/App.jsx:10-18 | a protected screen renders exactly when signed in, and otherwise redirects to `/login` |
| AppRoutes.Public | src/App.jsx:21-29 | the public screen renders exactly when signed out, and otherwise redirects to `/dashboard` |
| AppRoutes.Route | src/App.jsx:31-69 | an undeclared path redirects to `/login`, only `/login` renders the login screen, and redirects go only to `/login` or `/dashboard` |
| AppRoutes.Destination | src/App.jsx:31-69 | every path settles on a screen |
| AppRoutes.SignedOutLandsOnLogin | src/App.jsx:31-69 | signed out, every path ends on the login screen |
| AppRoutes.SignedInLandsInside | src/App.jsx:31-69 | signed in, `/restaurants` shows restaurants and every other path ends on the dashboard |
| AppRoutes.RedirectsSettle | src/App.jsx:31-69 | following redirects settles within two steps, on the destination |
| LoginPage.HandleSubmit | src/pages/LoginPage.jsx:17-38 | an unfilled form only raises a toast; a 401 reloads the application blank and signed out on `/login`; otherwise a success welcomes and goes to `/dashboard`, and a refusal shows its message and changes nothing |
| LoginPage.AdminLoginReachesDashboard | src/pages/LoginPage.jsx:32-34 | an admin's login sets the admin and lands on the dashboard screen |
| LoginPage.OtherRoleStaysOut | src/pages/LoginPage.jsx:35-37 | another role's login changes nothing, shows access denied, and the dashboard still routes to login |
| LoginPage.RejectedPasswordReloadsPage | src/pages/LoginPage.jsx:28 | a password the server rejects with 401 clears the typed inputs and ends on the login screen |
| LoginPage.OtherFailureKeepsPage | src/pages/LoginPage.jsx:35-37 | any other failure keeps the typed inputs and the session and shows the server's message or the default |
| ProfilePage.Initial | src/pages/ProfilePage.jsx:28-42 | the page starts not editing, with the dialog closed, empty password fields and the sample admin's name |
| ProfilePage.Heads | src/pages/ProfilePage.jsx:94 | each non-empty word contributes the first code unit of its first character, and there is at most one code unit per word |
| ProfilePage.WordStarts | src/pages/ProfilePage.jsx:94 | the word starts of a text are never longer than the text |
| ProfilePage.HeadsOfSplit | src/pages/ProfilePage.jsx:94 | the heads of the space-split words are the first code units of the characters that follow a space or begin the text |
| ProfilePage.InitialsAreWordStarts | src/pages/ProfilePage.jsx:94 | the avatar shows the upper-cased first code units of the name's word starts |
| ProfilePage.BmpInitials | src/pages/ProfilePage.jsx:94 | for a name inside the Basic Multilingual Plane the avatar is exactly the upper-cased word starts as text |
| ProfilePage.AstralInitialIsHalf | src/pages/ProfilePage.jsx:94 | a name opening with a character outside the Basic Multilingual Plane shows only its lone high surrogate |
| ProfilePage.SingleWordInitial | src/pages/ProfilePage.jsx:94 | a one-word name shows the first code unit of its first letter, upper-cased |
| ProfilePage.TwoWordInitials | src/pages/ProfilePage.jsx:94 | a two-word name shows the first code units of both first letters, upper-cased |
| ProfilePage.ToggleEditing | src/pages/ProfilePage.jsx:117 | the edit button flips edit mode and nothing else |
| ProfilePage.EditProfile | src/pages/ProfilePage.jsx:144-192 | in edit mode the typed value becomes that field's value; outside it nothing changes; every other field, and the read-only fields, never change |
| ProfilePage.SaveProfile | src/pages/ProfilePage.jsx:44-47 | saving only leaves edit mode and raises the success toast; the profile is kept as typed |
| ProfilePage.EditSessionKeepsTypedValue | src/pages/ProfilePage.jsx:44-47 | entering edit mode, typing and saving keeps the typed value and every other field, leaves edit mode and announces success |
| ProfilePage.CancelKeepsTypedValue | src/pages/ProfilePage.jsx:114-120 | cancelling edit mode keeps what was typed, exactly as saving would |
| ProfilePage.PasswordCheck | src/pages/ProfilePage.jsx:49-65 | the dialog reports a missing field first, then a mismatch, then a new password under eight code units, and passes everything else |
| ProfilePage.AstralPasswordIsLongEnough | src/pages/ProfilePage.jsx:58 | four emoji are eight code units, so they pass the length check |
| ProfilePage.ChangePassword | src/pages/ProfilePage.jsx:49-65 | a failed check only raises its toast; a passed one clears the fields and closes the dialog |
| ProfilePage.DialogLaxerThanSignUp | src/pages/ProfilePage.jsx:59-62 | every sign-up-strength password passes the dialog, but a weak eight-character one passes too |
| ProfilePage.ChangeTwice | src/pages/ProfilePage.jsx:50-53 | after a successful change the fields are empty, so changing again reports missing fields |
| Sidebar.InitialCounts | src/components/Sidebar.jsx:22-26 | the badge counts start at zero |
| Sidebar.BadgeUrls | src/components/Sidebar.jsx:35-37 | with the configured roots, each badge call goes to the admin root followed by its `/admin/...` path |
| Sidebar.BadgeUrlIsNotServiceUrl | src/components/Sidebar.jsx:35 | the pending-restaurants badge URL differs from the restaurants service's pending URL |
| Sidebar.FetchBadgeCounts | src/components/Sidebar.jsx:32-48 | the three counts are replaced together when every call delivers a list, and otherwise are all kept |
| Sidebar.FetchIsAllOrNothing | src/components/Sidebar.jsx:34-47 | the counts are either all new or all old, and any failed call keeps the old ones |
| Sidebar.FetchThroughClient | src/components/Sidebar.jsx:32-48 | through the shared client, an unreadable stored record sends nothing and keeps the counts; otherwise the three GETs go to the badge URLs with the stored header, the counts follow the answers, and a 401 on any of them logs out |
| Sidebar.UnauthorizedBadgeEndsSession | src/components/Sidebar.jsx:34-37 | a 401 on any one badge call removes the session, goes to `/login`, and keeps the counts |
| Sidebar.BadgeFetchKeepsSession | src/components/Sidebar.jsx:34-47 | without a 401 the session and location stay, and the counts change only when all three calls deliver |
| Sidebar.MenuItems | src/components/Sidebar.jsx:52-82 | the menu has nine entries |
| Sidebar.MenuBadges | src/components/Sidebar.jsx:52-82 | each entry's badge is its path's count, and a badge shows exactly when that count is positive |
| Sidebar.NoBadgeInitially | src/components/Sidebar.jsx:22-26 | before the counts arrive no badge is shown |
| Sidebar.AvatarLetter | src/components/Sidebar.jsx:99 | the avatar is one code unit: the first one of the name's first character, or `A` without a name |
| Sidebar.DisplayName | src/components/Sidebar.jsx:102 | the shown name is the admin's name when non-empty, and `Admin` otherwise |
| Sidebar.AvatarMatchesName | src/components/Sidebar.jsx:99-102 | the avatar is the first code unit of the shown name |
| Sidebar.AvatarOfAstralName | src/components/Sidebar.jsx:99 | a name opening with a character outside the Basic Multilingual Plane shows a lone high surrogate |
| ListPages.FilterArg | src/pages/UsersPage.jsx:46-47 | a select sends no filter exactly for `all`, and otherwise sends its value |
| ListPages.FilterArgTruthy | src/pages/UsersPage.jsx:46-49 | a filter reaches the URL exactly when the select is neither `all` nor empty |
| ListPages.Load | src/pages/UsersPage.jsx:49-51 | a delivered page replaces the rows and the page count, with defaults for missing parts; a failed load keeps both |
| ListPages.LoadSettles | src/pages/UsersPage.jsx:49-51 | loading the same outcome twice is loading it once, and a delivered page does not depend on the previous state |
| ListPages.FilterTwice | src/pages/ReviewsPage.jsx:53-63 | filtering by one predicate then another equals filtering once by their conjunction |
| ListPages.FilterSame | src/pages/NotificationsPage.jsx:90-95 | filters with pointwise-equal predicates give equal lists |
| ListPages.CountUnion | src/pages/ComplaintsPage.jsx:144-146 | the counts of two disjoint predicates add up to the count of their union |
| ListPages.CountAll | src/pages/ReviewsPage.jsx:117-123 | a predicate every row satisfies counts the whole list |
| ListPages.CountMisses | src/pages/ComplaintsPage.jsx:143-146 | a row failing a predicate makes its count smaller than the list |
| ListPages.CountPointwise | src/pages/NotificationsPage.jsx:88 | a pointwise weaker predicate on an equally long list counts no more, and strictly fewer where it misses |
| ListPages.PageButtons | src/pages/UsersPage.jsx:363-389 | the pager shows one button per page, numbered from zero, only when there is more than one page |
| ListPages.Click | src/pages/UsersPage.jsx:363-389 | Previous steps back unless on the first page, Next steps forward unless on the last, and a number jumps to that page |
| ListPages.ClicksStayInRange | src/pages/UsersPage.jsx:363-389 | from a page in range every click stays in range |
| ListPages.StrandedPage | src/pages/UsersPage.jsx:389 | past the last page, Next stays enabled and moves further away |
| ListPages.SpacedLabel | src/pages/UsersPage.jsx:298 | `value?.replace('_', ' ')` is present exactly when the value is |
| ListPages.SpacedLabelFirstOnly | src/pages/UsersPage.jsx:298 | only the first underscore becomes a space, and a value without one is unchanged |
| ListPages.Lookup | src/pages/UsersPage.jsx:117-124 | a badge lookup finds a listed key's colour, and finds nothing only for unlisted keys |
| ListPages.LookupListed | src/pages/UsersPage.jsx:117-124 | with distinct keys, every listed key finds its own colour |
| ListPages.BadgeClass | src/pages/UsersPage.jsx:117-134 | a badge is one of the table's colours or `secondary` |
| ListPages.BadgeClassByKey | src/pages/UsersPage.jsx:124 | a status matching a key in any letter case gets that key's colour |
| ListPages.BadgeClassUnlisted | src/pages/UsersPage.jsx:124 | a missing or unlisted status gets `secondary` |
| ListPages.BadgeIgnoresCase | src/pages/UsersPage.jsx:124 | statuses that differ only in letter case get the same badge |
| ListPages.ConfirmedRequests | src/pages/UsersPage.jsx:106-115 | a delete is sent exactly when confirmed, and nothing otherwise |
| UsersPage.ListCallQuery | src/pages/UsersPage.jsx:43-51 | the list call asks for the current page, size 20, and each of role and status only when it is neither `all` nor empty |
| UsersPage.Search | src/pages/UsersPage.jsx:60-63 | keeps, in order, exactly the users whose name or e-mail contains the term, ignoring case, each as often as the list holds it |
| UsersPage.EmptySearchKeepsAll | src/pages/UsersPage.jsx:60-63 | an empty search keeps every user |
| UsersPage.StatusAction | src/pages/UsersPage.jsx:323-339 | the row offers Suspend exactly for an active user, and Activate otherwise |
| UsersPage.StatusActionToggles | src/pages/UsersPage.jsx:323-339 | the offered status always differs from the current one, and two clicks between active and suspended come back |
| UsersPage.StatusChangeQuery | src/pages/UsersPage.jsx:96-104 | the status action is a PATCH whose only parameter is the offered status |
| UsersPage.UntouchedEditResends | src/pages/UsersPage.jsx:75-94 | saving an untouched edit PUTs the user's own name, e-mail, phone and role to the user's URL |
| UsersPage.DeleteCalls | src/pages/UsersPage.jsx:106-115 | a confirmed delete sends one DELETE for the user, and a declined one sends nothing |
| UsersPage.CountsPartition | src/pages/UsersPage.jsx:231-264 | the active count never exceeds the total; the owner and delivery-person cards never add up to more than the total, and reach it exactly when every user has one of those roles |
| UsersPage.CountsAreCaseSensitive | src/pages/UsersPage.jsx:117-125 | a role written `Restaurant_Owner` gets the owners' badge colour but is not counted on the owners' card (line 253) |
| UsersPage.RoleBadgeColours | src/pages/UsersPage.jsx:117-125 | customers are primary, restaurant owners success, delivery persons info, admins danger, and any other role secondary |
| UsersPage.StatusBadgeColours | src/pages/UsersPage.jsx:127-134 | active is success, suspended danger, and inactive or anything else secondary |
| RestaurantsPage.ListCallQuery | src/pages/RestaurantsPage.jsx:44-52 | the list call asks for the current page, size 10, and each of verification status and cuisine only when set |
| RestaurantsPage.ListCallThroughClient | src/pages/RestaurantsPage.jsx:44-52 | through the shared client with an absolute admin root, the page's list request for the stored token is sent exactly when the stored record parses |
| RestaurantsPage.HeaderTotalCountsMatches | src/pages/RestaurantsPage.jsx:222 | the header total counts exactly the positions holding a restaurant the search keeps, never exceeds the page, and equals it for an empty search |
| RestaurantsPage.Search | src/pages/RestaurantsPage.jsx:61-64 | keeps, in order, exactly the restaurants whose name or cuisine contains the term, ignoring case, each as often as the list holds it |
| RestaurantsPage.EmptySearchKeepsAll | src/pages/RestaurantsPage.jsx:61-64 | an empty search keeps every restaurant |
| RestaurantsPage.Cuisines | src/pages/RestaurantsPage.jsx:67 | the cuisine list holds exactly the loaded restaurants' non-empty cuisines |
| RestaurantsPage.Dedup | src/pages/RestaurantsPage.jsx:67 | deduplication keeps first occurrences in order, without repeats and without the values already seen |
| RestaurantsPage.UniqueCuisines | src/pages/RestaurantsPage.jsx:67 | the cuisine options are distinct, in first-seen order, and are exactly the loaded non-empty cuisines |
| RestaurantsPage.DedupDistinct | src/pages/RestaurantsPage.jsx:67 | deduplicating a list that is already distinct returns it unchanged |
| RestaurantsPage.UniqueCuisinesSettle | src/pages/RestaurantsPage.jsx:67 | deduplicating the cuisine options again changes nothing |
| RestaurantsPage.VerifyActions | src/pages/RestaurantsPage.jsx:265-282 | approve and reject are offered exactly for a pending restaurant |
| RestaurantsPage.VerifyRequest | src/pages/RestaurantsPage.jsx:102-110 | an approve or reject is a PATCH whose only parameter is the chosen status, and is sent only for a pending restaurant |
| RestaurantsPage.UntouchedEditResends | src/pages/RestaurantsPage.jsx:79-100 | saving an untouched edit PUTs the restaurant's own fields to its URL |
| RestaurantsPage.DeleteCalls | src/pages/RestaurantsPage.jsx:112-121 | a confirmed delete sends one DELETE for the restaurant, and a declined one sends nothing |
| RestaurantsPage.StatusBadgeColours | src/pages/RestaurantsPage.jsx:123-130 | pending is warning, verified success, rejected danger, and anything else secondary |
| DeliveryPersonsPage.ListCallQuery | src/pages/DeliveryPersonsPage.jsx:46-52 | the list call asks for the current page, size 20, the status only when set, and never an area |
| DeliveryPersonsPage.Search | src/pages/DeliveryPersonsPage.jsx:62-66 | keeps, in order, exactly the rows whose name, e-mail or operating area contains the term, each as often as the list holds it |
| DeliveryPersonsPage.EmptySearchNeedsAField | src/pages/DeliveryPersonsPage.jsx:62-66 | an empty search keeps exactly the rows with a name, an e-mail or an operating area |
| DeliveryPersonsPage.EmptySearchKeepsNamed | src/pages/DeliveryPersonsPage.jsx:62-66 | when every row has a name, an empty search keeps them all |
| DeliveryPersonsPage.CountsPartition | src/pages/DeliveryPersonsPage.jsx:145-146 | the verified and pending counts never exceed the rows, and reach them when every row is one or the other |
| DeliveryPersonsPage.VerifyActions | src/pages/DeliveryPersonsPage.jsx:297-314 | approve and reject are offered exactly for a row whose nested status is pending |
| DeliveryPersonsPage.VerifyRequest | src/pages/DeliveryPersonsPage.jsx:100-108 | an approve or reject is a PATCH whose only parameter is the chosen status |
| DeliveryPersonsPage.UntouchedEditResends | src/pages/DeliveryPersonsPage.jsx:78-98 | saving an untouched edit PUTs the nested details, with earnings defaulting to 0 |
| DeliveryPersonsPage.DeleteCalls | src/pages/DeliveryPersonsPage.jsx:110-119 | a confirmed delete sends one DELETE for the row, and a declined one sends nothing |
| DeliveryPersonsPage.StatusBadgeColours | src/pages/DeliveryPersonsPage.jsx:121-128 | pending is warning, verified success, rejected danger, and anything else secondary |
| ComplaintsPage.ListCallQuery | src/pages/ComplaintsPage.jsx:44-48 | the list call asks for the current page, size 20, and a status only when set |
| ComplaintsPage.Search | src/pages/ComplaintsPage.jsx:59-63 | keeps, in order, exactly the complaints whose name, e-mail or message contains the term, each as often as the list holds it |
| ComplaintsPage.EmptySearchNeedsAField | src/pages/ComplaintsPage.jsx:59-63 | an empty search keeps exactly the complaints with a name, an e-mail or a message |
| ComplaintsPage.CountsPartition | src/pages/ComplaintsPage.jsx:143-146 | the three status counts never exceed the total, and reach it exactly when no complaint has another status |
| ComplaintsPage.View | src/pages/ComplaintsPage.jsx:65-74 | viewing opens the fetched complaint with its previous response as the draft; a failed fetch changes nothing |
| ComplaintsPage.ViewReseeds | src/pages/ComplaintsPage.jsx:65-74 | the dialog's contents after a view do not depend on the draft that was there before |
| ComplaintsPage.SendCalls | src/pages/ComplaintsPage.jsx:76-86 | sending issues at most one request, the untrimmed draft for the selected complaint |
| ComplaintsPage.SendGuard | src/pages/ComplaintsPage.jsx:76-77 | a response is sent exactly when a complaint is selected and the draft is not blank, which is also when the button is enabled |
| ComplaintsPage.ClosedNotCheckedOnSend | src/pages/ComplaintsPage.jsx:76-77 | for a closed complaint the controls are hidden, but the handler would still send a non-blank draft |
| ComplaintsPage.SentResponseDecodes | src/pages/ComplaintsPage.jsx:76-79 | the server decodes the sent parameter back to the draft exactly |
| ComplaintsPage.Settle | src/pages/ComplaintsPage.jsx:79-95 | success closes the dialog and reloads, and failure changes nothing |
| ComplaintsPage.StatusChangeQuery | src/pages/ComplaintsPage.jsx:87-95 | each status offered in the dialog is sent as the only parameter of a PATCH |
| ComplaintsPage.DeleteCalls | src/pages/ComplaintsPage.jsx:97-106 | a confirmed delete sends one DELETE for the complaint, and a declined one sends nothing |
| ComplaintsPage.StatusBadgeColours | src/pages/ComplaintsPage.jsx:108-116 | new is primary, in progress warning, resolved success, and closed or anything else secondary |
| ComplaintsPage.InProgressLabel | src/pages/ComplaintsPage.jsx:299 | the status `in_progress` is shown as `in progress` |
| ReviewsPage.TypeArg | src/pages/ReviewsPage.jsx:41 | the type select sends nothing exactly for `all`, and otherwise its value |
| ReviewsPage.ListCallQuery | src/pages/ReviewsPage.jsx:38-42 | the list call asks for the current page and size 20, and sends a chosen type as `restaurantId` |
| ReviewsPage.Visible | src/pages/ReviewsPage.jsx:53-63 | keeps, in order, exactly the reviews that match both the search and the star filter, each as often as the list holds it |
| ReviewsPage.VisibleIsTwoFilters | src/pages/ReviewsPage.jsx:53-63 | the single pass equals applying the two filters one after the other, in either order |
| ReviewsPage.EmptySearchNeedsAField | src/pages/ReviewsPage.jsx:54-58 | with an empty search and all ratings, a review shows exactly when it has one of the four searched fields |
| ReviewsPage.StarRow | src/pages/ReviewsPage.jsx:86-101 | the star row always has five stars |
| ReviewsPage.StarRowShowsRating | src/pages/ReviewsPage.jsx:89-95 | the filled stars come first, and there are as many as the rating clamped to 0..5 |
| ReviewsPage.SentimentOf | src/pages/ReviewsPage.jsx:423-437 | the sentiment is positive exactly from 4, neutral exactly at 3, and negative exactly at 2 or below |
| ReviewsPage.SentimentsSplitPage | src/pages/ReviewsPage.jsx:117-123 | the positive count is the number of positive dialogs, and the three sentiments together cover every loaded review |
| ReviewsPage.View | src/pages/ReviewsPage.jsx:65-73 | viewing opens the fetched review, and a failed fetch changes nothing |
| ReviewsPage.DeleteCalls | src/pages/ReviewsPage.jsx:75-84 | a confirmed delete sends one DELETE for the review, and a declined one sends nothing |
| ReviewsPage.DialogDelete | src/pages/ReviewsPage.jsx:451-454 | the dialog's delete sends the confirmed delete and closes the dialog either way |
| NotificationsPage.Shown | src/pages/NotificationsPage.jsx:90-95 | keeps, in order, exactly the notifications the filter admits: all, the unread ones, or those of one type, each as often as the list holds it |
| NotificationsPage.CardsMatchFilters | src/pages/NotificationsPage.jsx:160-209 | each stat card's figure equals the length of the list its filter shows |
| NotificationsPage.Subtitle | src/pages/NotificationsPage.jsx:133-136 | with nothing unread the subtitle says all is caught up |
| NotificationsPage.SubtitleCountsUnread | src/pages/NotificationsPage.jsx:133-136 | with unread items the subtitle carries digits that read back as the count, and a plural ending exactly above one |
| NotificationsPage.EmptyMessage | src/pages/NotificationsPage.jsx:313-315 | the empty list under `all` says the admin is caught up |
| NotificationsPage.EmptyMessageFirstUnderscore | src/pages/NotificationsPage.jsx:315 | the empty message spaces only the first underscore of the filter value |
| NotificationsPage.MarkAsRead | src/pages/NotificationsPage.jsx:96-102 | marking as read sets the flag on exactly the notifications with that id and changes nothing else |
| NotificationsPage.MarkAsReadSettles | src/pages/NotificationsPage.jsx:96-102 | marking twice is marking once, and marking a read or absent id changes nothing |
| NotificationsPage.MarkAsReadLowersUnread | src/pages/NotificationsPage.jsx:88-102 | marking never raises the unread count, and lowers it when the id was unread |
| NotificationsPage.MarkAllAsRead | src/pages/NotificationsPage.jsx:103-107 | marking all sets every flag and changes nothing else |
| NotificationsPage.MarkAllClearsUnread | src/pages/NotificationsPage.jsx:103-107 | after marking all, nothing is unread, the button is hidden, and marking again changes nothing |
| NotificationsPage.Delete | src/pages/NotificationsPage.jsx:108-112 | keeps, in order, exactly the notifications with another id, each as often as the list holds it |
| NotificationsPage.DeleteSettles | src/pages/NotificationsPage.jsx:108-112 | deleting an absent id changes nothing, so deleting twice is deleting once |
| NotificationsPage.ClearAll | src/pages/NotificationsPage.jsx:113-119 | a confirmed clear empties the list, and a declined one keeps it |
| NotificationsPage.HandleMarkAsRead | src/pages/NotificationsPage.jsx:96-101 | the list is marked for the id, the filter stays, and the toast is "Marked as read" |
| NotificationsPage.HandleMarkAllAsRead | src/pages/NotificationsPage.jsx:103-106 | every notification is marked, the filter stays, and the toast is "All notifications marked as read" |
| NotificationsPage.HandleDelete | src/pages/NotificationsPage.jsx:108-111 | the id's notifications are removed, the filter stays, and the toast is "Notification deleted" |
| NotificationsPage.HandleClearAll | src/pages/NotificationsPage.jsx:113-118 | a confirmed clear empties the list and raises "All notifications cleared"; a declined one changes nothing, the toast included |
| NotificationsPage.MarkAllThenOne | src/pages/NotificationsPage.jsx:96-106 | after marking all, the unread filter shows nothing, and marking one more changes only the toast |
| NotificationsPage.DeletedIsNeverShown | src/pages/NotificationsPage.jsx:90-111 | after a delete, no filter shows a notification with the deleted id |
| SettingsPage.DefaultsCoverEveryKey | src/pages/SettingsPage.jsx:23-53 | the initial settings give every key a value |
| SettingsPage.Change | src/pages/SettingsPage.jsx:57-59 | a change sets that key and keeps every other key as it was |
| SettingsPage.ChangeToSameValue | src/pages/SettingsPage.jsx:57-59 | changing a key to its current value changes nothing |
| SettingsPage.LastChangeWins | src/pages/SettingsPage.jsx:57-59 | of two changes to one key, the last wins |
| SettingsPage.ChangesCommute | src/pages/SettingsPage.jsx:57-59 | changes to different keys commute |
| SettingsPage.Initial | src/pages/SettingsPage.jsx:55 | the page opens on the general tab with no toast |
| SettingsPage.Save | src/pages/SettingsPage.jsx:61-63 | saving raises the success toast and stores nothing |
| SettingsPage.Reset | src/pages/SettingsPage.jsx:65-69 | a confirmed reset only raises its toast, and a declined one changes nothing |
| SettingsPage.ResetKeepsEdits | src/pages/SettingsPage.jsx:65-69 | after an edit, a confirmed reset still leaves the settings different from the defaults |
| SettingsPage.Sections | src/pages/SettingsPage.jsx:139-443 | every section rendered is the active tab's |
| SettingsPage.OneSectionShown | src/pages/SettingsPage.jsx:139-443 | exactly one section is rendered, the active tab's |
| SettingsPage.SelectTab | src/pages/SettingsPage.jsx:99-127 | choosing a tab makes it active and keeps the settings |
| SettingsPage.ControlChange | src/pages/SettingsPage.jsx:486 | the backup-frequency select changes nothing while automatic backup is off |
| SettingsPage.BackupFrequencyFollowsAutoBackup | src/pages/SettingsPage.jsx:486 | with backup off the frequency cannot change, and with backup on it takes the chosen value |
| DailyNotes.StoredText | src/components/DailyNotes.jsx:12-13 | reading a key gives its text exactly when a text is stored under it |
| DailyNotes.Mount | src/components/DailyNotes.jsx:11-18 | non-empty stored notes are shown with their stored time, and otherwise the card is blank |
| DailyNotes.Edit | src/components/DailyNotes.jsx:58 | the edit button enters edit mode and keeps the text and time |
| DailyNotes.Type | src/components/DailyNotes.jsx:79 | typing changes the text only in edit mode |
| DailyNotes.Cancel | src/components/DailyNotes.jsx:58 | cancel leaves edit mode and keeps the text on screen |
| DailyNotes.Save | src/components/DailyNotes.jsx:20-31 | saving writes the text and the time, touches no other key, and leaves edit mode showing the time |
| DailyNotes.Clear | src/components/DailyNotes.jsx:33-40 | a confirmed clear empties the card and removes both keys only, and a declined one changes nothing |
| DailyNotes.SaveSurvivesReload | src/components/DailyNotes.jsx:11-31 | saved non-empty notes come back after a reload with their time, and saved empty notes come back blank |
| DailyNotes.ClearSurvivesReload | src/components/DailyNotes.jsx:11-40 | after a confirmed clear a reload shows a blank card |
| DailyNotes.CancelKeepsTypedText | src/components/DailyNotes.jsx:58 | edit, type, cancel leaves the typed text on screen |
| DailyNotes.NotesLeaveSessionAlone | src/components/DailyNotes.jsx:20-40 | saving or clearing notes never changes the signed-in admin |

## Left out

- **Registration's side calls.**
  - `registerUserPublic` and `checkEmailExists` in `src/services/registrationService.js` are not modelled. They are
    further `fetch` wrappers of the same shape as `registerUser`.
  - The registration page's `catch` (`src/pages/RegistrationPage.jsx:122-124`) is not modelled. It cannot be
    reached, because `registerUser` returns a failure value rather than throwing.
- **JSON.** Storage keeps an admin record as a structured value that stands for `JSON.stringify(record)`. The JSON
  codec itself is not modelled. Any other stored text counts as unparsable, except the empty string, which reads
  as absent.
- **Rendering and effects.**
  - Rendering, icons, colours, toasts' timing and the `loading` spinners are not modelled. A toast is modelled only
    as the last message raised.
  - The toasts raised inside services, such as registerAdmin's success toast, are not modelled. Those services are
    modelled by the request they send and the value they return.
- AuthContext.Login: the access-denied toast that `login` raises for another role (`src/context/AuthContext.jsx:45`)
  is not kept in the context. The login page raises the same message right after, and that is the toast
  LoginPage.HandleSubmit models.
- DashboardService.Calls: the eleven requests are modelled as built for one token. Each is sent as
  AuthService.ServiceRequest describes, and the restaurant list call as RestaurantService.GetAllRestaurantsCall
  describes. No lemma states this for the eleven together.
- **Floating point.** The reviews page's average rating (`toFixed(1)`) and the delivery-persons page's earnings
  total are not modelled. The earnings default of 0 is kept.
- **Dates and locales.** Date formatting and the locale-formatted timestamp of the notes card are inputs (strings),
  not computed.
- **Case folding and whitespace.** Case folding is ASCII-only. JavaScript's Unicode `toLowerCase` and
  `toUpperCase` for non-ASCII letters are not modelled. Lengths, `n[0]` and `charAt(0)` are modelled on UTF-16
  code units; the search's `includes` is modelled on characters, which agrees with code units for well-formed
  text.
- **The HTTP client's options.** Only `baseURL` is modelled. axios's `allowAbsoluteUrls` is left at its default,
  and headers other than `Authorization` are not modelled. The toast the response interceptor raises on a 401 is
  not modelled.
- **Routing.**
  - React Router's matching details are not modelled: case-insensitivity, trailing slashes and nested routes.
    Routes match exactly.
  - AppRoutes.Land follows redirects with a fuel bound. Running out of fuel yields no screen, and RedirectsSettle
    shows that two steps always suffice.
- **Sidebar.**
  - A badge response whose `data.data` is not an array is not modelled; such a response makes the fetch fail,
    like an error.
  - Badge lookups by a key such as `constructor`, which JavaScript objects inherit, are not modelled.
- **Reviews filter input.** `parseInt` on the rating select's option values is modelled only for the options the
  select offers ("1" to "5").
- **Settings.** Settings are only held in the page, as in the source. The theme and accent controls' visual effect
  is not modelled.
- **Components and pages outside the core.** `DashboardPage`, `NotFound`, `DashboardLayout` and `StatCard` are not
  part of this model. The dashboard is modelled through `getDashboardStats`.
- **Timing.** Concurrency and ordering between calls that are in flight at the same time are not modelled. Each
  handler is modelled as one step from its inputs to its result.

## Where the behaviour differs from the written description

The model follows the code in each of these cases.

- **Next button.** It is disabled only at `currentPage === totalPages - 1`. A page index at or beyond the page
  count therefore keeps Next enabled (ListPages.StrandedPage).
- **Filter changes.** Changing a filter does not reset the page index.
- **Complaint responses.** `handleSendResponse` does not check for a closed complaint. Only the hidden controls
  prevent responding to one (ComplaintsPage.ClosedNotCheckedOnSend).
- **Status values.** They are not checked against their enumerations. They go into the URL unencoded, so a value
  containing `&` adds a parameter (ComplaintService.StatusIsNotEncoded).
- **Reviews type select.** The chosen type goes to `getAllReviews` as its `restaurantId` argument
  (ReviewsPage.ListCallQuery).
- **Settings reset.** Confirming "reset to default" announces the reset but keeps the edited settings
  (SettingsPage.ResetKeepsEdits).
- **Empty search.** On the delivery-persons, complaints and reviews screens, an empty search still drops rows that
  have none of the searched fields, because of the `?.` chains.
- **Underscores.** Labels made with `replace('_', ' ')` replace only the first underscore.
- **Sidebar badges.** The badge calls go through the shared client, whose root already ends in `/api/admin`, with
  paths that start with `/admin/...`. The pending-restaurants badge therefore asks for a different URL than the
  restaurants service (Sidebar.BadgeUrlIsNotServiceUrl).
- **Complaint and review roots.** The complaint and review services are rooted at the base URL followed by
  `/admin`, not at the `/api/admin` root the other services use (ComplaintService.Root, ReviewService.Root).
- **Public sign-up.** It posts to the base URL's `/api/auth/register`, outside the admin root
  (RegistrationService.RegisterUrl).
- **Routing.** Only `/login`, `/dashboard` and `/restaurants` are routed. Every other path, including those the
  sidebar links to, ends on the login screen when signed out and on the dashboard when signed in.
- **Auth URLs.** `loginAdmin` and `registerAdmin` hand the shared client a URL that already holds the admin root.
  With the production root, which is absolute, the client uses it as given (ApiService.AuthCallsThroughClient).
  With a relative `VITE_API_BASE_URL` the client appends it to its own root, so the root appears twice
  (ApiService.RelativeRootRepeats).
- **Unreadable session record.** A stored text that is not JSON makes the request interceptor throw, so every call
  through the shared client fails without being sent, while `isAuthenticated` still reports a session
  (ApiService.CorruptRecordBlocksCalls).
- **Login rejected with 401.** A wrong password answered with 401 goes through the client's logout, which sends the
  browser to `/login`; the page reloads and the typed inputs are lost (LoginPage.RejectedPasswordReloadsPage).
- **Restaurants list call.** `getAllRestaurants` computes the header itself and then goes through the shared client,
  which attaches the same header again and logs out on a 401. The other restaurant calls use plain axios
  (RestaurantService.GetAllRestaurantsCall). The dashboard's restaurant count and the restaurants page use this
  call, so they also log out on a 401.
