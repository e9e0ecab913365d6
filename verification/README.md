# KEYLOOP gateway: a Dafny model

KEYLOOP is an ASP.NET Core gateway in front of the Keyloop dealer-management
API. Its core consists of the following parts:

- **PartsController.** It searches parts by brand and part code, then
  enriches every part it found with price and availability. It also lists
  brands and forwards parts orders.
- **CustomerController.** It fetches one customer by id.
- **AccessToken.** It reads the OAuth client-credentials settings from
  configuration and exchanges them for a bearer token.
- **PartsOrderRequest.** It is the order body, with its one validation rule:
  the parts list is required and must not be empty.

The model treats each upstream HTTP exchange as a value passed in: a `Reply`
is either a transport fault or a status, a body text and a parsed (or
malformed) JSON body. Each controller action is modelled as a function or
method from its inputs and those replies to the `ActionResult` it returns and
the upstream calls it made.

Upstream addresses are built the way the controllers build them: a reference
string is interpolated and resolved against the configured base URL. The
model follows RFC 3986, using the parser of Appendix B and the resolution of
section 5.2. It proves what each address turns out to be.

Every action first runs `new Uri(baseUrl)`. .NET rejects more base URLs than
RFC 3986 does, for example a URL with no host or a port that is not a
number. So the outcome of that call, a `BaseUri` (the parsed URI or the
exception's message), is an input of each action. `Endpoints.Constructs`
states what is known of the outcome:

- a URI is built only from text with a scheme, and it is that text's
  components;
- the empty text is rejected with "Invalid URI: The URI is empty.";
- text without a scheme that is not a file path is rejected with "Invalid
  URI: The format of the URI could not be determined.";
- an http(s) URL with an empty host is rejected with "Invalid URI: The
  hostname could not be parsed.".

The actions are stated for both outcomes.

The one piece of code that updates state in place is the enrichment loop in
SearchParts. It overwrites `Price` and `Availability` on the `Part` objects
of the deserialized response. In the model, `Part` is a class and the loop is
a method (`Enrichment.EnrichParts`) with loop invariants. That method is
proved against a specification function, `Enrichment.Enrich`, and the
properties of the step are proved as lemmas about `Enrich`.

Behaviour of the code that may surprise a reader:

- Enrichment is not all-or-nothing. Each part that has been looked up keeps
  the price written into it. An error status or a missing net value is only
  logged. A transport fault, or a success status whose body is not valid
  JSON, throws out of the loop. SearchParts then answers 500 "An error
  occurred.", and the parts after the failing one keep their values.
- Configuration values are read with `?? throw`. Only a missing key is
  rejected; an empty value is accepted. An empty base URL makes every action
  fail at `new Uri("")` before anything is sent.
- An empty EnterpriseId is accepted too, and it changes where requests go.
  The customer, search, price-and-availability and brands references then
  start with "//", which makes them network-path references (section 4.2 of
  RFC 3986). The StoreId becomes the host the request is sent to, in place
  of the configured host (`Endpoints.EmptyEnterpriseIdNamesHost`). This
  looks unintended: nothing in the code expects a setting to become a host.
- AccessToken's ArgumentNullException names `httpClientFactory` as the
  parameter, even though the value that is missing is a configuration entry.
- The order reference has no leading "/". It is therefore merged with the
  directory of the base URL. With a non-empty EnterpriseId, the other four
  addresses replace the base path instead.
- PlaceOrder forwards a new request that copies only CustomerId, CompanyId
  and OrderContact. The forwarded body never carries the order lines, so it
  would fail the very rule the incoming request had to pass
  (`Orders.PayloadFailsPartsRule`).
- The body of GetCustomer does not consult the model state; only the
  automatic 400 of [ApiController] guards its [Required] id. Called directly,
  a null id interpolates as the empty string.
- GetProperty returns the last of several members with the same name
  (`Json.LastProperty`).

Modules, one per file:

| module | file |
|---|---|
| `Wrappers` | `wrappers.dfy` |
| `Http` | `http.dfy` |
| `Uris` | `uris.dfy` |
| `Json` | `json.dfy` |
| `Endpoints` | `endpoints.dfy` |
| `Authorization` | `access_token.dfy` |
| `Parts` | `parts.dfy` |
| `Enrichment` | `enrichment.dfy` |
| `Orders` | `orders.dfy` |
| `PartsApi` | `parts_controller.dfy` |
| `CustomerApi` | `customer_controller.dfy` |

## Model

| member | source | states |
|---|---|---|
| Endpoints.ReadGatewaySettings | KEYLOOP/Controllers/PartsController.cs:41-43 | The settings are read exactly when the three keys are present, and their values are copied as they are, empty ones included. A missing key fails with ArgumentNullException("configuration"). CustomerController.cs:38-40 is the same code. |
| Authorization.NewAccessToken | KEYLOOP/Authorization/AccessToken.cs:20-23 | The constructor succeeds exactly when the base URL, client id and client secret keys are present, and copies their values. The token URL is the base URL followed by "/oauth/client_credential/accesstoken". A failure names the httpClientFactory parameter. |
| Authorization.TokenUrlIsAbsolute | KEYLOOP/Authorization/AccessToken.cs:21 | An absolute base URL gives an absolute token URL with the same scheme, so the request does not depend on the client's BaseAddress. |
| Authorization.TokenFormCarriesCredentials | KEYLOOP/Authorization/AccessToken.cs:31-36 | The form has exactly three fields: grant_type=client_credentials and the configured client_id and client_secret. |
| Json.LastProperty | KEYLOOP/Authorization/AccessToken.cs:45 | None exactly when no member has the name. Otherwise the result is the value of a member with that name that no later member shares: the last duplicate wins. |
| Authorization.TokenOf | KEYLOOP/Authorization/AccessToken.cs:45-50 | A token is returned exactly when the document is an object whose "access_token" member is a string, and it is that string. Each failure is tied to its cause: not an object, no such member, or a JSON null. |
| Authorization.GetAccessToken | KEYLOOP/Authorization/AccessToken.cs:26-54 | A request is sent exactly when new Uri accepts the base URL, and it carries the token URL and the credentials form. A rejected base URL fails with its message. A transport fault and a non-success status each fail with their own error. A 2xx reply with a malformed body fails with MalformedJson; a 2xx reply with a document returns exactly what TokenOf makes of it. |
| Authorization.TokenRoundTrip | KEYLOOP/Authorization/AccessToken.cs:38-53 | A 2xx object reply whose last "access_token" member is a given string returns exactly that string. |
| Authorization.RejectedBaseSendsNothing | KEYLOOP/Authorization/AccessToken.cs:29 | A base URL that is empty, has no scheme, or is an http(s) URL without a host sends no request. An empty one fails with "Invalid URI: The URI is empty.". |
| Orders.ValidationErrors | KEYLOOP/Entities/Orders/PartsOrderRequest.cs:14-16 | There are no errors exactly when the parts list is present and non-empty. A null list gives only "Parts list is required."; an empty list gives only "At least one part is required.". |
| Orders.OnlyPartsAreValidated | KEYLOOP/Entities/Orders/PartsOrderRequest.cs:7-16 | Two requests whose parts lists agree on null and on emptiness get the same errors, whatever their other members hold. |
| Orders.OrderPayload | KEYLOOP/Controllers/PartsController.cs:164-169 | The forwarded body keeps the customer, company and contact, and every other member is null. |
| Orders.PayloadFailsPartsRule | KEYLOOP/Controllers/PartsController.cs:164-169 | The forwarded body always fails the parts rule with "Parts list is required.". |
| Parts.Part.constructor | KEYLOOP/Entities/Parts/Part.cs:3-12 | A new part holds exactly the given field values. |
| Parts.Records | KEYLOOP/Entities/Parts/Part.cs:3-12 | The records of a list of parts have the list's length, and the i-th record is the i-th part's current state. |
| Parts.NetValue | KEYLOOP/Controllers/PartsController.cs:215 | `content?.ListPrice?.NetValue` is present exactly when the content, its list price and its net value are all non-null, and then it is that net value. |
| Enrichment.Merge | KEYLOOP/Controllers/PartsController.cs:212-224 | The identity fields are always kept. A priced 2xx reply sets the price to the net value and the availability to the stock, null included. Any other reply leaves the part unchanged. |
| Enrichment.GetPriceAndAvailability | KEYLOOP/Controllers/PartsController.cs:204-230 | The lookup is addressed by the part's id. The call throws exactly when the reply throws. Without a throw the part becomes its merge with the reply; with one it keeps its old state. |
| Enrichment.Enrich | KEYLOOP/Controllers/PartsController.cs:74-81 | The step keeps the number of parts and issues at most one lookup per part. It can only abort after issuing at least one lookup. |
| Enrichment.EnrichIssues | KEYLOOP/Controllers/PartsController.cs:77-80 | The k-th lookup is for the k-th part, and only the last one issued can have thrown. The step aborted exactly when that last lookup threw. Without an abort, every part was looked up. |
| Enrichment.EnrichRecords | KEYLOOP/Controllers/PartsController.cs:77-80 | Each part that was looked up, and whose lookup returned, is merged with its reply. Every other part, including the one whose lookup threw and all parts after it, is left as it was. |
| Enrichment.EnrichParts | KEYLOOP/Controllers/PartsController.cs:74-81 | The in-place loop over the Part objects produces exactly what Enrich specifies: the new parts' records, the lookups issued and whether one threw. |
| Enrichment.EnrichCompletes | KEYLOOP/Controllers/PartsController.cs:77-80 | If every lookup returned and every part holds its merged state, that state is Enrich's result without an abort. |
| Enrichment.EnrichAbortsAt | KEYLOOP/Controllers/PartsController.cs:77-80 | If the lookups so far returned and the next part's lookup throws, Enrich stops there: it aborts with the parts as they are now. |
| Enrichment.EnrichAbortsIffSomeLookupThrows | KEYLOOP/Controllers/PartsController.cs:77-80 | The step aborts exactly when the lookup for some part throws. |
| Enrichment.EnrichFixesRecords | KEYLOOP/Controllers/PartsController.cs:212-229 | When no lookup throws or changes its part, the parts come back unchanged after one lookup each. |
| Enrichment.RejectedLookupsChangeNothing | KEYLOOP/Controllers/PartsController.cs:225-229 | Lookups answered with error statuses leave every part unchanged and do not abort the step. |
| Enrichment.EchoedLookupsChangeNothing | KEYLOOP.Tests/Controllers/PartsControllerTests.cs:65-96 | Lookups that report each part's own price and stock leave the response unchanged, as the search test expects. |
| PartsApi.SearchModelState | KEYLOOP/Controllers/PartsController.cs:53-59 | The state is valid exactly when both [Required] codes are non-null and not blank. Each failing code contributes its message, and these are the only messages. |
| PartsApi.SearchFailure | KEYLOOP/Controllers/PartsController.cs:91-101 | The result carries the upstream's status. A 404 gives NotFound("No parts found."), a 401 gives Unauthorized, and any other status gives that status with "Keyloop API request failed.". |
| PartsApi.SearchParts | KEYLOOP/Controllers/PartsController.cs:53-108 | Every path of the action: validation problem, base URL rejected by new Uri, fault, error status, malformed body, null body, null parts list. A search call is recorded whenever new Uri accepts the base URL (see "## Left out" for the resolving constructor). A parts list is enriched in place exactly as Enrich specifies, with one call per lookup issued. The action answers 500 exactly when that step aborted, and otherwise returns the same response. Without a search, no part changes and no call is made. |
| PartsApi.PassThrough | KEYLOOP/Controllers/PartsController.cs:124-145 | The body is returned exactly when the status is 2xx and the body parses, and it is returned unchanged. An error status is passed through with "Keyloop API request failed: " and the body text. A fault or malformed body gives 500 with "An error occurred: " and the message. |
| PartsApi.PassThroughStatus | KEYLOOP/Controllers/PartsController.cs:124-145 | The status the caller sees is the upstream's for an error status, 200 for a parsed non-null body, 204 for a parsed JSON null (the no-content formatter rewrites a 200 carrying null) and 500 for everything that threw. |
| PartsApi.GetBrands | KEYLOOP/Controllers/PartsController.cs:115-146 | When new Uri accepts the base URL, the model records exactly one call, to the brands address (see "## Left out" for the resolving constructor), and its reply is passed through. Otherwise no call is made, and the answer is 500 "An error occurred: " followed by the exception's message. |
| PartsApi.PlaceOrder | KEYLOOP/Controllers/PartsController.cs:154-197 | An invalid model state gives BadRequest with its errors and no call. A base URL rejected by new Uri gives 500 "An error occurred: " with its message and no call. Otherwise the model posts the projected payload once to the orders address (see "## Left out" for the resolving constructor) and passes the reply through. |
| PartsApi.OrderReachesUpstreamIffItHasLines | KEYLOOP/Controllers/PartsController.cs:156-169 | An order reaches the upstream exactly when it has at least one line. A null list gives 400 "Parts list is required."; an empty list gives 400 "At least one part is required.". The forwarded payload never has a parts list. |
| PartsApi.EmptyBaseUrlAnswers500 | KEYLOOP/Controllers/PartsController.cs:120-144 | An empty base URL makes GetBrands and a valid PlaceOrder answer 500 "An error occurred: Invalid URI: The URI is empty." without sending anything (lines 176 and 195 for PlaceOrder). |
| CustomerApi.CustomerFailure | KEYLOOP/Controllers/CustomerController.cs:79-90 | The result carries the upstream's status. A 404 gives NotFound with no body, a 401 gives Unauthorized, and any other status gives that status with "Keyloop API request failed.". |
| CustomerApi.GetCustomer | KEYLOOP/Controllers/CustomerController.cs:49-102 | Every path of the action: base URL rejected by new Uri (500 "An error occurred."), fault, error status, null body, malformed body, success. In the model, a call to the customer address is made exactly when new Uri accepts the base URL; "## Left out" names the case where the resolving constructor throws first. |
| CustomerApi.GetCustomerOutcomes | KEYLOOP/Controllers/CustomerController.cs:59-101 | The customer is returned, unchanged, exactly when the base URL is accepted and the reply is 2xx with a non-null body. An error status reaches the caller as it is, and every other failure is 500. |
| CustomerApi.RejectedBaseMakesNoCall | KEYLOOP/Controllers/CustomerController.cs:54-100 | A base URL that is empty, has no scheme, or is an http(s) URL without a host makes no call and answers 500 "An error occurred.". |
| Endpoints.CustomerUriShape | KEYLOOP/Controllers/CustomerController.cs:54 | The customer address keeps the base's scheme and authority. Its path is the interpolated reference, which replaces the base path and query. |
| Endpoints.SearchUriShape | KEYLOOP/Controllers/PartsController.cs:64 | The search address has path /{enterprise}/{store}/v1/parts. Its query is brandCode=…&partCode=…, with the codes interpolated unescaped. |
| Endpoints.PriceAvailabilityUriShape | KEYLOOP/Controllers/PartsController.cs:207 | The price-and-availability address has the part's reference as its path, on the base's scheme and authority. |
| Endpoints.BrandsUriShape | KEYLOOP/Controllers/PartsController.cs:120 | The brands address has the brands reference as its path, on the base's scheme and authority. |
| Endpoints.OrdersUriShape | KEYLOOP/Controllers/PartsController.cs:176 | The orders reference is merged with the base URL's directory, so it keeps the base path that the other addresses drop. |
| Endpoints.HostOnlyCustomerUrl | KEYLOOP/Controllers/CustomerController.cs:54 | With a scheme-and-host base URL, the customer address is the base URL followed by the reference. |
| Endpoints.HostOnlySearchUrl | KEYLOOP/Controllers/PartsController.cs:64 | With a scheme-and-host base URL, the search address is the base URL followed by the reference. |
| Endpoints.HostOnlyPriceAvailabilityUrl | KEYLOOP/Controllers/PartsController.cs:207 | With a scheme-and-host base URL, the price-and-availability address is the base URL followed by the reference. |
| Endpoints.HostOnlyBrandsUrl | KEYLOOP/Controllers/PartsController.cs:120 | With a scheme-and-host base URL, the brands address is the base URL followed by the reference. |
| Endpoints.HostOnlyOrdersUrl | KEYLOOP/Controllers/PartsController.cs:176 | With a scheme-and-host base URL, the orders address is the base URL, "/" and the reference. |
| Endpoints.EmptyEnterpriseIdNamesHost | KEYLOOP/Controllers/PartsController.cs:64 | With an empty EnterpriseId, the customer, search, price-and-availability and brands addresses have the StoreId as their host (authority), not the configured one. The same holds at PartsController.cs:120 and 207 and CustomerController.cs:54. |
| Uris.Parse | KEYLOOP/Controllers/PartsController.cs:64 | new Uri(text) splits the text into scheme, authority, path, query and fragment (RFC 3986, Appendix B), and printing the parts gives back the text. |
| Uris.ParseToText | KEYLOOP/Controllers/PartsController.cs:64 | Parsing a printed well-formed URI gives back that URI. |
| Uris.Resolve | KEYLOOP/Controllers/PartsController.cs:64 | new Uri(base, reference) (RFC 3986, section 5.2.2) always has a scheme and keeps the reference's fragment. |
| Uris.RemoveDotsOfDotFree | KEYLOOP/Controllers/PartsController.cs:64 | Removing dot segments (RFC 3986, section 5.2.4) leaves a path without "." or ".." segments unchanged. |
| Uris.AbsoluteSegmentsReference | KEYLOOP/Controllers/PartsController.cs:64 | A reference made of "/" and plain segments, with an optional query, resolves to exactly that path and query on the base's scheme and authority. |
| Uris.NetworkPathReference | KEYLOOP/Controllers/PartsController.cs:64 | A reference that starts with "//" (RFC 3986, section 4.2) takes its authority from the text up to the next "/", "?" or "#", keeping only the base's scheme. |
| Uris.RelativePathReference | KEYLOOP/Controllers/PartsController.cs:176 | A plain relative reference is appended to the base URL's directory (RFC 3986, section 5.2.3). |

Some definitions model source code but have no row, because they carry no
contract of their own. Each is stated by the members named here:

- `Endpoints.CustomerReference`, `SearchReference`, `PriceAvailabilityReference`, `BrandsReference` and `OrdersReference` are the interpolated strings at CustomerController.cs:54 and PartsController.cs:64, 120, 207 and 176. The `*UriShape`, `HostOnly*Url` and `EmptyEnterpriseIdNamesHost` rows state them.
- `Endpoints.Interpolated` is C# interpolation of a nullable string. `Enrichment.GetPriceAndAvailability` and `CustomerApi.GetCustomer` state it.
- `Endpoints.Upstream` (`new Uri(new Uri(base), reference)`) and the five `*Uri` functions are stated by the same shape rows, and `Uris.Resolve` by its partner lemmas.
- `Endpoints.BaseIsAbsolute`, `Endpoints.EmptyHost` and `Endpoints.Constructs` describe the outcome of `new Uri(baseUrl)`. The `RejectedBase*` and `EmptyBaseUrlAnswers500` rows state what follows from them.
- `Enrichment.Throws` and `Enrichment.Priced` say which lookup replies throw (PartsController.cs:210-214) and which write the part (215-218). `Enrichment.Merge`, `GetPriceAndAvailability` and `EnrichAbortsIffSomeLookupThrows` state them.
- `Authorization.TokenForm` and `FormValue` are the dictionary at AccessToken.cs:31-36, stated by `TokenFormCarriesCredentials`.
- `PartsApi.LookupCalls` lists the price-and-availability calls of the enrichment step (PartsController.cs:207-210), one per issued lookup. `PartsApi.SearchParts` and `Enrichment.EnrichIssues` state it.
- `PartsApi.Address` and `CustomerApi.Address` say where a recorded call goes: the search, brands, orders and price-and-availability addresses of PartsController.cs:64, 120, 176 and 207, and the customer address of CustomerController.cs:54. The `*UriShape` and `HostOnly*Url` rows state those addresses.
- `PartsApi.OrderModelState` is the model state the attributes give an order, stated by `OrderReachesUpstreamIffItHasLines`.
- `Http.IsSuccessStatusCode` (200-299), `Http.IsWhiteSpace` and `Http.SatisfiesRequired` are `HttpResponseMessage.IsSuccessStatusCode` and `RequiredAttribute`. `SearchModelState` and every action row state them.
- `Uris.ToText`, `RemoveDots`, `RemoveDotSegments`, `BaseDirectory` and `MergePaths` are RFC 3986 sections 5.3, 5.2.4 and 5.2.3. `Uris.Parse`, `RemoveDotsOfDotFree` and `RelativePathReference` state them.
- `Uris.IsAbsoluteParse` and the small sequence lemmas in `uris.dfy` and `endpoints.dfy` are proof steps.

## Left out

- Transport, `async`, cancellation and logging are left out. A reply is a given value, and log calls have no effect on any result.
- Lookups are modelled as a function of the part id. The model does not capture a server that answers the same id differently on a second request.
- EnrichParts requires that no Part object occurs twice in the parts list, which holds for any list fresh from the deserializer. Aliased parts are not modelled.
- JSON deserialization is a given `Parsed`/`Malformed` body. Case-insensitive property binding, number formats and System.Text.Json's other details are left out.
- .NET's `Uri` class is modelled by RFC 3986 parsing and resolution. Its normalisation is left out: lower-casing the scheme and host, default ports, and percent-encoding of interpolated text.
- The shape lemmas (Endpoints.*UriShape and Endpoints.HostOnly*Url) cover identifiers that are single plain path segments. An id containing "/", "?", "#" or a dot segment is not characterised. They also need a non-empty EnterpriseId; `Endpoints.EmptyEnterpriseIdNamesHost` covers the empty one. `Endpoints.OrdersUriShape` and `Endpoints.HostOnlyOrdersUrl` further need an EnterpriseId without ':'. The orders reference has no leading "/", so a ':' in its first segment would make the reference read as a URI with a scheme.
- The form URL-encoding of the token request body is left out; the form is kept as its list of fields.
- Decimal values are kept as they arrive (unscaled value and scale), because the gateway copies prices and never computes with them.
- The [ApiController] attribute's automatic 400 before an action runs is not modelled separately. GetCustomer models the action body called directly: the automatic 400 for a null, empty or blank customer id, which is sent without an upstream call, is not modelled, and the model records a customer call for such an id. SearchParts computes its model state from the [Required] parameters. PlaceOrder takes the model state as an input, and `PartsApi.OrderModelState` gives the one that the body's own attributes produce.
- The IAccessToken interface, KEYLOOP/Authorization/KeyloppApiClient.cs and KEYLOOP/Program.cs are not part of this model. Neither is dependency injection: settings are passed as values.
- The OrderContact, AlternateDeliveryAddress and AlternativeParts classes are not part of this model. Their values are kept as the JSON they were read from.
- The brand, order-response and customer response types are not part of this model. Those actions are generic in the body type they pass through.
- Endpoints.Constructs does not decide which base URLs with a scheme .NET accepts. Such a URL may still be rejected, for example for a port that is not a number. The actions are stated for both outcomes. It also treats the implicit file forms ("/srv/api", "\\\\host\\share") as rejected: .NET accepts them as file: URIs, and the HTTP client then throws instead, which the actions also answer with 500. It does not model .NET's messages for these cases.
- EnrichParts and PartResponse: a parts list is a sequence of non-null Part objects. A JSON `null` element, for which the lookup address throws a NullReferenceException at PartsController.cs:207 before any request is sent, is not modelled. SearchParts would answer 500 "An error occurred." for it.
- GetCustomer: the model assumes that the resolving constructor `new Uri(baseUri, reference)` at CustomerController.cs:54 never throws, and records the customer call whenever `new Uri(baseUrl)` succeeds. .NET can reject the resolved text, for example with an empty EnterpriseId and a StoreId that is not a valid host such as "st:x" (an invalid port), or with over-long text. The source then answers 500 "An error occurred." without a call. The model gives that answer only for a Faulted reply, after recording the call.
- SearchParts: the same assumption holds for the search address at PartsController.cs:64 and for each lookup address built by GetPriceAndAvailability at PartsController.cs:207. A lookup address that .NET rejects throws before its request is sent, but the model records the call. The answer (500 "An error occurred.") is the one a Faulted reply gives.
- GetBrands: the same assumption holds for the brands address at PartsController.cs:120. When .NET rejects it, the source answers 500 "An error occurred: " with the exception's message and makes no call; the model records the brands call.
- PlaceOrder: the same assumption holds for the orders address at PartsController.cs:176. When .NET rejects it, the source answers 500 "An error occurred: " with the exception's message and makes no post; the model records the order post.
