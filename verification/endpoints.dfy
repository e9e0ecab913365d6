/**
 * Where the controllers send their requests: the settings they read from
 * configuration, the reference strings they interpolate for each upstream
 * endpoint, and the URIs those resolve to against the configured base URL.
 */
module Endpoints {
  import opened Wrappers
  import opened Uris

  /** IConfiguration: a key that is absent reads as null. */
  type Configuration = map<string, string>

  const BaseUrlKey: string := "Keyloop:BaseUrl"
  const EnterpriseIdKey: string := "Keyloop:EnterpriseId"
  const StoreIdKey: string := "Keyloop:StoreId"

  /** The settings both controllers keep in readonly fields. */
  datatype GatewaySettings = GatewaySettings(baseUrl: string, enterpriseId: string, storeId: string)

  /** An ArgumentNullException, with the parameter name it names. */
  datatype ArgumentNull = ArgumentNull(paramName: string)

  /**
   * The controller constructors: each setting is read with `?? throw`, so only
   * a missing key fails; an empty value is accepted.
   */
  function ReadGatewaySettings(config: Configuration): (r: Result<GatewaySettings, ArgumentNull>)
    ensures r.Success? <==> BaseUrlKey in config && EnterpriseIdKey in config && StoreIdKey in config
    ensures r.Success? ==>
              && r.value.baseUrl == config[BaseUrlKey]
              && r.value.enterpriseId == config[EnterpriseIdKey]
              && r.value.storeId == config[StoreIdKey]
    ensures r.Failure? ==> r.error == ArgumentNull("configuration")
  {
    if BaseUrlKey !in config then Failure(ArgumentNull("configuration"))
    else if EnterpriseIdKey !in config then Failure(ArgumentNull("configuration"))
    else if StoreIdKey !in config then Failure(ArgumentNull("configuration"))
    else Success(GatewaySettings(config[BaseUrlKey], config[EnterpriseIdKey], config[StoreIdKey]))
  }

  /** C# string interpolation of a possibly null string: null reads as "". */
  function Interpolated(s: Option<string>): string {
    s.GetOr("")
  }

  /** The messages of the UriFormatExceptions new Uri(baseUrl) throws for the inputs Constructs pins. */
  const EmptyUriMessage: string := "Invalid URI: The URI is empty."
  const InvalidUriMessage: string := "Invalid URI: The format of the URI could not be determined."
  const BadHostMessage: string := "Invalid URI: The hostname could not be parsed."

  /**
   * What new Uri(baseUrl) gives: the absolute URI, or the message of the
   * UriFormatException it throws. .NET checks more than RFC 3986 does (host
   * syntax, port numbers), so the outcome is an input of every action, and
   * Constructs states what is known of it.
   */
  type BaseUri = Result<Uri, string>

  /** The text has a scheme, which new Uri(baseUrl) needs; it is not enough on its own. */
  predicate BaseIsAbsolute(g: GatewaySettings) {
    IsAbsolute(g.baseUrl)
  }

  /** An http or https URL whose authority is present but empty, such as "http://". */
  predicate EmptyHost(baseUrl: string) {
    var u := Parse(baseUrl);
    u.scheme in {Some("http"), Some("https")} && u.authority == Some("")
  }

  /**
   * The outcome b of new Uri(baseUrl): a URI is only built from text with a
   * scheme, and it is that text's components; the empty text, text without
   * a scheme that is not a file path, and an http(s) URL without a host are
   * rejected with their own messages. Other absolute text may go either way.
   */
  predicate Constructs(baseUrl: string, b: BaseUri) {
    && (b.Success? ==> IsAbsolute(baseUrl) && b.value == Parse(baseUrl))
    && (baseUrl == "" ==> b == Failure(EmptyUriMessage))
    && (baseUrl != "" && !IsAbsolute(baseUrl) && baseUrl[0] != '/' && baseUrl[0] != '\\' ==>
          b == Failure(InvalidUriMessage))
    && (EmptyHost(baseUrl) ==> b == Failure(BadHostMessage))
  }

  /** new Uri(new Uri(baseUrl), reference). */
  function Upstream(g: GatewaySettings, reference: string): Uri
    requires BaseIsAbsolute(g)
  {
    IsAbsoluteParse(g.baseUrl);
    Resolve(Parse(g.baseUrl), Parse(reference))
  }

  function CustomerReference(g: GatewaySettings, customerId: string): string {
    "/" + g.enterpriseId + "/" + g.storeId + "/v3/customers/" + customerId
  }

  function SearchReference(g: GatewaySettings, brandCode: string, partCode: string): string {
    "/" + g.enterpriseId + "/" + g.storeId + "/v1/parts?brandCode=" + brandCode + "&partCode=" + partCode
  }

  function PriceAvailabilityReference(g: GatewaySettings, partId: string): string {
    "/" + g.enterpriseId + "/" + g.storeId + "/v1/parts/" + partId + "/price-availability"
  }

  function BrandsReference(g: GatewaySettings): string {
    "/" + g.enterpriseId + "/" + g.storeId + "/v1/parts/brands"
  }

  /** The one reference without a leading "/". */
  function OrdersReference(g: GatewaySettings): string {
    g.enterpriseId + "/" + g.storeId + "/v1/parts-orders"
  }

  function CustomerUri(g: GatewaySettings, customerId: string): Uri
    requires BaseIsAbsolute(g)
  {
    Upstream(g, CustomerReference(g, customerId))
  }

  function SearchUri(g: GatewaySettings, brandCode: string, partCode: string): Uri
    requires BaseIsAbsolute(g)
  {
    Upstream(g, SearchReference(g, brandCode, partCode))
  }

  function PriceAvailabilityUri(g: GatewaySettings, partId: string): Uri
    requires BaseIsAbsolute(g)
  {
    Upstream(g, PriceAvailabilityReference(g, partId))
  }

  function BrandsUri(g: GatewaySettings): Uri
    requires BaseIsAbsolute(g)
  {
    Upstream(g, BrandsReference(g))
  }

  function OrdersUri(g: GatewaySettings): Uri
    requires BaseIsAbsolute(g)
  {
    Upstream(g, OrdersReference(g))
  }

  // ---------------------------------------------------------------- shapes

  /** Identifiers that interpolate into single path segments. */
  predicate PlainIds(g: GatewaySettings) {
    g.enterpriseId != "" && IsSegment(g.enterpriseId) && IsSegment(g.storeId)
  }

  lemma JoinPathOfFive(a: string, b: string, c: string, d: string, e: string)
    ensures JoinPath([a, b, c, d, e]) == "/" + a + "/" + b + "/" + c + "/" + d + "/" + e
  {
    var s := [a, b, c, d, e];
    assert s[1..] == [b, c, d, e];
    assert s[1..][1..] == [c, d, e];
    assert s[1..][1..][1..] == [d, e];
    assert s[1..][1..][1..][1..] == [e];
    assert JoinPath([e]) == "/" + e;
    assert JoinPath([d, e]) == "/" + d + "/" + e;
    assert JoinPath([c, d, e]) == "/" + c + "/" + d + "/" + e;
    assert JoinPath([b, c, d, e]) == "/" + b + "/" + c + "/" + d + "/" + e;
  }

  /** The fixed segments of the customer address. */
  lemma CustomerSegments(g: GatewaySettings, customerId: string)
    requires PlainIds(g) && IsSegment(customerId)
    ensures var segments := [g.enterpriseId, g.storeId, "v3", "customers", customerId];
      && CustomerReference(g, customerId) == JoinPath(segments) + QueryText(None)
      && forall i :: 0 <= i < |segments| ==> IsSegment(segments[i])
  {
    FixedSegments();
    JoinPathOfFive(g.enterpriseId, g.storeId, "v3", "customers", customerId);
  }

  /**
   * The customer address: its leading "/" replaces the base URL's path and query,
   * so only the base's scheme and authority survive.
   */
  lemma CustomerUriShape(g: GatewaySettings, customerId: string)
    requires BaseIsAbsolute(g) && PlainIds(g) && IsSegment(customerId)
    ensures CustomerUri(g, customerId)
         == Uri(Parse(g.baseUrl).scheme, Parse(g.baseUrl).authority, CustomerReference(g, customerId), None, None)
  {
    CustomerSegments(g, customerId);
    AbsoluteSegmentsReference(Parse(g.baseUrl), [g.enterpriseId, g.storeId, "v3", "customers", customerId], None);
  }

  lemma JoinPathOfFour(a: string, b: string, c: string, d: string)
    ensures JoinPath([a, b, c, d]) == "/" + a + "/" + b + "/" + c + "/" + d
  {
    var s := [a, b, c, d];
    assert s[1..] == [b, c, d];
    assert s[1..][1..] == [c, d];
    assert s[1..][1..][1..] == [d];
    assert JoinPath([d]) == "/" + d;
    assert JoinPath([c, d]) == "/" + c + "/" + d;
    assert JoinPath([b, c, d]) == "/" + b + "/" + c + "/" + d;
  }

  lemma JoinPathOfSix(a: string, b: string, c: string, d: string, e: string, f: string)
    ensures JoinPath([a, b, c, d, e, f]) == "/" + a + "/" + b + "/" + c + "/" + d + "/" + e + "/" + f
  {
    var s := [a, b, c, d, e, f];
    assert s[1..] == [b, c, d, e, f];
    JoinPathOfFive(b, c, d, e, f);
  }


  /** The fixed path segments the controllers interpolate. */
  lemma FixedSegments()
    ensures IsSegment("v1") && IsSegment("v3") && IsSegment("parts") && IsSegment("brands")
    ensures IsSegment("customers") && IsSegment("price-availability") && IsSegment("parts-orders")
  {
  }

  /** The fixed query keys of the search address. */
  lemma FixedQueryKeys()
    ensures NoneOf("brandCode=", QueryEnd) && NoneOf("&partCode=", QueryEnd)
  {
  }

  // The fixed path pieces of three addresses, split at their slashes.

  lemma SearchPathPieces()
    ensures "/v1/parts?brandCode=" == "/v1/parts" + "?" + "brandCode="
    ensures "/v1/parts" == "/" + "v1" + "/" + "parts"
  {
  }

  lemma PriceAvailabilityPathPieces()
    ensures "/v1/parts/" == "/" + "v1" + "/" + "parts" + "/"
    ensures "/price-availability" == "/" + "price-availability"
  {
  }

  lemma OrdersPathPieces()
    ensures "/v1/parts-orders" == "/" + "v1" + "/" + "parts-orders"
  {
  }

  lemma Regroup(x: string, y: string, z: string, w: string, b: string, c: string, d: string)
    ensures x + (y + z + w) + b + c + d == (x + y) + z + (w + b + c + d)
  {
  }

  /** Spells out, for a short list, that each element is a segment. */
  lemma AllSegments(segments: seq<string>)
    requires |segments| <= 6
    requires |segments| > 0 ==> IsSegment(segments[0])
    requires |segments| > 1 ==> IsSegment(segments[1])
    requires |segments| > 2 ==> IsSegment(segments[2])
    requires |segments| > 3 ==> IsSegment(segments[3])
    requires |segments| > 4 ==> IsSegment(segments[4])
    requires |segments| > 5 ==> IsSegment(segments[5])
    ensures forall i :: 0 <= i < |segments| ==> IsSegment(segments[i])
  {
  }

  /** Codes without a "#" keep the whole search query inside the query component. */
  lemma SearchQueryPlain(brandCode: string, partCode: string)
    requires NoneOf(brandCode, QueryEnd) && NoneOf(partCode, QueryEnd)
    ensures NoneOf("brandCode=" + brandCode + "&partCode=" + partCode, QueryEnd)
  {
    FixedQueryKeys();
    NoneOfAppend("brandCode=", brandCode, QueryEnd);
    NoneOfAppend("brandCode=" + brandCode, "&partCode=", QueryEnd);
    NoneOfAppend("brandCode=" + brandCode + "&partCode=", partCode, QueryEnd);
  }

  /** The search reference as a path of plain segments followed by a query. */
  lemma SearchSegments(e: string, s: string, brandCode: string, partCode: string)
    ensures var segments := [e, s, "v1", "parts"];
      && "/" + e + "/" + s + "/v1/parts?brandCode=" + brandCode + "&partCode=" + partCode
         == JoinPath(segments) + QueryText(Some("brandCode=" + brandCode + "&partCode=" + partCode))
      && JoinPath(segments) == "/" + e + "/" + s + "/v1/parts"
  {
    SearchPathPieces();
    JoinPathOfFour(e, s, "v1", "parts");
    var prefix := "/" + e + "/" + s;
    assert JoinPath([e, s, "v1", "parts"]) == prefix + "/v1/parts";
    Regroup(prefix, "/v1/parts", "?", "brandCode=", brandCode, "&partCode=", partCode);
  }

  /**
   * The search address: the two codes are interpolated unescaped into the
   * query, which replaces the base's query; the base's path is dropped.
   */
  lemma SearchUriShape(g: GatewaySettings, brandCode: string, partCode: string)
    requires BaseIsAbsolute(g) && PlainIds(g)
    requires NoneOf(brandCode, QueryEnd) && NoneOf(partCode, QueryEnd)
    ensures SearchUri(g, brandCode, partCode)
         == Uri(Parse(g.baseUrl).scheme, Parse(g.baseUrl).authority,
                "/" + g.enterpriseId + "/" + g.storeId + "/v1/parts",
                Some("brandCode=" + brandCode + "&partCode=" + partCode), None)
  {
    var segments := [g.enterpriseId, g.storeId, "v1", "parts"];
    var query := "brandCode=" + brandCode + "&partCode=" + partCode;
    assert forall i :: 0 <= i < |segments| ==> IsSegment(segments[i]) by {
      FixedSegments();
      AllSegments(segments);
    }
    assert NoneOf(query, QueryEnd) by {
      SearchQueryPlain(brandCode, partCode);
    }
    assert SearchReference(g, brandCode, partCode) == JoinPath(segments) + QueryText(Some(query))
        && JoinPath(segments) == "/" + g.enterpriseId + "/" + g.storeId + "/v1/parts" by {
      SearchSegments(g.enterpriseId, g.storeId, brandCode, partCode);
    }
    AbsoluteSegmentsReference(Parse(g.baseUrl), segments, Some(query));
  }

  lemma PriceAvailabilitySegments(g: GatewaySettings, partId: string)
    requires PlainIds(g) && IsSegment(partId)
    ensures var segments := [g.enterpriseId, g.storeId, "v1", "parts", partId, "price-availability"];
      && PriceAvailabilityReference(g, partId) == JoinPath(segments) + QueryText(None)
      && forall i :: 0 <= i < |segments| ==> IsSegment(segments[i])
  {
    var segments := [g.enterpriseId, g.storeId, "v1", "parts", partId, "price-availability"];
    assert forall i :: 0 <= i < |segments| ==> IsSegment(segments[i]) by {
      FixedSegments();
      AllSegments(segments);
    }
    assert PriceAvailabilityReference(g, partId) == JoinPath(segments) by {
      PriceAvailabilityText(g.enterpriseId, g.storeId, partId);
    }
    NoQueryText(JoinPath(segments));
  }

  lemma PriceAvailabilityText(e: string, s: string, partId: string)
    ensures "/" + e + "/" + s + "/v1/parts/" + partId + "/price-availability"
         == JoinPath([e, s, "v1", "parts", partId, "price-availability"])
  {
    JoinPathOfSix(e, s, "v1", "parts", partId, "price-availability");
    PriceAvailabilityPathPieces();
  }

  /** The price-and-availability address of one part. */
  lemma PriceAvailabilityUriShape(g: GatewaySettings, partId: string)
    requires BaseIsAbsolute(g) && PlainIds(g) && IsSegment(partId)
    ensures PriceAvailabilityUri(g, partId)
         == Uri(Parse(g.baseUrl).scheme, Parse(g.baseUrl).authority,
                PriceAvailabilityReference(g, partId), None, None)
  {
    PriceAvailabilitySegments(g, partId);
    AbsoluteSegmentsReference(Parse(g.baseUrl),
                              [g.enterpriseId, g.storeId, "v1", "parts", partId, "price-availability"], None);
  }

  lemma BrandsSegments(g: GatewaySettings)
    requires PlainIds(g)
    ensures var segments := [g.enterpriseId, g.storeId, "v1", "parts", "brands"];
      && BrandsReference(g) == JoinPath(segments) + QueryText(None)
      && forall i :: 0 <= i < |segments| ==> IsSegment(segments[i])
  {
    FixedSegments();
    JoinPathOfFive(g.enterpriseId, g.storeId, "v1", "parts", "brands");
  }

  /** The brands address. */
  lemma BrandsUriShape(g: GatewaySettings)
    requires BaseIsAbsolute(g) && PlainIds(g)
    ensures BrandsUri(g)
         == Uri(Parse(g.baseUrl).scheme, Parse(g.baseUrl).authority, BrandsReference(g), None, None)
  {
    BrandsSegments(g);
    AbsoluteSegmentsReference(Parse(g.baseUrl), [g.enterpriseId, g.storeId, "v1", "parts", "brands"], None);
  }

  /**
   * An empty EnterpriseId, which the constructors accept, turns the leading
   * "/" of the customer, search, price-and-availability and brands references
   * into "//": each becomes a network-path reference, and the StoreId, not
   * the configured host, is the host the request goes to.
   */
  lemma EmptyEnterpriseIdNamesHost(g: GatewaySettings, customerId: string, brandCode: string, partCode: string,
                                   partId: string)
    requires BaseIsAbsolute(g) && g.enterpriseId == "" && NoneOf(g.storeId, AuthorityEnd)
    ensures CustomerUri(g, customerId).authority == Some(g.storeId)
    ensures SearchUri(g, brandCode, partCode).authority == Some(g.storeId)
    ensures PriceAvailabilityUri(g, partId).authority == Some(g.storeId)
    ensures BrandsUri(g).authority == Some(g.storeId)
  {
    CustomerHostTaken(g, customerId);
    SearchHostTaken(g, brandCode, partCode);
    PriceAvailabilityHostTaken(g, partId);
    HostTakenBy(g, "/v1/parts/brands");
  }

  lemma CustomerHostTaken(g: GatewaySettings, customerId: string)
    requires BaseIsAbsolute(g) && g.enterpriseId == "" && NoneOf(g.storeId, AuthorityEnd)
    ensures CustomerUri(g, customerId).authority == Some(g.storeId)
  {
    var rest := "/v3/customers/" + customerId;
    assert rest[0] == '/';
    Prepend("/" + g.enterpriseId + "/" + g.storeId, "/v3/customers/", customerId);
    HostTakenBy(g, rest);
  }

  lemma SearchHostTaken(g: GatewaySettings, brandCode: string, partCode: string)
    requires BaseIsAbsolute(g) && g.enterpriseId == "" && NoneOf(g.storeId, AuthorityEnd)
    ensures SearchUri(g, brandCode, partCode).authority == Some(g.storeId)
  {
    var rest := "/v1/parts?brandCode=" + brandCode + "&partCode=" + partCode;
    assert rest[0] == '/';
    Group("/" + g.enterpriseId + "/" + g.storeId, "/v1/parts?brandCode=", brandCode, "&partCode=", partCode);
    HostTakenBy(g, rest);
  }

  lemma PriceAvailabilityHostTaken(g: GatewaySettings, partId: string)
    requires BaseIsAbsolute(g) && g.enterpriseId == "" && NoneOf(g.storeId, AuthorityEnd)
    ensures PriceAvailabilityUri(g, partId).authority == Some(g.storeId)
  {
    var x := "/" + g.enterpriseId + "/" + g.storeId;
    var rest := "/v1/parts/" + partId + "/price-availability";
    assert rest[0] == '/';
    Prepend(x, "/v1/parts/", partId);
    Prepend(x, "/v1/parts/" + partId, "/price-availability");
    HostTakenBy(g, rest);
  }

  lemma Group<T>(x: seq<T>, a: seq<T>, b: seq<T>, c: seq<T>, d: seq<T>)
    ensures x + a + b + c + d == x + (a + b + c + d)
  {
  }

  /** A reference of the shape "/" + EnterpriseId + "/" + StoreId + rest, with an empty EnterpriseId. */
  lemma HostTakenBy(g: GatewaySettings, rest: string)
    requires BaseIsAbsolute(g) && g.enterpriseId == "" && NoneOf(g.storeId, AuthorityEnd)
    requires rest != "" && rest[0] == '/'
    ensures Upstream(g, "/" + g.enterpriseId + "/" + g.storeId + rest).authority == Some(g.storeId)
  {
    assert "/" + g.enterpriseId + "/" + g.storeId + rest == "//" + g.storeId + rest;
    IsAbsoluteParse(g.baseUrl);
    NetworkPathReference(Parse(g.baseUrl), g.storeId, rest);
  }

  /** A base URL with a host and a plain path (possibly empty). */
  predicate PlainBase(g: GatewaySettings) {
    var base := Parse(g.baseUrl);
    && base.scheme.Some? && base.authority.Some?
    && (base.path == "" || base.path[0] == '/')
    && |BaseDirectory(base)| > 0
    && DotFree(BaseDirectory(base)[..|BaseDirectory(base)| - 1])
  }

  /** "/" + the order reference is a path of plain segments. */
  lemma OrdersSegments(e: string, s: string)
    requires e != "" && IsSegment(e) && IsSegment(s)
    ensures "/" + (e + "/" + s + "/v1/parts-orders") == JoinPath([e, s, "v1", "parts-orders"])
    ensures DotFree("/" + (e + "/" + s + "/v1/parts-orders"))
    ensures NoneOf("/" + (e + "/" + s + "/v1/parts-orders"), PathEnd)
  {
    var segments := [e, s, "v1", "parts-orders"];
    var r := e + "/" + s + "/v1/parts-orders";
    assert forall i :: 0 <= i < |segments| ==> IsSegment(segments[i]) by {
      FixedSegments();
      AllSegments(segments);
    }
    assert "/" + r == JoinPath(segments) by {
      JoinPathOfFour(e, s, "v1", "parts-orders");
      OrdersPathPieces();
      Prepend("/", e + "/" + s, "/v1/parts-orders");
    }
    JoinPathShape(segments);
  }

  lemma NoQueryText(path: string)
    ensures path + QueryText(None) == path
  {
  }

  lemma Prepend(x: string, a: string, b: string)
    ensures x + (a + b) == x + a + b
  {
  }

  /** The first segment of the order reference ends at a "/", not at a ":". */
  lemma OrdersNoSchemeColon(e: string, s: string)
    requires e != "" && NoneOf(e, SchemeEnd)
    ensures NoSchemeColon(e + "/" + s + "/v1/parts-orders")
  {
    var rest := "/" + s + "/v1/parts-orders";
    assert e + "/" + s + "/v1/parts-orders" == e + rest;
    IndexOfAnyNone(e, SchemeEnd);
    IndexOfAnyAppend(e, rest, SchemeEnd);
    assert (e + rest)[|e|] == '/';
  }

  /** The order reference meets the premises of merging with the base directory. */
  lemma OrdersReferencePlain(g: GatewaySettings)
    requires PlainIds(g) && NoneOf(g.enterpriseId, {':'})
    ensures OrdersReference(g) != "" && OrdersReference(g)[0] != '/'
    ensures NoSchemeColon(OrdersReference(g))
    ensures DotFree("/" + OrdersReference(g)) && NoneOf(OrdersReference(g), PathEnd)
  {
    var e, r := g.enterpriseId, OrdersReference(g);
    OrdersSegments(e, g.storeId);
    assert NoneOf(r, PathEnd) by {
      forall i | 0 <= i < |r| ensures r[i] !in PathEnd {
        assert r[i] == ("/" + r)[i + 1];
      }
    }
    assert r[0] == e[0];
    assert NoneOf(e, SchemeEnd);
    OrdersNoSchemeColon(e, g.storeId);
  }

  /**
   * The order address: its reference has no leading "/", so it is merged
   * with the base URL's directory and keeps the base path that the other
   * four addresses drop.
   */
  lemma OrdersUriShape(g: GatewaySettings)
    requires PlainBase(g) && PlainIds(g) && NoneOf(g.enterpriseId, {':'})
    ensures OrdersUri(g)
         == Uri(Parse(g.baseUrl).scheme, Parse(g.baseUrl).authority,
                BaseDirectory(Parse(g.baseUrl)) + OrdersReference(g), None, None)
  {
    var base, r := Parse(g.baseUrl), OrdersReference(g);
    assert r != "" && r[0] != '/' && NoSchemeColon(r) && DotFree("/" + r) && NoneOf(r, PathEnd) by {
      OrdersReferencePlain(g);
    }
    assert r + QueryText(None) == r by {
      NoQueryText(r);
    }
    RelativePathReference(base, r, None);
  }

  /** A base URL that is only a scheme and a host, such as "https://api.example.com". */
  predicate HostOnlyBase(g: GatewaySettings) {
    var base := Parse(g.baseUrl);
    base.scheme.Some? && base.authority.Some? && base.path == "" && base.query.None? && base.fragment.None?
  }

  lemma HostOnlyText(g: GatewaySettings, path: string, query: Option<string>)
    requires HostOnlyBase(g)
    ensures ToText(Uri(Parse(g.baseUrl).scheme, Parse(g.baseUrl).authority, path, query, None))
         == g.baseUrl + path + QueryText(query)
  {
    ToTextWithPath(Parse(g.baseUrl), path, query);
  }

  // With a base URL that is only a scheme and a host, every address is the
  // base URL followed by "/", the identifiers and the endpoint's own path,
  // the order address included.

  lemma HostOnlyCustomerUrl(g: GatewaySettings, customerId: string)
    requires HostOnlyBase(g) && PlainIds(g) && IsSegment(customerId)
    ensures ToText(CustomerUri(g, customerId)) == g.baseUrl + CustomerReference(g, customerId)
  {
    CustomerUriShape(g, customerId);
    HostOnlyText(g, CustomerReference(g, customerId), None);
  }

  lemma HostOnlySearchUrl(g: GatewaySettings, brandCode: string, partCode: string)
    requires HostOnlyBase(g) && PlainIds(g)
    requires NoneOf(brandCode, QueryEnd) && NoneOf(partCode, QueryEnd)
    ensures ToText(SearchUri(g, brandCode, partCode)) == g.baseUrl + SearchReference(g, brandCode, partCode)
  {
    var path, query := "/" + g.enterpriseId + "/" + g.storeId + "/v1/parts",
                       Some("brandCode=" + brandCode + "&partCode=" + partCode);
    IsAbsoluteParse(g.baseUrl);
    assert SearchReference(g, brandCode, partCode) == path + QueryText(query) by {
      SearchSegments(g.enterpriseId, g.storeId, brandCode, partCode);
    }
    Prepend(g.baseUrl, path, QueryText(query));
    SearchUriShape(g, brandCode, partCode);
    HostOnlyText(g, path, query);
  }

  lemma HostOnlyPriceAvailabilityUrl(g: GatewaySettings, partId: string)
    requires HostOnlyBase(g) && PlainIds(g) && IsSegment(partId)
    ensures ToText(PriceAvailabilityUri(g, partId)) == g.baseUrl + PriceAvailabilityReference(g, partId)
  {
    PriceAvailabilityUriShape(g, partId);
    HostOnlyText(g, PriceAvailabilityReference(g, partId), None);
  }

  lemma HostOnlyBrandsUrl(g: GatewaySettings)
    requires HostOnlyBase(g) && PlainIds(g)
    ensures ToText(BrandsUri(g)) == g.baseUrl + BrandsReference(g)
  {
    BrandsUriShape(g);
    HostOnlyText(g, BrandsReference(g), None);
  }

  lemma HostOnlyOrdersUrl(g: GatewaySettings)
    requires HostOnlyBase(g) && PlainIds(g) && NoneOf(g.enterpriseId, {':'})
    ensures ToText(OrdersUri(g)) == g.baseUrl + "/" + OrdersReference(g)
  {
    var base, r := Parse(g.baseUrl), OrdersReference(g);
    assert PlainBase(g) && BaseDirectory(base) == "/" by {
      assert DotFree("");
    }
    assert OrdersUri(g) == Uri(base.scheme, base.authority, "/" + r, None, None) by {
      OrdersUriShape(g);
    }
    assert ToText(Uri(base.scheme, base.authority, "/" + r, None, None)) == g.baseUrl + "/" + r by {
      HostOnlyText(g, "/" + r, None);
      NoQueryText(g.baseUrl + ("/" + r));
      Prepend(g.baseUrl, "/", r);
    }
  }
}
