/**
 * The AccessToken service: the OAuth client-credentials settings it reads
 * from configuration and the token exchange it performs.
 */
module Authorization {
  import opened Wrappers
  import opened Http
  import opened Json
  import opened Uris
  import opened Endpoints

  const ClientIdKey: string := "Keyloop:ClientId"
  const ClientSecretKey: string := "Keyloop:ClientSecret"

  /** The token endpoint's path, appended to the base URL as text. */
  const TokenPath: string := "/oauth/client_credential/accesstoken"

  /** The readonly fields of an AccessToken. */
  datatype TokenSettings = TokenSettings(baseUrl: string, tokenUrl: string, clientId: string, clientSecret: string)

  /**
   * The AccessToken constructor. A missing setting throws an
   * ArgumentNullException that names the httpClientFactory parameter, not the
   * configuration; an empty value is accepted.
   */
  function NewAccessToken(config: Configuration): (r: Result<TokenSettings, ArgumentNull>)
    ensures r.Success? <==> BaseUrlKey in config && ClientIdKey in config && ClientSecretKey in config
    ensures r.Success? ==>
              && r.value.baseUrl == config[BaseUrlKey]
              && r.value.clientId == config[ClientIdKey]
              && r.value.clientSecret == config[ClientSecretKey]
    ensures r.Success? ==> r.value.tokenUrl == r.value.baseUrl + TokenPath
    ensures r.Failure? ==> r.error == ArgumentNull("httpClientFactory")
  {
    if BaseUrlKey !in config then Failure(ArgumentNull("httpClientFactory"))
    else
      var baseUrl := config[BaseUrlKey];
      var tokenUrl := baseUrl + TokenPath;
      if ClientIdKey !in config then Failure(ArgumentNull("httpClientFactory"))
      else if ClientSecretKey !in config then Failure(ArgumentNull("httpClientFactory"))
      else Success(TokenSettings(baseUrl, tokenUrl, config[ClientIdKey], config[ClientSecretKey]))
  }

  /**
   * The token URL is the base URL with the path appended as text: an absolute
   * base gives an absolute token URL with the same scheme, so the client's
   * BaseAddress plays no part in where the request goes.
   */
  lemma TokenUrlIsAbsolute(config: Configuration)
    requires NewAccessToken(config).Success?
    requires IsAbsolute(config[BaseUrlKey])
    ensures IsAbsolute(NewAccessToken(config).value.tokenUrl)
    ensures SplitScheme(NewAccessToken(config).value.tokenUrl).0 == SplitScheme(config[BaseUrlKey]).0
  {
    SchemeOfExtended(config[BaseUrlKey], TokenPath);
  }

  /** The form-encoded fields of the token request, in order. */
  function TokenForm(t: TokenSettings): seq<(string, string)> {
    [("grant_type", "client_credentials"), ("client_id", t.clientId), ("client_secret", t.clientSecret)]
  }

  /** The value of the first form field of the given name. */
  function FormValue(form: seq<(string, string)>, name: string): Option<string> {
    if form == [] then None else if form[0].0 == name then Some(form[0].1) else FormValue(form[1..], name)
  }

  /** The form carries the client-credentials grant and the configured credentials. */
  lemma TokenFormCarriesCredentials(t: TokenSettings)
    ensures FormValue(TokenForm(t), "grant_type") == Some("client_credentials")
    ensures FormValue(TokenForm(t), "client_id") == Some(t.clientId)
    ensures FormValue(TokenForm(t), "client_secret") == Some(t.clientSecret)
    ensures |TokenForm(t)| == 3
  {
    var f := TokenForm(t);
    assert f[1..] == [("client_id", t.clientId), ("client_secret", t.clientSecret)];
    assert f[1..][1..] == [("client_secret", t.clientSecret)];
    assert FormValue(f[1..][1..], "client_secret") == Some(t.clientSecret);
  }

  /** The POST the service sends: the token URL and the form fields. */
  datatype TokenRequest = TokenRequest(url: string, form: seq<(string, string)>)

  /** The exceptions GetAccessToken lets escape, in the order they can arise. */
  datatype TokenError =
    | InvalidBaseUri(message: string)      // new Uri(baseUrl): UriFormatException
    | TransportFailed(message: string)     // PostAsync threw
    | Rejected(status: int)                // EnsureSuccessStatusCode: HttpRequestException
    | MalformedJson(message: string)       // JsonDocument.ParseAsync: JsonException
    | NotAnObject                          // GetProperty on a non-object: InvalidOperationException
    | MissingAccessToken                   // GetProperty: KeyNotFoundException
    | NotAString                           // GetString on a non-string: InvalidOperationException
    | NullAccessToken                      // the service's own exception for a null token

  /** The token an upstream JSON document carries, or the exception reading it throws. */
  function TokenOf(document: Json): (r: Result<string, TokenError>)
    ensures r.Success? <==>
              && document.JObject?
              && LastProperty(document.members, "access_token").Some?
              && LastProperty(document.members, "access_token").value.JString?
    ensures r.Success? ==> LastProperty(document.members, "access_token") == Some(JString(r.value))
    ensures r == Failure(NotAnObject) <==> !document.JObject?
    ensures r == Failure(MissingAccessToken) <==>
              document.JObject? && forall i :: 0 <= i < |document.members| ==> document.members[i].0 != "access_token"
    ensures r == Failure(NullAccessToken) <==>
              document.JObject? && LastProperty(document.members, "access_token") == Some(JNull)
  {
    match document
    case JObject(members) =>
      (match LastProperty(members, "access_token")
       case None => Failure(MissingAccessToken)
       case Some(JString(s)) => Success(s)
       case Some(JNull) => Failure(NullAccessToken)
       case Some(_) => Failure(NotAString))
    case _ => Failure(NotAnObject)
  }

  /** A call to GetAccessToken: the request it sent, if any, and what it returned or threw. */
  datatype TokenExchange = TokenExchange(request: Option<TokenRequest>, result: Result<string, TokenError>)

  /**
   * GetAccessToken, given the outcome of new Uri(baseUrl) (Constructs) and the
   * upstream's reply to the token request. The base URL must be accepted
   * before anything is sent; then the status must be a success, the body a
   * JSON document, and its last "access_token" member a string.
   */
  function GetAccessToken(t: TokenSettings, baseUri: BaseUri, reply: Reply<Json>): (x: TokenExchange)
    ensures x.request.Some? <==> baseUri.Success?
    ensures x.request.Some? ==> x.request.value == TokenRequest(t.tokenUrl, TokenForm(t))
    ensures baseUri.Failure? ==> x.result == Failure(InvalidBaseUri(baseUri.error))
    ensures x.request.Some? && reply.Faulted? ==> x.result == Failure(TransportFailed(reply.message))
    ensures x.request.Some? && reply.Received? && !IsSuccessStatusCode(reply.status) ==>
              x.result == Failure(Rejected(reply.status))
    ensures x.request.Some? && reply.Received? && IsSuccessStatusCode(reply.status) ==>
              x.result == match reply.body
                          case Malformed(message) => Failure(MalformedJson(message))
                          case Parsed(document) => TokenOf(document)
    ensures x.result.Success? <==>
              && x.request.Some? && reply.Received? && IsSuccessStatusCode(reply.status)
              && reply.body.Parsed? && TokenOf(reply.body.value).Success?
  {
    if baseUri.Failure? then
      TokenExchange(None, Failure(InvalidBaseUri(baseUri.error)))
    else
      var request := Some(TokenRequest(t.tokenUrl, TokenForm(t)));
      match reply
      case Faulted(message) => TokenExchange(request, Failure(TransportFailed(message)))
      case Received(status, _, body) =>
        if !IsSuccessStatusCode(status) then TokenExchange(request, Failure(Rejected(status)))
        else match body
          case Malformed(message) => TokenExchange(request, Failure(MalformedJson(message)))
          case Parsed(document) => TokenExchange(request, TokenOf(document))
  }

  /**
   * A token endpoint that answers with a JSON object whose last "access_token"
   * member is the string tok hands tok back.
   */
  lemma TokenRoundTrip(t: TokenSettings, baseUri: BaseUri, status: int, text: string, members: seq<(string, Json)>,
                       tok: string)
    requires baseUri.Success? && IsSuccessStatusCode(status)
    requires LastProperty(members, "access_token") == Some(JString(tok))
    ensures GetAccessToken(t, baseUri, Received(status, text, Parsed(JObject(members))))
         == TokenExchange(Some(TokenRequest(t.tokenUrl, TokenForm(t))), Success(tok))
  {
  }

  /**
   * A base URL that is empty, has no scheme, or is an http(s) URL without a
   * host makes GetAccessToken throw before the token request is sent.
   */
  lemma RejectedBaseSendsNothing(t: TokenSettings, baseUri: BaseUri, reply: Reply<Json>)
    requires Constructs(t.baseUrl, baseUri)
    requires t.baseUrl == "" || !IsAbsolute(t.baseUrl) || EmptyHost(t.baseUrl)
    ensures GetAccessToken(t, baseUri, reply).request.None?
    ensures t.baseUrl == "" ==> GetAccessToken(t, baseUri, reply).result == Failure(InvalidBaseUri(EmptyUriMessage))
  {
  }
}
