/**
 * PartsController: parts search with price-and-availability enrichment, the
 * brands list, and order placement.
 */
module PartsApi {
  import opened Wrappers
  import opened Http
  import opened Endpoints
  import opened Parts
  import opened Enrichment
  import opened Orders

  /** An upstream request the controller makes; Address says where it goes. */
  datatype Call =
    | SearchCall(brandCode: string, partCode: string)
    | PriceAvailabilityCall(partId: string)
    | BrandsCall
    | OrderCall(payload: PartsOrderRequest)

  function Address(g: GatewaySettings, c: Call): Uris.Uri
    requires BaseIsAbsolute(g)
  {
    match c
    case SearchCall(brandCode, partCode) => SearchUri(g, brandCode, partCode)
    case PriceAvailabilityCall(partId) => PriceAvailabilityUri(g, partId)
    case BrandsCall => BrandsUri(g)
    case OrderCall(_) => OrdersUri(g)
  }

  /** The lookups of the enrichment step, as calls. */
  function LookupCalls(ids: seq<string>): seq<Call>
  {
    seq(|ids|, k requires 0 <= k < |ids| => PriceAvailabilityCall(ids[k]))
  }

  const GenericError: string := "An error occurred."
  const SearchFailedMessage: string := "Keyloop API request failed."
  const NoPartsMessage: string := "No parts found."
  const PassThroughErrorPrefix: string := "An error occurred: "
  const PassThroughFailedPrefix: string := "Keyloop API request failed: "

  /** The model state of a search: each [Required] parameter that is missing or blank adds its message. */
  function SearchModelState(brandCode: Option<string>, partCode: Option<string>): (m: ModelState)
    ensures m.IsValid() <==> SatisfiesRequired(brandCode) && SatisfiesRequired(partCode)
    ensures !SatisfiesRequired(brandCode) ==> RequiredMessage("brandCode") in m.errors
    ensures !SatisfiesRequired(partCode) ==> RequiredMessage("partCode") in m.errors
    ensures forall e :: e in m.errors ==>
              || (e == RequiredMessage("brandCode") && !SatisfiesRequired(brandCode))
              || (e == RequiredMessage("partCode") && !SatisfiesRequired(partCode))
  {
    ModelState((if SatisfiesRequired(brandCode) then [] else [RequiredMessage("brandCode")])
             + (if SatisfiesRequired(partCode) then [] else [RequiredMessage("partCode")]))
  }

  /** The result of a search the upstream answered with an error status. */
  function SearchFailure(status: int): (r: ActionResult<PartResponse>)
    ensures StatusOf(r) == status
    ensures r.Ok? == false
    ensures status == StatusNotFound ==> r == NotFound(Some(NoPartsMessage))
    ensures status == StatusUnauthorized ==> r == Unauthorized
    ensures status != StatusNotFound && status != StatusUnauthorized ==> r == StatusCode(status, SearchFailedMessage)
  {
    if status == StatusNotFound then NotFound(Some(NoPartsMessage))
    else if status == StatusUnauthorized then Unauthorized
    else StatusCode(status, SearchFailedMessage)
  }

  /** The search passes validation and new Uri accepted the base URL, so the upstream is called. */
  predicate Proceeds(baseUri: BaseUri, brandCode: Option<string>, partCode: Option<string>) {
    SearchModelState(brandCode, partCode).IsValid() && baseUri.Success?
  }

  /** The parts of a successful search reply, which the enrichment step writes. */
  function SearchedParts(search: Reply<Option<PartResponse>>): seq<Part> {
    if search.Received? && IsSuccessStatusCode(search.status) && search.body.Parsed?
       && search.body.value.Some? && search.body.value.value.parts.Some?
    then search.body.value.value.parts.value
    else []
  }

  /**
   * SearchParts, given the outcome of new Uri(baseUrl) (Constructs), the
   * upstream's reply to the search and its answers to the lookups. On a successful search with a parts list, the parts are
   * enriched in place and the same response object is returned.
   */
  method SearchParts(baseUri: BaseUri, brandCode: Option<string>, partCode: Option<string>,
                     search: Reply<Option<PartResponse>>, lookup: Lookup)
    returns (result: ActionResult<PartResponse>, calls: seq<Call>)
    requires Distinct(SearchedParts(search))
    modifies set p | p in SearchedParts(search)
    ensures !SearchModelState(brandCode, partCode).IsValid() ==>
              result == ValidationProblem(SearchModelState(brandCode, partCode).errors)
    ensures SearchModelState(brandCode, partCode).IsValid() && baseUri.Failure? ==>
              result == StatusCode(StatusInternalServerError, GenericError)
    ensures !Proceeds(baseUri, brandCode, partCode) ==>
              calls == [] && Records(SearchedParts(search)) == old(Records(SearchedParts(search)))
    ensures Proceeds(baseUri, brandCode, partCode) ==> |calls| >= 1 && calls[0] == SearchCall(brandCode.value, partCode.value)
    ensures Proceeds(baseUri, brandCode, partCode) && search.Faulted? ==>
              result == StatusCode(StatusInternalServerError, GenericError) && |calls| == 1
    ensures Proceeds(baseUri, brandCode, partCode) && search.Received? && !IsSuccessStatusCode(search.status) ==>
              result == SearchFailure(search.status) && |calls| == 1
    ensures Proceeds(baseUri, brandCode, partCode) && search.Received? && IsSuccessStatusCode(search.status) ==>
              match search.body
              case Malformed(_) => result == StatusCode(StatusInternalServerError, GenericError) && |calls| == 1
              case Parsed(None) => result == Ok(None) && |calls| == 1
              case Parsed(Some(response)) =>
                if response.parts.None? then result == Ok(Some(response)) && |calls| == 1
                else
                  var e := Enrich(old(Records(response.parts.value)), lookup);
                  && Records(response.parts.value) == e.records
                  && calls == calls[..1] + LookupCalls(e.issued)
                  && result == if e.aborted then StatusCode(StatusInternalServerError, GenericError)
                               else Ok(Some(response))
  {
    var modelState := SearchModelState(brandCode, partCode);
    if !modelState.IsValid() {
      return ValidationProblem(modelState.errors), [];
    }
    if baseUri.Failure? {
      return StatusCode(StatusInternalServerError, GenericError), [];
    }
    calls := [SearchCall(brandCode.value, partCode.value)];
    match search {
      case Faulted(_) =>
        result := StatusCode(StatusInternalServerError, GenericError);
      case Received(status, _, body) =>
        if !IsSuccessStatusCode(status) {
          result := SearchFailure(status);
        } else {
          match body {
            case Malformed(_) =>
              result := StatusCode(StatusInternalServerError, GenericError);
            case Parsed(None) =>
              result := Ok(None);
            case Parsed(Some(response)) =>
              if response.parts.None? {
                result := Ok(Some(response));
              } else {
                var issued, aborted := EnrichParts(response.parts.value, lookup);
                calls := calls + LookupCalls(issued);
                result := if aborted then StatusCode(StatusInternalServerError, GenericError) else Ok(Some(response));
              }
          }
        }
    }
  }

  /**
   * The result GetBrands and PlaceOrder make of an upstream reply: the
   * deserialized body on success, the upstream's status and text otherwise,
   * and a 500 with the exception's message when anything throws.
   */
  function PassThrough<T>(reply: Reply<Option<T>>): (r: ActionResult<T>)
    ensures reply.Faulted? ==> r == StatusCode(StatusInternalServerError, PassThroughErrorPrefix + reply.message)
    ensures reply.Received? && !IsSuccessStatusCode(reply.status) ==>
              r == StatusCode(reply.status, PassThroughFailedPrefix + reply.text)
    ensures reply.Received? && IsSuccessStatusCode(reply.status) && reply.body.Malformed? ==>
              r == StatusCode(StatusInternalServerError, PassThroughErrorPrefix + reply.body.message)
    ensures r.Ok? <==> reply.Received? && IsSuccessStatusCode(reply.status) && reply.body.Parsed?
    ensures r.Ok? ==> r.value == reply.body.value
  {
    match reply
    case Faulted(message) => StatusCode(StatusInternalServerError, PassThroughErrorPrefix + message)
    case Received(status, text, body) =>
      if !IsSuccessStatusCode(status) then StatusCode(status, PassThroughFailedPrefix + text)
      else match body
        case Parsed(value) => Ok(value)
        case Malformed(message) => StatusCode(StatusInternalServerError, PassThroughErrorPrefix + message)
  }

  /**
   * The status the caller sees: 200 for a delivered body, 204 for a JSON
   * null, the upstream's own status for an error status, and 500 for
   * everything that threw.
   */
  lemma PassThroughStatus<T>(reply: Reply<Option<T>>)
    ensures StatusOf(PassThrough(reply)) ==
              if reply.Received? && !IsSuccessStatusCode(reply.status) then reply.status
              else if reply.Received? && reply.body.Parsed? then
                (if reply.body.value.Some? then StatusOk else StatusNoContent)
              else StatusInternalServerError
  {
  }

  /**
   * GetBrands: one request to the brands address, its reply passed through. A
   * base URL that new Uri rejects is answered like any exception, with its message.
   */
  function GetBrands<B>(baseUri: BaseUri, reply: Reply<Option<B>>): (x: Exchange<B, Call>)
    ensures baseUri.Failure? ==>
              x == Exchange(StatusCode(StatusInternalServerError, PassThroughErrorPrefix + baseUri.error), [])
    ensures baseUri.Success? ==> x.calls == [BrandsCall] && x.result == PassThrough(reply)
  {
    if baseUri.Failure? then
      Exchange(StatusCode(StatusInternalServerError, PassThroughErrorPrefix + baseUri.error), [])
    else Exchange(PassThrough(reply), [BrandsCall])
  }

  /**
   * PlaceOrder: an invalid model state is answered with the validation errors
   * and nothing is sent; otherwise the projected payload is posted to the order
   * address and the reply passed through.
   */
  function PlaceOrder<R>(baseUri: BaseUri, request: PartsOrderRequest, modelState: ModelState,
                         reply: Reply<Option<R>>): (x: Exchange<R, Call>)
    ensures !modelState.IsValid() ==> x == Exchange(BadRequest(modelState.errors), [])
    ensures modelState.IsValid() && baseUri.Failure? ==>
              x == Exchange(StatusCode(StatusInternalServerError, PassThroughErrorPrefix + baseUri.error), [])
    ensures modelState.IsValid() && baseUri.Success? ==>
              x.calls == [OrderCall(OrderPayload(request))] && x.result == PassThrough(reply)
  {
    if !modelState.IsValid() then Exchange(BadRequest(modelState.errors), [])
    else if baseUri.Failure? then
      Exchange(StatusCode(StatusInternalServerError, PassThroughErrorPrefix + baseUri.error), [])
    else Exchange(PassThrough(reply), [OrderCall(OrderPayload(request))])
  }

  /** The model state a bound order request gets from its validation attributes. */
  function OrderModelState(request: PartsOrderRequest): ModelState {
    ModelState(ValidationErrors(request))
  }

  /**
   * With the model state its own attributes give it, an order reaches the
   * upstream exactly when it has at least one line; a null or empty list is
   * answered with 400 and its one message.
   */
  lemma OrderReachesUpstreamIffItHasLines<R>(baseUri: BaseUri, request: PartsOrderRequest, reply: Reply<Option<R>>)
    requires baseUri.Success?
    ensures var x := PlaceOrder(baseUri, request, OrderModelState(request), reply);
      && (x.calls != [] <==> request.parts.Some? && |request.parts.value| >= 1)
      && (request.parts.None? ==> x.result == BadRequest([PartsRequiredMessage]))
      && (request.parts == Some([]) ==> x.result == BadRequest([PartsMinLengthMessage]))
      && (x.calls != [] ==> x.calls[0].payload.parts.None?)
  {
  }

  /**
   * An empty base URL, which the constructor accepts, makes GetBrands and a
   * valid PlaceOrder answer 500 "An error occurred: Invalid URI: The URI is
   * empty.", and nothing is sent.
   */
  lemma EmptyBaseUrlAnswers500<B, R>(g: GatewaySettings, baseUri: BaseUri, request: PartsOrderRequest,
                                     modelState: ModelState, brands: Reply<Option<B>>, order: Reply<Option<R>>)
    requires Constructs(g.baseUrl, baseUri) && g.baseUrl == ""
    requires modelState.IsValid()
    ensures GetBrands(baseUri, brands)
         == Exchange(StatusCode(StatusInternalServerError, PassThroughErrorPrefix + EmptyUriMessage), [])
    ensures PlaceOrder(baseUri, request, modelState, order)
         == Exchange(StatusCode(StatusInternalServerError, PassThroughErrorPrefix + EmptyUriMessage), [])
  {
  }
}
