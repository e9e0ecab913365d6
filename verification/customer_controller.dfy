/**
 * CustomerController: one customer fetched by id from the upstream, with
 * every outcome mapped to a status.
 */
module CustomerApi {
  import opened Wrappers
  import opened Http
  import opened Uris
  import opened Endpoints

  /** The one upstream request GetCustomer makes: the customer address for this id. */
  datatype CustomerCall = CustomerCall(customerId: string)

  function Address(g: GatewaySettings, c: CustomerCall): Uris.Uri
    requires BaseIsAbsolute(g)
  {
    CustomerUri(g, c.customerId)
  }

  const GenericError: string := "An error occurred."
  const RequestFailedMessage: string := "Keyloop API request failed."
  const NullCustomerMessage: string := "Failed to process customer data."
  const MalformedCustomerMessage: string := "An error occurred while processing the response."

  /** The result of a customer request the upstream answered with an error status. */
  function CustomerFailure<C>(status: int): (r: ActionResult<C>)
    ensures StatusOf(r) == status && !r.Ok?
    ensures status == StatusNotFound ==> r == NotFound(None)
    ensures status == StatusUnauthorized ==> r == Unauthorized
    ensures status != StatusNotFound && status != StatusUnauthorized ==> r == StatusCode(status, RequestFailedMessage)
  {
    if status == StatusNotFound then NotFound(None)
    else if status == StatusUnauthorized then Unauthorized
    else StatusCode(status, RequestFailedMessage)
  }

  /**
   * GetCustomer, given the outcome of new Uri(baseUrl) (Constructs) and the
   * upstream's reply. A null id interpolates as ""; the method does not consult the model
   * state. A base URL that new Uri rejects is caught as any other exception.
   */
  function GetCustomer<C>(baseUri: BaseUri, customerId: Option<string>, reply: Reply<Option<C>>)
    : (x: Exchange<C, CustomerCall>)
    ensures baseUri.Failure? ==> x == Exchange(StatusCode(StatusInternalServerError, GenericError), [])
    ensures baseUri.Success? ==> x.calls == [CustomerCall(Interpolated(customerId))]
    ensures baseUri.Success? && reply.Faulted? ==> x.result == StatusCode(StatusInternalServerError, GenericError)
    ensures baseUri.Success? && reply.Received? && !IsSuccessStatusCode(reply.status) ==>
              x.result == CustomerFailure(reply.status)
    ensures baseUri.Success? && reply.Received? && IsSuccessStatusCode(reply.status) ==>
              x.result == match reply.body
                          case Parsed(Some(c)) => Ok(Some(c))
                          case Parsed(None) => StatusCode(StatusInternalServerError, NullCustomerMessage)
                          case Malformed(_) => StatusCode(StatusInternalServerError, MalformedCustomerMessage)
  {
    if baseUri.Failure? then Exchange(StatusCode(StatusInternalServerError, GenericError), [])
    else
      var calls := [CustomerCall(Interpolated(customerId))];
      match reply
      case Faulted(_) => Exchange(StatusCode(StatusInternalServerError, GenericError), calls)
      case Received(status, _, body) =>
        if IsSuccessStatusCode(status) then
          match body
          case Parsed(Some(c)) => Exchange(Ok(Some(c)), calls)
          case Parsed(None) => Exchange(StatusCode(StatusInternalServerError, NullCustomerMessage), calls)
          case Malformed(_) => Exchange(StatusCode(StatusInternalServerError, MalformedCustomerMessage), calls)
        else Exchange(CustomerFailure(status), calls)
  }

  /**
   * The caller gets the customer, unchanged, exactly when new Uri accepted the
   * base URL and the upstream answered with a success status and a non-null
   * body; every other outcome is an error status, the upstream's own one for
   * an error reply and 500 for everything else.
   */
  lemma GetCustomerOutcomes<C>(baseUri: BaseUri, customerId: Option<string>, reply: Reply<Option<C>>)
    ensures var x := GetCustomer(baseUri, customerId, reply);
      && (x.result.Ok? <==> baseUri.Success? && reply.Received? && IsSuccessStatusCode(reply.status)
                            && reply.body.Parsed? && reply.body.value.Some?)
      && (x.result.Ok? ==> x.result.value == reply.body.value)
      && (baseUri.Success? && reply.Received? && !IsSuccessStatusCode(reply.status) ==>
            StatusOf(x.result) == reply.status)
      && (!x.result.Ok? && !(baseUri.Success? && reply.Received? && !IsSuccessStatusCode(reply.status)) ==>
            StatusOf(x.result) == StatusInternalServerError)
  {
  }

  /**
   * A base URL that is empty, has no scheme, or is an http(s) URL without a
   * host never reaches the upstream: the action answers 500 "An error occurred.".
   */
  lemma RejectedBaseMakesNoCall<C>(g: GatewaySettings, baseUri: BaseUri, customerId: Option<string>,
                                   reply: Reply<Option<C>>)
    requires Constructs(g.baseUrl, baseUri)
    requires g.baseUrl == "" || !IsAbsolute(g.baseUrl) || EmptyHost(g.baseUrl)
    ensures GetCustomer(baseUri, customerId, reply) == Exchange(StatusCode(StatusInternalServerError, GenericError), [])
  {
  }
}
