/**
 * The order request body and its one validation rule: the parts list is
 * required and must not be empty.
 */
module Orders {
  import opened Wrappers
  import opened Json
  import opened Parts

  /** PartOrder, a line of an order; its members are passed through unread. */
  datatype PartOrder = PartOrder(part: Option<PartRecord>, quantity: Option<int>, mandatoryVehicleReferences: Option<seq<Json>>)

  /** PartsOrderRequest; the contact and address types are kept as their JSON. */
  datatype PartsOrderRequest = PartsOrderRequest(
    customerId: Option<string>,
    companyId: Option<string>,
    orderContact: Option<Json>,
    alternateDeliveryAddress: Option<Json>,
    orderType: Option<string>,
    orderReference: Option<string>,
    parts: Option<seq<PartOrder>>)

  const PartsRequiredMessage: string := "Parts list is required."
  const PartsMinLengthMessage: string := "At least one part is required."

  /**
   * The messages the validation attributes of a PartsOrderRequest record.
   * [Required] fails only for a null list and [MinLength(1)] only for a list
   * with no element (it passes a null one), so at most one message appears.
   */
  function ValidationErrors(request: PartsOrderRequest): (errors: seq<string>)
    ensures errors == [] <==> request.parts.Some? && |request.parts.value| >= 1
    ensures request.parts.None? ==> errors == [PartsRequiredMessage]
    ensures request.parts == Some([]) ==> errors == [PartsMinLengthMessage]
  {
    match request.parts
    case None => [PartsRequiredMessage]
    case Some(lines) => if |lines| < 1 then [PartsMinLengthMessage] else []
  }

  /** Only the parts list is constrained: requests that agree on it validate alike. */
  lemma OnlyPartsAreValidated(a: PartsOrderRequest, b: PartsOrderRequest)
    requires a.parts.None? <==> b.parts.None?
    requires a.parts.Some? ==> (|a.parts.value| == 0 <==> |b.parts.value| == 0)
    ensures ValidationErrors(a) == ValidationErrors(b)
  {
  }

  /**
   * The body PlaceOrder forwards: a new request that copies the customer, the
   * company and the contact and leaves every other member null.
   */
  function OrderPayload(request: PartsOrderRequest): (payload: PartsOrderRequest)
    ensures payload.customerId == request.customerId && payload.companyId == request.companyId
    ensures payload.orderContact == request.orderContact
    ensures payload.alternateDeliveryAddress.None? && payload.orderType.None?
    ensures payload.orderReference.None? && payload.parts.None?
  {
    PartsOrderRequest(request.customerId, request.companyId, request.orderContact, None, None, None, None)
  }

  /**
   * The forwarded body never carries the order lines, so it would fail the very
   * rule the incoming request had to pass.
   */
  lemma PayloadFailsPartsRule(request: PartsOrderRequest)
    ensures ValidationErrors(OrderPayload(request)) == [PartsRequiredMessage]
  {
  }
}
