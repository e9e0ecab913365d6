/**
 * The parts entities the search endpoint handles: a part is an object whose
 * price and availability the enrichment step overwrites in place; the other
 * records are values read once from an upstream reply.
 */
module Parts {
  import opened Wrappers
  import opened Json

  /**
   * A C# decimal, kept as it arrived: the gateway copies prices and never
   * computes with them.
   */
  datatype Decimal = Decimal(unscaled: int, scale: nat)

  /** The fields of a Part at one moment. */
  datatype PartRecord = PartRecord(
    partId: Option<string>,
    partCode: Option<int>,
    brandCode: Option<string>,
    description: Option<string>,
    alternativeParts: Option<Json>,   // AlternativeParts, kept as the JSON it was read from
    price: Option<Decimal>,
    availability: Option<int>)

  /** Part: a mutable object with nullable properties. */
  class Part {
    var partId: Option<string>
    var partCode: Option<int>
    var brandCode: Option<string>
    var description: Option<string>
    var alternativeParts: Option<Json>
    var price: Option<Decimal>
    var availability: Option<int>

    /** The part's current field values. */
    function Record(): PartRecord
      reads this
    {
      PartRecord(partId, partCode, brandCode, description, alternativeParts, price, availability)
    }

    /** A part as the deserializer creates it from a record's values. */
    constructor (r: PartRecord)
      ensures Record() == r
    {
      partId := r.partId;
      partCode := r.partCode;
      brandCode := r.brandCode;
      description := r.description;
      alternativeParts := r.alternativeParts;
      price := r.price;
      availability := r.availability;
    }
  }

  /** The records of a list of parts, in list order. */
  function Records(parts: seq<Part>): (rs: seq<PartRecord>)
    reads parts
    ensures |rs| == |parts|
    ensures forall i :: 0 <= i < |parts| ==> rs[i] == parts[i].Record()
  {
    if parts == [] then [] else [parts[0].Record()] + Records(parts[1..])
  }

  /** No part object occurs twice in the list, as holds for a freshly deserialized one. */
  predicate Distinct(parts: seq<Part>) {
    forall i, j :: 0 <= i < j < |parts| ==> parts[i] != parts[j]
  }

  /** The search result: the parts list may be null. */
  datatype PartResponse = PartResponse(parts: Option<seq<Part>>, totalItems: Option<int>, totalPages: Option<int>)

  /** Price, reduced to the one member the gateway reads. */
  datatype Price = Price(netValue: Option<Decimal>)

  /** PriceAvailability, reduced to the members the merge reads. */
  datatype PriceAvailability = PriceAvailability(listPrice: Option<Price>, availableStock: Option<int>)

  /** content?.ListPrice?.NetValue for a possibly null content. */
  function NetValue(content: Option<PriceAvailability>): (v: Option<Decimal>)
    ensures v.Some? <==> content.Some? && content.value.listPrice.Some? && content.value.listPrice.value.netValue.Some?
    ensures v.Some? ==> v == content.value.listPrice.value.netValue
  {
    match content
    case None => None
    case Some(c) =>
      match c.listPrice
      case None => None
      case Some(p) => p.netValue
  }
}
