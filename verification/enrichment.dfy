/**
 * The price-and-availability step of a parts search: one lookup per part, in
 * list order, whose reply may overwrite the part's price and availability.
 */
module Enrichment {
  import opened Wrappers
  import opened Http
  import opened Endpoints
  import opened Parts

  /**
   * The upstream's answers to price-and-availability requests, by the part id
   * interpolated into the request's address (PriceAvailabilityUri).
   */
  type Lookup = string -> Reply<Option<PriceAvailability>>

  /** The id the lookup for a part is addressed by; a null PartId interpolates as "". */
  function LookupId(r: PartRecord): string {
    Interpolated(r.partId)
  }

  /**
   * A lookup reply that makes GetPriceAndAvailability throw: a transport fault,
   * or a success status whose body is not valid JSON. Neither is caught there.
   */
  predicate Throws(reply: Reply<Option<PriceAvailability>>) {
    reply.Faulted? || (IsSuccessStatusCode(reply.status) && reply.body.Malformed?)
  }

  /** A lookup reply that carries a net price, the one case in which the part is written. */
  predicate Priced(reply: Reply<Option<PriceAvailability>>) {
    && reply.Received? && IsSuccessStatusCode(reply.status)
    && reply.body.Parsed? && NetValue(reply.body.value).Some?
  }

  /**
   * The part after a lookup that did not throw: a priced reply sets the price
   * to the net value and the availability to the stock, null included; any
   * other reply (an error status, a null body, a missing net value) is only
   * logged.
   */
  function Merge(r: PartRecord, reply: Reply<Option<PriceAvailability>>): (m: PartRecord)
    ensures m.partId == r.partId && m.partCode == r.partCode && m.brandCode == r.brandCode
    ensures m.description == r.description && m.alternativeParts == r.alternativeParts
    ensures Priced(reply) ==>
              m.price == NetValue(reply.body.value) && m.availability == reply.body.value.value.availableStock
    ensures !Priced(reply) ==> m == r
  {
    if Priced(reply) then
      r.(price := NetValue(reply.body.value), availability := reply.body.value.value.availableStock)
    else r
  }

  /**
   * Part k's record once the lookups in issued have been made: merged with its
   * reply if it was looked up and the lookup returned, as it was otherwise.
   */
  function Stepped(rs: seq<PartRecord>, lookup: Lookup, issued: seq<string>, k: int): PartRecord
    requires 0 <= k < |rs|
  {
    if k < |issued| && !Throws(lookup(issued[k])) then Merge(rs[k], lookup(issued[k])) else rs[k]
  }

  /** The parts after the step, the lookups issued, and whether one threw. */
  datatype Enrichment = Enrichment(records: seq<PartRecord>, issued: seq<string>, aborted: bool)

  /**
   * The step over a list of part records. The lookups go out in list order;
   * the first one that throws ends the step, leaving it and the parts after it
   * as they were. EnrichIssues and EnrichRecords state what it does part by
   * part.
   */
  function Enrich(rs: seq<PartRecord>, lookup: Lookup): (e: Enrichment)
    ensures |e.records| == |rs| && |e.issued| <= |rs|
    ensures e.aborted ==> |e.issued| > 0
    decreases |rs|
  {
    if rs == [] then Enrichment([], [], false)
    else
      var u := LookupId(rs[0]);
      if Throws(lookup(u)) then Enrichment(rs, [u], true)
      else
        var rest := Enrich(rs[1..], lookup);
        Enrichment([Merge(rs[0], lookup(u))] + rest.records, [u] + rest.issued, rest.aborted)
  }

  /**
   * The lookups of the step: the i-th is for the i-th part, only the last one
   * issued can have thrown, and it did exactly when the step stopped early.
   */
  lemma {:induction false} EnrichIssues(rs: seq<PartRecord>, lookup: Lookup)
    ensures var e := Enrich(rs, lookup);
      && (forall k :: 0 <= k < |e.issued| ==> e.issued[k] == LookupId(rs[k]))
      && (forall k :: 0 <= k < |e.issued| - 1 ==> !Throws(lookup(e.issued[k])))
      && (e.aborted <==> |e.issued| > 0 && Throws(lookup(e.issued[|e.issued| - 1])))
      && (!e.aborted ==> |e.issued| == |rs|)
    decreases |rs|
  {
    if rs != [] {
      var u := LookupId(rs[0]);
      if !Throws(lookup(u)) {
        var rest := Enrich(rs[1..], lookup);
        EnrichIssues(rs[1..], lookup);
        assert Enrich(rs, lookup).issued == [u] + rest.issued;
        assert forall k :: 1 <= k < |rs| ==> rs[1..][k - 1] == rs[k];
      }
    }
  }

  /**
   * The parts after the step: each part that was looked up and whose lookup
   * returned is merged with its reply, and every other part is left as it was.
   */
  lemma {:induction false} EnrichRecords(rs: seq<PartRecord>, lookup: Lookup)
    ensures forall k :: 0 <= k < |rs| ==>
              Enrich(rs, lookup).records[k] == Stepped(rs, lookup, Enrich(rs, lookup).issued, k)
    decreases |rs|
  {
    if rs != [] {
      var u := LookupId(rs[0]);
      if !Throws(lookup(u)) {
        var e, rest := Enrich(rs, lookup), Enrich(rs[1..], lookup);
        EnrichRecords(rs[1..], lookup);
        assert e == Enrichment([Merge(rs[0], lookup(u))] + rest.records, [u] + rest.issued, rest.aborted);
        forall k | 1 <= k < |rs|
          ensures e.records[k] == Stepped(rs, lookup, e.issued, k)
        {
          assert e.records[k] == rest.records[k - 1];
          assert rest.records[k - 1] == Stepped(rs[1..], lookup, rest.issued, k - 1);
          assert e.issued[1..] == rest.issued && rs[1..][k - 1] == rs[k];
          assert Stepped(rs[1..], lookup, rest.issued, k - 1) == Stepped(rs, lookup, e.issued, k);
        }
      }
    }
  }

  /**
   * GetPriceAndAvailability on one part: the id its request was addressed by,
   * and whether the call threw. Only a priced reply writes the part, and then only its price
   * and availability.
   */
  method GetPriceAndAvailability(part: Part, lookup: Lookup) returns (requested: string, threw: bool)
    modifies part
    ensures requested == LookupId(old(part.Record()))
    ensures threw == Throws(lookup(requested))
    ensures part.Record() == if threw then old(part.Record()) else Merge(old(part.Record()), lookup(requested))
  {
    requested := LookupId(part.Record());
    var reply := lookup(requested);
    threw := Throws(reply);
    if !threw && Priced(reply) {
      part.price := NetValue(reply.body.value);
      part.availability := reply.body.value.value.availableStock;
    }
  }

  /**
   * The foreach loop of SearchParts over the parts list: each part in turn,
   * written in place, until a lookup throws.
   */
  method EnrichParts(parts: seq<Part>, lookup: Lookup) returns (issued: seq<string>, aborted: bool)
    requires Distinct(parts)
    modifies parts
    ensures Enrich(old(Records(parts)), lookup) == Enrichment(Records(parts), issued, aborted)
  {
    ghost var before := Records(parts);
    issued, aborted := [], false;
    var i := 0;
    while i < |parts|
      invariant 0 <= i <= |parts| && |issued| == i
      invariant forall k :: 0 <= k < i ==> issued[k] == LookupId(before[k]) && !Throws(lookup(issued[k]))
      invariant forall k :: 0 <= k < |parts| ==> parts[k].Record() == Stepped(before, lookup, issued, k)
    {
      assert forall k :: 0 <= k < |parts| && k != i ==> parts[k] != parts[i];
      var requested, threw := GetPriceAndAvailability(parts[i], lookup);
      if threw {
        EnrichAbortsAt(before, lookup, issued, requested, Records(parts));
        return issued + [requested], true;
      }
      issued := issued + [requested];
      i := i + 1;
    }
    EnrichCompletes(before, lookup, issued, Records(parts));
  }

  /** When every lookup returns, the step issues one per part and merges each reply. */
  lemma {:induction false} EnrichCompletes(rs: seq<PartRecord>, lookup: Lookup, issued: seq<string>, now: seq<PartRecord>)
    requires |issued| == |rs| == |now|
    requires forall k :: 0 <= k < |rs| ==> issued[k] == LookupId(rs[k]) && !Throws(lookup(issued[k]))
    requires forall k :: 0 <= k < |rs| ==> now[k] == Stepped(rs, lookup, issued, k)
    ensures Enrich(rs, lookup) == Enrichment(now, issued, false)
    decreases |rs|
  {
    if rs != [] {
      assert forall k :: 1 <= k < |rs| ==> Stepped(rs[1..], lookup, issued[1..], k - 1) == Stepped(rs, lookup, issued, k);
      EnrichCompletes(rs[1..], lookup, issued[1..], now[1..]);
      HeadTail(now);
      HeadTail(issued);
    }
  }

  /**
   * When the lookups issued so far all returned and the next one, for the next
   * part, throws, the step ends there.
   */
  lemma {:induction false} EnrichAbortsAt(rs: seq<PartRecord>, lookup: Lookup, done: seq<string>, requested: string,
                                          now: seq<PartRecord>)
    requires |done| < |rs| == |now|
    requires forall k :: 0 <= k < |done| ==> done[k] == LookupId(rs[k]) && !Throws(lookup(done[k]))
    requires requested == LookupId(rs[|done|]) && Throws(lookup(requested))
    requires forall k :: 0 <= k < |rs| ==> now[k] == Stepped(rs, lookup, done, k)
    ensures Enrich(rs, lookup) == Enrichment(now, done + [requested], true)
    decreases |rs|
  {
    if done == [] {
      assert now == rs;
    } else {
      assert forall k :: 1 <= k < |rs| ==> Stepped(rs[1..], lookup, done[1..], k - 1) == Stepped(rs, lookup, done, k);
      EnrichAbortsAt(rs[1..], lookup, done[1..], requested, now[1..]);
      HeadTail(now);
      HeadTail(done + [requested]);
      assert (done + [requested])[1..] == done[1..] + [requested];
    }
  }

  lemma HeadTail<T>(s: seq<T>)
    requires s != []
    ensures s == [s[0]] + s[1..]
  {
  }

  // ---------------------------------------------------------------- properties

  /** The step stops early exactly when the lookup for some part throws. */
  lemma EnrichAbortsIffSomeLookupThrows(rs: seq<PartRecord>, lookup: Lookup)
    ensures Enrich(rs, lookup).aborted <==> exists k :: 0 <= k < |rs| && Throws(lookup(LookupId(rs[k])))
  {
    var e := Enrich(rs, lookup);
    EnrichIssues(rs, lookup);
    if e.aborted {
      var k := |e.issued| - 1;
      assert Throws(lookup(LookupId(rs[k])));
    } else {
      assert forall k :: 0 <= k < |rs| ==> e.issued[k] == LookupId(rs[k]) && !Throws(lookup(e.issued[k]));
    }
  }

  /** A reply whose merge leaves the part as it is. */
  predicate Leaves(reply: Reply<Option<PriceAvailability>>, r: PartRecord) {
    !Throws(reply) && Merge(r, reply) == r
  }

  /**
   * When no lookup throws and none changes its part, the step returns the parts
   * as they were, after one lookup per part.
   */
  lemma EnrichFixesRecords(rs: seq<PartRecord>, lookup: Lookup)
    requires forall k :: 0 <= k < |rs| ==> Leaves(lookup(LookupId(rs[k])), rs[k])
    ensures Enrich(rs, lookup).records == rs && !Enrich(rs, lookup).aborted
    ensures |Enrich(rs, lookup).issued| == |rs|
  {
    EnrichIssues(rs, lookup);
    EnrichRecords(rs, lookup);
    EnrichAbortsIffSomeLookupThrows(rs, lookup);
  }

  /** A lookup reply that reports the part's own price and stock. */
  predicate Echoes(reply: Reply<Option<PriceAvailability>>, r: PartRecord) {
    && reply.Received? && IsSuccessStatusCode(reply.status)
    && reply.body == Parsed(Some(PriceAvailability(Some(Price(r.price)), r.availability)))
  }

  /** When every lookup echoes its part's current price and stock, the response is unchanged. */
  lemma EchoedLookupsChangeNothing(rs: seq<PartRecord>, lookup: Lookup)
    requires forall k :: 0 <= k < |rs| ==> Echoes(lookup(LookupId(rs[k])), rs[k])
    ensures Enrich(rs, lookup).records == rs && !Enrich(rs, lookup).aborted
  {
    forall k | 0 <= k < |rs|
      ensures Leaves(lookup(LookupId(rs[k])), rs[k])
    {
      var reply := lookup(LookupId(rs[k]));
      if Priced(reply) {
        assert Merge(rs[k], reply) == rs[k].(price := rs[k].price, availability := rs[k].availability);
      }
    }
    EnrichFixesRecords(rs, lookup);
  }

  /** Lookups that answer with error statuses leave every part as it was. */
  lemma RejectedLookupsChangeNothing(rs: seq<PartRecord>, lookup: Lookup)
    requires forall k :: 0 <= k < |rs| ==>
               lookup(LookupId(rs[k])).Received? && !IsSuccessStatusCode(lookup(LookupId(rs[k])).status)
    ensures Enrich(rs, lookup).records == rs && !Enrich(rs, lookup).aborted
  {
    EnrichFixesRecords(rs, lookup);
  }
}
