/**
 * The remote elevation service and the checks applied to its answer.
 *
 * The HTTP transport and the XML parser are not modelled; what reaches the
 * model is a `Reply` that says how far the exchange got: the transport could
 * not be created, the request did not complete, or a response arrived with a
 * status code and a body. A body is either not well-formed XML, or a document
 * whose `/height/meters` elements carry the given values in document order.
 */
module Elevation {
  import opened Wrappers

  /** A position in decimal degrees; the model does not validate its range. */
  datatype Coordinate = Coordinate(latitude: real, longitude: real)

  datatype Document = Malformed | Xml(heights: seq<real>)

  datatype Reply =
    | InitFailure
    | ExecFailure
    | Response(status: int, document: Document)

  /**
   * Why an altitude lookup failed. There is no parse error: the check meant
   * for it tests the freshly created document object, which is never false,
   * so a malformed body is reported by the cardinality check instead.
   */
  datatype LookupError = InitError | ExecError | StatusError | CardinalityError

  /** The success status code the lookup accepts. */
  const HttpOk: int := 200

  /** The `/height/meters` values an XPath query finds in the body; none when
      the body is not well-formed. */
  function Entries(document: Document): seq<real> {
    match document
    case Malformed => []
    case Xml(heights) => heights
  }

  /**
   * The altitude, in metres, that a reply yields, or the first check it fails.
   * The checks run in this order: transport creation, request completion,
   * status code, then exactly one `/height/meters` entry.
   */
  function LookupAltitude(reply: Reply): (r: Result<real, LookupError>)
    ensures r.Success? <==>
              reply.Response? && reply.status == HttpOk && |Entries(reply.document)| == 1
    ensures r.Success? ==> r.value == Entries(reply.document)[0]
  {
    match reply
    case InitFailure => Failure(InitError)
    case ExecFailure => Failure(ExecError)
    case Response(status, document) =>
      if status != HttpOk then Failure(StatusError)
      else if |Entries(document)| != 1 then Failure(CardinalityError)
      else Success(Entries(document)[0])
  }

  /** Each failure is the earliest failing check: a later check is never
      reported while an earlier one fails. */
  lemma FailuresInCheckOrder(reply: Reply)
    ensures reply.InitFailure? ==> LookupAltitude(reply) == Failure(InitError)
    ensures reply.ExecFailure? ==> LookupAltitude(reply) == Failure(ExecError)
    ensures reply.Response? && reply.status != HttpOk ==>
              LookupAltitude(reply) == Failure(StatusError)
    ensures reply.Response? && reply.status == HttpOk && |Entries(reply.document)| != 1 ==>
              LookupAltitude(reply) == Failure(CardinalityError)
  {
  }

  /** A body that is not XML, or a document with no or several heights, is a
      cardinality error once the status is 200; no first-match policy applies. */
  lemma MalformedOrAmbiguousIsCardinalityError(document: Document)
    requires document.Malformed? || |document.heights| != 1
    ensures LookupAltitude(Response(HttpOk, document)) == Failure(CardinalityError)
  {
  }

  /** One request/answer pair seen by the elevation service. */
  datatype Exchange = Exchange(at: Coordinate, reply: Reply)

  /**
   * The remote elevation service. Its answer is not known in advance: each
   * request may yield any reply. The service records every exchange, so the
   * number of lookups an object made is the growth of `log`.
   */
  class ElevationService {
    var log: seq<Exchange>

    constructor ()
      ensures log == []
    {
      log := [];
    }

    /** Ask for the height at `at`. */
    method Height(at: Coordinate) returns (reply: Reply)
      modifies this
      ensures log == old(log) + [Exchange(at, reply)]
    {
      reply := *;
      log := log + [Exchange(at, reply)];
    }
  }
}
