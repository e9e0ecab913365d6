/**
 * The HTTP vocabulary shared by the controllers: upstream replies with what their
 * JSON bodies deserialized to, the ASP.NET action results the controllers return,
 * and the model state that validation attributes produce.
 */
module Http {
  import opened Wrappers

  /** HttpResponseMessage.IsSuccessStatusCode: the status lies in 200-299. */
  predicate IsSuccessStatusCode(status: int) {
    200 <= status <= 299
  }

  const StatusOk: int := 200
  const StatusNoContent: int := 204
  const StatusBadRequest: int := 400
  const StatusUnauthorized: int := 401
  const StatusNotFound: int := 404
  const StatusInternalServerError: int := 500

  /**
   * What a JSON deserializer made of a body: a value (a typed deserializer's null
   * is an Option's None inside T) or the JsonException it threw, with its message.
   */
  datatype Parsed<T> = Parsed(value: T) | Malformed(message: string)

  /**
   * One exchange with the upstream API: either a response arrived, with its status,
   * its body read as text and its body deserialized, or the transport threw.
   */
  datatype Reply<T> =
    | Received(status: int, text: string, body: Parsed<T>)
    | Faulted(message: string)

  /** The action results the controllers return (ControllerBase helpers). */
  datatype ActionResult<T> =
    | Ok(value: Option<T>)                     // Ok(value): the value may be null
    | NotFound(detail: Option<string>)         // NotFound() or NotFound(value)
    | Unauthorized                             // Unauthorized()
    | StatusCode(code: int, message: string)   // StatusCode(code, message)
    | ValidationProblem(errors: seq<string>)   // ValidationProblem(ModelState)
    | BadRequest(errors: seq<string>)          // BadRequest(ModelState)

  /**
   * The HTTP status an action result is sent with. Ok with a null value is
   * sent as 204: the default output formatters include the no-content
   * formatter, which turns a 200 for a null object into 204 No Content.
   */
  function StatusOf<T>(r: ActionResult<T>): int {
    match r
    case Ok(value) => if value.Some? then StatusOk else StatusNoContent
    case NotFound(_) => StatusNotFound
    case Unauthorized => StatusUnauthorized
    case StatusCode(code, _) => code
    case ValidationProblem(_) => StatusBadRequest
    case BadRequest(_) => StatusBadRequest
  }

  /** The result of an endpoint together with the upstream calls it made, in order. */
  datatype Exchange<T, C> = Exchange(result: ActionResult<T>, calls: seq<C>)

  /** ModelStateDictionary, reduced to its error messages. */
  datatype ModelState = ModelState(errors: seq<string>) {
    predicate IsValid() {
      errors == []
    }
  }

  /**
   * char.IsWhiteSpace: the Unicode space separators, the line and paragraph
   * separators, and the control characters U+0009-U+000D and U+0085.
   */
  predicate IsWhiteSpace(c: char) {
    || c == ' ' || c == '\t' || c == '\n' || c == '\U{000B}' || c == '\U{000C}' || c == '\r'
    || c == '\U{0085}' || c == '\U{00A0}' || c == '\U{1680}'
    || ('\U{2000}' <= c <= '\U{200A}')
    || c == '\U{2028}' || c == '\U{2029}' || c == '\U{202F}' || c == '\U{205F}' || c == '\U{3000}'
  }

  /**
   * RequiredAttribute on a string: null, empty and white-space-only values fail
   * (AllowEmptyStrings is false by default).
   */
  predicate SatisfiesRequired(s: Option<string>) {
    s.Some? && exists i :: 0 <= i < |s.value| && !IsWhiteSpace(s.value[i])
  }

  /** The message RequiredAttribute records for a field of the given name. */
  function RequiredMessage(field: string): string {
    "The " + field + " field is required."
  }
}
