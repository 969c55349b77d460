/** The values the SDK moves around (sdk-ts/src/types.ts). */
module Spans {
  import opened Prelude

  /**
   What a caller may store under an attribute.  `Number.isInteger` splits the numbers; NotFinite is NaN
   or an infinity, which JSON writes as null all the same.
   Other is any value that is none of the recognised kinds, with the text `String(value)` gives,
   None where that throws, as it does for an object without a prototype.
   */
  datatype JsValue =
    | Str(s: string)
    | Int(n: int)
    | Frac(x: real)
    | NotFinite
    | Bool(b: bool)
    | Arr(items: seq<JsValue>)
    | Other(text: Option<string>)

  datatype SpanKind = Internal | Client | Server | Producer | Consumer

  datatype SpanStatus = StatusOk | StatusError | StatusUnset

  datatype SpanEvent = SpanEvent(time: string, name: string, attributes: seq<(string, JsValue)>)

  /** A span as `build` hands it over; attributes keep their insertion order. */
  datatype Span = Span(
    spanId: string,
    traceId: string,
    parentSpanId: Option<string>,
    name: string,
    kind: SpanKind,
    statusCode: SpanStatus,
    statusMessage: Option<string>,
    startTime: string,
    endTime: Option<string>,
    attributes: seq<(string, JsValue)>,
    events: seq<SpanEvent>)

  // ---------------------------------------------------------------------
  // What can be encoded at all
  // ---------------------------------------------------------------------

  predicate Encodable(v: JsValue) {
    match v
    case Arr(items) => forall i :: 0 <= i < |items| ==> Encodable(items[i])
    case Other(text) => text.Some?
    case _ => true
  }

  predicate EncodableAll(attrs: seq<(string, JsValue)>) {
    forall i :: 0 <= i < |attrs| ==> Encodable(attrs[i].1)
  }

  /** Turning the span into its posted form does not throw. */
  predicate EncodableSpan(s: Span) {
    && EncodableAll(s.attributes)
    && forall i :: 0 <= i < |s.events| ==> EncodableAll(s.events[i].attributes)
  }

  predicate EncodableBatch(spans: seq<Span>) {
    forall i :: 0 <= i < |spans| ==> EncodableSpan(spans[i])
  }
}
