/**
 The receiving side: what the server makes of one posted span (tokenjam/otel/otlp_parsing.py), and that
 a span arrives as it was sent.
 */
module Ingest {
  import opened Prelude
  import opened Spans
  import opened Otlp

  type Dict = map<string, JsValue>

  datatype ReceivedEvent = ReceivedEvent(name: string, time: string, attributes: Dict)

  /** The span as the server keeps it; times are nanoseconds. */
  datatype Received = Received(
    spanId: string,
    traceId: string,
    parentSpanId: Option<string>,
    name: string,
    kind: SpanKind,
    statusCode: SpanStatus,
    statusMessage: Option<string>,
    startNano: int,
    endNano: Option<int>,
    attributes: Dict,
    events: seq<ReceivedEvent>)

  /** Rejected: a span without a start time is declined.  Raised: a number in it is none. */
  datatype Parsed = Accepted(span: Received) | Rejected | Raised

  const SERVICE_NAME := "service.name"

  /** The numbers of the protocol; anything else counts as internal, and as unset. */
  function KindOf(n: int): SpanKind {
    if n == 2 then Server else if n == 3 then Client else if n == 4 then Producer else if n == 5 then Consumer
    else Internal
  }

  function StatusOf(n: int): SpanStatus {
    if n == 1 then StatusOk else if n == 2 then StatusError else StatusUnset
  }

  /** One attribute after the other; a later one with the same key wins, and `blank` says whether "" is a key. */
  function IntoDict(d: Dict, attrs: seq<(string, OtlpValue)>, blank: bool): Option<Dict>
    decreases |attrs|
  {
    if attrs == [] then Some(d)
    else match ReadValue(attrs[0].1)
         case None => None
         case Some(v) => IntoDict(if attrs[0].0 == "" && !blank then d else d[attrs[0].0 := v], attrs[1..], blank)
  }

  function ReadEvents(es: seq<OtlpEvent>): Option<seq<ReceivedEvent>> {
    if es == [] then Some([])
    else match (IntoDict(map[], es[0].attributes, true), ReadEvents(es[1..]))
         case (Some(attributes), Some(rest)) => Some([ReceivedEvent(es[0].name, es[0].timeUnixNano, attributes)] + rest)
         case _ => None
  }

  /** A missing time is 0, and so is none. */
  function ReadNano(text: Option<string>): Option<int> {
    match text case None => Some(0) case Some(t) => ParseInt(t)
  }

  /** `parse_otlp_span`; `service` is the name of the service in the resource of the batch. */
  function ParseSpan(service: string, raw: OtlpSpan): Parsed {
    match (IntoDict(map[SERVICE_NAME := Str(service)], raw.attributes, false),
           ReadNano(Some(raw.startTimeUnixNano)), ReadNano(raw.endTimeUnixNano))
    case (Some(attributes), Some(start), Some(end)) =>
      if start == 0 then Rejected
      else (match ReadEvents(raw.events)
            case None => Raised
            case Some(events) =>
              Accepted(Received(
                raw.spanId, raw.traceId, raw.parentSpanId, raw.name, KindOf(raw.kind), StatusOf(raw.statusCode),
                raw.statusMessage, start, if end == 0 then None else Some(end), attributes, events)))
    case _ => Raised
  }

  // ---------------------------------------------------------------------
  // Attributes
  // ---------------------------------------------------------------------

  /** What the server reads of a value that was sent. */
  function Read(v: JsValue): Option<JsValue>
    requires Encodable(v)
  {
    ReadValue(ToOtlpValue(v))
  }

  ghost predicate AllRead(attrs: seq<(string, JsValue)>)
    requires EncodableAll(attrs)
  {
    forall i :: 0 <= i < |attrs| ==> Read(attrs[i].1).Some?
  }

  /** No later attribute has the same key. */
  ghost predicate LastOf(attrs: seq<(string, JsValue)>, i: nat)
    requires i < |attrs|
  {
    forall j :: i < j < |attrs| ==> attrs[j].0 != attrs[i].0
  }

  /** The dict holds the attributes, by key, and otherwise what it held before. */
  ghost predicate Holds(d: Dict, before: Dict, attrs: seq<(string, JsValue)>, blank: bool)
    requires EncodableAll(attrs)
  {
    && (forall i :: 0 <= i < |attrs| && LastOf(attrs, i) && (blank || attrs[i].0 != "") ==>
          attrs[i].0 in d && Some(d[attrs[i].0]) == Read(attrs[i].1))
    && (forall k :: (forall i :: 0 <= i < |attrs| ==> attrs[i].0 != k) || (k == "" && !blank) ==>
          (k in d <==> k in before) && (k in d ==> d[k] == before[k]))
  }

  lemma {:induction false} DictHolds(before: Dict, attrs: seq<(string, JsValue)>, blank: bool)
    requires EncodableAll(attrs)
    ensures var r := IntoDict(before, EncodeAttributes(attrs), blank);
            (r.Some? <==> AllRead(attrs)) && (r.Some? ==> Holds(r.value, before, attrs, blank))
    decreases |attrs|
  {
    hide ToOtlpValue, ReadValue;
    var enc := EncodeAttributes(attrs);
    if attrs != [] {
      var rest := attrs[1..];
      assert EncodeAttributes(rest) == enc[1..];
      assert AllRead(attrs) <==> Read(attrs[0].1).Some? && AllRead(rest) by {
        assert forall i :: 1 <= i < |attrs| ==> attrs[i] == rest[i - 1];
        assert forall i :: 0 <= i < |rest| ==> rest[i] == attrs[i + 1];
      }
      if Read(attrs[0].1).Some? {
        var (k, v) := attrs[0];
        var next := if k == "" && !blank then before else before[k := Read(v).value];
        DictHolds(next, rest, blank);
        var r := IntoDict(before, enc, blank);
        if r.Some? {
          HoldsMore(r.value, before, next, attrs, blank);
        }
      }
    }
  }

  lemma {:induction false} HoldsMore(d: Dict, before: Dict, next: Dict, attrs: seq<(string, JsValue)>, blank: bool)
    requires attrs != [] && EncodableAll(attrs) && Read(attrs[0].1).Some?
    requires next == if attrs[0].0 == "" && !blank then before else before[attrs[0].0 := Read(attrs[0].1).value]
    requires Holds(d, next, attrs[1..], blank)
    ensures Holds(d, before, attrs, blank)
  {
    hide Read, Holds, LastOf, EncodableAll;
    assert EncodableAll(attrs[1..]) by { FewerEncodable(attrs); }
    forall i | 0 <= i < |attrs| && LastOf(attrs, i) && (blank || attrs[i].0 != "")
      ensures Encodable(attrs[i].1) && attrs[i].0 in d && Some(d[attrs[i].0]) == Read(attrs[i].1)
    {
      EncodableAt(attrs, i);
      HeldHere(d, before, next, attrs, blank, i);
    }
    forall k | (forall i :: 0 <= i < |attrs| ==> attrs[i].0 != k) || (k == "" && !blank)
      ensures (k in d <==> k in before) && (k in d ==> d[k] == before[k])
    {
      HeldBefore(d, before, next, attrs, blank, k);
    }
    HoldsIs(d, before, attrs, blank);
  }

  lemma {:induction false} EncodableAt(attrs: seq<(string, JsValue)>, i: nat)
    requires i < |attrs| && EncodableAll(attrs)
    ensures Encodable(attrs[i].1)
  {}

  lemma {:induction false} FewerEncodable(attrs: seq<(string, JsValue)>)
    requires attrs != [] && EncodableAll(attrs)
    ensures EncodableAll(attrs[1..])
  {}

  lemma {:induction false} HoldsIs(d: Dict, before: Dict, attrs: seq<(string, JsValue)>, blank: bool)
    requires EncodableAll(attrs)
    requires forall i :: 0 <= i < |attrs| && LastOf(attrs, i) && (blank || attrs[i].0 != "") ==>
               attrs[i].0 in d && Some(d[attrs[i].0]) == Read(attrs[i].1)
    requires forall k :: (forall i :: 0 <= i < |attrs| ==> attrs[i].0 != k) || (k == "" && !blank) ==>
               (k in d <==> k in before) && (k in d ==> d[k] == before[k])
    ensures Holds(d, before, attrs, blank)
  {}

  lemma {:induction false} HeldHere(d: Dict, before: Dict, next: Dict, attrs: seq<(string, JsValue)>, blank: bool,
                                    i: nat)
    requires attrs != [] && EncodableAll(attrs) && Read(attrs[0].1).Some?
    requires next == if attrs[0].0 == "" && !blank then before else before[attrs[0].0 := Read(attrs[0].1).value]
    requires Holds(d, next, attrs[1..], blank)
    requires i < |attrs| && LastOf(attrs, i) && (blank || attrs[i].0 != "")
    ensures attrs[i].0 in d && Some(d[attrs[i].0]) == Read(attrs[i].1)
  {
    hide Read;
    var rest := attrs[1..];
    assert forall j :: 0 <= j < |rest| ==> rest[j] == attrs[j + 1];
    if i > 0 {
      assert LastOf(rest, i - 1);
    } else {
      assert forall j :: 0 <= j < |rest| ==> rest[j].0 != attrs[0].0;
    }
  }

  lemma {:induction false} HeldBefore(d: Dict, before: Dict, next: Dict, attrs: seq<(string, JsValue)>, blank: bool,
                                      k: string)
    requires attrs != [] && EncodableAll(attrs) && Read(attrs[0].1).Some?
    requires next == if attrs[0].0 == "" && !blank then before else before[attrs[0].0 := Read(attrs[0].1).value]
    requires Holds(d, next, attrs[1..], blank)
    requires (forall i :: 0 <= i < |attrs| ==> attrs[i].0 != k) || (k == "" && !blank)
    ensures (k in d <==> k in before) && (k in d ==> d[k] == before[k])
  {
    hide Read, LastOf;
    var rest := attrs[1..];
    assert forall j :: 0 <= j < |rest| ==> rest[j] == attrs[j + 1];
    assert (forall j :: 0 <= j < |rest| ==> rest[j].0 != k) || (k == "" && !blank);
    assert k in next <==> k in before;
  }

  // ---------------------------------------------------------------------
  // Spans
  // ---------------------------------------------------------------------

  lemma {:induction false} KindArrives(k: SpanKind)
    ensures KindOf(KindNumber(k)) == k
  {}

  lemma {:induction false} StatusArrives(s: SpanStatus)
    ensures StatusOf(StatusNumber(s)) == s
  {}

  /** The time an ISO text stands for, in nanoseconds. */
  function Nano(clock: Clock, iso: string): Option<int> {
    match clock(iso) case Some(ms) => Some(1_000_000 * ms) case None => None
  }

  function EndNano(clock: Clock, span: Span): Option<int> {
    match Truthy(span.endTime) case Some(iso) => Nano(clock, iso) case None => Some(0)
  }

  ghost predicate EventsRead(span: Span)
    requires EncodableSpan(span)
  {
    forall i :: 0 <= i < |span.events| ==> AllRead(span.events[i].attributes)
  }

  ghost predicate EventArrives(clock: Clock, e: SpanEvent, r: ReceivedEvent)
    requires EncodableAll(e.attributes)
  {
    && r.name == e.name && ParseInt(r.time) == Nano(clock, e.time)
    && Holds(r.attributes, map[], e.attributes, true)
  }

  /** Every field is the span's own. */
  ghost predicate Arrives(clock: Clock, service: string, span: Span, r: Received)
    requires EncodableSpan(span)
  {
    && r.traceId == span.traceId && r.spanId == span.spanId
    && r.parentSpanId == (if span.parentSpanId == Some("") then None else span.parentSpanId)
    && r.name == span.name && r.kind == span.kind
    && r.statusCode == span.statusCode && r.statusMessage == span.statusMessage
    && Nano(clock, span.startTime) == Some(r.startNano)
    && EndNano(clock, span) == Some(if r.endNano.Some? then r.endNano.value else 0)
    && Holds(r.attributes, map[SERVICE_NAME := Str(service)], span.attributes, false)
    && |r.events| == |span.events|
    && forall i :: 0 <= i < |span.events| ==> EventArrives(clock, span.events[i], r.events[i])
  }

  lemma {:induction false} EventsArrive(clock: Clock, es: seq<SpanEvent>)
    requires forall i :: 0 <= i < |es| ==> EncodableAll(es[i].attributes)
    ensures var enc := EncodeEvents(clock, es);
            && (ReadEvents(enc).Some? <==> forall i :: 0 <= i < |es| ==> AllRead(es[i].attributes))
            && (ReadEvents(enc).Some? ==>
                  && |ReadEvents(enc).value| == |es|
                  && forall i :: 0 <= i < |es| ==> EventArrives(clock, es[i], ReadEvents(enc).value[i]))
    decreases |es|
  {
    hide IntoDict, Holds, AllRead, EncodableAll, IsoToUnixNano, EncodeAttributes, ParseInt;
    var enc := EncodeEvents(clock, es);
    if es != [] {
      var rest := es[1..];
      assert enc[1..] == EncodeEvents(clock, rest);
      EventsArrive(clock, rest);
      DictHolds(map[], es[0].attributes, true);
      UnixNanoReads(clock, es[0].time);
      assert forall i :: 1 <= i < |es| ==> es[i] == rest[i - 1];
      assert forall i :: 0 <= i < |rest| ==> rest[i] == es[i + 1];
    }
  }

  /**
   A span arrives as it was sent: with its own ids, parent, name, kind, status, times, events and
   attributes.  It is declined exactly when it starts at the epoch, and makes the server raise exactly
   when one of its times cannot be read or a value in it cannot.
   */
  lemma {:induction false} ArrivesAsSent(clock: Clock, service: string, span: Span)
    requires EncodableSpan(span)
    ensures var r := ParseSpan(service, SpanToOtlp(clock, span));
            var readable := AllRead(span.attributes) && Nano(clock, span.startTime).Some? && EndNano(clock, span).Some?;
            && (r.Rejected? <==> readable && Nano(clock, span.startTime) == Some(0))
            && (r.Accepted? <==> readable && Nano(clock, span.startTime) != Some(0) && EventsRead(span))
            && (r.Accepted? ==> Arrives(clock, service, span, r.span))
  {
    hide IntoDict, ReadEvents, Holds, AllRead, EncodableAll, IsoToUnixNano, EncodeAttributes, ParseInt, KindOf,
         StatusOf, KindNumber, StatusNumber, EventArrives, EncodeEvents;
    DictHolds(map[SERVICE_NAME := Str(service)], span.attributes, false);
    EventsArrive(clock, span.events);
    UnixNanoReads(clock, span.startTime);
    if Truthy(span.endTime).Some? {
      UnixNanoReads(clock, Truthy(span.endTime).value);
    }
    KindArrives(span.kind);
    StatusArrives(span.statusCode);
    var raw := SpanToOtlp(clock, span);
    var d, es := IntoDict(map[SERVICE_NAME := Str(service)], raw.attributes, false), ReadEvents(raw.events);
    assert raw.attributes == EncodeAttributes(span.attributes);
    assert d.Some? <==> AllRead(span.attributes);
    assert ReadNano(Some(raw.startTimeUnixNano)) == Nano(clock, span.startTime);
    assert ReadNano(raw.endTimeUnixNano) == EndNano(clock, span);
    assert es.Some? <==> EventsRead(span);
  }

  /** A value that reads back is held as it was sent. */
  lemma {:induction false} PortableValuesArrive(v: JsValue)
    requires Encodable(v) && Possible(v) && Portable(v)
    ensures Read(v) == Some(v)
  {
    RoundTrip(v);
  }

  /** The spans of a batch arrive in the order in which they were sent, none missing and none added. */
  lemma {:induction false} BatchArrives(clock: Clock, service: string, spans: seq<Span>, i: nat)
    requires EncodableBatch(spans) && i < |spans|
    ensures |ToBatch(clock, spans)| == |spans|
    ensures var r := ParseSpan(service, ToBatch(clock, spans)[i]);
            r.Accepted? ==> EncodableSpan(spans[i]) && Arrives(clock, service, spans[i], r.span)
  {
    hide ParseSpan, Arrives, EncodableSpan, SpanToOtlp, AllRead, EventsRead;
    ArrivesAsSent(clock, service, spans[i]);
    assert ToBatch(clock, spans)[i] == SpanToOtlp(clock, spans[i]);
  }
}
